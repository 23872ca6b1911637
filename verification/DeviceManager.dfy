/** The operations of module-device-manager.c on its database, and every run of them. */
module DeviceManager {
  import opened DeviceDatabase
  import opened DeviceReorder
  import opened DeviceSort
  import opened Sequences

  // ------------------------------------------------------------------------- runs

  datatype Event =
    | Seen(sink: bool, device: Device)
    | Rename(key: string, description: string)
    | Delete(keys: seq<string>)
    | Reorder(role: nat, names: seq<string>, ranking: seq<string>)

  ghost predicate Enabled(db: Database, e: Event) {
    match e
    case Seen(_, d) => d.name != []
    case Rename(_, _) => true
    case Delete(_) => true
    case Reorder(r, names, s) =>
      r < NUM_ROLES && Accepted(db, names) && |Named(names)| < MAX_NAMED && IsRanking(db, names, r, s)
  }

  function Renamed(db: Database, key: string, description: string): Database {
    if key in db && key != [] && description != [] then db[key := db[key].(description := description, userSet := true)]
    else db
  }

  function Deleted(db: Database, keys: seq<string>): Database {
    map k | k in db && k !in keys :: db[k]
  }

  ghost function Apply(db: Database, e: Event): Database
    requires Enabled(db, e)
  {
    match e
    case Seen(sink, d) => AfterSeen(db, sink, d)
    case Rename(key, description) => Renamed(db, key, description)
    case Delete(keys) => Deleted(db, keys)
    case Reorder(r, names, s) => Ranked(db, s, r)
  }

  ghost predicate Possible(db: Database, es: seq<Event>)
    decreases |es|
  {
    es == [] || (Enabled(db, es[0]) && Possible(Apply(db, es[0]), es[1..]))
  }

  ghost function Run(db: Database, es: seq<Event>): Database
    requires Possible(db, es)
    decreases |es|
  {
    if es == [] then db else Run(Apply(db, es[0]), es[1..])
  }

  lemma DeleteKeepsValid(db: Database, keys: seq<string>)
    requires Valid(db)
    ensures Valid(Deleted(db, keys))
  {
    hide OfKind;
  }

  lemma RenameKeepsValid(db: Database, key: string, description: string)
    requires Valid(db)
    ensures Valid(Renamed(db, key, description))
  {
    hide OfKind;
  }

  lemma StepKeepsValid(db: Database, e: Event)
    requires Valid(db) && Enabled(db, e)
    ensures Valid(Apply(db, e))
  {
    match e
    case Seen(sink, d) => SeenKeepsValid(db, sink, d);
    case Rename(key, description) => RenameKeepsValid(db, key, description);
    case Delete(keys) => DeleteKeepsValid(db, keys);
    case Reorder(r, names, s) => ReorderKeepsValid(db, names, r, s);
    hide Valid, AfterSeen, Renamed, Deleted, Ranked, Accepted, IsRanking;
  }

  /** In every run that starts from a valid database, priorities stay positive and
      distinct per kind and role. */
  lemma {:induction false} RunKeepsValid(db: Database, es: seq<Event>)
    requires Valid(db) && Possible(db, es)
    ensures Valid(Run(db, es))
    decreases |es|
  {
    hide Valid, Enabled, Apply;
    if es != [] {
      StepKeepsValid(db, es[0]);
      RunKeepsValid(Apply(db, es[0]), es[1..]);
    }
  }

  // ------------------------------------------------------------ names and deletions

  /** The event gives the device a name of its own, or deletes it. */
  ghost predicate Touches(e: Event, key: string) {
    (e.Rename? && e.key == key && e.description != []) || (e.Delete? && key in e.keys)
  }

  lemma {:induction false} RankedKeepsNames(db: Database, s: seq<string>, r: nat, key: string)
    requires Known(db, s) && r < NUM_ROLES && key in db
    ensures Ranked(db, s, r)[key].description == db[key].description && Ranked(db, s, r)[key].userSet == db[key].userSet
  {
    if s != [] {
      RankedKeepsNames(db, s[..|s| - 1], r, key);
    }
  }

  lemma StepKeepsName(db: Database, e: Event, key: string)
    requires Enabled(db, e) && key in db && db[key].userSet && !Touches(e, key)
    ensures key in Apply(db, e)
    ensures Apply(db, e)[key].description == db[key].description && Apply(db, e)[key].userSet
  {
    if e.Reorder? {
      RankedKeepsNames(db, e.ranking, e.role, key);
    }
    hide KeyOf, NextRanks, Ranked;
  }

  /** A name given by the user stays, whatever is announced, until the user gives the
      device another one or deletes it. */
  lemma {:induction false} RunKeepsName(db: Database, es: seq<Event>, key: string)
    requires Possible(db, es) && key in db && db[key].userSet
    requires forall i :: 0 <= i < |es| ==> !Touches(es[i], key)
    ensures key in Run(db, es) && Run(db, es)[key].description == db[key].description && Run(db, es)[key].userSet
    decreases |es|
  {
    hide Enabled, Apply, Touches;
    if es != [] {
      StepKeepsName(db, es[0], key);
      RunKeepsName(Apply(db, es[0]), es[1..], key);
    }
  }

  /** So a device that was renamed has that name at the end of every such run. */
  lemma RenamedForGood(db: Database, key: string, description: string, es: seq<Event>)
    requires key in db && key != [] && description != [] && Possible(Renamed(db, key, description), es)
    requires forall i :: 0 <= i < |es| ==> !Touches(es[i], key)
    ensures key in Run(Renamed(db, key, description), es)
    ensures Run(Renamed(db, key, description), es)[key].description == description
    ensures forall k :: k in db && k != key ==> Renamed(db, key, description)[k] == db[k]
    ensures Renamed(db, key, description)[key].priority == db[key].priority
  {
    hide Possible, Run, Touches;
    RunKeepsName(Renamed(db, key, description), es, key);
  }

  /** Exactly the entries that were not named remain, unchanged.  A device that was deleted
      and is announced again goes by its own name, behind all others of its kind. */
  lemma DeletedIsForgotten(db: Database, names: seq<string>, sink: bool, d: Device, r: nat)
    requires r < NUM_ROLES && !Ignored(sink, d) && KeyOf(sink, d) in names
    ensures
      var left := Deleted(db, names);
      var now := AfterSeen(left, sink, d);
      var key := KeyOf(sink, d);
      && left.Keys == db.Keys - (set k | k in names) && (forall k :: k in left ==> left[k] == db[k])
      && key in now && now[key].description == d.description && now[key].icon == d.icon && !now[key].userSet
      && forall k :: k in left && OfKind(sink, k) ==> k in now && now[k] == db[k]
                                                      && now[k].priority[r] < now[key].priority[r]
  {
    var left := Deleted(db, names);
    HighestIs(left, sink, r, Highest(left, sink, r));
    hide Highest, OfKind, KeyOf;
    assert NextRanks(left, sink)[r] == Highest(left, sink, r) + 1;
  }

  // -------------------------------------------------------------- load or initialize

  lemma GreatestStep(db: Database, keys: set<string>, k: string, r: nat, m: nat)
    requires keys <= db.Keys && k in db && r < NUM_ROLES && IsGreatest(db, keys, r, m)
    ensures IsGreatest(db, keys + {k}, r, if m < db[k].priority[r] then db[k].priority[r] else m)
  {
    assert k in keys + {k};
    assert forall x :: x in keys ==> x in keys + {k};
  }

  /** The inner loop of load_or_initialize_entry(). */
  method RaiseTo(max: Ranks, p: Ranks) returns (r: Ranks)
    ensures forall i :: 0 <= i < NUM_ROLES ==> r[i] == if max[i] < p[i] then p[i] else max[i]
  {
    r := max;
    for i := 0 to NUM_ROLES
      invariant forall k :: 0 <= k < i ==> r[k] == if max[k] < p[k] then p[k] else max[k]
      invariant forall k :: i <= k < NUM_ROLES ==> r[k] == max[k]
    {
      if r[i] < p[i] {
        r := r[i := p[i]];
      }
    }
  }

  class Userdata {
    var database: Database

    /** The loop over the database in load_or_initialize_entry(), whose order is open. */
    method MaxPriority(sink: bool) returns (max: Ranks)
      ensures forall r | 0 <= r < NUM_ROLES :: max[r] == Highest(database, sink, r)
    {
      max := [0, 0, 0, 0, 0, 0, 0, 0, 0];
      var keys := database.Keys;
      ghost var done: set<string> := {};
      hide OfKind, IsGreatest;
      forall r | 0 <= r < NUM_ROLES
        ensures IsGreatest(database, done, r, max[r])
      {
        NoneGreatest(database, r);
      }
      while keys != {}
        invariant keys <= database.Keys
        invariant done == (set k | k in database && k !in keys && OfKind(sink, k))
        invariant forall r | 0 <= r < NUM_ROLES :: IsGreatest(database, done, r, max[r])
      {
        var key :| key in keys;
        keys := keys - {key};
        if OfKind(sink, key) {
          forall r | 0 <= r < NUM_ROLES
            ensures IsGreatest(database, done + {key}, r,
                               if max[r] < database[key].priority[r] then database[key].priority[r] else max[r])
          {
            GreatestStep(database, done, key, r, max[r]);
          }
          max := RaiseTo(max, database[key].priority);
          done := done + {key};
        }
      }
      assert done == KeysOfKind(database, sink);
      forall r | 0 <= r < NUM_ROLES
        ensures max[r] == Highest(database, sink, r)
      {
        HighestIs(database, sink, r, max[r]);
      }
    }

    /** load_or_initialize_entry(); an entry that is new has no description yet. */
    method LoadOrInitializeEntry(sink: bool, key: string) returns (e: Entry, known: bool)
      ensures known <==> key in database
      ensures known ==> e == database[key]
      ensures !known ==> e == Entry("", false, "", NextRanks(database, sink))
    {
      if key in database {
        return database[key], true;
      }
      var max := MaxPriority(sink);
      var priority: Ranks := max;
      for i := 0 to NUM_ROLES
        invariant forall r :: 0 <= r < i ==> priority[r] == max[r] + 1
      {
        priority := priority[i := max[i] + 1];
      }
      assert priority == NextRanks(database, sink);
      return Entry("", false, "", priority), false;
    }

    /** The part of subscribe_callback() that deals with sinks and sources. */
    method DeviceSeen(sink: bool, d: Device)
      modifies this
      ensures database == AfterSeen(old(database), sink, d)
    {
      if !sink && d.monitor {
        return;
      }
      var key := KeyOf(sink, d);
      var e, known := LoadOrInitializeEntry(sink, key);
      if !e.userSet {
        e := e.(description := d.description);
      }
      e := e.(icon := d.icon);
      if known && database[key] == e {
        assert database == database[key := e];
        return;
      }
      database := database[key := e];
    }

    /** SUBCOMMAND_RENAME */
    method RenameDevice(key: string, description: string) returns (ok: bool)
      modifies this
      ensures database == Renamed(old(database), key, description)
      ensures ok <==> key != [] && description != []
    {
      if key == [] || description == [] {
        return false;
      }
      if key in database {
        var e := database[key];
        e := e.(description := description, userSet := true);
        database := database[key := e];
      }
      ok := true;
    }

    /** SUBCOMMAND_DELETE, for the names that could be read from the request. */
    method DeleteDevices(names: seq<string>)
      modifies this
      ensures database == Deleted(old(database), names)
    {
      for i := 0 to |names|
        invariant database == Deleted(old(database), names[..i])
      {
        database := database - {names[i]};
      }
    }

    // --------------------------------------------------------------------- start-up

    /** The devices of one kind are registered by falling priority. */
    method InjectSorted(sink: bool, devices: seq<Device>)
      requires |devices| < 128 && DistinctIndexes(devices)
      modifies this
      ensures exists order :: multiset(order) == multiset(devices) && ByPriority(order)
                              && database == Registered(old(database), sink, order)
    {
      var p := SortedIndexes(devices);
      ghost var s := p[..|devices|];
      LookupIsSorted(devices, s);
      ghost var order := Lookup(devices, s);
      hide Registered, Descending, ByPriority, AfterSeen, Lookup, Indexes, DistinctIndexes;
      RegisteredSteps(database, sink, order);
      for j := 0 to |devices|
        invariant p[..|devices|] == s && database == Registered(old(database), sink, order[..j])
      {
        assert p[j] == s[j];
        LookupFinds(devices, s, j);
        DeviceAmong(devices, order[j]);
        var d := FindDevice(devices, p[j].index);
        DeviceSeen(sink, d);
      }
      assert order[..|devices|] == order;
    }

    /** The devices of one kind are registered as they come. */
    method InjectUnsorted(sink: bool, devices: seq<Device>)
      modifies this
      ensures database == Registered(old(database), sink, devices)
    {
      hide Registered, AfterSeen;
      RegisteredSteps(database, sink, devices);
      for j := 0 to |devices|
        invariant database == Registered(old(database), sink, devices[..j])
      {
        DeviceSeen(sink, devices[j]);
      }
      assert devices[..|devices|] == devices;
    }

    /** The part of pa__init() that fills the database. */
    method InjectDevices(sinks: seq<Device>, sources: seq<Device>)
      requires DistinctIndexes(sinks) && DistinctIndexes(sources)
      modifies this
      ensures exists a, b ::
                && Injected(sinks, sources, sinks, a) && Injected(sinks, sources, sources, b)
                && database == Registered(Registered(old(database), true, a), false, b)
    {
      hide Registered, ByPriority;
      var total := if |sinks| > |sources| then |sinks| else |sources|;
      if total > 0 && total < 128 {
        InjectSorted(true, sinks);
        ghost var a :| multiset(a) == multiset(sinks) && ByPriority(a)
          && database == Registered(old(database), true, a);
        ghost var was := database;
        InjectSorted(false, sources);
        ghost var b :| multiset(b) == multiset(sources) && ByPriority(b) && database == Registered(was, false, b);
        assert Injected(sinks, sources, sinks, a) && Injected(sinks, sources, sources, b);
      } else if total > 0 {
        InjectUnsorted(true, sinks);
        InjectUnsorted(false, sources);
        assert Injected(sinks, sources, sinks, sinks) && Injected(sinks, sources, sources, sources);
      } else {
        InjectedNone(database);
        assert Injected(sinks, sources, sinks, []) && Injected(sinks, sources, sources, []);
      }
    }

    // ---------------------------------------------------------------------- reorder

    /** The first loop of SUBCOMMAND_REORDER: the names must be known and of one
        kind, and each is numbered when it occurs first. */
    method CollectNamed(count: nat, names: seq<string>) returns (ok: bool, sink: bool, h: map<string, nat>)
      requires count >= 1
      ensures ok <==> count <= |names| && Accepted(database, names[..count])
      ensures ok ==> sink == SinkMode(names[..count]) && Numbered(names[..count], count, h)
    {
      hide Numbered, Fits;
      h, sink, ok := map[], true, false;
      var idx, first := 0, true;
      ghost var used := if count <= |names| then names[..count] else names;
      NothingNumbered(used);
      for i := 0 to count
        invariant i <= |used| && first == (i == 0) && idx == |h|
        invariant !first ==> sink == SinkMode(used)
        invariant forall k :: 0 <= k < i ==> Fits(database, used, k)
        invariant Numbered(used, i, h)
      {
        if i >= |names| {
          return;
        }
        var s := names[i];
        FitsWhen(database, used, i);
        if s !in database {
          return;
        }
        if first {
          first := false;
          sink := Prefix(true) <= s;
        } else if !(Prefix(sink) <= s) {
          return;
        }
        NumberedStep(used, i, h);
        if s !in h {
          h := h[s := idx];
          idx := idx + 1;
        }
      }
      ok := true;
    }

    /** The second loop: the other devices of the kind are added, in whatever order
        the database has, unless 256 or more are named. */
    method AddOthers(named: map<string, nat>, sink: bool, r: nat) returns (h: map<string, nat>)
      requires r < NUM_ROLES && named.Keys <= database.Keys
      ensures h == Combined(database, named,
                            if |named| < MAX_NAMED then named.Keys + Matching(database, {}, sink) else named.Keys, r)
    {
      hide Prefix, Combined, Matching;
      MatchingAll(database, sink);
      CombinedNamed(database, named, r);
      h := named;
      var idx := |named|;
      var offset := idx;
      var keys := database.Keys;
      ghost var listed := named.Keys;
      while keys != {} && idx < MAX_NAMED
        invariant keys <= database.Keys && named.Keys <= listed <= database.Keys
        invariant listed == named.Keys + Matching(database, keys, sink)
        invariant h == Combined(database, named, listed, r)
        invariant idx >= MAX_NAMED ==> keys == database.Keys
      {
        var key :| key in keys;
        ListedStep(database, named.Keys, keys, key, sink);
        keys := keys - {key};
        if Prefix(sink) <= key {
          CollectedStep(database, named, listed, key, r);
          listed := listed + {key};
          if key !in h {
            h := h[key := offset + database[key].priority[r]];
          }
        }
      }
    }

    /** The devices are taken out of the hashmap in some order. */
    method ListDevices(h: map<string, nat>) returns (devices: array<Weighted>)
      ensures fresh(devices) && IsListing(devices[..], h)
    {
      devices := new Weighted[|h|];
      var idx, rest := 0, h;
      while rest != map[]
        invariant idx + |rest| == devices.Length && IsPart(devices[..idx], rest, h)
        decreases |rest|
      {
        var d :| d in rest;
        PartGrows(devices[..idx], rest, h, d);
        ghost var was := devices[..idx];
        devices[idx] := Weighted(rest[d], d);
        assert devices[..idx + 1] == was + [Weighted(rest[d], d)];
        hide IsPart;
        rest := rest - {d};
        idx := idx + 1;
      }
      assert devices[..] == devices[..idx];
    }

    /** The last loop: every device gets its position as its priority. */
    method WriteRanks(devices: array<Weighted>, r: nat)
      requires r < NUM_ROLES && Known(database, NamesOf(devices[..]))
      modifies this
      ensures database == Ranked(old(database), NamesOf(devices[..]), r)
    {
      ghost var s := NamesOf(devices[..]);
      var idx := 1;
      for i := 0 to devices.Length
        invariant idx == i + 1 && database == Ranked(old(database), s[..i], r)
      {
        RankedStep(old(database), s, r, i);
        hide Ranked;
        var e := database[devices[i].device];
        if e.priority[r] == idx {
          assert e.priority == e.priority[r := idx];
          assert database == database[devices[i].device := e];
          idx := idx + 1;
        } else {
          e := e.(priority := e.priority[r := idx]);
          database := database[devices[i].device := e];
          idx := idx + 1;
        }
      }
      assert s[..devices.Length] == s;
    }

    /** SUBCOMMAND_REORDER; names are the strings that could be read. */
    method ReorderDevices(role: string, count: nat, names: seq<string>) returns (ok: bool)
      requires Valid(database)
      modifies this
      ensures ok <==> role in ROLE_NAMES && 1 <= count <= |names| && Accepted(old(database), names[..count])
      ensures !ok ==> database == old(database)
      ensures ok ==> exists r: nat, s :: r < NUM_ROLES && ROLE_NAMES[r] == role
                                    && IsRanking(old(database), names[..count], r, s)
                                    && database == Ranked(old(database), s, r)
    {
      if count < 1 {
        return false;
      }
      var r := GetRoleIndex(role);
      if r == INVALID_INDEX {
        return false;
      }
      var collected, sink, named := CollectNamed(count, names);
      if !collected {
        return false;
      }
      ghost var used := names[..count];
      NamedKeys(database, used, named);
      var h := AddOthers(named, sink, r);
      CombinedWeights(database, used, r, named);
      var devices := ListDevices(h);
      SortDevices(devices, h);
      SortedIsRanking(database, used, r, h, devices[..]);
      hide IsWeights, IsListing, Combined, Selected, Valid;
      WriteRanks(devices, r);
      ok := true;
    }
  }

  // ------------------------------------------------------- devices by their index

  ghost predicate DistinctIndexes(devices: seq<Device>) {
    forall i, j :: 0 <= i < j < |devices| ==> devices[i].index != devices[j].index
  }

  ghost function Indexes(devices: seq<Device>): (s: seq<PrioritisedIndex>)
    ensures |s| == |devices|
    ensures forall i :: 0 <= i < |s| ==> s[i] == PrioritisedIndex(devices[i].index, devices[i].priority)
  {
    seq(|devices|, i requires 0 <= i < |devices| => PrioritisedIndex(devices[i].index, devices[i].priority))
  }

  /** The device that an element of the list stands for. */
  ghost function DeviceAt(devices: seq<Device>, p: PrioritisedIndex): Device {
    if exists i :: 0 <= i < |devices| && devices[i].index == p.index then
      var i :| 0 <= i < |devices| && devices[i].index == p.index;
      devices[i]
    else Device(p.index, "", p.priority, false, "", "")
  }

  /** pa_idxset_get_by_index() for an index that is in use. */
  method FindDevice(devices: seq<Device>, index: nat) returns (d: Device)
    requires DistinctIndexes(devices) && exists i :: 0 <= i < |devices| && devices[i].index == index
    ensures forall x :: x in devices && x.index == index ==> d == x
  {
    var i := 0;
    while devices[i].index != index
      invariant 0 <= i < |devices| && exists k :: i <= k < |devices| && devices[k].index == index
      decreases |devices| - i
    {
      i := i + 1;
    }
    d := devices[i];
  }

  /** The list of indexes and priorities, sorted. */
  method SortedIndexes(devices: seq<Device>) returns (p: array<PrioritisedIndex>)
    requires |devices| < 128
    ensures fresh(p) && p.Length == 128
    ensures multiset(p[..|devices|]) == multiset(Indexes(devices)) && Descending(p[..|devices|])
  {
    p := new PrioritisedIndex[128];
    for n := 0 to |devices|
      invariant p[..n] == Indexes(devices)[..n]
    {
      p[n] := PrioritisedIndex(devices[n].index, devices[n].priority);
    }
    assert Indexes(devices)[..|devices|] == Indexes(devices);
    ExchangeSort(p, |devices|);
  }

  lemma DeviceAmong(devices: seq<Device>, d: Device)
    requires d in devices
    ensures exists i :: 0 <= i < |devices| && devices[i].index == d.index
  {
  }

  lemma DeviceAtIndex(devices: seq<Device>, i: nat)
    requires DistinctIndexes(devices) && i < |devices|
    ensures DeviceAt(devices, Indexes(devices)[i]) == devices[i]
  {
    assert devices[i].index == Indexes(devices)[i].index;
  }

  ghost function Lookup(devices: seq<Device>, s: seq<PrioritisedIndex>): (r: seq<Device>)
    ensures |r| == |s| && forall i :: 0 <= i < |s| ==> r[i] == DeviceAt(devices, s[i])
  {
    Map(p => DeviceAt(devices, p), s)
  }

  /** Every element of a rearranged list stands for a device. */
  lemma LookupFinds(devices: seq<Device>, s: seq<PrioritisedIndex>, j: nat)
    requires DistinctIndexes(devices) && multiset(s) == multiset(Indexes(devices)) && j < |s|
    ensures Lookup(devices, s)[j] in devices
    ensures Lookup(devices, s)[j].index == s[j].index && Lookup(devices, s)[j].priority == s[j].priority
  {
    assert s[j] in multiset(s);
    var i :| 0 <= i < |devices| && Indexes(devices)[i] == s[j];
    DeviceAtIndex(devices, i);
    hide DeviceAt;
  }

  lemma LookupIsSorted(devices: seq<Device>, s: seq<PrioritisedIndex>)
    requires DistinctIndexes(devices) && multiset(s) == multiset(Indexes(devices)) && Descending(s)
    ensures multiset(Lookup(devices, s)) == multiset(devices) && ByPriority(Lookup(devices, s))
  {
    hide DeviceAt;
    MapPermutes(p => DeviceAt(devices, p), s, Indexes(devices));
    forall i | 0 <= i < |devices|
      ensures DeviceAt(devices, Indexes(devices)[i]) == devices[i]
    {
      DeviceAtIndex(devices, i);
    }
    assert Lookup(devices, Indexes(devices)) == devices;
    forall j | 0 <= j < |s|
      ensures Lookup(devices, s)[j].priority == s[j].priority
    {
      LookupFinds(devices, s, j);
    }
    hide Lookup;
  }

  lemma RegisteredSteps(db: Database, sink: bool, order: seq<Device>)
    ensures Registered(db, sink, order[..0]) == db
    ensures forall j :: 0 <= j < |order| ==>
              Registered(db, sink, order[..j + 1]) == AfterSeen(Registered(db, sink, order[..j]), sink, order[j])
  {
    forall j | 0 <= j < |order|
      ensures Registered(db, sink, order[..j + 1]) == AfterSeen(Registered(db, sink, order[..j]), sink, order[j])
    {
      assert order[..j + 1][..j] == order[..j];
    }
  }

  /** The order in which the devices of one kind are registered: by falling
      priority, unless there are 128 or more of a kind. */
  ghost predicate Injected(sinks: seq<Device>, sources: seq<Device>, devices: seq<Device>, order: seq<Device>) {
    if |sinks| < 128 && |sources| < 128 then multiset(order) == multiset(devices) && ByPriority(order)
    else order == devices
  }

  lemma InjectedNone(db: Database)
    ensures ByPriority([]) && Registered(Registered(db, true, []), false, []) == db
  {
  }

  lemma NothingNumbered(names: seq<string>)
    ensures Numbered(names, 0, map[])
  {
  }

  lemma FitsWhen(db: Database, names: seq<string>, i: nat)
    requires i < |names|
    ensures Fits(db, names, i) <==> names[i] in db && (i > 0 ==> Prefix(SinkMode(names)) <= names[i])
  {
  }

  lemma MatchingAll(db: Database, sink: bool)
    ensures Matching(db, db.Keys, sink) == {} && Matching(db, {}, sink) <= db.Keys
  {
  }

  lemma CollectedStep(db: Database, named: map<string, nat>, listed: set<string>, k: string, r: nat)
    requires r < NUM_ROLES && named.Keys <= listed <= db.Keys && k in db
    ensures
      var h := Combined(db, named, listed, r);
      Combined(db, named, listed + {k}, r) == if k in h then h else h[k := |named| + db[k].priority[r]]
  {
    hide Combined, WeightOf;
    CombinedStep(db, named, listed, k, r);
    if k !in listed {
      UnnamedWeight(db, named, k, r);
    }
  }

  lemma ListedStep(db: Database, named: set<string>, keys: set<string>, k: string, sink: bool)
    requires k in keys && keys <= db.Keys
    ensures named + Matching(db, keys - {k}, sink)
            == if Prefix(sink) <= k then named + Matching(db, keys, sink) + {k} else named + Matching(db, keys, sink)
  {
    hide Matching, Prefix;
    MatchingStep(db, keys, sink, k);
  }

  lemma UnnamedWeight(db: Database, named: map<string, nat>, k: string, r: nat)
    requires r < NUM_ROLES && k in db && k !in named
    ensures WeightOf(db, named, k, r) == |named| + db[k].priority[r]
  {
  }

  /** What was numbered is what is named, and all listed devices are known. */
  lemma NamedKeys(db: Database, names: seq<string>, named: map<string, nat>)
    requires Accepted(db, names) && Numbered(names, |names|, named)
    ensures named.Keys == Named(names) && named.Keys <= db.Keys && Listed(db, names) <= db.Keys
    ensures Listed(db, names) ==
            if |named| < MAX_NAMED then named.Keys + Matching(db, {}, SinkMode(names)) else named.Keys
  {
    assert names[..|names|] == names;
    forall x | x in names
      ensures x in db
    {
      var i :| 0 <= i < |names| && names[i] == x;
      assert Fits(db, names, i);
    }
    MatchingAll(db, SinkMode(names));
    hide Matching, SinkMode, First, Prefix;
    assert named.Keys == Named(names);
    assert |named| == |named.Keys|;
  }

  lemma NoneGreatest(db: Database, r: nat)
    requires r < NUM_ROLES
    ensures IsGreatest(db, {}, r, 0)
  {
  }
}

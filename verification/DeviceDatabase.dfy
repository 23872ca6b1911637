/** The device database of module-device-manager.c and how a device gets its
    priority in every role. */
module DeviceDatabase {

  const NUM_ROLES: nat := 9
  const ROLE_NAMES: seq<string> :=
    ["none", "video", "music", "game", "event", "phone", "animation", "production", "a11y"]

  const INVALID_INDEX: nat := 0xFFFF_FFFF

  /** One priority per role; 1 comes first. */
  type Ranks = p: seq<nat> | |p| == NUM_ROLES witness [0, 0, 0, 0, 0, 0, 0, 0, 0]

  datatype Entry = Entry(description: string, userSet: bool, icon: string, priority: Ranks)

  /** Database keys are a prefix for the kind of the device and its name. */
  type Database = map<string, Entry>

  function Prefix(sink: bool): string { if sink then "sink:" else "source:" }

  predicate OfKind(sink: bool, key: string) {
    |key| > |Prefix(sink)| && Prefix(sink) <= key
  }

  lemma KindsAreDisjoint(sink: bool, key: string)
    ensures !(Prefix(sink) <= key && Prefix(!sink) <= key)
  {
    assert Prefix(true)[1] != Prefix(false)[1];
  }

  /** No two devices of a kind share a priority. */
  ghost predicate Distinct(db: Database, sink: bool) {
    forall a, b, r | a in db && b in db && a != b && OfKind(sink, a) && OfKind(sink, b) && 0 <= r < NUM_ROLES ::
      db[a].priority[r] != db[b].priority[r]
  }

  ghost predicate Valid(db: Database) {
    && (forall k :: k in db ==> OfKind(true, k) || OfKind(false, k))
    && (forall k, r | k in db && 0 <= r < NUM_ROLES :: db[k].priority[r] >= 1)
    && Distinct(db, true) && Distinct(db, false)
  }

  /** get_role_index() */
  method GetRoleIndex(role: string) returns (r: nat)
    ensures r == INVALID_INDEX <==> role !in ROLE_NAMES
    ensures r != INVALID_INDEX ==> r < NUM_ROLES && ROLE_NAMES[r] == role
  {
    for i := 0 to NUM_ROLES
      invariant role !in ROLE_NAMES[..i]
    {
      if role == ROLE_NAMES[i] {
        return i;
      }
    }
    assert ROLE_NAMES[..NUM_ROLES] == ROLE_NAMES;
    r := INVALID_INDEX;
  }

  // ---------------------------------------------------------- the next priority

  /** The greatest priority among some keys, 0 if there are none. */
  ghost function Greatest(db: Database, keys: set<string>, r: nat): nat
    requires keys <= db.Keys && r < NUM_ROLES
  {
    if keys == {} then 0
    else
      var k :| k in keys;
      var rest := Greatest(db, keys - {k}, r);
      if rest < db[k].priority[r] then db[k].priority[r] else rest
  }

  ghost predicate IsGreatest(db: Database, keys: set<string>, r: nat, m: nat)
    requires keys <= db.Keys && r < NUM_ROLES
  {
    && (forall k :: k in keys ==> db[k].priority[r] <= m)
    && (m == 0 || exists k :: k in keys && db[k].priority[r] == m)
  }

  lemma {:induction false} GreatestIsGreatest(db: Database, keys: set<string>, r: nat)
    requires keys <= db.Keys && r < NUM_ROLES
    ensures IsGreatest(db, keys, r, Greatest(db, keys, r))
  {
    if keys != {} {
      var k :| k in keys && Greatest(db, keys, r)
        == (if Greatest(db, keys - {k}, r) < db[k].priority[r] then db[k].priority[r] else Greatest(db, keys - {k}, r));
      GreatestIsGreatest(db, keys - {k}, r);
    }
  }

  ghost function KeysOfKind(db: Database, sink: bool): (s: set<string>)
    ensures s <= db.Keys
  {
    set k | k in db && OfKind(sink, k)
  }

  /** The greatest priority that a device of this kind has in the role. */
  ghost function Highest(db: Database, sink: bool, r: nat): nat
    requires r < NUM_ROLES
  {
    Greatest(db, KeysOfKind(db, sink), r)
  }

  lemma HighestIs(db: Database, sink: bool, r: nat, m: nat)
    requires r < NUM_ROLES
    ensures Highest(db, sink, r) == m <==> IsGreatest(db, KeysOfKind(db, sink), r, m)
  {
    GreatestIsGreatest(db, KeysOfKind(db, sink), r);
  }

  ghost function NextRanks(db: Database, sink: bool): Ranks {
    seq(NUM_ROLES, r requires 0 <= r < NUM_ROLES => Highest(db, sink, r) + 1)
  }

  // ------------------------------------------------------------ seeing a device

  /** A sink or a source, as far as the database is concerned. */
  datatype Device = Device(index: nat, name: string, priority: nat, monitor: bool, description: string, icon: string)

  function KeyOf(sink: bool, d: Device): string { Prefix(sink) + d.name }

  ghost function Refreshed(db: Database, sink: bool, key: string, d: Device): Entry {
    if key in db then
      db[key].(description := if db[key].userSet then db[key].description else d.description, icon := d.icon)
    else
      Entry(d.description, false, d.icon, NextRanks(db, sink))
  }

  ghost predicate Ignored(sink: bool, d: Device) {
    !sink && d.monitor
  }

  /** The database after a device was announced or has changed. */
  ghost function AfterSeen(db: Database, sink: bool, d: Device): Database {
    var key := KeyOf(sink, d);
    if Ignored(sink, d) then db else db[key := Refreshed(db, sink, key, d)]
  }

  lemma KeyOfDevice(sink: bool, d: Device)
    requires d.name != []
    ensures OfKind(sink, KeyOf(sink, d)) && !OfKind(!sink, KeyOf(sink, d))
  {
    KindsAreDisjoint(sink, KeyOf(sink, d));
  }

  /** What an announcement says of the device itself: its icon always, its description
      unless the user has named it.  It neither ranks a known device anew nor touches
      another one. */
  lemma SeenDescribes(db: Database, sink: bool, d: Device)
    requires !Ignored(sink, d)
    ensures
      var key, now := KeyOf(sink, d), AfterSeen(db, sink, d);
      && key in now && now[key].icon == d.icon
      && (now[key].description == d.description || (key in db && db[key].userSet))
      && (key in db ==> now[key].priority == db[key].priority && now[key].userSet == db[key].userSet)
      && (key in db && db[key].userSet ==> now[key].description == db[key].description)
      && (key !in db ==> !now[key].userSet)
      && forall k :: k != key ==> (k in now <==> k in db) && (k in db ==> now[k] == db[k])
  {
  }

  lemma SeenKeepsValid(db: Database, sink: bool, d: Device)
    requires Valid(db) && d.name != []
    ensures Valid(AfterSeen(db, sink, d))
  {
    var key := KeyOf(sink, d);
    KeyOfDevice(sink, d);
    forall r | 0 <= r < NUM_ROLES
      ensures forall k :: k in db && OfKind(sink, k) ==> db[k].priority[r] < NextRanks(db, sink)[r]
    {
      HighestIs(db, sink, r, Highest(db, sink, r));
    }
    hide OfKind, Highest, KeyOf;
    assert Distinct(AfterSeen(db, sink, d), !sink);
    assert Distinct(AfterSeen(db, sink, d), sink);
  }

  // --------------------------------------------------- registering many devices

  ghost predicate DistinctNames(devices: seq<Device>) {
    forall i, j :: 0 <= i < j < |devices| ==> devices[i].name != devices[j].name
  }

  ghost predicate ProperDevices(devices: seq<Device>) {
    DistinctNames(devices) && forall i :: 0 <= i < |devices| ==> devices[i].name != []
  }

  /** The database after the devices were announced one by one. */
  ghost function Registered(db: Database, sink: bool, devices: seq<Device>): Database {
    if devices == [] then db
    else AfterSeen(Registered(db, sink, devices[..|devices| - 1]), sink, devices[|devices| - 1])
  }

  /** The device has no entry yet and will get one. */
  ghost predicate IsNew(db: Database, sink: bool, d: Device) {
    !Ignored(sink, d) && KeyOf(sink, d) !in db
  }

  ghost function NewCount(db: Database, sink: bool, devices: seq<Device>): nat {
    if devices == [] then 0
    else
      NewCount(db, sink, devices[..|devices| - 1]) + if IsNew(db, sink, devices[|devices| - 1]) then 1 else 0
  }

  /** Registering adds the new devices and nothing else. */
  ghost predicate AddsNew(db: Database, sink: bool, devices: seq<Device>, now: Database) {
    && db.Keys <= now.Keys
    && (forall i :: 0 <= i < |devices| && !Ignored(sink, devices[i]) ==> KeyOf(sink, devices[i]) in now)
    && (forall k :: k in now && k !in db ==>
          exists i :: 0 <= i < |devices| && !Ignored(sink, devices[i]) && k == KeyOf(sink, devices[i]))
  }

  /** No known device changes its priorities, the other kind does not change. */
  ghost predicate KeepsKnown(db: Database, sink: bool, now: Database) {
    forall k :: k in db && k in now ==> now[k].priority == db[k].priority && (OfKind(!sink, k) ==> now[k] == db[k])
  }

  /** The new devices are ranked after all known ones, in the order given. */
  ghost predicate RanksNew(db: Database, sink: bool, devices: seq<Device>, now: Database) {
    forall i, r | 0 <= i < |devices| && 0 <= r < NUM_ROLES && IsNew(db, sink, devices[i])
      && KeyOf(sink, devices[i]) in now ::
      now[KeyOf(sink, devices[i])].priority[r] == Highest(db, sink, r) + 1 + NewCount(db, sink, devices[..i])
  }

  lemma HighestAfterSeen(db: Database, sink: bool, d: Device, r: nat)
    requires d.name != [] && r < NUM_ROLES
    ensures Highest(AfterSeen(db, sink, d), sink, r) == Highest(db, sink, r) + if IsNew(db, sink, d) then 1 else 0
  {
    var now, key := AfterSeen(db, sink, d), KeyOf(sink, d);
    KeyOfDevice(sink, d);
    var m := Highest(db, sink, r);
    HighestIs(db, sink, r, m);
    HighestIs(now, sink, r, if IsNew(db, sink, d) then m + 1 else m);
    hide OfKind, Highest, KeyOf;
    if IsNew(db, sink, d) {
      assert now[key].priority[r] == m + 1 by { NextRanksAt(db, sink, r); }
      assert key in KeysOfKind(now, sink);
    } else if m > 0 {
      var k :| k in KeysOfKind(db, sink) && db[k].priority[r] == m;
      assert k in KeysOfKind(now, sink) && now[k].priority[r] == m;
    }
  }

  lemma NextRanksAt(db: Database, sink: bool, r: nat)
    requires r < NUM_ROLES
    ensures NextRanks(db, sink)[r] == Highest(db, sink, r) + 1
  {
  }

  /** Registering devices one after the other, into any database. */
  lemma {:induction false} Registering(db: Database, sink: bool, devices: seq<Device>)
    requires ProperDevices(devices)
    ensures
      var now := Registered(db, sink, devices);
      AddsNew(db, sink, devices, now) && KeepsKnown(db, sink, now) && RanksNew(db, sink, devices, now)
    ensures forall r | 0 <= r < NUM_ROLES ::
              Highest(Registered(db, sink, devices), sink, r) == Highest(db, sink, r) + NewCount(db, sink, devices)
  {
    if devices != [] {
      var front, d := devices[..|devices| - 1], devices[|devices| - 1];
      Registering(db, sink, front);
      RegisteringStep(db, sink, front, d, Registered(db, sink, front));
      assert devices == front + [d];
      hide Highest, Registered, NewCount;
    }
  }

  lemma KeysDiffer(sink: bool, a: Device, b: Device)
    requires a.name != b.name
    ensures KeyOf(sink, a) != KeyOf(sink, b)
  {
    assert KeyOf(sink, a)[|Prefix(sink)|..] == a.name && KeyOf(sink, b)[|Prefix(sink)|..] == b.name;
  }

  /** The next device is new to the database at hand if it was at the start. */
  lemma StaysNew(db: Database, sink: bool, front: seq<Device>, d: Device, was: Database)
    requires ProperDevices(front + [d]) && AddsNew(db, sink, front, was)
    ensures IsNew(was, sink, d) <==> IsNew(db, sink, d)
    ensures forall i :: 0 <= i < |front| ==> KeyOf(sink, front[i]) != KeyOf(sink, d)
  {
    forall i | 0 <= i < |front|
      ensures KeyOf(sink, front[i]) != KeyOf(sink, d)
    {
      assert (front + [d])[i] == front[i] && (front + [d])[|front|] == d;
      KeysDiffer(sink, front[i], d);
    }
    hide KeyOf;
  }

  lemma StepAdds(db: Database, sink: bool, front: seq<Device>, d: Device, was: Database)
    requires AddsNew(db, sink, front, was) && KeepsKnown(db, sink, was) && d.name != []
    ensures AddsNew(db, sink, front + [d], AfterSeen(was, sink, d)) && KeepsKnown(db, sink, AfterSeen(was, sink, d))
  {
    KeyOfDevice(sink, d);
    hide KeyOf, OfKind, NextRanks;
    var now, all := AfterSeen(was, sink, d), front + [d];
    assert forall i :: 0 <= i < |front| ==> all[i] == front[i];
    assert all[|front|] == d;
    forall k | k in now && k !in db
      ensures exists i :: 0 <= i < |all| && !Ignored(sink, all[i]) && k == KeyOf(sink, all[i])
    {
      if k in was {
        var i :| 0 <= i < |front| && !Ignored(sink, front[i]) && k == KeyOf(sink, front[i]);
        assert all[i] == front[i];
      }
    }
  }

  lemma StepRanks(db: Database, sink: bool, front: seq<Device>, d: Device, was: Database)
    requires ProperDevices(front + [d]) && AddsNew(db, sink, front, was) && RanksNew(db, sink, front, was)
    requires forall r | 0 <= r < NUM_ROLES :: Highest(was, sink, r) == Highest(db, sink, r) + NewCount(db, sink, front)
    ensures RanksNew(db, sink, front + [d], AfterSeen(was, sink, d))
  {
    StaysNew(db, sink, front, d, was);
    forall r | 0 <= r < NUM_ROLES
      ensures NextRanks(was, sink)[r] == Highest(was, sink, r) + 1
    {
      NextRanksAt(was, sink, r);
    }
    hide KeyOf, Highest, NextRanks, NewCount;
    var now, all := AfterSeen(was, sink, d), front + [d];
    forall i, r | 0 <= i < |all| && 0 <= r < NUM_ROLES && IsNew(db, sink, all[i]) && KeyOf(sink, all[i]) in now
      ensures now[KeyOf(sink, all[i])].priority[r] == Highest(db, sink, r) + 1 + NewCount(db, sink, all[..i])
    {
      if i < |front| {
        assert all[i] == front[i] && all[..i] == front[..i];
      } else {
        assert all[i] == d && all[..i] == front;
      }
    }
  }

  lemma RegisteringStep(db: Database, sink: bool, front: seq<Device>, d: Device, was: Database)
    requires ProperDevices(front + [d])
    requires AddsNew(db, sink, front, was) && KeepsKnown(db, sink, was) && RanksNew(db, sink, front, was)
    requires forall r | 0 <= r < NUM_ROLES :: Highest(was, sink, r) == Highest(db, sink, r) + NewCount(db, sink, front)
    ensures
      var now := AfterSeen(was, sink, d);
      AddsNew(db, sink, front + [d], now) && KeepsKnown(db, sink, now) && RanksNew(db, sink, front + [d], now)
    ensures forall r | 0 <= r < NUM_ROLES ::
              Highest(AfterSeen(was, sink, d), sink, r) == Highest(db, sink, r) + NewCount(db, sink, front + [d])
  {
    assert (front + [d])[..|front|] == front && (front + [d])[|front|] == d;
    StepAdds(db, sink, front, d, was);
    StepRanks(db, sink, front, d, was);
    StaysNew(db, sink, front, d, was);
    forall r | 0 <= r < NUM_ROLES
      ensures Highest(AfterSeen(was, sink, d), sink, r) == Highest(was, sink, r) + if IsNew(was, sink, d) then 1 else 0
    {
      HighestAfterSeen(was, sink, d, r);
    }
    hide Highest, AfterSeen, AddsNew, KeepsKnown, RanksNew;
  }

  ghost predicate ByPriority(devices: seq<Device>) {
    forall i, j :: 0 <= i < j < |devices| ==> devices[i].priority >= devices[j].priority
  }

  lemma {:induction false} NewCountGrows(db: Database, sink: bool, devices: seq<Device>, i: nat)
    requires i < |devices|
    ensures NewCount(db, sink, devices[..i]) + (if IsNew(db, sink, devices[i]) then 1 else 0)
            <= NewCount(db, sink, devices)
    decreases |devices|
  {
    var n := |devices| - 1;
    assert devices[..n][..i] == devices[..i];
    if i < n {
      NewCountGrows(db, sink, devices[..n], i);
    }
  }

  lemma {:induction false} NewCountIsOnto(db: Database, sink: bool, devices: seq<Device>, m: nat) returns (i: nat)
    requires m < NewCount(db, sink, devices)
    ensures i < |devices| && IsNew(db, sink, devices[i]) && NewCount(db, sink, devices[..i]) == m
  {
    var n := |devices| - 1;
    if m < NewCount(db, sink, devices[..n]) {
      i := NewCountIsOnto(db, sink, devices[..n], m);
      assert devices[..n][..i] == devices[..i];
    } else {
      i := n;
    }
  }

  /** The rank that a registered device ends up with. */
  ghost function RankOf(now: Database, sink: bool, d: Device, r: nat): nat
    requires r < NUM_ROLES
  {
    if KeyOf(sink, d) in now then now[KeyOf(sink, d)].priority[r] else 0
  }

  lemma NewRank(db: Database, sink: bool, devices: seq<Device>, i: nat, r: nat)
    requires ProperDevices(devices) && i < |devices| && IsNew(db, sink, devices[i]) && r < NUM_ROLES
    ensures RankOf(Registered(db, sink, devices), sink, devices[i], r)
            == Highest(db, sink, r) + 1 + NewCount(db, sink, devices[..i])
  {
    Registering(db, sink, devices);
    hide Registered, Highest, NewCount, KeyOf, ProperDevices, KeepsKnown;
  }

  /** Devices registered by falling priority: among those that are new, a greater
      device priority means a smaller rank, in every role. */
  lemma HigherPriorityRanksFirst(db: Database, sink: bool, devices: seq<Device>, i: nat, j: nat, r: nat)
    requires ProperDevices(devices) && ByPriority(devices) && r < NUM_ROLES
    requires i < |devices| && IsNew(db, sink, devices[i])
    requires j < |devices| && IsNew(db, sink, devices[j])
    requires devices[i].priority > devices[j].priority
    ensures
      var now := Registered(db, sink, devices);
      1 <= RankOf(now, sink, devices[i], r) < RankOf(now, sink, devices[j], r)
  {
    NewRank(db, sink, devices, i, r);
    NewRank(db, sink, devices, j, r);
    assert i < j;
    NewCountGrows(db, sink, devices[..j], i);
    assert devices[..j][..i] == devices[..i];
    hide Registered, Highest, NewCount, RankOf, IsNew, ProperDevices;
  }

  ghost predicate SomeHolds(now: Database, sink: bool, devices: seq<Device>, r: nat, m: nat)
    requires r < NUM_ROLES
  {
    exists i :: 0 <= i < |devices| && !Ignored(sink, devices[i]) && RankOf(now, sink, devices[i], r) == m
  }

  /** When the database knows no device of the kind, the ranks handed out in each
      role are exactly 1 to n. */
  lemma FirstRanks(db: Database, sink: bool, devices: seq<Device>, r: nat)
    requires ProperDevices(devices) && r < NUM_ROLES && KeysOfKind(db, sink) == {}
    ensures
      var now, n := Registered(db, sink, devices), |Counted(sink, devices)|;
      && (forall i | 0 <= i < |devices| && !Ignored(sink, devices[i]) :: 1 <= RankOf(now, sink, devices[i], r) <= n)
      && (forall m | 1 <= m <= n :: SomeHolds(now, sink, devices, r, m))
  {
    HighestIs(db, sink, r, 0);
    AllAreNew(db, sink, devices);
    NewCountCounts(db, sink, devices);
    var now, n := Registered(db, sink, devices), NewCount(db, sink, devices);
    hide Registered, Highest, NewCount, RankOf, IsNew, ProperDevices, Counted;
    forall i | 0 <= i < |devices| && !Ignored(sink, devices[i])
      ensures 1 <= RankOf(now, sink, devices[i], r) <= n
    {
      NewRank(db, sink, devices, i, r);
      NewCountGrows(db, sink, devices, i);
    }
    forall m | 1 <= m <= n
      ensures SomeHolds(now, sink, devices, r, m)
    {
      var i := NewCountIsOnto(db, sink, devices, m - 1);
      NewRank(db, sink, devices, i, r);
    }
  }

  /** The devices that get an entry: all but the monitor sources. */
  ghost function Counted(sink: bool, devices: seq<Device>): set<int> {
    set i | 0 <= i < |devices| && !Ignored(sink, devices[i])
  }

  lemma AllAreNew(db: Database, sink: bool, devices: seq<Device>)
    requires ProperDevices(devices) && KeysOfKind(db, sink) == {}
    ensures forall i :: 0 <= i < |devices| ==> IsNew(db, sink, devices[i]) == !Ignored(sink, devices[i])
  {
    forall i | 0 <= i < |devices|
      ensures KeyOf(sink, devices[i]) !in db
    {
      KeyOfDevice(sink, devices[i]);
      assert KeyOf(sink, devices[i]) !in KeysOfKind(db, sink);
    }
  }

  lemma {:induction false} NewCountCounts(db: Database, sink: bool, devices: seq<Device>)
    requires forall i :: 0 <= i < |devices| ==> IsNew(db, sink, devices[i]) == !Ignored(sink, devices[i])
    ensures |Counted(sink, devices)| == NewCount(db, sink, devices)
  {
    if devices == [] {
      assert Counted(sink, devices) == {};
    } else {
      var n := |devices| - 1;
      NewCountCounts(db, sink, devices[..n]);
      CountedGrows(sink, devices[..n], devices[n]);
      assert devices == devices[..n] + [devices[n]];
      hide Counted;
    }
  }

  lemma CountedGrows(sink: bool, front: seq<Device>, d: Device)
    ensures |Counted(sink, front + [d])| == |Counted(sink, front)| + if Ignored(sink, d) then 0 else 1
  {
    var all := front + [d];
    assert forall i :: 0 <= i < |front| ==> all[i] == front[i];
    assert all[|front|] == d;
    assert Counted(sink, all) == Counted(sink, front) + if Ignored(sink, d) then {} else {|front|};
  }
}

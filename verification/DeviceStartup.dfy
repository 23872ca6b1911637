/** The priorities that module-device-manager.c hands out on its first start. */
module DeviceStartup {
  import opened DeviceDatabase
  import opened DeviceManager
  import opened Sequences

  lemma InjectedAreProper(sinks: seq<Device>, sources: seq<Device>, devices: seq<Device>, order: seq<Device>)
    requires Injected(sinks, sources, devices, order) && ProperDevices(devices)
    ensures ProperDevices(order) && forall d :: d in order <==> d in devices
  {
    if order != devices {
      SameElements(order, devices);
      var name := (d: Device) => d.name;
      MapPermutes(name, devices, order);
      PermutedNoRepeats(Map(name, devices), Map(name, order));
      hide ByPriority;
      assert forall i :: 0 <= i < |order| ==> order[i].name == Map(name, order)[i];
      assert forall i :: 0 <= i < |order| ==> order[i] in devices;
    }
  }

  /** The devices of a kind that get an entry. */
  ghost function Entered(sink: bool, devices: seq<Device>): set<Device> {
    set d | d in devices && !Ignored(sink, d)
  }

  lemma {:induction false} EnteredSize(sink: bool, devices: seq<Device>)
    requires DistinctNames(devices)
    ensures |Counted(sink, devices)| == |Entered(sink, devices)|
  {
    if devices == [] {
      assert Counted(sink, devices) == {} && Entered(sink, devices) == {};
    } else {
      var n := |devices| - 1;
      var front, d := devices[..n], devices[n];
      EnteredSize(sink, front);
      CountedGrows(sink, front, d);
      assert devices == front + [d] && d !in front;
      EnteredGrows(sink, front, d);
      hide Counted, Entered;
    }
  }

  lemma EnteredGrows(sink: bool, front: seq<Device>, d: Device)
    requires d !in front
    ensures |Entered(sink, front + [d])| == |Entered(sink, front)| + if Ignored(sink, d) then 0 else 1
  {
    assert Entered(sink, front + [d]) == Entered(sink, front) + if Ignored(sink, d) then {} else {d};
  }

  ghost predicate Held(now: Database, sink: bool, devices: seq<Device>, r: nat, m: nat)
    requires r < NUM_ROLES
  {
    exists d :: d in Entered(sink, devices) && RankOf(now, sink, d, r) == m
  }

  /** The devices have exactly the ranks 1 to n in the role, and a device of
      greater priority has a smaller rank. */
  ghost predicate RankedByPriority(now: Database, sink: bool, devices: seq<Device>, r: nat)
    requires r < NUM_ROLES
  {
    var entered := Entered(sink, devices);
    && (forall d :: d in entered ==> 1 <= RankOf(now, sink, d, r) <= |entered|)
    && (forall m :: 1 <= m <= |entered| ==> Held(now, sink, devices, r, m))
    && (forall c, d :: c in entered && d in entered && c.priority > d.priority ==>
          RankOf(now, sink, c, r) < RankOf(now, sink, d, r))
  }

  lemma RegisteredByPriority(db: Database, sink: bool, devices: seq<Device>, order: seq<Device>, r: nat)
    requires ProperDevices(order) && ByPriority(order) && DistinctNames(devices) && r < NUM_ROLES
    requires (forall d :: d in order <==> d in devices) && KeysOfKind(db, sink) == {}
    ensures RankedByPriority(Registered(db, sink, order), sink, devices, r)
  {
    var now, entered := Registered(db, sink, order), Entered(sink, devices);
    assert Entered(sink, order) == entered;
    EnteredSize(sink, order);
    FirstRanks(db, sink, order, r);
    AllAreNew(db, sink, order);
    hide Registered, RankOf, Counted, IsNew, KeysOfKind, ProperDevices, DistinctNames, ByPriority;
    forall d | d in entered
      ensures 1 <= RankOf(now, sink, d, r) <= |entered|
    {
      var i :| 0 <= i < |order| && order[i] == d;
    }
    forall m | 1 <= m <= |entered|
      ensures Held(now, sink, devices, r, m)
    {
      assert SomeHolds(now, sink, order, r, m);
      var i :| 0 <= i < |order| && !Ignored(sink, order[i]) && RankOf(now, sink, order[i], r) == m;
      assert order[i] in entered;
    }
    forall c, d | c in entered && d in entered && c.priority > d.priority
      ensures RankOf(now, sink, c, r) < RankOf(now, sink, d, r)
    {
      GreaterFirst(db, sink, order, c, d, r);
    }
  }

  lemma GreaterFirst(db: Database, sink: bool, order: seq<Device>, c: Device, d: Device, r: nat)
    requires ProperDevices(order) && ByPriority(order) && r < NUM_ROLES && KeysOfKind(db, sink) == {}
    requires c in Entered(sink, order) && d in Entered(sink, order) && c.priority > d.priority
    ensures RankOf(Registered(db, sink, order), sink, c, r) < RankOf(Registered(db, sink, order), sink, d, r)
  {
    AllAreNew(db, sink, order);
    hide Registered, RankOf, IsNew, KeysOfKind, ProperDevices, ByPriority;
    var i :| 0 <= i < |order| && order[i] == c;
    var j :| 0 <= j < |order| && order[j] == d;
    HigherPriorityRanksFirst(db, sink, order, i, j, r);
  }

  /** Registering one kind does not touch the other. */
  lemma OtherKind(db: Database, sink: bool, order: seq<Device>)
    requires ProperDevices(order)
    ensures KeysOfKind(Registered(db, sink, order), !sink) == KeysOfKind(db, !sink)
    ensures forall k :: k in KeysOfKind(db, !sink) ==> Registered(db, sink, order)[k] == db[k]
  {
    Registering(db, sink, order);
    forall i | 0 <= i < |order|
      ensures !OfKind(!sink, KeyOf(sink, order[i]))
    {
      KeyOfDevice(sink, order[i]);
    }
    hide Registered, OfKind, KeyOf, RanksNew;
  }

  /** Start-up with an empty database and fewer than 128 devices of each kind. */
  lemma FirstStart(sinks: seq<Device>, sources: seq<Device>, a: seq<Device>, b: seq<Device>, r: nat)
    requires ProperDevices(sinks) && ProperDevices(sources) && |sinks| < 128 && |sources| < 128 && r < NUM_ROLES
    requires Injected(sinks, sources, sinks, a) && Injected(sinks, sources, sources, b)
    ensures
      var now := Registered(Registered(map[], true, a), false, b);
      RankedByPriority(now, true, sinks, r) && RankedByPriority(now, false, sources, r)
  {
    InjectedAreProper(sinks, sources, sinks, a);
    InjectedAreProper(sinks, sources, sources, b);
    var first := Registered(map[], true, a);
    var now := Registered(first, false, b);
    assert KeysOfKind(map[], true) == {} && KeysOfKind(map[], false) == {};
    RegisteredByPriority(map[], true, sinks, a, r);
    OtherKind(map[], true, a);
    RegisteredByPriority(first, false, sources, b, r);
    OtherKind(first, false, b);
    SinksKeepRanks(first, now, sinks, r);
    hide Registered, RankedByPriority, KeysOfKind, Injected;
  }

  lemma SinksKeepRanks(was: Database, now: Database, sinks: seq<Device>, r: nat)
    requires r < NUM_ROLES && ProperDevices(sinks) && RankedByPriority(was, true, sinks, r)
    requires KeysOfKind(now, true) == KeysOfKind(was, true)
    requires forall k :: k in KeysOfKind(was, true) ==> now[k] == was[k]
    ensures RankedByPriority(now, true, sinks, r)
  {
    forall d | d in Entered(true, sinks)
      ensures RankOf(now, true, d, r) == RankOf(was, true, d, r)
    {
      KeyOfDevice(true, d);
      assert KeyOf(true, d) in KeysOfKind(was, true) <==> KeyOf(true, d) in was;
      assert KeyOf(true, d) in KeysOfKind(now, true) <==> KeyOf(true, d) in now;
    }
    hide RankOf, KeyOf, OfKind, KeysOfKind, Entered;
    forall m | 1 <= m <= |Entered(true, sinks)|
      ensures Held(now, true, sinks, r, m)
    {
      assert Held(was, true, sinks, r, m);
    }
  }

  /** The part of pa__init() that fills the database, when it is still empty. */
  method FillDatabase(u: Userdata, sinks: seq<Device>, sources: seq<Device>)
    requires u.database == map[]
    requires DistinctIndexes(sinks) && DistinctIndexes(sources) && ProperDevices(sinks) && ProperDevices(sources)
    modifies u
    ensures |sinks| < 128 && |sources| < 128 ==>
              forall r :: 0 <= r < NUM_ROLES ==>
                RankedByPriority(u.database, true, sinks, r) && RankedByPriority(u.database, false, sources, r)
  {
    hide Registered, RankedByPriority, Injected, ProperDevices, DistinctIndexes;
    u.InjectDevices(sinks, sources);
    ghost var a, b :|
      && Injected(sinks, sources, sinks, a) && Injected(sinks, sources, sources, b)
      && u.database == Registered(Registered(map[], true, a), false, b);
    if |sinks| < 128 && |sources| < 128 {
      forall r | 0 <= r < NUM_ROLES
        ensures RankedByPriority(u.database, true, sinks, r) && RankedByPriority(u.database, false, sources, r)
      {
        FirstStart(sinks, sources, a, b, r);
      }
    }
  }
}

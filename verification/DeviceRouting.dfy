/** The cache of module-device-manager.c that holds, for every role, the device
    to route streams to. */
module DeviceRouting {
  import opened DeviceDatabase

  /** A sink or source of the core; one that is about to vanish is to be ignored. */
  datatype CoreDevice = CoreDevice(index: nat, name: string, linked: bool, ignored: bool)

  predicate Usable(d: CoreDevice) { d.linked && !d.ignored }

  ghost predicate ProperIndexes(devices: seq<CoreDevice>) {
    forall i :: 0 <= i < |devices| ==> devices[i].index < INVALID_INDEX
  }

  /** A usable device that the entry is about. */
  ghost predicate Shows(devices: seq<CoreDevice>, name: string, i: int) {
    0 <= i < |devices| && Usable(devices[i]) && devices[i].name == name
  }

  ghost predicate Available(devices: seq<CoreDevice>, name: string) {
    exists i :: Shows(devices, name, i)
  }

  function NameOf(sink: bool, key: string): string
    requires OfKind(sink, key)
  {
    key[|Prefix(sink)|..]
  }

  /** The first usable device of that name, if there is one. */
  ghost function Search(devices: seq<CoreDevice>, name: string): (bool, nat) {
    if devices == [] then (false, 0)
    else if Usable(devices[0]) && devices[0].name == name then (true, devices[0].index)
    else Search(devices[1..], name)
  }

  lemma {:induction false} SearchFinds(devices: seq<CoreDevice>, name: string)
    ensures Search(devices, name).0 <==> Available(devices, name)
    ensures Search(devices, name).0 ==>
            exists i :: Shows(devices, name, i) && devices[i].index == Search(devices, name).1
  {
    if devices != [] {
      SearchFinds(devices[1..], name);
      assert forall i :: 0 <= i < |devices| - 1 ==> (Shows(devices[1..], name, i) <==> Shows(devices, name, i + 1));
      if Shows(devices, name, 0) {
      } else if Search(devices[1..], name).0 {
        var i :| Shows(devices[1..], name, i) && devices[1..][i].index == Search(devices, name).1;
        assert Shows(devices, name, i + 1) && devices[i + 1].index == Search(devices, name).1;
      } else if Available(devices, name) {
        var i :| Shows(devices, name, i);
        assert Shows(devices[1..], name, i - 1);
      }
    }
  }

  method FindUsable(devices: seq<CoreDevice>, name: string) returns (found: bool, idx: nat)
    ensures (found, idx) == Search(devices, name)
  {
    found, idx := false, 0;
    for i := 0 to |devices|
      invariant Search(devices[i..], name) == Search(devices, name)
    {
      if !devices[i].ignored && devices[i].linked && devices[i].name == name {
        return true, devices[i].index;
      }
    }
  }

  // ---------------------------------------------------------------- specification

  /** The index of a usable device whose entry has this priority in the role. */
  ghost predicate Holds(db: Database, sink: bool, devices: seq<CoreDevice>, key: string, r: nat, priority: nat,
                        idx: nat)
    requires r < NUM_ROLES && key in db && OfKind(sink, key)
  {
    db[key].priority[r] == priority && exists i :: Shows(devices, NameOf(sink, key), i) && devices[i].index == idx
  }

  /** Among some entries, the least priority of a usable device and that device's
      index; 0 and the invalid index when no device is usable. */
  ghost predicate IsBest(db: Database, sink: bool, devices: seq<CoreDevice>, keys: set<string>, r: nat, highest: nat,
                         idx: nat)
    requires r < NUM_ROLES && keys <= KeysOfKind(db, sink)
  {
    && (forall k :: k in keys && Available(devices, NameOf(sink, k)) ==> 1 <= highest <= db[k].priority[r])
    && (if highest == 0 then idx == INVALID_INDEX
        else exists k :: k in keys && Holds(db, sink, devices, k, r, highest, idx))
  }

  /** The cached index is that of the usable device whose stored priority is least,
      and it is invalid exactly when no usable device has an entry. */
  ghost predicate IsPreferred(db: Database, sink: bool, devices: seq<CoreDevice>, r: nat, idx: nat)
    requires r < NUM_ROLES
  {
    var keys := KeysOfKind(db, sink);
    && (idx == INVALID_INDEX <==> forall k :: k in keys ==> !Available(devices, NameOf(sink, k)))
    && (idx != INVALID_INDEX ==>
          exists k :: k in keys && Holds(db, sink, devices, k, r, db[k].priority[r], idx)
                      && forall other :: other in keys && other != k && Available(devices, NameOf(sink, other)) ==>
                           db[k].priority[r] < db[other].priority[r])
  }

  // ------------------------------------------------------------------------ update

  /** The effect of one entry on one role. */
  function Considered(highest: nat, idx: nat, priority: nat, found: bool, at: nat): (nat, nat) {
    if (highest == 0 || priority < highest) && found then (priority, at) else (highest, idx)
  }

  lemma ConsideredIsBest(db: Database, sink: bool, devices: seq<CoreDevice>, keys: set<string>, k: string,
                         r: nat, highest: nat, idx: nat, found: bool, at: nat)
    requires r < NUM_ROLES && keys <= KeysOfKind(db, sink) && IsBest(db, sink, devices, keys, r, highest, idx)
    requires k in KeysOfKind(db, sink) && db[k].priority[r] >= 1
    requires found <==> Available(devices, NameOf(sink, k))
    requires found ==> exists i :: Shows(devices, NameOf(sink, k), i) && devices[i].index == at
    ensures
      var (h, x) := Considered(highest, idx, db[k].priority[r], found, at);
      IsBest(db, sink, devices, keys + {k}, r, h, x)
  {
    hide OfKind, NameOf, Shows, Available;
    var (h, x) := Considered(highest, idx, db[k].priority[r], found, at);
    if h == highest && h != 0 && x == idx {
      var best :| best in keys && Holds(db, sink, devices, best, r, highest, idx);
      assert best in keys + {k};
    } else if h != 0 {
      assert k in keys + {k} && Holds(db, sink, devices, k, r, h, x);
    }
  }

  lemma BestIsPreferred(db: Database, sink: bool, devices: seq<CoreDevice>, r: nat, highest: nat, idx: nat)
    requires Valid(db) && r < NUM_ROLES && ProperIndexes(devices)
    requires IsBest(db, sink, devices, KeysOfKind(db, sink), r, highest, idx)
    ensures IsPreferred(db, sink, devices, r, idx)
  {
    hide OfKind, NameOf;
    var keys := KeysOfKind(db, sink);
    assert Distinct(db, sink);
    if highest != 0 {
      var k :| k in keys && Holds(db, sink, devices, k, r, highest, idx);
      assert Available(devices, NameOf(sink, k));
    }
  }

  /** The loop over the roles: a device is looked for only where it would win. */
  method Consider(indexes: array<nat>, highest: array<nat>, priority: Ranks, devices: seq<CoreDevice>, name: string)
    requires indexes.Length == NUM_ROLES && highest.Length == NUM_ROLES && indexes != highest
    modifies indexes, highest
    ensures forall r | 0 <= r < NUM_ROLES ::
              (highest[r], indexes[r]) == Considered(old(highest[r]), old(indexes[r]), priority[r],
                                                     Search(devices, name).0, Search(devices, name).1)
  {
    for i := 0 to NUM_ROLES
      invariant forall r | 0 <= r < i ::
                  (highest[r], indexes[r]) == Considered(old(highest[r]), old(indexes[r]), priority[r],
                                                         Search(devices, name).0, Search(devices, name).1)
      invariant forall r | i <= r < NUM_ROLES :: highest[r] == old(highest[r]) && indexes[r] == old(indexes[r])
    {
      if highest[i] == 0 || priority[i] < highest[i] {
        var found, idx := FindUsable(devices, name);
        if found {
          highest[i] := priority[i];
          indexes[i] := idx;
        }
      }
    }
  }

  /** One entry, seen by all roles. */
  lemma ConsideredByAll(db: Database, sink: bool, devices: seq<CoreDevice>, keys: set<string>, k: string,
                        highest: seq<nat>, indexes: seq<nat>)
    requires Valid(db) && keys <= KeysOfKind(db, sink) && k in KeysOfKind(db, sink)
    requires |highest| == NUM_ROLES && |indexes| == NUM_ROLES
    requires forall r | 0 <= r < NUM_ROLES :: IsBest(db, sink, devices, keys, r, highest[r], indexes[r])
    ensures forall r | 0 <= r < NUM_ROLES ::
              var (found, at) := Search(devices, NameOf(sink, k));
              var (h, x) := Considered(highest[r], indexes[r], db[k].priority[r], found, at);
              IsBest(db, sink, devices, keys + {k}, r, h, x)
  {
    SearchFinds(devices, NameOf(sink, k));
    hide IsBest, Considered, Search, NameOf, OfKind;
    forall r | 0 <= r < NUM_ROLES
      ensures
        var (found, at) := Search(devices, NameOf(sink, k));
        var (h, x) := Considered(highest[r], indexes[r], db[k].priority[r], found, at);
        IsBest(db, sink, devices, keys + {k}, r, h, x)
    {
      var (found, at) := Search(devices, NameOf(sink, k));
      ConsideredIsBest(db, sink, devices, keys, k, r, highest[r], indexes[r], found, at);
    }
  }

  /** update_highest_priority_device_indexes(): whatever the order in which the
      database is gone through, every role ends up with its preferred device. */
  method UpdateHighestPriorityDeviceIndexes(indexes: array<nat>, db: Database, sink: bool, devices: seq<CoreDevice>)
    requires indexes.Length == NUM_ROLES && Valid(db) && ProperIndexes(devices)
    modifies indexes
    ensures forall r | 0 <= r < NUM_ROLES :: IsPreferred(db, sink, devices, r, indexes[r])
  {
    hide IsBest, Considered, Search, IsPreferred, Valid;
    var highest := new nat[NUM_ROLES](_ => 0);
    for i := 0 to NUM_ROLES
      invariant forall r :: 0 <= r < i ==> indexes[r] == INVALID_INDEX
      invariant forall r :: 0 <= r < NUM_ROLES ==> highest[r] == 0
    {
      indexes[i] := INVALID_INDEX;
    }
    var keys := db.Keys;
    ghost var done: set<string> := {};
    forall r | 0 <= r < NUM_ROLES
      ensures IsBest(db, sink, devices, done, r, highest[r], indexes[r])
    {
      NothingIsBest(db, sink, devices, r);
    }
    while keys != {}
      invariant keys <= db.Keys && done == KeysOfKind(db, sink) - keys
      invariant forall r | 0 <= r < NUM_ROLES :: IsBest(db, sink, devices, done, r, highest[r], indexes[r])
    {
      var key :| key in keys;
      keys := keys - {key};
      if OfKind(sink, key) {
        ConsideredByAll(db, sink, devices, done, key, highest[..], indexes[..]);
        Consider(indexes, highest, db[key].priority, devices, NameOf(sink, key));
        done := done + {key};
      }
    }
    assert done == KeysOfKind(db, sink);
    forall r | 0 <= r < NUM_ROLES
      ensures IsPreferred(db, sink, devices, r, indexes[r])
    {
      BestIsPreferred(db, sink, devices, r, highest[r], indexes[r]);
    }
  }

  lemma NothingIsBest(db: Database, sink: bool, devices: seq<CoreDevice>, r: nat)
    requires r < NUM_ROLES
    ensures IsBest(db, sink, devices, {}, r, 0, INVALID_INDEX)
  {
  }
}

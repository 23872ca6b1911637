/** Records of module-card-restore.c in the formats of versions 0 to 5. Each version
    appends to the one before it; only the records of ports change inside. */
module CardVersions {
  import opened CardRestore
  import opened Options
  import opened Sequences
  import opened Tagstruct

  /** A port as the given version writes it. */
  ghost function PortAs(version: Byte, name: Bytes, p: PortInfo): Bytes
    requires ProperPort(name, p)
  {
    PutString(Some(name)) + (PutS64(p.offset) + if version < 3 then [] else PutString(p.profile))
  }

  ghost function PortsAs(version: Byte, order: seq<Bytes>, ports: map<Bytes, PortInfo>): Bytes
    requires AllProper(order, ports)
  {
    if order == [] then [] else PortAs(version, order[0], ports[order[0]]) + PortsAs(version, order[1..], ports)
  }

  ghost function ListAs(version: Byte, e: Entry, order: seq<Bytes>): Bytes
    requires AllProper(order, e.ports) && |e.ports| < U32
  {
    if version < 2 then [] else PutU32(|e.ports|) + PortsAs(version, order, e.ports)
  }

  ghost function PreferredAs(version: Byte, e: Entry): Bytes {
    if version < 4 then [] else PutString(e.inputPort) + PutString(e.outputPort)
  }

  ghost function StickyAs(version: Byte, e: Entry): Bytes {
    if version < 5 then [] else PutBoolean(e.sticky)
  }

  /** The record of an entry in the format of the given version. */
  ghost function WrittenAs(version: Byte, e: Entry, order: seq<Bytes>): Bytes
    requires Proper(e) && AllProper(order, e.ports)
  {
    PutU8(version) + (PutString(e.profile)
                      + (ListAs(version, e, order) + (PreferredAs(version, e) + StickyAs(version, e))))
  }

  /** What is left of a port that was written by the given version. */
  function PortOf(version: Byte, p: PortInfo): PortInfo {
    if version < 3 then PortInfo(p.offset, None) else p
  }

  /** What is left of an entry that was written by the given version. */
  function Older(version: Byte, e: Entry): Entry {
    Entry(OrEmpty(e.profile),
          if version < 2 then map[] else map n | n in e.ports :: PortOf(version, e.ports[n]),
          if version < 4 then None else e.inputPort,
          if version < 4 then None else e.outputPort,
          version >= 5 && e.sticky)
  }

  lemma ReadPortAs(version: Byte, name: Bytes, p: PortInfo, r: Bytes)
    requires ProperPort(name, p)
    ensures ParsePort(PortAs(version, name, p) + r, version) == Got((name, PortOf(version, p)), r)
  {
    var profile := if version < 3 then r else PutString(p.profile) + r;
    var b := PutS64(p.offset) + profile;
    assert PortAs(version, name, p) + r == PutString(Some(name)) + b;
    GetStringPut(Some(name), b);
    GetS64Put(p.offset, profile);
    if version >= 3 {
      GetStringPut(p.profile, r);
    }
    hide PutString, PutS64, GetString, GetS64;
  }

  ghost function RestrictedTo(version: Byte, order: seq<Bytes>, ports: map<Bytes, PortInfo>): map<Bytes, PortInfo>
    requires forall i :: 0 <= i < |order| ==> order[i] in ports
  {
    map n | n in order :: PortOf(version, ports[n])
  }

  lemma {:induction false} ReadPortsAs(version: Byte, order: seq<Bytes>, ports: map<Bytes, PortInfo>,
                                       done: map<Bytes, PortInfo>, r: Bytes)
    requires AllProper(order, ports) && NoRepeats(order) && forall n :: n in order ==> n !in done
    ensures ParsePorts(PortsAs(version, order, ports) + r, |order|, version, done)
            == Got(done + RestrictedTo(version, order, ports), r)
  {
    hide *;
    RestrictedToSteps(version, order, ports, done);
    if order == [] {
      NoPortsAs(version, ports, done, r);
    } else {
      var n, rest := order[0], order[1..];
      PortsTail(order, ports, done);
      PortsAsStep(version, order, ports, r);
      ReadPortsStep(version, n, ports[n], PortsAs(version, rest, ports) + r, |rest|, done);
      assert forall x :: x in rest ==> x !in done[n := PortOf(version, ports[n])];
      ReadPortsAs(version, rest, ports, done[n := PortOf(version, ports[n])], r);
    }
  }

  lemma NoPortsAs(version: Byte, ports: map<Bytes, PortInfo>, done: map<Bytes, PortInfo>, r: Bytes)
    ensures ParsePorts(PortsAs(version, [], ports) + r, 0, version, done) == Got(done, r)
  {
    assert PortsAs(version, [], ports) + r == r;
  }

  lemma PortsAsStep(version: Byte, order: seq<Bytes>, ports: map<Bytes, PortInfo>, r: Bytes)
    requires AllProper(order, ports) && order != []
    ensures PortsAs(version, order, ports) + r
            == PortAs(version, order[0], ports[order[0]]) + (PortsAs(version, order[1..], ports) + r)
  {
    hide PortAs;
  }

  lemma ReadPortsStep(version: Byte, name: Bytes, p: PortInfo, r: Bytes, count: nat, done: map<Bytes, PortInfo>)
    requires ProperPort(name, p) && name !in done
    ensures ParsePorts(PortAs(version, name, p) + r, count + 1, version, done)
            == ParsePorts(r, count, version, done[name := PortOf(version, p)])
  {
    ReadPortAs(version, name, p, r);
    hide PortAs, ParsePort, PortOf;
  }

  lemma RestrictedToSteps(version: Byte, order: seq<Bytes>, ports: map<Bytes, PortInfo>, done: map<Bytes, PortInfo>)
    requires AllProper(order, ports)
    ensures order == [] ==> done + RestrictedTo(version, order, ports) == done
    ensures order != [] ==>
              done[order[0] := PortOf(version, ports[order[0]])] + RestrictedTo(version, order[1..], ports)
              == done + RestrictedTo(version, order, ports)
  {
    hide PortOf;
  }

  lemma ReadListAs(version: Byte, e: Entry, order: seq<Bytes>, r: Bytes)
    requires Proper(e) && IsOrder(order, e.ports) && AllProper(order, e.ports)
    ensures ParsePortList(ListAs(version, e, order) + r, version) == Got(Older(version, e).ports, r)
  {
    if version < 2 {
      assert [] + r == r;
    } else {
      OrderIsProper(e, order);
      hide PutU32, GetU32, ParsePorts, PortsAs, PortOf, ProperPort, Proper, IsOrder, RestrictedTo, AllProper;
      Join(PutU32(|e.ports|), PortsAs(version, order, e.ports), r);
      ReadPortsOf(version, e, order, r);
    }
  }

  lemma Join(a: Bytes, b: Bytes, c: Bytes)
    ensures a + b + c == a + (b + c)
  {
  }

  lemma ReadPortsOf(version: Byte, e: Entry, order: seq<Bytes>, r: Bytes)
    requires version >= 2 && Proper(e) && IsOrder(order, e.ports) && AllProper(order, e.ports)
    ensures ParsePortList(PutU32(|e.ports|) + (PortsAs(version, order, e.ports) + r), version)
            == Got(Older(version, e).ports, r)
  {
    OrderIsProper(e, order);
    AllPorts(version, e, order);
    hide PutU32, GetU32, ParsePorts, PortsAs, RestrictedTo, Older, AllProper;
    GetU32Put(|e.ports|, PortsAs(version, order, e.ports) + r);
    ReadPortsAs(version, order, e.ports, map[], r);
  }

  lemma AllPorts(version: Byte, e: Entry, order: seq<Bytes>)
    requires version >= 2 && IsOrder(order, e.ports)
    ensures map[] + RestrictedTo(version, order, e.ports) == Older(version, e).ports
  {
    hide PortOf;
  }

  lemma ReadPreferredAs(version: Byte, e: Entry, r: Bytes)
    requires Proper(e)
    ensures ParsePreferred(PreferredAs(version, e) + r, version)
            == Got((Older(version, e).inputPort, Older(version, e).outputPort), r)
  {
    if version < 4 {
      assert [] + r == r;
    } else {
      var input, output := PutString(e.inputPort), PutString(e.outputPort);
      assert input + output + r == input + (output + r);
      GetStringPut(e.inputPort, output + r);
      GetStringPut(e.outputPort, r);
      hide PutString, GetString;
    }
  }

  lemma ReadStickyAs(version: Byte, e: Entry)
    ensures ParseSticky(StickyAs(version, e), version) == Got(version >= 5 && e.sticky, [])
  {
    if version >= 5 {
      assert PutBoolean(e.sticky) + [] == PutBoolean(e.sticky);
      GetBooleanPut(e.sticky, []);
      hide PutBoolean, GetBoolean;
    }
  }

  /** A record of any version is read as what that version knew of the entry, for every
      iteration order of the ports. */
  lemma VersionRoundTrip(version: Byte, e: Entry, order: seq<Bytes>)
    requires version <= ENTRY_VERSION && Proper(e) && IsOrder(order, e.ports)
    ensures AllProper(order, e.ports) && Parsed(WrittenAs(version, e, order)) == Some(Older(version, e))
  {
    OrderIsProper(e, order);
    var sticky := StickyAs(version, e);
    var tail := PreferredAs(version, e) + sticky;
    var list := ListAs(version, e, order) + tail;
    GetU8Put(version, PutString(e.profile) + list);
    GetStringPut(e.profile, list);
    ReadListAs(version, e, order, tail);
    ReadPreferredAs(version, e, sticky);
    ReadStickyAs(version, e);
    hide Proper, ProperPort, IsOrder, AllProper, PutU8, PutString, GetU8, GetString, ListAs, PreferredAs, StickyAs,
         ParsePortList, ParsePreferred, ParseSticky;
  }

  /** The current version is the one that entry_write() uses. */
  lemma CurrentVersion(e: Entry, order: seq<Bytes>)
    requires Proper(e) && IsOrder(order, e.ports)
    ensures AllProper(order, e.ports) && WrittenAs(ENTRY_VERSION, e, order) == Written(e, order)
    ensures Older(ENTRY_VERSION, e) == e.(profile := OrEmpty(e.profile))
  {
    OrderIsProper(e, order);
    SamePorts(order, e.ports);
    hide PutU8, PutString, PutU32, PutBoolean, WrittenPorts, PortsAs, Proper, ProperPort, IsOrder, AllProper;
    Regroup(PutU8(ENTRY_VERSION), PutString(e.profile), PutU32(|e.ports|), WrittenPorts(order, e.ports),
            PutString(e.inputPort), PutString(e.outputPort), PutBoolean(e.sticky));
    RegroupLists(PutU32(|e.ports|), WrittenPorts(order, e.ports), PutString(e.inputPort), PutString(e.outputPort),
                 PutBoolean(e.sticky));
  }

  lemma RegroupLists(c: Bytes, d: Bytes, e: Bytes, f: Bytes, g: Bytes)
    ensures c + d + (e + f + g) == c + (d + (e + (f + g)))
  {
  }

  lemma {:induction false} SamePorts(order: seq<Bytes>, ports: map<Bytes, PortInfo>)
    requires AllProper(order, ports)
    ensures PortsAs(ENTRY_VERSION, order, ports) == WrittenPorts(order, ports)
  {
    if order != [] {
      SamePort(order[0], ports[order[0]]);
      SamePorts(order[1..], ports);
      hide PortAs, WrittenPort;
    }
  }

  lemma SamePort(name: Bytes, p: PortInfo)
    requires ProperPort(name, p)
    ensures PortAs(ENTRY_VERSION, name, p) == WrittenPort(name, p)
  {
    hide PutString, PutS64;
  }
}

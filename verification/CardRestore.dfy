/** The entries that module-card-restore.c keeps in its database: the versioned
    writer and reader, the comparison that decides whether to write, and what
    putting a card does to the database. */
module CardRestore {
  import opened Options
  import opened Sequences
  import opened Tagstruct

  const ENTRY_VERSION: Byte := 5

  datatype PortInfo = PortInfo(offset: int, profile: Option<Bytes>)

  /** Ports are kept by name. */
  datatype Entry = Entry(
    profile: Option<Bytes>,
    ports: map<Bytes, PortInfo>,
    inputPort: Option<Bytes>,
    outputPort: Option<Bytes>,
    sticky: bool)

  ghost predicate IsNullable(s: Option<Bytes>) {
    s.Some? ==> IsCString(s.value)
  }

  /** An entry whose strings are C strings and whose numbers fit their C types. */
  ghost predicate Proper(e: Entry) {
    && IsNullable(e.profile) && IsNullable(e.inputPort) && IsNullable(e.outputPort)
    && |e.ports| < U32
    && (forall n :: n in e.ports ==> ProperPort(n, e.ports[n]))
  }

  ghost predicate ProperPort(name: Bytes, p: PortInfo) {
    IsCString(name) && IsNullable(p.profile) && -0x8000_0000_0000_0000 <= p.offset < 0x8000_0000_0000_0000
  }

  /** An order in which the port hashmap may be iterated. */
  ghost predicate IsOrder(order: seq<Bytes>, ports: map<Bytes, PortInfo>) {
    NoRepeats(order) && forall n :: n in order <==> n in ports
  }

  // ------------------------------------------------------------- specification

  ghost function WrittenPort(name: Bytes, p: PortInfo): Bytes
    requires ProperPort(name, p)
  {
    PutString(Some(name)) + PutS64(p.offset) + PutString(p.profile)
  }

  ghost predicate AllProper(order: seq<Bytes>, ports: map<Bytes, PortInfo>) {
    forall i :: 0 <= i < |order| ==> order[i] in ports && ProperPort(order[i], ports[order[i]])
  }

  ghost function WrittenPorts(order: seq<Bytes>, ports: map<Bytes, PortInfo>): Bytes
    requires AllProper(order, ports)
  {
    if order == [] then [] else WrittenPort(order[0], ports[order[0]]) + WrittenPorts(order[1..], ports)
  }

  ghost function WrittenTail(e: Entry): Bytes {
    PutString(e.inputPort) + PutString(e.outputPort) + PutBoolean(e.sticky)
  }

  /** The record that entry_write() stores. */
  ghost function Written(e: Entry, order: seq<Bytes>): Bytes
    requires Proper(e) && IsOrder(order, e.ports)
  {
    PutU8(ENTRY_VERSION) + PutString(e.profile) + PutU32(|e.ports|) + WrittenPorts(order, e.ports) + WrittenTail(e)
  }

  function ParsePort(b: Bytes, version: Byte): Got<(Bytes, PortInfo)> {
    match GetString(b)
    case Fail => Fail
    case Got(None, _) => Fail
    case Got(Some(name), b) =>
      match GetS64(b)
      case Fail => Fail
      case Got(offset, b) =>
        if version < 3 then Got((name, PortInfo(offset, None)), b)
        else
          match GetString(b)
          case Fail => Fail
          case Got(profile, b) => Got((name, PortInfo(offset, profile)), b)
  }

  function ParsePorts(b: Bytes, count: nat, version: Byte, ports: map<Bytes, PortInfo>): Got<map<Bytes, PortInfo>>
    decreases count
  {
    if count == 0 then Got(ports, b)
    else
      match ParsePort(b, version)
      case Fail => Fail
      case Got(p, b) =>
        if p.0 in ports then Fail else ParsePorts(b, count - 1, version, ports[p.0 := p.1])
  }

  function ParsePortList(b: Bytes, version: Byte): Got<map<Bytes, PortInfo>> {
    if version < 2 then Got(map[], b)
    else
      match GetU32(b)
      case Fail => Fail
      case Got(count, b) => ParsePorts(b, count, version, map[])
  }

  function ParsePreferred(b: Bytes, version: Byte): Got<(Option<Bytes>, Option<Bytes>)> {
    if version < 4 then Got((None, None), b)
    else
      match GetString(b)
      case Fail => Fail
      case Got(input, b) =>
        match GetString(b)
        case Fail => Fail
        case Got(output, b) => Got((input, output), b)
  }

  function ParseSticky(b: Bytes, version: Byte): Got<bool> {
    if version < 5 then Got(false, b) else GetBoolean(b)
  }

  /** A NULL profile is read as an empty one. */
  function OrEmpty(s: Option<Bytes>): Option<Bytes> {
    if s.None? then Some([]) else s
  }

  function ParseEntry(b: Bytes): Got<Entry> {
    match GetU8(b)
    case Fail => Fail
    case Got(version, b) =>
      if version > ENTRY_VERSION then Fail
      else
        match GetString(b)
        case Fail => Fail
        case Got(profile, b) =>
          match ParsePortList(b, version)
          case Fail => Fail
          case Got(ports, b) =>
            match ParsePreferred(b, version)
            case Fail => Fail
            case Got(preferred, b) =>
              match ParseSticky(b, version)
              case Fail => Fail
              case Got(sticky, b) =>
                Got(Entry(OrEmpty(profile), ports, preferred.0, preferred.1, sticky), b)
  }

  /** What entry_read() makes of a record: it must be used up. */
  function Parsed(b: Bytes): Option<Entry> {
    match ParseEntry(b)
    case Fail => None
    case Got(e, rest) => if rest == [] then Some(e) else None
  }

  // --------------------------------------------------------------- round trip

  ghost function Restricted(order: seq<Bytes>, ports: map<Bytes, PortInfo>): map<Bytes, PortInfo>
    requires forall i :: 0 <= i < |order| ==> order[i] in ports
  {
    map n | n in order :: ports[n]
  }

  lemma ParsePortWritten(name: Bytes, p: PortInfo, r: Bytes)
    requires ProperPort(name, p)
    ensures ParsePort(WrittenPort(name, p) + r, ENTRY_VERSION) == Got((name, p), r)
  {
    var b := PutS64(p.offset) + (PutString(p.profile) + r);
    assert WrittenPort(name, p) + r == PutString(Some(name)) + b;
    GetStringPut(Some(name), b);
    GetS64Put(p.offset, PutString(p.profile) + r);
    GetStringPut(p.profile, r);
    hide PutString, PutS64, GetString, GetS64;
  }

  lemma ParsePortsStep(name: Bytes, p: PortInfo, r: Bytes, count: nat, done: map<Bytes, PortInfo>)
    requires ProperPort(name, p) && name !in done
    ensures ParsePorts(WrittenPort(name, p) + r, count + 1, ENTRY_VERSION, done)
            == ParsePorts(r, count, ENTRY_VERSION, done[name := p])
  {
    ParsePortWritten(name, p, r);
    hide WrittenPort, ParsePort;
  }

  lemma WrittenPortsStep(order: seq<Bytes>, ports: map<Bytes, PortInfo>, r: Bytes)
    requires AllProper(order, ports) && order != []
    ensures WrittenPorts(order, ports) + r
            == WrittenPort(order[0], ports[order[0]]) + (WrittenPorts(order[1..], ports) + r)
  {
    hide WrittenPort;
  }

  lemma {:induction false} ParsePortsWritten(order: seq<Bytes>, ports: map<Bytes, PortInfo>,
                                             done: map<Bytes, PortInfo>, r: Bytes)
    requires AllProper(order, ports) && forall n :: n in order ==> n !in done
    requires NoRepeats(order)
    ensures ParsePorts(WrittenPorts(order, ports) + r, |order|, ENTRY_VERSION, done)
            == Got(done + Restricted(order, ports), r)
  {
    hide *;
    RestrictedSteps(order, ports, done);
    if order == [] {
      NoPorts(ports, done, r);
    } else {
      var n, rest := order[0], order[1..];
      PortsTail(order, ports, done);
      WrittenPortsStep(order, ports, r);
      ParsePortsStep(n, ports[n], WrittenPorts(rest, ports) + r, |rest|, done);
      ParsePortsWritten(rest, ports, done[n := ports[n]], r);
    }
  }

  lemma NoPorts(ports: map<Bytes, PortInfo>, done: map<Bytes, PortInfo>, r: Bytes)
    ensures ParsePorts(WrittenPorts([], ports) + r, 0, ENTRY_VERSION, done) == Got(done, r)
  {
    assert WrittenPorts([], ports) + r == r;
  }

  lemma PortsTail(order: seq<Bytes>, ports: map<Bytes, PortInfo>, done: map<Bytes, PortInfo>)
    requires order != [] && AllProper(order, ports) && NoRepeats(order) && forall n :: n in order ==> n !in done
    ensures AllProper(order[1..], ports) && NoRepeats(order[1..]) && order[0] in ports && order[0] !in done
    ensures ProperPort(order[0], ports[order[0]])
    ensures forall n :: n in order[1..] ==> n !in done[order[0] := ports[order[0]]]
  {
    hide ProperPort;
    assert order[0] in order && order[0] !in order[1..];
    assert forall n :: n in order[1..] ==> n in order;
  }

  lemma RestrictedSteps(order: seq<Bytes>, ports: map<Bytes, PortInfo>, done: map<Bytes, PortInfo>)
    requires AllProper(order, ports)
    ensures order == [] ==> done + Restricted(order, ports) == done
    ensures order != [] ==>
              done[order[0] := ports[order[0]]] + Restricted(order[1..], ports) == done + Restricted(order, ports)
  {
  }

  lemma OrderIsProper(e: Entry, order: seq<Bytes>)
    requires Proper(e) && IsOrder(order, e.ports)
    ensures AllProper(order, e.ports) && |order| == |e.ports| && Restricted(order, e.ports) == e.ports
  {
    assert forall i :: 0 <= i < |order| ==> order[i] in order;
    DistinctSize(order);
    assert (set n | n in order) == e.ports.Keys;
    hide ProperPort;
  }

  lemma ParsePortListWritten(e: Entry, order: seq<Bytes>, r: Bytes)
    requires Proper(e) && IsOrder(order, e.ports) && AllProper(order, e.ports)
    ensures ParsePortList(PutU32(|e.ports|) + (WrittenPorts(order, e.ports) + r), ENTRY_VERSION) == Got(e.ports, r)
  {
    OrderIsProper(e, order);
    GetU32Put(|e.ports|, WrittenPorts(order, e.ports) + r);
    ParsePortsWritten(order, e.ports, map[], r);
    assert map[] + Restricted(order, e.ports) == e.ports;
    hide PutU32, GetU32, ParsePorts;
  }

  lemma ParsePreferredWritten(input: Option<Bytes>, output: Option<Bytes>, r: Bytes)
    requires IsNullable(input) && IsNullable(output)
    ensures ParsePreferred(PutString(input) + (PutString(output) + r), ENTRY_VERSION) == Got((input, output), r)
  {
    GetStringPut(input, PutString(output) + r);
    GetStringPut(output, r);
    hide PutString, GetString;
  }

  /** Reading a written record gives back the entry, for every iteration order of
      the port map, with a NULL profile turned into an empty one. */
  lemma RoundTrip(e: Entry, order: seq<Bytes>)
    requires Proper(e) && IsOrder(order, e.ports)
    ensures AllProper(order, e.ports)
    ensures Parsed(Written(e, order)) == Some(e.(profile := OrEmpty(e.profile)))
  {
    hide ProperPort, IsOrder, AllProper, PutU8, PutU32, PutString, PutBoolean, GetU8, GetString, GetBoolean,
         ParsePortList, ParsePreferred, WrittenPorts;
    OrderIsProper(e, order);
    var sticky := PutBoolean(e.sticky);
    var tail := PutString(e.inputPort) + (PutString(e.outputPort) + sticky);
    var list := PutU32(|e.ports|) + (WrittenPorts(order, e.ports) + tail);
    Regroup(PutU8(ENTRY_VERSION), PutString(e.profile), PutU32(|e.ports|), WrittenPorts(order, e.ports),
            PutString(e.inputPort), PutString(e.outputPort), sticky);
    assert sticky + [] == sticky;
    GetU8Put(ENTRY_VERSION, PutString(e.profile) + list);
    GetStringPut(e.profile, list);
    ParsePortListWritten(e, order, tail);
    ParsePreferredWritten(e.inputPort, e.outputPort, sticky);
    GetBooleanPut(e.sticky, []);
  }

  lemma Regroup(a: Bytes, b: Bytes, c: Bytes, d: Bytes, e: Bytes, f: Bytes, g: Bytes)
    ensures a + b + c + d + (e + f + g) == a + (b + (c + (d + (e + (f + g)))))
  {
  }

  // ------------------------------------------- truncated and overlong records

  lemma ParsePortExtends(b: Bytes, version: Byte, x: Bytes)
    requires ParsePort(b, version).Got?
    ensures ParsePort(b + x, version) == Got(ParsePort(b, version).value, ParsePort(b, version).rest + x)
  {
    GetStringExtends(b, x);
    var b1 := GetString(b).rest;
    GetS64Extends(b1, x);
    if version >= 3 {
      GetStringExtends(GetS64(b1).rest, x);
    }
    hide GetString, GetS64;
  }

  lemma {:induction false} ParsePortsExtends(b: Bytes, count: nat, version: Byte, ports: map<Bytes, PortInfo>, x: Bytes)
    requires ParsePorts(b, count, version, ports).Got?
    ensures ParsePorts(b + x, count, version, ports)
            == Got(ParsePorts(b, count, version, ports).value, ParsePorts(b, count, version, ports).rest + x)
    decreases count
  {
    hide ParsePort;
    if count > 0 {
      ParsePortExtends(b, version, x);
      var p := ParsePort(b, version);
      ParsePortsExtends(p.rest, count - 1, version, ports[p.value.0 := p.value.1], x);
    }
  }

  lemma ParsePortListExtends(b: Bytes, version: Byte, x: Bytes)
    requires ParsePortList(b, version).Got?
    ensures ParsePortList(b + x, version) == Got(ParsePortList(b, version).value, ParsePortList(b, version).rest + x)
  {
    hide ParsePorts;
    if version >= 2 {
      GetU32Extends(b, x);
      ParsePortsExtends(GetU32(b).rest, GetU32(b).value, version, map[], x);
    }
    hide GetU32;
  }

  lemma ParsePreferredExtends(b: Bytes, version: Byte, x: Bytes)
    requires ParsePreferred(b, version).Got?
    ensures ParsePreferred(b + x, version) == Got(ParsePreferred(b, version).value, ParsePreferred(b, version).rest + x)
  {
    if version >= 4 {
      GetStringExtends(b, x);
      GetStringExtends(GetString(b).rest, x);
    }
    hide GetString;
  }

  lemma ParseEntryExtends(b: Bytes, x: Bytes)
    requires ParseEntry(b).Got?
    ensures ParseEntry(b + x) == Got(ParseEntry(b).value, ParseEntry(b).rest + x)
  {
    hide ParsePortList, ParsePreferred, ParseSticky;
    GetU8Extends(b, x);
    var version, b1 := GetU8(b).value, GetU8(b).rest;
    GetStringExtends(b1, x);
    var b2 := GetString(b1).rest;
    ParsePortListExtends(b2, version, x);
    var b3 := ParsePortList(b2, version).rest;
    ParsePreferredExtends(b3, version, x);
    ParseStickyExtends(ParsePreferred(b3, version).rest, version, x);
    hide GetU8, GetString;
  }

  lemma ParseStickyExtends(b: Bytes, version: Byte, x: Bytes)
    requires ParseSticky(b, version).Got?
    ensures ParseSticky(b + x, version) == Got(ParseSticky(b, version).value, ParseSticky(b, version).rest + x)
  {
    if version >= 5 {
      GetBooleanExtends(b, x);
    }
  }

  /** No record that is accepted, of any version, stays acceptable when bytes are
      cut off or added at its end. */
  lemma RecordsArePrefixFree(b: Bytes, x: Bytes)
    requires Parsed(b).Some? && x != []
    ensures Parsed(b + x).None?
    ensures forall k :: 0 <= k < |b| ==> Parsed(b[..k]).None?
  {
    hide ParseEntry;
    ParseEntryExtends(b, x);
    forall k | 0 <= k < |b|
      ensures Parsed(b[..k]).None?
    {
      assert b[..k] + b[k..] == b;
      if Parsed(b[..k]).Some? {
        ParseEntryExtends(b[..k], b[k..]);
      }
    }
  }

  // ------------------------------------------------------- writer and reader

  lemma {:induction false} WrittenPortsSnoc(order: seq<Bytes>, n: Bytes, ports: map<Bytes, PortInfo>)
    requires AllProper(order, ports) && n in ports && ProperPort(n, ports[n])
    ensures AllProper(order + [n], ports)
    ensures WrittenPorts(order + [n], ports) == WrittenPorts(order, ports) + WrittenPort(n, ports[n])
  {
    hide WrittenPort, ProperPort;
    if order == [] {
      assert order + [n] == [n];
      assert WrittenPorts([n], ports) == WrittenPort(n, ports[n]) + WrittenPorts([n][1..], ports);
    } else {
      assert (order + [n])[1..] == order[1..] + [n];
      WrittenPortsSnoc(order[1..], n, ports);
    }
  }

  /** The port loop of entry_write(). */
  method WritePorts(data: Bytes, ports: map<Bytes, PortInfo>, order: seq<Bytes>) returns (r: Bytes)
    requires AllProper(order, ports)
    ensures r == data + WrittenPorts(order, ports)
  {
    hide PutString, PutS64;
    r := data;
    for i := 0 to |order|
      invariant r == data + WrittenPorts(order[..i], ports)
    {
      var p := ports[order[i]];
      assert order[..i + 1] == order[..i] + [order[i]];
      WrittenPortsSnoc(order[..i], order[i], ports);
      var port := PutString(Some(order[i])) + PutS64(p.offset) + PutString(p.profile);
      r := r + port;
    }
    assert order[..|order|] == order;
  }

  /** entry_write(), up to the database: the port map is iterated in some order. */
  method EntryWrite(e: Entry, order: seq<Bytes>) returns (data: Bytes)
    requires Proper(e) && IsOrder(order, e.ports)
    ensures data == Written(e, order)
  {
    OrderIsProper(e, order);
    hide PutU8, PutU32, PutString, PutS64, PutBoolean, ProperPort;
    data := PutU8(ENTRY_VERSION);
    data := data + PutString(e.profile);
    data := data + PutU32(|e.ports|);
    data := WritePorts(data, e.ports, order);
    data := data + (PutString(e.inputPort) + PutString(e.outputPort) + PutBoolean(e.sticky));
  }

  /** One port in the loop of entry_read(). */
  method ReadPort(data: Bytes, version: Byte) returns (r: Got<(Bytes, PortInfo)>)
    ensures r == ParsePort(data, version)
  {
    hide GetString, GetS64;
    var name := GetString(data);
    if name.Fail? || name.value.None? {
      return Fail;
    }
    var offset := GetS64(name.rest);
    if offset.Fail? {
      return Fail;
    }
    var profile, b := None, offset.rest;
    if version >= 3 {
      var got := GetString(b);
      if got.Fail? {
        return Fail;
      }
      profile, b := got.value, got.rest;
    }
    r := Got((name.value.value, PortInfo(offset.value, profile)), b);
  }

  /** The port loop of entry_read(). */
  method ReadPorts(data: Bytes, count: nat, version: Byte) returns (r: Got<map<Bytes, PortInfo>>)
    ensures r == ParsePorts(data, count, version, map[])
  {
    hide ParsePort;
    var b, ports := data, map[];
    for i := 0 to count
      invariant ParsePorts(b, count - i, version, ports) == ParsePorts(data, count, version, map[])
    {
      var got := ReadPort(b, version);
      if got.Fail? || got.value.0 in ports {
        return Fail;
      }
      b, ports := got.rest, ports[got.value.0 := got.value.1];
    }
    r := Got(ports, b);
  }

  /** entry_read(), given the record found in the database. */
  method EntryRead(data: Bytes) returns (r: Option<Entry>)
    ensures r == Parsed(data)
  {
    hide GetU8, GetString, GetU32, GetBoolean, ParsePorts;
    r := None;
    var version := GetU8(data);
    if version.Fail? || version.value > ENTRY_VERSION {
      return;
    }
    var v := version.value;
    var profile := GetString(version.rest);
    if profile.Fail? {
      return;
    }
    var b := profile.rest;
    var e := Entry(OrEmpty(profile.value), map[], None, None, false);
    if v >= 2 {
      var count := GetU32(b);
      if count.Fail? {
        return;
      }
      var ports := ReadPorts(count.rest, count.value, v);
      if ports.Fail? {
        return;
      }
      b, e := ports.rest, e.(ports := ports.value);
    }
    if v >= 4 {
      var input := GetString(b);
      if input.Fail? {
        return;
      }
      var output := GetString(input.rest);
      if output.Fail? {
        return;
      }
      b, e := output.rest, e.(inputPort := input.value, outputPort := output.value);
    }
    if v >= 5 {
      var sticky := GetBoolean(b);
      if sticky.Fail? {
        return;
      }
      b, e := sticky.rest, e.(sticky := sticky.value);
    }
    if b == [] {
      r := Some(e);
    }
  }

  // ------------------------------------------------------------ putting a card

  /** The entries agree in everything but the profiles of their ports. */
  ghost predicate SameButPortProfiles(a: Entry, b: Entry) {
    && a.profile == b.profile && a.inputPort == b.inputPort && a.outputPort == b.outputPort && a.sticky == b.sticky
    && a.ports.Keys == b.ports.Keys
    && forall n :: n in a.ports ==> a.ports[n].offset == b.ports[n].offset
  }

  /** entrys_equal() compares the sizes of the port maps and then looks up the
      ports of the first in the second, which is enough. */
  method EntrysEqual(a: Entry, b: Entry, order: seq<Bytes>) returns (r: bool)
    requires a.profile.Some? && b.profile.Some? && IsOrder(order, a.ports)
    ensures r <==> SameButPortProfiles(a, b)
  {
    if a.profile.value != b.profile.value || |a.ports| != |b.ports| {
      return false;
    }
    var i := 0;
    while i < |order|
      invariant 0 <= i <= |order|
      invariant forall k :: 0 <= k < i ==> order[k] in b.ports && a.ports[order[k]].offset == b.ports[order[k]].offset
    {
      assert order[i] in order;
      if order[i] !in b.ports || a.ports[order[i]].offset != b.ports[order[i]].offset {
        return false;
      }
      i := i + 1;
    }
    SubsetOfSameSize(a.ports.Keys, b.ports.Keys);
    r := a.inputPort == b.inputPort && a.outputPort == b.outputPort && a.sticky == b.sticky;
  }

  lemma SubsetOfSameSize(a: set<Bytes>, b: set<Bytes>)
    ensures a <= b && |a| == |b| ==> a == b
  {
    if a <= b && |a| == |b| {
      assert |b - a| == |b| - |a|;
    }
  }

  /** The ports have unique names, the active profile is always known. */
  datatype Card = Card(
    name: Bytes,
    saveProfile: bool,
    sticky: bool,
    activeProfile: Bytes,
    ports: map<Bytes, PortInfo>,
    inputPort: Option<Bytes>,
    outputPort: Option<Bytes>)

  /** entry_from_card() */
  function EntryFromCard(c: Card): Entry {
    Entry(if c.saveProfile || c.sticky then Some(c.activeProfile) else None,
          c.ports, c.inputPort, c.outputPort, c.sticky)
  }

  /** The entry that card_put_hook_callback() wants to see stored. */
  function Wanted(c: Card, known: Option<Entry>): Entry {
    var e := EntryFromCard(c);
    if known.Some? && !c.saveProfile then e.(profile := known.value.profile) else e
  }

  type Database = map<Bytes, Bytes>

  function Stored(db: Database, name: Bytes): Option<Entry> {
    if name in db then Parsed(db[name]) else None
  }

  ghost predicate ProperCard(c: Card) {
    Proper(EntryFromCard(c).(profile := Some(c.activeProfile)))
  }

  lemma ReadProfile(b: Bytes)
    ensures Parsed(b).Some? ==> Parsed(b).value.profile.Some? && IsNullable(Parsed(b).value.profile)
  {
    hide ParsePortList, ParsePreferred, ParseSticky;
  }

  lemma WantedIsProper(db: Database, c: Card)
    requires ProperCard(c)
    ensures Proper(Wanted(c, Stored(db, c.name)))
    ensures Stored(db, c.name).Some? ==>
              Stored(db, c.name).value.profile.Some? && Wanted(c, Stored(db, c.name)).profile.Some?
  {
    if c.name in db {
      ReadProfile(db[c.name]);
    }
    hide Parsed;
  }

  /** The record is up to date, as far as the port profiles do not matter. */
  ghost predicate Settled(c: Card, known: Option<Entry>) {
    known.Some? && SameButPortProfiles(Wanted(c, known), known.value)
  }

  /** What putting a card makes of the database. */
  ghost function AfterPut(db: Database, c: Card, order: seq<Bytes>): Database
    requires ProperCard(c) && IsOrder(order, c.ports)
  {
    WantedIsProper(db, c);
    if Settled(c, Stored(db, c.name)) then db
    else db[c.name := Written(Wanted(c, Stored(db, c.name)), order)]
  }

  /** The record of a card says what the card says: its preferred ports, whether it is
      sticky, its ports with their offsets, and as the profile that of the former record if
      there was one and the card does not save its own, the active profile if the card saves
      it or is sticky, and none otherwise. */
  ghost predicate Says(now: Entry, c: Card, former: Option<Entry>) {
    && now.inputPort == c.inputPort && now.outputPort == c.outputPort && now.sticky == c.sticky
    && now.ports.Keys == c.ports.Keys && (forall n :: n in c.ports ==> now.ports[n].offset == c.ports[n].offset)
    && now.profile == if former.Some? && !c.saveProfile then former.value.profile
                      else if c.saveProfile || c.sticky then Some(c.activeProfile)
                      else Some([])
  }

  class Userdata {
    var database: Database

    /** card_put_hook_callback(), the ports being iterated in some order. */
    method CardPut(c: Card, order: seq<Bytes>)
      requires ProperCard(c) && IsOrder(order, c.ports)
      modifies this
      ensures database == AfterPut(old(database), c, order)
      ensures Stored(database, c.name).Some?
      ensures Says(Stored(database, c.name).value, c, Stored(old(database), c.name))
    {
      WantedIsProper(database, c);
      PutStores(database, c, order);
      hide Proper, IsOrder, Written, Parsed, SameButPortProfiles, Says;
      var entry := EntryFromCard(c);
      if c.name in database {
        var known := EntryRead(database[c.name]);
        if known.Some? {
          if !c.saveProfile {
            entry := entry.(profile := known.value.profile);
          }
          var same := EntrysEqual(entry, known.value, order);
          if same {
            return;
          }
        }
      }
      var data := EntryWrite(entry, order);
      database := database[c.name := data];
    }
  }

  /** Once a card was put, its record says what the card says. The profiles of the ports
      are the card's own exactly when the record was rewritten or had them already. Other
      cards' records are left alone. */
  lemma PutStores(db: Database, c: Card, order: seq<Bytes>)
    requires ProperCard(c) && IsOrder(order, c.ports)
    ensures
      var known, now := Stored(db, c.name), Stored(AfterPut(db, c, order), c.name);
      var wanted := Wanted(c, known);
      && now.Some?
      && SameButPortProfiles(now.value, wanted.(profile := OrEmpty(wanted.profile)))
      && Says(now.value, c, known)
      && (now.value.ports == c.ports <==> !Settled(c, known) || known.value.ports == c.ports)
    ensures forall n :: n != c.name ==> Stored(AfterPut(db, c, order), n) == Stored(db, n)
  {
    WantedIsProper(db, c);
    var known := Stored(db, c.name);
    if !Settled(c, known) {
      RoundTrip(Wanted(c, known), order);
    }
    hide Proper, IsOrder, Written, Parsed;
  }

  /** Putting the card again, with its ports in any order and any preferred port
      profiles, leaves the database unchanged. */
  lemma PutAgain(db: Database, c: Card, order: seq<Bytes>, ports: map<Bytes, PortInfo>, again: seq<Bytes>)
    requires ProperCard(c) && IsOrder(order, c.ports)
    requires ProperCard(c.(ports := ports)) && IsOrder(again, ports)
    requires ports.Keys == c.ports.Keys && forall n :: n in ports ==> ports[n].offset == c.ports[n].offset
    ensures AfterPut(AfterPut(db, c, order), c.(ports := ports), again) == AfterPut(db, c, order)
  {
    PutStores(db, c, order);
    WantedIsProper(db, c);
    hide Proper, IsOrder, Written, Parsed;
  }

  /** A second card_put of an unchanged card changes nothing. */
  lemma PutIsIdempotent(db: Database, c: Card, order: seq<Bytes>, again: seq<Bytes>)
    requires ProperCard(c) && IsOrder(order, c.ports) && IsOrder(again, c.ports)
    ensures AfterPut(AfterPut(db, c, order), c, again) == AfterPut(db, c, order)
  {
    PutAgain(db, c, order, c.ports, again);
    assert c.(ports := c.ports) == c;
    hide AfterPut;
  }

  /** A port profile that changes on its own is not stored by putting the card. */
  lemma PortProfileGoesStale()
    ensures
      exists db, c: Card, order ::
        && ProperCard(c) && IsOrder(order, c.ports)
        && Stored(AfterPut(db, c, order), c.name).Some?
        && Stored(AfterPut(db, c, order), c.name).value.ports != c.ports
  {
    var name: Bytes := [1];
    var order := [name];
    var was := Card(name, true, false, name, map[name := PortInfo(0, None)], None, None);
    var ports := map[name := PortInfo(0, Some(name))];
    var c := was.(ports := ports);
    assert order[0] == name;
    assert IsOrder(order, was.ports) && IsOrder(order, c.ports);
    PutStores(map[], was, order);
    PutAgain(map[], was, order, ports, order);
    var db := AfterPut(map[], was, order);
    assert AfterPut(db, c, order) == db;
    hide AfterPut, Parsed, Written;
    assert Stored(db, name).value.ports == was.ports;
    assert was.ports[name] != c.ports[name];
    assert Stored(AfterPut(db, c, order), c.name).value.ports != c.ports;
  }
}

/** What the REORDER command of module-device-manager.c does to the database. */
module DeviceReorder {
  import opened DeviceDatabase
  import opened Sequences

  const MAX_NAMED: nat := 256

  predicate SinkMode(names: seq<string>)
    requires names != []
  {
    Prefix(true) <= names[0]
  }

  /** The device is known and of the kind that the first one has. */
  ghost predicate Fits(db: Database, names: seq<string>, i: nat)
    requires i < |names|
  {
    names[i] in db && (i > 0 ==> Prefix(SinkMode(names)) <= names[i])
  }

  /** All devices named are known and of one kind. */
  ghost predicate Accepted(db: Database, names: seq<string>) {
    names != [] && forall i :: 0 <= i < |names| ==> Fits(db, names, i)
  }

  /** Where a name occurs first. */
  ghost function First(names: seq<string>, x: string): (i: nat)
    requires x in names
    ensures i < |names| && names[i] == x && x !in names[..i]
  {
    if names[0] == x then 0
    else
      var i := First(names[1..], x);
      assert names[..i + 1] == [names[0]] + names[1..][..i];
      i + 1
  }

  ghost function Named(names: seq<string>): set<string> { set x | x in names }

  /** The devices that are ranked anew: the ones named, and the others of their
      kind unless too many are named. */
  ghost function Listed(db: Database, names: seq<string>): set<string>
    requires names != []
  {
    if |Named(names)| < MAX_NAMED then Named(names) + Matching(db, {}, SinkMode(names)) else Named(names)
  }

  /** The devices with the prefix of the kind, apart from some. */
  ghost function Matching(db: Database, but: set<string>, sink: bool): set<string> {
    set k | k in db && k !in but && Prefix(sink) <= k
  }

  lemma MatchingStep(db: Database, but: set<string>, sink: bool, k: string)
    requires k in db && k in but
    ensures Matching(db, but - {k}, sink) == Matching(db, but, sink) + if Prefix(sink) <= k then {k} else {}
    ensures Matching(db, db.Keys, sink) == {} && Matching(db, but, sink) <= db.Keys
  {
    hide Prefix;
  }

  /** The devices named come first, by first occurrence; the others keep their order. */
  ghost predicate Before(db: Database, names: seq<string>, r: nat, a: string, b: string)
    requires a in db && b in db && r < NUM_ROLES
  {
    if a in names then b !in names || First(names, a) < First(names, b)
    else b !in names && db[a].priority[r] < db[b].priority[r]
  }

  ghost predicate Known(db: Database, s: seq<string>) {
    forall i :: 0 <= i < |s| ==> s[i] in db
  }

  ghost predicate InOrder(db: Database, names: seq<string>, r: nat, s: seq<string>)
    requires Known(db, s) && r < NUM_ROLES
  {
    forall i, j :: 0 <= i < j < |s| ==> Before(db, names, r, s[i], s[j])
  }

  ghost predicate IsRanking(db: Database, names: seq<string>, r: nat, s: seq<string>)
    requires names != [] && r < NUM_ROLES
  {
    Known(db, s) && InOrder(db, names, r, s) && forall k :: k in s <==> k in Listed(db, names)
  }

  /** The database with the ranks 1, 2, ... written to the devices of a list. */
  ghost function Ranked(db: Database, s: seq<string>, r: nat): (now: Database)
    requires Known(db, s) && r < NUM_ROLES
    ensures now.Keys == db.Keys
  {
    if s == [] then db
    else
      var was, k := Ranked(db, s[..|s| - 1], r), s[|s| - 1];
      was[k := was[k].(priority := was[k].priority[r := |s|])]
  }

  // --------------------------------------------------------- what a ranking means

  lemma InOrderIsDistinct(db: Database, names: seq<string>, r: nat, s: seq<string>)
    requires r < NUM_ROLES && Known(db, s) && InOrder(db, names, r, s)
    ensures NoRepeats(s)
  {
    forall i, j | 0 <= i < j < |s|
      ensures s[i] != s[j]
    {
      assert Before(db, names, r, s[i], s[j]);
    }
  }

  lemma {:induction false} RankedAt(db: Database, s: seq<string>, r: nat, i: nat)
    requires r < NUM_ROLES && Known(db, s) && NoRepeats(s) && i < |s|
    ensures Ranked(db, s, r)[s[i]] == db[s[i]].(priority := db[s[i]].priority[r := i + 1])
    decreases |s|
  {
    var n := |s| - 1;
    if i < n {
      RankedAt(db, s[..n], r, i);
    } else {
      RankedElsewhere(db, s[..n], r, s[n]);
    }
  }

  lemma RankedStep(db: Database, s: seq<string>, r: nat, i: nat)
    requires r < NUM_ROLES && Known(db, s) && i < |s|
    ensures
      var was := Ranked(db, s[..i], r);
      Ranked(db, s[..i + 1], r) == was[s[i] := was[s[i]].(priority := was[s[i]].priority[r := i + 1])]
  {
    assert s[..i + 1][..i] == s[..i];
  }

  lemma {:induction false} RankedElsewhere(db: Database, s: seq<string>, r: nat, k: string)
    requires r < NUM_ROLES && Known(db, s) && k in db && k !in s
    ensures Ranked(db, s, r)[k] == db[k]
  {
    if s != [] {
      RankedElsewhere(db, s[..|s| - 1], r, k);
    }
  }

  /** In a ranking the devices named stand exactly at the front. */
  lemma NamedAtFront(db: Database, names: seq<string>, r: nat, s: seq<string>, i: nat)
    requires names != [] && r < NUM_ROLES && IsRanking(db, names, r, s) && i < |s|
    ensures s[i] in names <==> i < |Named(names)|
  {
    var m := FrontLength(db, names, r, s);
    InOrderIsDistinct(db, names, r, s);
    DistinctSize(s[..m]);
    assert (set x | x in s[..m]) == Named(names);
  }

  lemma FrontLength(db: Database, names: seq<string>, r: nat, s: seq<string>) returns (m: nat)
    requires names != [] && r < NUM_ROLES && IsRanking(db, names, r, s)
    ensures m <= |s| && (forall i :: 0 <= i < |s| ==> (s[i] in names <==> i < m))
    ensures forall k :: k in names ==> k in s[..m]
  {
    m := 0;
    while m < |s| && s[m] in names
      invariant m <= |s| && forall i :: 0 <= i < m ==> s[i] in names
    {
      m := m + 1;
    }
    forall i | m < i < |s|
      ensures s[i] !in names
    {
      assert Before(db, names, r, s[m], s[i]);
    }
    forall k | k in names
      ensures k in s[..m]
    {
      assert k in s;
    }
  }

  ghost function Rank(now: Database, k: string, r: nat): nat
    requires r < NUM_ROLES
  {
    if k in now then now[k].priority[r] else 0
  }

  /** The devices named get the ranks 1 to k in the order of their first
      occurrence, the other listed ones k + 1 to n in their former order, and
      nothing else changes. */
  ghost predicate Reordered(db: Database, names: seq<string>, r: nat, now: Database)
    requires names != [] && r < NUM_ROLES
  {
    var listed, k := Listed(db, names), |Named(names)|;
    && now.Keys == db.Keys
    && (forall d :: d in db && d !in listed ==> now[d] == db[d])
    && (forall d :: d in db && d in listed ==> now[d] == db[d].(priority := db[d].priority[r := Rank(now, d, r)]))
    && (forall d :: d in listed && d in names ==> 1 <= Rank(now, d, r) <= k)
    && (forall d :: d in listed && d !in names ==> k < Rank(now, d, r) <= |listed|)
    && (forall a, b :: a in listed && b in listed && a in db && b in db ==>
          (Rank(now, a, r) < Rank(now, b, r) <==> Before(db, names, r, a, b)))
  }

  /** The rank of a listed device is its position in the ranking, counted from 1. */
  lemma RankIsPosition(db: Database, names: seq<string>, r: nat, s: seq<string>, d: string) returns (i: nat)
    requires names != [] && r < NUM_ROLES && IsRanking(db, names, r, s) && d in Listed(db, names)
    ensures i < |s| && s[i] == d && d in db && Rank(Ranked(db, s, r), d, r) == i + 1
    ensures Ranked(db, s, r)[d] == db[d].(priority := db[d].priority[r := i + 1])
    ensures d in names <==> i < |Named(names)|
  {
    assert d in s;
    i :| 0 <= i < |s| && s[i] == d;
    InOrderIsDistinct(db, names, r, s);
    RankedAt(db, s, r, i);
    NamedAtFront(db, names, r, s, i);
  }

  lemma ListedSize(db: Database, names: seq<string>, r: nat, s: seq<string>)
    requires names != [] && r < NUM_ROLES && IsRanking(db, names, r, s)
    ensures |s| == |Listed(db, names)|
  {
    InOrderIsDistinct(db, names, r, s);
    DistinctSize(s);
    assert (set x | x in s) == Listed(db, names);
  }

  lemma BeforeIsStrict(db: Database, names: seq<string>, r: nat, a: string, b: string)
    requires a in db && b in db && r < NUM_ROLES
    ensures !(Before(db, names, r, a, b) && Before(db, names, r, b, a))
  {
  }

  lemma RankOrder(db: Database, names: seq<string>, r: nat, s: seq<string>, a: string, b: string)
    requires names != [] && r < NUM_ROLES && IsRanking(db, names, r, s)
    requires a in Listed(db, names) && b in Listed(db, names) && a in db && b in db
    ensures Rank(Ranked(db, s, r), a, r) < Rank(Ranked(db, s, r), b, r) <==> Before(db, names, r, a, b)
  {
    hide Listed, Ranked, Rank, Before, IsRanking, Named;
    var i := RankIsPosition(db, names, r, s, a);
    var j := RankIsPosition(db, names, r, s, b);
    BeforeIsStrict(db, names, r, a, b);
    if i < j {
      PositionOrder(db, names, r, s, i, j);
    } else if j < i {
      PositionOrder(db, names, r, s, j, i);
    }
  }

  lemma PositionOrder(db: Database, names: seq<string>, r: nat, s: seq<string>, i: nat, j: nat)
    requires names != [] && r < NUM_ROLES && IsRanking(db, names, r, s) && i < j < |s|
    ensures s[i] in db && s[j] in db && Before(db, names, r, s[i], s[j])
  {
    hide Listed, Before;
  }

  /** Writing the ranks of a ranking is what REORDER promises. */
  lemma RankingReorders(db: Database, names: seq<string>, r: nat, s: seq<string>)
    requires names != [] && r < NUM_ROLES && IsRanking(db, names, r, s)
    ensures Reordered(db, names, r, Ranked(db, s, r))
  {
    hide Listed, Ranked, Rank, Before, InOrder;
    ListedSize(db, names, r, s);
    var listed, now := Listed(db, names), Ranked(db, s, r);
    forall d | d in db && d !in listed
      ensures now[d] == db[d]
    {
      UnlistedStays(db, names, r, s, d);
    }
    forall d | d in listed
      ensures d in db && now[d] == db[d].(priority := db[d].priority[r := Rank(now, d, r)])
      ensures 1 <= Rank(now, d, r) <= |s| && (d in names <==> Rank(now, d, r) <= |Named(names)|)
    {
      var i := RankIsPosition(db, names, r, s, d);
    }
    forall a, b | a in listed && b in listed && a in db && b in db
      ensures Rank(now, a, r) < Rank(now, b, r) <==> Before(db, names, r, a, b)
    {
      RankOrder(db, names, r, s, a, b);
    }
  }

  lemma UnlistedStays(db: Database, names: seq<string>, r: nat, s: seq<string>, d: string)
    requires names != [] && r < NUM_ROLES && IsRanking(db, names, r, s) && d in db && d !in Listed(db, names)
    ensures Ranked(db, s, r)[d] == db[d]
  {
    RankedElsewhere(db, s, r, d);
  }

  /** The outcome does not depend on the orders in which the database and the
      hashmap are gone through: there is one ranking only. */
  lemma {:induction false} RankingIsUnique(db: Database, names: seq<string>, r: nat, s: seq<string>, t: seq<string>)
    requires r < NUM_ROLES && Known(db, s) && InOrder(db, names, r, s) && Known(db, t) && InOrder(db, names, r, t)
    requires forall k :: k in s <==> k in t
    ensures s == t
  {
    assert t == [] || t[0] in t;
    assert s == [] || s[0] in s;
    if s != [] {
      SameHead(db, names, r, s, t);
      InOrderIsDistinct(db, names, r, s);
      InOrderIsDistinct(db, names, r, t);
      hide Before;
      forall k
        ensures k in s[1..] <==> k in t[1..]
      {
        assert k in s <==> k == s[0] || k in s[1..];
        assert k in t <==> k == t[0] || k in t[1..];
      }
      RankingIsUnique(db, names, r, s[1..], t[1..]);
    }
  }

  lemma SameHead(db: Database, names: seq<string>, r: nat, s: seq<string>, t: seq<string>)
    requires r < NUM_ROLES && Known(db, s) && InOrder(db, names, r, s) && Known(db, t) && InOrder(db, names, r, t)
    requires s != [] && t != [] && s[0] in t && t[0] in s
    ensures s[0] == t[0]
  {
    var i :| 0 <= i < |s| && s[i] == t[0];
    var j :| 0 <= j < |t| && t[j] == s[0];
    assert i == 0 || Before(db, names, r, s[0], s[i]);
    assert j == 0 || Before(db, names, r, t[0], t[j]);
    BeforeIsStrict(db, names, r, s[0], t[0]);
    hide Before;
  }

  // --------------------------------------------------------------------- validity

  /** All listed devices are of the kind that was asked for. */
  lemma ListedKind(db: Database, names: seq<string>, d: string)
    requires Valid(db) && Accepted(db, names) && d in Listed(db, names)
    ensures d in db && OfKind(SinkMode(names), d) && !OfKind(!SinkMode(names), d)
  {
    if d in names {
      var i :| 0 <= i < |names| && names[i] == d;
      assert Fits(db, names, i);
    }
    KindsAreDisjoint(true, d);
    hide Distinct;
  }

  /** The names leave out no device whose rank they would take. */
  ghost predicate RoomLeft(db: Database, names: seq<string>, r: nat)
    requires names != [] && r < NUM_ROLES
  {
    |Named(names)| < MAX_NAMED
    || forall d :: d in db && d !in names && OfKind(SinkMode(names), d) ==> db[d].priority[r] > |Named(names)|
  }

  lemma BeforeIsTotal(db: Database, names: seq<string>, r: nat, sink: bool, a: string, b: string)
    requires Valid(db) && a in db && b in db && a != b && OfKind(sink, a) && OfKind(sink, b) && r < NUM_ROLES
    ensures Before(db, names, r, a, b) || Before(db, names, r, b, a)
  {
    hide OfKind, Valid;
    assert Distinct(db, sink) by { DistinctFromValid(db, sink); }
  }

  lemma DistinctFromValid(db: Database, sink: bool)
    requires Valid(db)
    ensures Distinct(db, sink)
  {
    hide Distinct, OfKind;
  }

  /** A device of the kind that is not ranked anew was not named, and all ranks
      handed out go to devices that were. */
  lemma Unlisted(db: Database, names: seq<string>, d: string)
    requires names != [] && d in db && OfKind(SinkMode(names), d) && d !in Listed(db, names)
    ensures |Named(names)| >= MAX_NAMED && d !in names && Listed(db, names) == Named(names)
  {
  }

  lemma RanksDiffer(db: Database, names: seq<string>, r: nat, s: seq<string>, a: string, b: string)
    requires Valid(db) && Accepted(db, names) && r < NUM_ROLES && IsRanking(db, names, r, s) && RoomLeft(db, names, r)
    requires a in db && b in db && a != b && OfKind(SinkMode(names), a) && OfKind(SinkMode(names), b)
    ensures Rank(Ranked(db, s, r), a, r) != Rank(Ranked(db, s, r), b, r)
  {
    hide Listed, Ranked, OfKind, Before, Named, Valid, InOrder;
    RankingReorders(db, names, r, s);
    var listed := Listed(db, names);
    if a in listed && b in listed {
      BeforeIsTotal(db, names, r, SinkMode(names), a, b);
    } else if a in listed {
      Unlisted(db, names, b);
      NamedAre(names, a);
    } else if b in listed {
      Unlisted(db, names, a);
      NamedAre(names, b);
    } else {
      DistinctFromValid(db, SinkMode(names));
    }
  }

  lemma NamedAre(names: seq<string>, d: string)
    ensures d in Named(names) <==> d in names
  {
  }

  lemma RoomKeepsValid(db: Database, names: seq<string>, r: nat, s: seq<string>)
    requires Valid(db) && Accepted(db, names) && r < NUM_ROLES && IsRanking(db, names, r, s) && RoomLeft(db, names, r)
    ensures Valid(Ranked(db, s, r))
  {
    hide Valid, Listed, Ranked, OfKind, Before, Named, InOrder, RoomLeft, SinkMode, Rank, Reordered;
    RankingReorders(db, names, r, s);
    var now, mode := Ranked(db, s, r), SinkMode(names);
    forall a, b | a in db && b in db && a != b && OfKind(mode, a) && OfKind(mode, b)
      ensures Rank(now, a, r) != Rank(now, b, r)
    {
      RanksDiffer(db, names, r, s, a, b);
    }
    forall d | d in db
      ensures OneRoleOnly(db[d], now[d], r) && (OfKind(!mode, d) ==> now[d] == db[d])
    {
      ReorderedElsewhere(db, names, r, now, d);
    }
    OneRoleValid(db, now, r, mode);
  }

  /** The entries agree but for one role, in which the second has a rank. */
  ghost predicate OneRoleOnly(was: Entry, now: Entry, r: nat) {
    && (forall q :: 0 <= q < NUM_ROLES && q != r ==> now.priority[q] == was.priority[q])
    && (r < NUM_ROLES ==> now.priority[r] >= 1)
  }

  lemma ReorderedElsewhere(db: Database, names: seq<string>, r: nat, now: Database, d: string)
    requires Valid(db) && Accepted(db, names) && r < NUM_ROLES && Reordered(db, names, r, now) && d in db
    ensures d in now && OneRoleOnly(db[d], now[d], r) && (OfKind(!SinkMode(names), d) ==> now[d] == db[d])
  {
    if d in Listed(db, names) {
      ListedKind(db, names, d);
    }
    hide Listed, OfKind, Before, Named, SinkMode, Distinct;
  }

  lemma OneRoleValid(db: Database, now: Database, r: nat, mode: bool)
    requires Valid(db) && r < NUM_ROLES && now.Keys == db.Keys
    requires forall d :: d in db ==> OneRoleOnly(db[d], now[d], r) && (OfKind(!mode, d) ==> now[d] == db[d])
    requires forall a, b | a in db && b in db && a != b && OfKind(mode, a) && OfKind(mode, b) ::
               Rank(now, a, r) != Rank(now, b, r)
    ensures Valid(now)
  {
    hide OfKind;
    assert Distinct(now, mode);
    assert Distinct(now, !mode);
  }

  /** With 256 or more devices named, a device that is left out keeps its rank, so
      the ranks stay distinct if and only if all those kept lie above the new ones. */
  lemma ReorderKeepsValid(db: Database, names: seq<string>, r: nat, s: seq<string>)
    requires Valid(db) && Accepted(db, names) && r < NUM_ROLES && IsRanking(db, names, r, s)
    ensures Valid(Ranked(db, s, r)) <==> RoomLeft(db, names, r)
  {
    if RoomLeft(db, names, r) {
      RoomKeepsValid(db, names, r, s);
    } else {
      var d :| d in db && d !in names && OfKind(SinkMode(names), d) && db[d].priority[r] <= |Named(names)|;
      RankTaken(db, names, r, s, d);
    }
  }

  lemma RankTaken(db: Database, names: seq<string>, r: nat, s: seq<string>, d: string)
    requires Valid(db) && Accepted(db, names) && r < NUM_ROLES && IsRanking(db, names, r, s)
    requires |Named(names)| >= MAX_NAMED && d in db && d !in names && OfKind(SinkMode(names), d)
    requires db[d].priority[r] <= |Named(names)|
    ensures !Distinct(Ranked(db, s, r), SinkMode(names))
  {
    hide OfKind, Before, InOrder, Distinct;
    ListedSize(db, names, r, s);
    var now, p := Ranked(db, s, r), db[d].priority[r];
    var other := s[p - 1];
    assert other in s && other in Listed(db, names);
    ListedKind(db, names, other);
    InOrderIsDistinct(db, names, r, s);
    RankedAt(db, s, r, p - 1);
    RankedElsewhere(db, s, r, d);
    SharedRank(now, SinkMode(names), r, d, other);
  }

  lemma SharedRank(db: Database, sink: bool, r: nat, a: string, b: string)
    requires a in db && b in db && a != b && OfKind(sink, a) && OfKind(sink, b) && r < NUM_ROLES
    requires db[a].priority[r] == db[b].priority[r]
    ensures !Distinct(db, sink)
  {
  }

  // ------------------------------------------------------------- 256 names or more

  function Sink(i: nat): string { Prefix(true) + seq(i + 1, _ => 'a') }

  lemma SinkKeys(i: nat)
    ensures OfKind(true, Sink(i)) && !OfKind(false, Sink(i)) && |Sink(i)| == i + 6
  {
    KindsAreDisjoint(true, Sink(i));
  }

  /** A database of 257 sinks with the ranks 1 to 257 in every role. */
  ghost function ManySinks(): Database {
    SinksDiffer();
    map i | 0 <= i < 257 :: Sink(i) := Entry("", false, "", seq(NUM_ROLES, _ => i + 1))
  }

  lemma SinksDiffer()
    ensures forall i, j | 0 <= i < j :: Sink(i) != Sink(j)
  {
    forall i, j | 0 <= i < j
      ensures Sink(i) != Sink(j)
    {
      SinkKeys(i);
      SinkKeys(j);
    }
  }

  lemma SinkAt(k: string) returns (i: nat)
    requires k in ManySinks()
    ensures i < 257 && k == Sink(i) && OfKind(true, k) && !OfKind(false, k)
    ensures forall r :: 0 <= r < NUM_ROLES ==> ManySinks()[k].priority[r] == i + 1
  {
    i :| 0 <= i < 257 && k == Sink(i);
    SinkKeys(i);
    SinksDiffer();
    hide OfKind, Sink;
  }

  lemma ManySinksAreValid()
    ensures Valid(ManySinks())
  {
    hide ManySinks, OfKind, Sink;
    var db := ManySinks();
    forall k | k in db
      ensures OfKind(true, k) && !OfKind(false, k) && forall r :: 0 <= r < NUM_ROLES ==> db[k].priority[r] >= 1
    {
      var i := SinkAt(k);
    }
    forall a, b, r | a in db && b in db && a != b && 0 <= r < NUM_ROLES
      ensures db[a].priority[r] != db[b].priority[r]
    {
      var i := SinkAt(a);
      var j := SinkAt(b);
    }
  }

  ghost function AllButFirst(): (names: seq<string>)
    ensures |names| == 256 && forall i :: 0 <= i < 256 ==> names[i] == Sink(i + 1)
  {
    seq(256, i requires 0 <= i < 256 => Sink(i + 1))
  }

  lemma AllButFirstDiffer()
    ensures NoRepeats(AllButFirst()) && |Named(AllButFirst())| == 256 && Sink(0) !in AllButFirst()
    ensures forall i :: 0 <= i < 256 ==> AllButFirst()[i] in ManySinks() && Prefix(true) <= AllButFirst()[i]
  {
    SinksDiffer();
    DistinctSize(AllButFirst());
    forall i | 0 <= i < 256
      ensures AllButFirst()[i] in ManySinks() && Prefix(true) <= AllButFirst()[i]
    {
      assert AllButFirst()[i] == Sink(i + 1);
    }
    hide Sink;
  }

  lemma {:induction false} FirstOfDistinct(names: seq<string>, i: nat)
    requires NoRepeats(names) && i < |names|
    ensures First(names, names[i]) == i
  {
  }

  /** A list without repeats is in its own order. */
  lemma RanksItself(db: Database, names: seq<string>)
    requires names != [] && NoRepeats(names) && |Named(names)| >= MAX_NAMED && Known(db, names)
    ensures IsRanking(db, names, 0, names)
  {
    forall i | 0 <= i < |names|
      ensures First(names, names[i]) == i
    {
      FirstOfDistinct(names, i);
    }
    hide First;
  }

  /** Naming all sinks but the first gives the second one the first one's rank. */
  lemma ReorderCanCollide()
    ensures
      exists db, names :: Valid(db) && Accepted(db, names) && IsRanking(db, names, 0, names)
        && !Valid(Ranked(db, names, 0))
  {
    var db, names := ManySinks(), AllButFirst();
    ManySinksAreValid();
    AllButFirstDiffer();
    assert Sink(0) in db && db[Sink(0)].priority[0] == 1;
    SinkKeys(0);
    hide ManySinks, AllButFirst, Named, Sink, Prefix, OfKind, IsRanking, Valid;
    assert Accepted(db, names);
    RanksItself(db, names);
    assert !RoomLeft(db, names, 0);
    ReorderKeepsValid(db, names, 0, names);
    assert !Valid(Ranked(db, names, 0));
  }

  // ------------------------------------------------------------------ the algorithm

  /** The numbers given to the first i names: they follow the first occurrences. */
  ghost predicate Numbered(names: seq<string>, i: nat, h: map<string, nat>)
    requires i <= |names|
  {
    && (forall x :: x in h <==> x in names[..i])
    && (forall x :: x in h ==> x in names && h[x] < |h|)
    && (forall x, y :: x in h && y in h ==>
          x in names && y in names && (h[x] < h[y] <==> First(names, x) < First(names, y)))
  }

  lemma FirstBefore(names: seq<string>, i: nat, x: string)
    requires i <= |names| && x in names[..i]
    ensures x in names && First(names, x) < i
  {
  }

  lemma FirstAt(names: seq<string>, i: nat)
    requires i < |names| && names[i] !in names[..i]
    ensures First(names, names[i]) == i
  {
  }

  lemma NumberedStep(names: seq<string>, i: nat, h: map<string, nat>)
    requires i < |names| && Numbered(names, i, h)
    ensures Numbered(names, i + 1, if names[i] in h then h else h[names[i] := |h|])
  {
    hide First;
    var x := names[i];
    assert names[..i + 1] == names[..i] + [x];
    forall y | y in names[..i]
      ensures y in names && First(names, y) < i
    {
      FirstBefore(names, i, y);
    }
    if x !in h {
      FirstAt(names, i);
    }
  }

  /** The sort key of every listed device. */
  ghost predicate IsWeights(db: Database, names: seq<string>, r: nat, w: map<string, nat>)
    requires names != [] && r < NUM_ROLES
  {
    && (forall d :: d in w <==> d in Listed(db, names))
    && (forall d :: d in w ==> d in db)
    && (forall a, b :: a in w && b in w ==> a in db && b in db && (w[a] < w[b] <==> Before(db, names, r, a, b)))
    && (forall a, b :: a in w && b in w && a != b ==> w[a] != w[b])
  }

  ghost function Combined(db: Database, named: map<string, nat>, listed: set<string>, r: nat): map<string, nat>
    requires r < NUM_ROLES && listed <= db.Keys
  {
    map d | d in listed :: WeightOf(db, named, d, r)
  }

  ghost function WeightOf(db: Database, named: map<string, nat>, d: string, r: nat): nat
    requires r < NUM_ROLES && d in db
  {
    if d in named then named[d] else |named| + db[d].priority[r]
  }

  lemma CombinedStep(db: Database, named: map<string, nat>, listed: set<string>, k: string, r: nat)
    requires r < NUM_ROLES && listed <= db.Keys && k in db
    ensures Combined(db, named, listed, r).Keys == listed
    ensures k in listed ==> listed + {k} == listed
    ensures k !in listed ==>
            Combined(db, named, listed + {k}, r) == Combined(db, named, listed, r)[k := WeightOf(db, named, k, r)]
  {
    hide WeightOf;
  }

  lemma CombinedNamed(db: Database, named: map<string, nat>, r: nat)
    requires r < NUM_ROLES && named.Keys <= db.Keys
    ensures Combined(db, named, named.Keys, r) == named
  {
  }

  lemma CombinedWeights(db: Database, names: seq<string>, r: nat, named: map<string, nat>)
    requires Valid(db) && Accepted(db, names) && r < NUM_ROLES && Numbered(names, |names|, named)
    requires Listed(db, names) <= db.Keys
    ensures IsWeights(db, names, r, Combined(db, named, Listed(db, names), r))
  {
    hide Listed, Before, Valid, Numbered, WeightOf;
    var listed := Listed(db, names);
    var w := Combined(db, named, listed, r);
    forall a, b | a in listed && b in listed
      ensures w[a] < w[b] <==> Before(db, names, r, a, b)
      ensures a != b ==> Before(db, names, r, a, b) || Before(db, names, r, b, a)
    {
      CombinedOrder(db, names, r, named, a, b);
      ListedOrder(db, names, r, a, b);
    }
  }

  lemma ListedOrder(db: Database, names: seq<string>, r: nat, a: string, b: string)
    requires Valid(db) && Accepted(db, names) && r < NUM_ROLES && a in Listed(db, names) && b in Listed(db, names)
    ensures a in db && b in db && (a != b ==> Before(db, names, r, a, b) || Before(db, names, r, b, a))
  {
    hide Before;
    ListedKind(db, names, a);
    ListedKind(db, names, b);
    if a != b {
      BeforeIsTotal(db, names, r, SinkMode(names), a, b);
    }
  }

  lemma CombinedOrder(db: Database, names: seq<string>, r: nat, named: map<string, nat>, a: string, b: string)
    requires Valid(db) && r < NUM_ROLES && Numbered(names, |names|, named) && a in db && b in db
    ensures WeightOf(db, named, a, r) < WeightOf(db, named, b, r) <==> Before(db, names, r, a, b)
  {
    assert names[..|names|] == names;
    hide OfKind, Distinct, First;
  }

  datatype Weighted = Weighted(prio: nat, device: string)

  /** A list of all devices with their weights, in some order. */
  ghost predicate IsListing(s: seq<Weighted>, w: map<string, nat>) {
    && (forall i :: 0 <= i < |s| ==> s[i].device in w && s[i].prio == w[s[i].device])
    && (forall i, j :: 0 <= i < j < |s| ==> s[i].device != s[j].device)
    && (forall d :: d in w ==> exists i :: 0 <= i < |s| && s[i].device == d)
  }

  /** The devices listed so far and those still to come. */
  ghost predicate IsPart(s: seq<Weighted>, rest: map<string, nat>, w: map<string, nat>) {
    && (forall d :: d in rest ==> d in w && rest[d] == w[d])
    && (forall i :: 0 <= i < |s| ==> s[i].device in w && s[i].device !in rest && s[i].prio == w[s[i].device])
    && (forall i, j :: 0 <= i < j < |s| ==> s[i].device != s[j].device)
    && (forall d :: d in w && d !in rest ==> exists i :: 0 <= i < |s| && s[i].device == d)
  }

  lemma PartGrows(s: seq<Weighted>, rest: map<string, nat>, w: map<string, nat>, d: string)
    requires IsPart(s, rest, w) && d in rest
    ensures IsPart(s + [Weighted(rest[d], d)], rest - {d}, w)
  {
    var t := s + [Weighted(rest[d], d)];
    assert forall i :: 0 <= i < |s| ==> t[i] == s[i];
    assert t[|s|].device == d;
    forall x | x in w && x !in rest - {d}
      ensures exists i :: 0 <= i < |t| && t[i].device == x
    {
      if x != d {
        var i :| 0 <= i < |s| && s[i].device == x;
        assert t[i].device == x;
      }
    }
  }

  lemma SwapKeepsListing(s: seq<Weighted>, w: map<string, nat>, i: nat, j: nat)
    requires IsListing(s, w) && i < |s| && j < |s|
    ensures IsListing(s[i := s[j]][j := s[i]], w)
  {
    var t := s[i := s[j]][j := s[i]];
    forall d | d in w
      ensures exists k :: 0 <= k < |t| && t[k].device == d
    {
      var k :| 0 <= k < |s| && s[k].device == d;
      assert t[if k == i then j else if k == j then i else k].device == d;
    }
  }

  /** Position i and all before it hold their final devices. */
  ghost predicate Selected(s: seq<Weighted>, i: nat) {
    forall a, b :: 0 <= a < i && a < b < |s| ==> s[a].prio <= s[b].prio
  }

  ghost predicate LeastBefore(s: seq<Weighted>, i: nat, j: nat) {
    i < |s| && j <= |s| && forall b :: i <= b < j ==> s[i].prio <= s[b].prio
  }

  lemma SelectionStep(s: seq<Weighted>, i: nat, j: nat)
    requires i <= j < |s| && Selected(s, i) && LeastBefore(s, i, j)
    ensures
      var t := if s[i].prio > s[j].prio then s[i := s[j]][j := s[i]] else s;
      Selected(t, i) && LeastBefore(t, i, j + 1)
  {
  }

  /** One pass of the sort: the least of the rest is brought to position i. */
  method SelectionPass(devices: array<Weighted>, i: nat, ghost w: map<string, nat>)
    requires i < devices.Length && Selected(devices[..], i) && IsListing(devices[..], w)
    modifies devices
    ensures Selected(devices[..], i + 1) && IsListing(devices[..], w)
  {
    hide IsListing;
    for j := i to devices.Length
      invariant Selected(devices[..], i) && IsListing(devices[..], w) && LeastBefore(devices[..], i, j)
    {
      SelectionStep(devices[..], i, j);
      SwapKeepsListing(devices[..], w, i, j);
      hide Selected, LeastBefore;
      ghost var swapped := devices[..][i := devices[j]][j := devices[i]];
      if devices[i].prio > devices[j].prio {
        devices[i], devices[j] := devices[j], devices[i];
        assert devices[..] == swapped;
      }
    }
  }

  method SortDevices(devices: array<Weighted>, ghost w: map<string, nat>)
    requires IsListing(devices[..], w)
    modifies devices
    ensures Selected(devices[..], devices.Length) && IsListing(devices[..], w)
  {
    for i := 0 to devices.Length
      invariant Selected(devices[..], i) && IsListing(devices[..], w)
    {
      SelectionPass(devices, i, w);
    }
  }

  ghost function NamesOf(s: seq<Weighted>): (names: seq<string>)
    ensures |names| == |s| && forall i :: 0 <= i < |s| ==> names[i] == s[i].device
  {
    seq(|s|, i requires 0 <= i < |s| => s[i].device)
  }

  /** A sorted listing is the ranking. */
  lemma SortedIsRanking(db: Database, names: seq<string>, r: nat, w: map<string, nat>, s: seq<Weighted>)
    requires names != [] && r < NUM_ROLES && IsWeights(db, names, r, w) && IsListing(s, w) && Selected(s, |s|)
    ensures IsRanking(db, names, r, NamesOf(s))
  {
    hide Before, Listed;
    var t := NamesOf(s);
    forall i, j | 0 <= i < j < |t|
      ensures t[i] in db && t[j] in db && Before(db, names, r, t[i], t[j])
    {
      assert s[i].prio <= s[j].prio && s[i].device != s[j].device;
      assert w[t[i]] < w[t[j]];
    }
    forall d
      ensures d in t <==> d in w
    {
      if d in t {
        var i :| 0 <= i < |t| && t[i] == d;
        assert s[i].device == d;
      }
      if d in w {
        var i :| 0 <= i < |s| && s[i].device == d;
        assert t[i] == d;
      }
    }
  }
}

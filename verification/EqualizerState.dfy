/** How module-equalizer-sink.c saves its state and loads it again. */
module EqualizerState {
  import opened Options
  import opened OverlapAdd
  import opened Tagstruct

  const U16: nat := 0x1_0000

  // ------------------------------------------------------------------- pack, unpack

  /** A 16-bit number in memory. */
  function Put16(u: nat): (b: Bytes)
    requires u < U16
    ensures |b| == 2
  {
    [u % 256, u / 256]
  }

  function Get16(b: Bytes): (u: nat)
    requires |b| >= 2
    ensures u < U16
  {
    b[0] as int + b[1] as int * 256
  }

  lemma Get16Put(u: nat, r: Bytes)
    requires u < U16
    ensures Get16(Put16(u) + r) == u && (Put16(u) + r)[2..] == r
  {
  }

  /** What is left of a string whose length is kept in 16 bits. */
  function Cut(s: Bytes): (r: Bytes)
    ensures |r| < U16 && r <= s && (r == s <==> |s| < U16)
  {
    s[..|s| % U16]
  }

  ghost function PackedStrings(strs: seq<Bytes>): Bytes {
    if strs == [] then [] else PackedStrings(strs[..|strs| - 1]) + PackedString(strs[|strs| - 1])
  }

  function PackedString(s: Bytes): Bytes { Put16(|Cut(s)|) + Cut(s) }

  /** The length of all strings together, and of what was cut off from them. */
  ghost function Total(strs: seq<Bytes>): nat {
    if strs == [] then 0 else Total(strs[..|strs| - 1]) + |strs[|strs| - 1]|
  }

  lemma {:induction false} PackedSize(strs: seq<Bytes>)
    ensures |PackedStrings(strs)| <= 2 * |strs| + Total(strs)
    ensures (forall i :: 0 <= i < |strs| ==> |strs[i]| < U16) ==> |PackedStrings(strs)| == 2 * |strs| + Total(strs)
  {
    if strs != [] {
      PackedSize(strs[..|strs| - 1]);
    }
  }

  /** The memory that pack() fills: strings too long leave zeros at the end. */
  ghost function Packed(strs: seq<Bytes>): (r: Bytes)
    ensures |r| == 2 + 2 * |strs| + Total(strs)
  {
    PackedSize(strs);
    var b := Put16(|strs| % U16) + PackedStrings(strs);
    b + seq(2 + 2 * |strs| + Total(strs) - |b|, _ => 0)
  }

  /** The first n strings; it fails where unpack() would read beyond the end. */
  function UnpackStrings(b: Bytes, n: nat): Got<seq<Bytes>> {
    if n == 0 then Got([], b)
    else if |b| < 2 || |b| - 2 < Get16(b) then Fail
    else
      var l := Get16(b);
      match UnpackStrings(b[2 + l..], n - 1)
      case Fail => Fail
      case Got(strs, rest) => Got([b[2..2 + l]] + strs, rest)
  }

  function Unpacked(b: Bytes): Got<seq<Bytes>> {
    if |b| < 2 then Fail else UnpackStrings(b[2..], Get16(b))
  }

  function AllCut(strs: seq<Bytes>): (r: seq<Bytes>)
    ensures |r| == |strs| && forall i :: 0 <= i < |strs| ==> r[i] == Cut(strs[i])
  {
    seq(|strs|, i requires 0 <= i < |strs| => Cut(strs[i]))
  }

  lemma UnpackOne(s: Bytes, r: Bytes, n: nat)
    ensures
      var b := PackedString(s) + r;
      UnpackStrings(b, n + 1)
      == match UnpackStrings(r, n) case Fail => Fail case Got(strs, rest) => Got([Cut(s)] + strs, rest)
  {
    var c := Cut(s);
    var b := PackedString(s) + r;
    assert b == Put16(|c|) + (c + r);
    Get16Put(|c|, c + r);
    assert b[2..2 + |c|] == c && b[2 + |c|..] == r;
    hide Put16, Get16, Cut;
  }

  lemma {:induction false} PackedFront(s: Bytes, strs: seq<Bytes>)
    ensures PackedStrings([s] + strs) == PackedString(s) + PackedStrings(strs)
  {
    hide PackedString;
    var all := [s] + strs;
    if strs == [] {
      assert all == [s] && all[..0] == [];
      assert PackedStrings([s]) == PackedStrings([s][..0]) + PackedString(s);
    } else {
      var front := strs[..|strs| - 1];
      assert all[..|all| - 1] == [s] + front;
      PackedFront(s, front);
    }
  }

  lemma UnpackStep(s: Bytes, packed: Bytes, r: Bytes, strs: seq<Bytes>)
    requires UnpackStrings(packed + r, |strs|) == Got(strs, r)
    ensures UnpackStrings(PackedString(s) + packed + r, |strs| + 1) == Got([Cut(s)] + strs, r)
  {
    hide PackedString, UnpackStrings, Cut;
    Associative(PackedString(s), packed, r);
    UnpackOne(s, packed + r, |strs|);
  }

  lemma AllCutFront(s: Bytes, strs: seq<Bytes>)
    ensures AllCut([s] + strs) == [Cut(s)] + AllCut(strs)
  {
  }

  lemma {:induction false} UnpackPacked(strs: seq<Bytes>, r: Bytes)
    ensures UnpackStrings(PackedStrings(strs) + r, |strs|) == Got(AllCut(strs), r)
  {
    if strs == [] {
      assert PackedStrings(strs) + r == r;
    } else {
      hide *;
      var s, rest := strs[0], strs[1..];
      assert strs == [s] + rest;
      PackedFront(s, rest);
      UnpackPacked(rest, r);
      UnpackStep(s, PackedStrings(rest), r, AllCut(rest));
      AllCutFront(s, rest);
    }
  }

  lemma Associative(a: Bytes, b: Bytes, c: Bytes)
    ensures (a + b) + c == a + (b + c)
  {
  }

  lemma {:induction false} PackedPrefix(strs: seq<Bytes>, n: nat) returns (r: Bytes)
    requires n <= |strs|
    ensures PackedStrings(strs) == PackedStrings(strs[..n]) + r && (n == |strs| ==> r == [])
  {
    if n == |strs| {
      r := [];
      assert strs[..n] == strs;
    } else {
      var front := strs[..|strs| - 1];
      var q := PackedPrefix(front, n);
      assert front[..n] == strs[..n];
      r := q + PackedString(strs[|strs| - 1]);
      hide PackedString;
    }
  }

  /** What unpack() makes of packed strings, however many and long they are: the
      count and all lengths are taken modulo 2^16. */
  lemma UnpackAfterPack(strs: seq<Bytes>)
    ensures Unpacked(Packed(strs)).Got?
    ensures Unpacked(Packed(strs)).value == AllCut(strs[..|strs| % U16])
    ensures |strs| < U16 && (forall i :: 0 <= i < |strs| ==> |strs[i]| < U16) ==> Unpacked(Packed(strs)).rest == []
  {
    var n := |strs| % U16;
    assert |strs| < U16 ==> n == |strs|;
    var zeros := PackedIs(strs);
    hide *;
    var more := PackedPrefix(strs, n);
    UnpackedOf(n, PackedStrings(strs) + zeros);
    Associative(PackedStrings(strs[..n]), more, zeros);
    UnpackPacked(strs[..n], more + zeros);
  }

  lemma UnpackedOf(n: nat, r: Bytes)
    requires n < U16
    ensures Unpacked(Put16(n) + r) == UnpackStrings(r, n)
  {
    Get16Put(n, r);
    hide Put16, Get16, UnpackStrings;
  }

  lemma PackedIs(strs: seq<Bytes>) returns (zeros: Bytes)
    ensures Packed(strs) == Put16(|strs| % U16) + (PackedStrings(strs) + zeros)
    ensures (forall i :: 0 <= i < |strs| ==> |strs[i]| < U16) ==> zeros == []
  {
    PackedSize(strs);
    zeros := seq(2 * |strs| + Total(strs) - |PackedStrings(strs)|, _ => 0);
    hide PackedStrings, Put16;
    Associative(Put16(|strs| % U16), PackedStrings(strs), zeros);
  }

  /** unpack() inverts pack(), using up all of it, if and only if the count and all
      lengths are below 2^16. */
  lemma UnpackInvertsPack(strs: seq<Bytes>)
    ensures Unpacked(Packed(strs)) == Got(strs, [])
            <==> |strs| < U16 && forall i :: 0 <= i < |strs| ==> |strs[i]| < U16
  {
    UnpackAfterPack(strs);
    var n := |strs| % U16;
    var cut := AllCut(strs[..n]);
    if cut == strs {
      assert n == |strs|;
      assert forall i :: 0 <= i < |strs| ==> cut[i] == Cut(strs[i]);
    }
    hide Unpacked, Packed;
  }

  /** A string of 2^16 bytes comes back empty. */
  lemma LongStringIsLost()
    ensures exists s: Bytes :: s != [] && Unpacked(Packed([s])).Got? && Unpacked(Packed([s])).value == [[]]
  {
    var s: Bytes := seq(U16, _ => 1);
    UnpackAfterPack([s]);
    assert [s][..1] == [s] && Cut(s) == [];
    assert AllCut([s]) == [[]];
    hide Packed, Unpacked;
    assert Unpacked(Packed([s])).value == [[]];
  }

  /** The bytes of a small value: the count, and every string after its length. */
  lemma PackedExample()
    ensures Packed([[65, 66], [67]]) == [2, 0, 2, 0, 65, 66, 1, 0, 67]
  {
    var a: Bytes, b: Bytes := [65, 66], [67];
    var strs := [a, b];
    assert strs[..1] == [a] && [a][..0] == [];
    assert Cut(a) == a && Cut(b) == b;
    assert PackedStrings([]) == [];
    assert PackedStrings([a]) == PackedStrings([a][..0]) + PackedString(a);
    assert PackedStrings(strs) == PackedStrings(strs[..1]) + PackedString(b);
    assert PackedString(a) == [2, 0, 65, 66] && PackedString(b) == [1, 0, 67];
    assert Total([a]) == Total([a][..0]) + 2 && Total(strs) == Total(strs[..1]) + 1;
  }

  method CopyTo(a: array<Byte>, p: nat, b: Bytes)
    requires p + |b| <= a.Length
    modifies a
    ensures a[..] == old(a[..p]) + b + old(a[p + |b|..])
  {
    for i := 0 to |b|
      invariant a[..p] == old(a[..p]) && a[p..p + i] == b[..i] && a[p + i..] == old(a[p + i..])
    {
      a[p + i] := b[i];
      assert a[p..p + i + 1] == a[p..p + i] + [b[i]];
    }
    assert a[..] == a[..p] + a[p..p + |b|] + a[p + |b|..];
  }

  /** The first p places are written, the others are still zero. */
  ghost predicate Filled(a: seq<Byte>, b: Bytes) {
    |b| <= |a| && a[..|b|] == b && forall k :: |b| <= k < |a| ==> a[k] == 0
  }

  lemma FilledMore(a: seq<Byte>, b: Bytes, c: Bytes)
    requires Filled(a, b) && |b| + |c| <= |a|
    ensures Filled(a[..|b|] + c + a[|b| + |c|..], b + c)
  {
  }

  lemma {:induction false} TotalsRise(strs: seq<Bytes>, i: nat)
    requires i <= |strs|
    ensures Total(strs[..i]) <= Total(strs)
  {
    if i < |strs| {
      var front := strs[..|strs| - 1];
      TotalsRise(front, i);
      assert front[..i] == strs[..i];
    } else {
      assert strs[..i] == strs;
    }
  }

  lemma RoomForString(strs: seq<Bytes>, i: nat)
    requires i < |strs|
    ensures PackedStrings(strs[..i + 1]) == PackedStrings(strs[..i]) + PackedString(strs[i])
    ensures Total(strs[..i + 1]) == Total(strs[..i]) + |strs[i]|
    ensures 2 + |PackedStrings(strs[..i + 1])| <= 2 + 2 * |strs| + Total(strs)
  {
    assert strs[..i + 1][..i] == strs[..i];
    TotalsRise(strs, i + 1);
    PackedSize(strs[..i + 1]);
    hide PackedString;
  }

  /** The first loop of pack(). */
  method TotalLength(strs: seq<Bytes>) returns (total: nat)
    ensures total == Total(strs)
  {
    hide Total;
    total := 0;
    NoStrings();
    for i := 0 to |strs|
      invariant total == Total(strs[..i])
    {
      RoomForString(strs, i);
      total := total + |strs[i]|;
    }
    assert strs[..|strs|] == strs;
  }

  /** The second loop of pack(). */
  method PackInto(packed: array<Byte>, strs: seq<Bytes>)
    requires packed.Length == 2 + 2 * |strs| + Total(strs) && Filled(packed[..], Put16(|strs| % U16))
    modifies packed
    ensures Filled(packed[..], Put16(|strs| % U16) + PackedStrings(strs))
  {
    hide PackedStrings, Total, Put16, Filled, PackedString;
    NoStrings();
    ghost var b := Put16(|strs| % U16);
    assert b + [] == b;
    var p := 2;
    for i := 0 to |strs|
      invariant b == Put16(|strs| % U16) + PackedStrings(strs[..i]) && p == |b| && Filled(packed[..], b)
    {
      RoomForString(strs, i);
      var l := |strs[i]| % U16;
      var s := Put16(l) + strs[i][..l];
      CutIs(strs[i]);
      FilledMore(packed[..], b, s);
      Associative(Put16(|strs| % U16), PackedStrings(strs[..i]), s);
      CopyTo(packed, p, s);
      b := b + s;
      p := p + 2 + l;
    }
    assert strs[..|strs|] == strs;
  }

  /** pack() */
  method Pack(strs: seq<Bytes>) returns (packed: array<Byte>)
    ensures fresh(packed) && packed[..] == Packed(strs)
  {
    hide Total, Put16;
    var total := TotalLength(strs);
    packed := new Byte[2 + 2 * |strs| + total](_ => 0);
    CopyTo(packed, 0, Put16(|strs| % U16));
    PackInto(packed, strs);
  }

  lemma NoStrings()
    ensures PackedStrings([]) == [] && Total([]) == 0
  {
  }

  lemma CutIs(s: Bytes)
    ensures PackedString(s) == Put16(|s| % U16) + s[..|s| % U16]
  {
  }

  /** With some strings read, the rest of the value holds what is still to come. */
  ghost predicate IsAt(b: Bytes, p: nat, n: nat, strs: seq<Bytes>) {
    && 2 <= p <= |b| && (UnpackStrings(b[p..], n).Got? <==> Unpacked(b).Got?)
    && (Unpacked(b).Got? ==> strs + UnpackStrings(b[p..], n).value == Unpacked(b).value)
  }

  lemma Starts(b: Bytes)
    requires |b| >= 2
    ensures IsAt(b, 2, Get16(b), [])
  {
    hide Get16;
  }

  lemma Steps(b: Bytes, p: nat, n: nat, strs: seq<Bytes>)
    requires n > 0 && IsAt(b, p, n, strs)
    ensures p <= |b|
    ensures |b| - p < 2 || |b| - p - 2 < Get16(b[p..]) ==> Unpacked(b).Fail?
    ensures |b| - p >= 2 && |b| - p - 2 >= Get16(b[p..]) ==>
              var l := Get16(b[p..]); IsAt(b, p + 2 + l, n - 1, strs + [b[p + 2..p + 2 + l]])
  {
    UnpackAt(b, p, n);
    hide Get16, UnpackStrings, Unpacked;
    if |b| - p >= 2 && |b| - p - 2 >= Get16(b[p..]) && Unpacked(b).Got? {
      var l := Get16(b[p..]);
      var rest := UnpackStrings(b[p + 2 + l..], n - 1).value;
      assert strs + ([b[p + 2..p + 2 + l]] + rest) == strs + [b[p + 2..p + 2 + l]] + rest;
    }
  }

  lemma Ends(b: Bytes, p: nat, strs: seq<Bytes>)
    requires IsAt(b, p, 0, strs)
    ensures Unpacked(b).Got? && strs == Unpacked(b).value
  {
    assert UnpackStrings(b[p..], 0) == Got([], b[p..]);
    hide Unpacked;
  }

  /** unpack().  It is not `ok` where the source would read beyond the end. */
  method Unpack(b: Bytes) returns (ok: bool, strs: seq<Bytes>)
    ensures ok <==> Unpacked(b).Got?
    ensures ok ==> strs == Unpacked(b).value
  {
    ok, strs := false, [];
    if |b| < 2 {
      return;
    }
    hide Get16, UnpackStrings, Unpacked, IsAt;
    var n := Get16(b);
    var p: nat := 2;
    Starts(b);
    for i := 0 to n
      invariant IsAt(b, p, n - i, strs)
    {
      Steps(b, p, n - i, strs);
      if |b| - p < 2 || |b| - p - 2 < Get16(b[p..]) {
        return;
      }
      var l := Get16(b[p..]);
      strs := strs + [b[p + 2..p + 2 + l]];
      p := p + 2 + l;
    }
    Ends(b, p, strs);
    ok := true;
  }

  /** One string, at a place of the value. */
  lemma UnpackAt(b: Bytes, p: nat, n: nat)
    requires p <= |b| && n > 0
    ensures |b| - p < 2 || |b| - p - 2 < Get16(b[p..]) ==> UnpackStrings(b[p..], n) == Fail
    ensures |b| - p >= 2 && |b| - p - 2 >= Get16(b[p..]) ==>
              var l := Get16(b[p..]);
              UnpackStrings(b[p..], n)
              == match UnpackStrings(b[p + 2 + l..], n - 1)
                 case Fail => Fail
                 case Got(strs, rest) => Got([b[p + 2..p + 2 + l]] + strs, rest)
  {
    hide Get16;
    var rest := b[p..];
    if |rest| >= 2 && |rest| - 2 >= Get16(rest) {
      var l := Get16(rest);
      assert rest[2..2 + l] == b[p + 2..p + 2 + l] && rest[2 + l..] == b[p + 2 + l..];
    }
  }

  // --------------------------------------------------------------- saving and loading

  /** A 32-bit float in memory. */
  type Word = w: Bytes | |w| == 4 witness [0, 0, 0, 0]

  function Flat(words: seq<Word>): (b: Bytes)
    ensures |b| == 4 * |words|
  {
    if words == [] then [] else Flat(words[..|words| - 1]) + words[|words| - 1]
  }

  function WordAt(b: Bytes, k: nat): Word
    requires 4 * k + 4 <= |b|
  {
    b[4 * k..4 * k + 4]
  }

  lemma {:induction false} FlatAt(words: seq<Word>, k: nat, more: Bytes)
    requires k < |words|
    ensures WordAt(Flat(words) + more, k) == words[k]
    decreases |words|
  {
    var n := |words| - 1;
    if k < n {
      FlatAt(words[..n], k, words[n] + more);
      assert Flat(words) + more == Flat(words[..n]) + (words[n] + more);
    }
  }

  /** Where float j of a channel is kept. */
  ghost function Place(size: nat, c: nat, j: nat): nat { Slot(size + 1, c, j) }

  /** What the state says of one channel: the preamp and then the filter. */
  ghost function Profile(x: Word, h: seq<Word>, j: nat): Word
    requires j <= |h|
  {
    if j == 0 then x else h[j - 1]
  }

  ghost predicate SameSize(xs: seq<Word>, hs: seq<seq<Word>>, size: nat) {
    |xs| == |hs| && forall c :: 0 <= c < |hs| ==> |hs[c]| == size
  }

  /** The number of floats saved. */
  function StateSize(channels: nat, size: nat): nat { channels * (size + 1) }

  /** The value holds preamp and filter of every channel. */
  ghost predicate Describes(value: Bytes, xs: seq<Word>, hs: seq<seq<Word>>, size: nat)
    requires SameSize(xs, hs, size)
  {
    forall c, j | 0 <= c < |xs| && 0 <= j <= size ::
      4 * Place(size, c, j) + 4 <= |value| && WordAt(value, Place(size, c, j)) == Profile(xs[c], hs[c], j)
  }

  ghost predicate IsSaved(value: Bytes, xs: seq<Word>, hs: seq<seq<Word>>, size: nat, names: seq<Bytes>) {
    var n := 4 * StateSize(|xs|, size);
    && SameSize(xs, hs, size) && |names| == |xs| && Describes(value, xs, hs, size)
    && |value| == n + |Packed(names)| && value[n..] == Packed(names)
  }

  /** The rows of the filter table. */
  ghost function Filters(hs: array2<Word>): (r: seq<seq<Word>>)
    reads hs
    ensures |r| == hs.Length0
    ensures forall c :: 0 <= c < hs.Length0 ==>
              |r[c]| == hs.Length1 && forall i :: 0 <= i < hs.Length1 ==> r[c][i] == hs[c, i]
  {
    seq(hs.Length0, c requires 0 <= c < hs.Length0 reads hs =>
      seq(hs.Length1, i requires 0 <= i < hs.Length1 reads hs => hs[c, i]))
  }

  /** The floats of the first c channels are in place. */
  ghost predicate Placed(state: seq<Word>, xs: seq<Word>, hs: seq<seq<Word>>, size: nat, c: nat)
    requires SameSize(xs, hs, size) && c <= |xs|
  {
    forall d, j | 0 <= d < c && 0 <= j <= size ::
      Place(size, d, j) < |state| && state[Place(size, d, j)] == Profile(xs[d], hs[d], j)
  }

  /** One channel of save_state(). */
  method SaveChannel(state: array<Word>, xs: array<Word>, hs: array2<Word>, c: nat)
    requires c < xs.Length == hs.Length0 && state.Length == StateSize(xs.Length, hs.Length1) && state != xs
    requires Placed(state[..], xs[..], Filters(hs), hs.Length1, c)
    modifies state
    ensures Placed(state[..], xs[..], Filters(hs), hs.Length1, c + 1)
  {
    hide Place;
    var size := hs.Length1;
    ghost var rows := Filters(hs);
    PlaceOf(xs.Length, size, c, 0);
    AllPlacesDiffer(size, c, 0);
    state[c * (size + 1)] := xs[c];
    for i := 0 to size
      invariant Placed(state[..], xs[..], rows, size, c)
      invariant forall j | 0 <= j <= i ::
                  Place(size, c, j) < state.Length && state[Place(size, c, j)] == Profile(xs[c], rows[c], j)
    {
      PlaceOf(xs.Length, size, c, i + 1);
      AllPlacesDiffer(size, c, i + 1);
      state[c * (size + 1) + 1 + i] := hs[c, i];
    }
  }

  lemma PlaceOf(channels: nat, size: nat, c: nat, j: nat)
    requires c < channels && j <= size
    ensures c * (size + 1) + j == Place(size, c, j) < StateSize(channels, size)
  {
    SlotsRise(size + 1, c, j, channels);
  }

  lemma AllPlacesDiffer(size: nat, c: nat, j: nat)
    requires j <= size
    ensures forall d, k | 0 <= d && 0 <= k <= size :: Place(size, d, k) == Place(size, c, j) <==> d == c && k == j
  {
    forall d, k | 0 <= d && 0 <= k <= size
      ensures Place(size, d, k) == Place(size, c, j) <==> d == c && k == j
    {
      SlotsDiffer(size + 1, d, k, c, j);
    }
  }

  /** save_state(), up to the database. */
  method SaveState(xs: array<Word>, hs: array2<Word>, profiles: seq<Bytes>) returns (value: Bytes)
    requires xs.Length == hs.Length0 == |profiles|
    ensures IsSaved(value, xs[..], Filters(hs), hs.Length1, profiles)
  {
    hide Place, Packed, StateSize;
    var names := Pack(profiles);
    var packed := names[..];
    var state := new Word[StateSize(xs.Length, hs.Length1)];
    for c := 0 to xs.Length
      invariant Placed(state[..], xs[..], Filters(hs), hs.Length1, c)
    {
      SaveChannel(state, xs, hs, c);
    }
    value := Flat(state[..]) + packed;
    PlacedDescribes(state[..], xs[..], Filters(hs), hs.Length1, packed);
    assert value[|Flat(state[..])|..] == packed;
  }

  lemma PlacedDescribes(state: seq<Word>, xs: seq<Word>, hs: seq<seq<Word>>, size: nat, more: Bytes)
    requires SameSize(xs, hs, size) && Placed(state, xs, hs, size, |xs|)
    ensures Describes(Flat(state) + more, xs, hs, size)
  {
    hide Place, Flat, WordAt, Profile;
    forall c, j | 0 <= c < |xs| && 0 <= j <= size
      ensures 4 * Place(size, c, j) + 4 <= |Flat(state) + more|
      ensures WordAt(Flat(state) + more, Place(size, c, j)) == Profile(xs[c], hs[c], j)
    {
      FlatAt(state, Place(size, c, j), more);
    }
  }

  /** Where the floats are in a saved value: for every channel the preamp and then the
      filter, one after the other. */
  lemma SavedLayout(value: Bytes, xs: seq<Word>, hs: seq<seq<Word>>, size: nat, names: seq<Bytes>, c: nat, i: nat)
    requires IsSaved(value, xs, hs, size, names) && c < |xs| && i < size
    ensures var at := c * (size + 1);
            && 4 * (at + size) + 4 <= |value|
            && WordAt(value, at) == xs[c] && WordAt(value, at + 1 + i) == hs[c][i]
  {
    hide WordAt, Packed, StateSize;
    assert Place(size, c, 0) == c * (size + 1) && Place(size, c, i + 1) == c * (size + 1) + 1 + i;
    assert Place(size, c, size) == c * (size + 1) + size;
    hide Place;
    assert Profile(xs[c], hs[c], 0) == xs[c] && Profile(xs[c], hs[c], i + 1) == hs[c][i];
  }

  /** One channel of load_state(). */
  method LoadChannel(value: Bytes, xs: array<Word>, hs: array2<Word>, c: nat)
    requires c < xs.Length == hs.Length0 && 4 * StateSize(xs.Length, hs.Length1) <= |value|
    modifies xs, hs
    ensures forall j | 0 <= j <= hs.Length1 ::
              4 * Place(hs.Length1, c, j) + 4 <= |value|
              && WordAt(value, Place(hs.Length1, c, j)) == Profile(xs[c], Filters(hs)[c], j)
    ensures forall d :: 0 <= d < xs.Length && d != c ==> xs[d] == old(xs[d]) && Filters(hs)[d] == old(Filters(hs)[d])
  {
    hide Place, WordAt, StateSize;
    var size := hs.Length1;
    PlaceOf(xs.Length, size, c, 0);
    xs[c] := WordAt(value, c * (size + 1));
    ghost var loaded := xs[..];
    for i := 0 to size
      invariant xs[..] == loaded
      invariant forall j | 1 <= j <= i ::
                  4 * Place(size, c, j) + 4 <= |value| && WordAt(value, Place(size, c, j)) == hs[c, j - 1]
      invariant forall d, k | 0 <= d < hs.Length0 && 0 <= k < size && d != c :: hs[d, k] == old(hs[d, k])
    {
      PlaceOf(xs.Length, size, c, i + 1);
      hs[c, i] := WordAt(value, c * (size + 1) + 1 + i);
    }
    ghost var row := Filters(hs)[c];
    forall j | 0 <= j <= size
      ensures 4 * Place(size, c, j) + 4 <= |value| && WordAt(value, Place(size, c, j)) == Profile(xs[c], row, j)
    {
      assert j > 0 ==> row[j - 1] == hs[c, j - 1];
      assert xs[c] == loaded[c];
    }
    assert forall d :: 0 <= d < xs.Length && d != c ==> xs[d] == loaded[d];
  }

  /** The part of a value that holds the packed profile names. */
  function NamesPart(value: Bytes, channels: nat, size: nat): Option<Bytes> {
    if |value| > 4 * StateSize(channels, size) + 2 then Some(value[4 * StateSize(channels, size)..]) else None
  }

  /** load_state(), for the value found in the database. A value that is too short
      is ignored; the names read replace those of as many channels.  It is not `ok`
      where the source would read beyond the end of the value. */
  method LoadState(value: Bytes, xs: array<Word>, hs: array2<Word>, profiles: array<Bytes>) returns (ok: bool)
    requires xs.Length == hs.Length0 == profiles.Length
    modifies xs, hs, profiles
    ensures
      var part := NamesPart(value, xs.Length, hs.Length1);
      ok <==> part.None? || Unpacked(part.value).Got?
    ensures
      var part := NamesPart(value, xs.Length, hs.Length1);
      if part.None? then xs[..] == old(xs[..]) && Filters(hs) == old(Filters(hs)) && profiles[..] == old(profiles[..])
      else
        && Describes(value, xs[..], Filters(hs), hs.Length1)
        && (ok ==> var names := Unpacked(part.value).value;
                   forall c :: 0 <= c < profiles.Length ==>
                     profiles[c] == if c < |names| then names[c] else old(profiles[c]))
  {
    hide Place, Unpacked, StateSize, WordAt, Profile;
    var part := NamesPart(value, xs.Length, hs.Length1);
    if part.None? {
      return true;
    }
    for c := 0 to xs.Length
      invariant forall d, j | 0 <= d < c && 0 <= j <= hs.Length1 ::
                  4 * Place(hs.Length1, d, j) + 4 <= |value|
                  && WordAt(value, Place(hs.Length1, d, j)) == Profile(xs[d], Filters(hs)[d], j)
      invariant profiles[..] == old(profiles[..])
    {
      LoadChannel(value, xs, hs, c);
    }
    ok := LoadNames(part.value, profiles);
  }

  method LoadNames(part: Bytes, profiles: array<Bytes>) returns (ok: bool)
    modifies profiles
    ensures ok <==> Unpacked(part).Got?
    ensures ok ==> var names := Unpacked(part).value;
                   forall c :: 0 <= c < profiles.Length ==>
                     profiles[c] == if c < |names| then names[c] else old(profiles[c])
  {
    hide Unpacked;
    var names;
    ok, names := Unpack(part);
    if !ok {
      return;
    }
    var n := if |names| < profiles.Length then |names| else profiles.Length;
    for c := 0 to n
      invariant forall d :: 0 <= d < c ==> profiles[d] == names[d]
      invariant forall d :: c <= d < profiles.Length ==> profiles[d] == old(profiles[d])
    {
      profiles[c] := names[c];
    }
  }

  lemma DescribesOne(value: Bytes, xs: seq<Word>, hs: seq<seq<Word>>, xs': seq<Word>, hs': seq<seq<Word>>, size: nat)
    requires SameSize(xs, hs, size) && SameSize(xs', hs', size) && |xs| == |xs'|
    requires Describes(value, xs, hs, size) && Describes(value, xs', hs', size)
    ensures xs == xs' && hs == hs'
  {
    hide Place, WordAt;
    forall c | 0 <= c < |xs|
      ensures xs[c] == xs'[c] && hs[c] == hs'[c]
    {
      assert Profile(xs[c], hs[c], 0) == WordAt(value, Place(size, c, 0)) == Profile(xs'[c], hs'[c], 0);
      forall i | 0 <= i < size
        ensures hs[c][i] == hs'[c][i]
      {
        assert Profile(xs[c], hs[c], i + 1) == WordAt(value, Place(size, c, i + 1)) == Profile(xs'[c], hs'[c], i + 1);
      }
    }
  }

  /** What was saved is accepted, describes no other preamps and filters, and gives
      back all names if and only if none has 2^16 bytes or more. */
  lemma LoadInvertsSave(value: Bytes, xs: seq<Word>, hs: seq<seq<Word>>, size: nat, names: seq<Bytes>,
                        xs': seq<Word>, hs': seq<seq<Word>>)
    requires IsSaved(value, xs, hs, size, names) && 1 <= |xs| < U16
    ensures NamesPart(value, |xs|, size).Some? && Unpacked(NamesPart(value, |xs|, size).value).Got?
    ensures SameSize(xs', hs', size) && |xs'| == |xs| && Describes(value, xs', hs', size) ==> xs' == xs && hs' == hs
    ensures Unpacked(NamesPart(value, |xs|, size).value).value == AllCut(names)
    ensures Unpacked(NamesPart(value, |xs|, size).value).value == names <==>
            forall i :: 0 <= i < |names| ==> |names[i]| < U16
  {
    hide Describes, Packed, Unpacked, StateSize;
    assert names[..|names| % U16] == names;
    UnpackAfterPack(names);
    if SameSize(xs', hs', size) && |xs'| == |xs| && Describes(value, xs', hs', size) {
      DescribesOne(value, xs, hs, xs', hs', size);
    }
    assert AllCut(names) == names ==> forall i :: 0 <= i < |names| ==> Cut(names[i]) == names[i];
  }

  /** A second sink that loads what the first one saved has its preamps and filters,
      and its profile names as far as their lengths fit into 16 bits. */
  method SaveAndLoad(xs: array<Word>, hs: array2<Word>, profiles: seq<Bytes>,
                     xs': array<Word>, hs': array2<Word>, profiles': array<Bytes>) returns (ok: bool)
    requires 1 <= xs.Length == hs.Length0 == |profiles| < U16 && xs != xs' && hs != hs'
    requires xs'.Length == xs.Length && hs'.Length0 == hs.Length0 && hs'.Length1 == hs.Length1
    requires profiles'.Length == xs.Length
    modifies xs', hs', profiles'
    ensures ok && xs'[..] == xs[..] && Filters(hs') == Filters(hs) && profiles'[..] == AllCut(profiles)
    ensures profiles'[..] == profiles <==> forall c :: 0 <= c < |profiles| ==> |profiles[c]| < U16
  {
    hide Describes, Packed, Unpacked, StateSize, NamesPart, Cut;
    var value := SaveState(xs, hs, profiles);
    ghost var was, rows := xs[..], Filters(hs);
    ok := LoadState(value, xs', hs', profiles');
    LoadInvertsSave(value, was, rows, hs.Length1, profiles, xs'[..], Filters(hs'));
  }
}

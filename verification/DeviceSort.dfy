/** The start-up sort of module-device-manager.c: every position is compared with
    every position, the outer one being swapped forward when it is greater. */
module DeviceSort {

  datatype PrioritisedIndex = PrioritisedIndex(index: nat, priority: nat)

  ghost predicate Descending(s: seq<PrioritisedIndex>) {
    forall i, j :: 0 <= i < j < |s| ==> s[i].priority >= s[j].priority
  }

  /** The last element of a prefix is a least one of all. */
  ghost predicate LeastAt(s: seq<PrioritisedIndex>, j: int) {
    0 <= j < |s| && forall i :: 0 <= i < |s| ==> s[j].priority <= s[i].priority
  }

  method Swap(p: array<PrioritisedIndex>, j: nat, k: nat)
    requires j < p.Length && k < p.Length
    modifies p
    ensures p[..] == old(p[..])[j := old(p[k])][k := old(p[j])]
    ensures multiset(p[..]) == old(multiset(p[..]))
  {
    p[j], p[k] := p[k], p[j];
  }

  /** The first pass brings a least element to the front. */
  method FirstPass(p: array<PrioritisedIndex>, n: nat)
    requires 0 < n <= p.Length
    modifies p
    ensures multiset(p[..]) == old(multiset(p[..])) && p[n..] == old(p[n..])
    ensures LeastAt(p[..n], 0)
  {
    for k := 0 to n
      invariant multiset(p[..]) == old(multiset(p[..])) && p[n..] == old(p[n..])
      invariant forall i :: 0 <= i < k ==> p[0].priority <= p[i].priority
    {
      if p[0].priority > p[k].priority {
        Swap(p, 0, k);
      }
    }
  }

  /** The state of pass j before position k: the prefix is sorted, and p[j] is
      carried along to where it belongs. */
  ghost predicate Inserting(s: seq<PrioritisedIndex>, j: nat, k: nat, least: nat)
    requires 0 < j < |s|
  {
    && (forall i :: 0 <= i < |s| ==> least <= s[i].priority)
    && Descending(s[..j])
    && (forall a :: 0 <= a < k && a < j ==> s[a].priority >= s[j].priority)
    && s[if k < j then j - 1 else j].priority == least
  }

  function Compared(s: seq<PrioritisedIndex>, j: nat, k: nat): (r: seq<PrioritisedIndex>)
    requires j < |s| && k < |s|
    ensures |r| == |s|
  {
    if s[j].priority > s[k].priority then s[j := s[k]][k := s[j]] else s
  }

  lemma InsertingSteps(s: seq<PrioritisedIndex>, j: nat, k: nat, least: nat)
    requires 0 < j < |s| && k < |s| && Inserting(s, j, k, least)
    ensures Inserting(Compared(s, j, k), j, k + 1, least)
  {
    var t := Compared(s, j, k);
    if k < j {
      assert forall a :: 0 <= a < j ==> s[..j][a] == s[a] && t[..j][a] == t[a];
      assert forall a :: 0 <= a < k ==> s[a].priority >= s[k].priority;
      assert forall a :: k < a < j ==> s[k].priority >= s[a].priority;
    }
  }

  /** Pass j inserts p[j] into the sorted prefix before it; the element displaced
      last is a least one, so the rest of the pass finds nothing to swap. */
  method InsertionPass(p: array<PrioritisedIndex>, n: nat, j: nat)
    requires 0 < j < n <= p.Length
    requires Descending(p[..j]) && LeastAt(p[..n], j - 1)
    modifies p
    ensures multiset(p[..]) == old(multiset(p[..])) && p[n..] == old(p[n..])
    ensures Descending(p[..j + 1]) && LeastAt(p[..n], j)
  {
    ghost var least := p[j - 1].priority;
    assert p[..n][..j] == p[..j];
    for k := 0 to n
      invariant multiset(p[..]) == old(multiset(p[..])) && p[n..] == old(p[n..])
      invariant Inserting(p[..n], j, k, least)
    {
      InsertingSteps(p[..n], j, k, least);
      ghost var next := Compared(p[..n], j, k);
      hide Inserting;
      if p[j].priority > p[k].priority {
        Swap(p, j, k);
      }
      assert p[..n] == next;
    }
    InsertionEnds(p[..n], j, least);
    assert p[..n][..j + 1] == p[..j + 1];
  }

  lemma InsertionEnds(s: seq<PrioritisedIndex>, j: nat, least: nat)
    requires 0 < j < |s| && Inserting(s, j, |s|, least)
    ensures Descending(s[..j + 1]) && LeastAt(s, j)
  {
    assert forall a :: 0 <= a < j ==> s[..j][a] == s[a];
  }

  lemma SamePart(s: seq<PrioritisedIndex>, t: seq<PrioritisedIndex>, n: nat)
    requires |s| == |t| && n <= |s| && multiset(s) == multiset(t) && s[n..] == t[n..]
    ensures multiset(s[..n]) == multiset(t[..n])
  {
    assert s == s[..n] + s[n..] && t == t[..n] + t[n..];
    assert multiset(s[..n]) == multiset(s) - multiset(s[n..]);
    assert multiset(t[..n]) == multiset(t) - multiset(t[n..]);
  }

  /** Comparing every position with every other one, and swapping when the first
      has the greater priority, sorts by falling priority. */
  method ExchangeSort(p: array<PrioritisedIndex>, n: nat)
    requires n <= p.Length
    modifies p
    ensures Descending(p[..n])
    ensures multiset(p[..n]) == old(multiset(p[..n])) && p[n..] == old(p[n..])
  {
    if n > 1 {
      for j := 0 to n
        invariant multiset(p[..]) == old(multiset(p[..])) && p[n..] == old(p[n..])
        invariant j > 0 ==> Descending(p[..j]) && LeastAt(p[..n], j - 1)
      {
        if j == 0 {
          FirstPass(p, n);
        } else {
          InsertionPass(p, n, j);
        }
      }
    }
    SamePart(p[..], old(p[..]), n);
  }
}

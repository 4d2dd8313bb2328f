/**
 * Sequence helpers shared by the storage adapter and the deserializer:
 * first occurrence of an element, and the "push_back unless already
 * present" de-duplication the adapter uses for its topic lists.
 */
module Seqs {

  /** No element occurs twice in s. */
  predicate NoDuplicates<T(==)>(s: seq<T>) {
    forall i, j :: 0 <= i < j < |s| ==> s[i] != s[j]
  }

  /** Index of the first occurrence of x in s. */
  function IndexOf<T(==)>(s: seq<T>, x: T): (k: nat)
    requires x in s
    ensures k < |s| && s[k] == x
    ensures x !in s[..k]
  {
    if s[0] == x then 0
    else
      var k' := IndexOf(s[1..], x);
      assert s[..k' + 1] == [s[0]] + s[1..][..k'];
      1 + k'
  }

  /** The first occurrence of x is the position k holding x with no x before it. */
  lemma IndexOfUnique<T>(s: seq<T>, x: T, k: nat)
    requires k < |s| && s[k] == x && x !in s[..k]
    ensures IndexOf(s, x) == k
  {
    var m := IndexOf(s, x);
    assert forall j :: 0 <= j < k ==> s[j] == s[..k][j];
    assert forall j :: 0 <= j < m ==> s[j] == s[..m][j];
  }

  /** s with x pushed at the back, unless x is already an element of s. */
  function AppendIfAbsent<T(==)>(s: seq<T>, x: T): seq<T> {
    if x in s then s else s + [x]
  }

  /**
   * The elements of s, each once, in the order in which they first occur:
   * what a loop over s computes that pushes each element unless it is
   * already in its result.
   */
  function Dedup<T(==)>(s: seq<T>): seq<T>
    decreases |s|
  {
    if |s| == 0 then [] else AppendIfAbsent(Dedup(s[..|s| - 1]), s[|s| - 1])
  }

  /** One more step of the de-duplicating loop. */
  lemma DedupSnoc<T>(s: seq<T>, x: T)
    ensures Dedup(s + [x]) == AppendIfAbsent(Dedup(s), x)
  {
    assert (s + [x])[..|s|] == s;
  }

  lemma {:induction false} DedupMembership<T>(s: seq<T>)
    ensures forall x :: x in Dedup(s) <==> x in s
  {
    if |s| > 0 {
      var p := s[..|s| - 1];
      DedupMembership(p);
      assert s == p + [s[|s| - 1]];
    }
  }

  lemma {:induction false} DedupNoDuplicates<T>(s: seq<T>)
    ensures NoDuplicates(Dedup(s))
  {
    if |s| > 0 {
      var p := s[..|s| - 1];
      DedupNoDuplicates(p);
      DedupMembership(p);
    }
  }

  /** De-duplicating a prefix of s gives a prefix of the de-duplication of s. */
  lemma {:induction false} DedupPrefix<T>(s: seq<T>, n: nat)
    requires n <= |s|
    ensures Dedup(s[..n]) <= Dedup(s)
    decreases |s| - n
  {
    if n < |s| {
      var p := s[..|s| - 1];
      assert p[..n] == s[..n];
      DedupPrefix(p, n);
      assert Dedup(p) <= Dedup(s);
    } else {
      assert s[..n] == s;
    }
  }

  /** idx lists strictly increasing positions. */
  predicate Increasing(idx: seq<nat>) {
    forall i, j :: 0 <= i < j < |idx| ==> idx[i] < idx[j]
  }
}

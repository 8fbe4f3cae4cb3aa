/** Sequence helpers for the ordered collections the host and the watcher
    keep: JavaScript arrays and the insertion order of a Map. */
module Seqs {

  /** No element occurs twice. */
  predicate NoDup<T(==)>(s: seq<T>)
  {
    forall i, j :: 0 <= i < j < |s| ==> s[i] != s[j]
  }

  /** `Array.prototype.indexOf`: the first position of `x`, or -1. */
  function IndexOf<T(==)>(s: seq<T>, x: T): (i: int)
    ensures -1 <= i < |s|
    ensures i == -1 <==> x !in s
    ensures 0 <= i ==> s[i] == x && x !in s[..i]
  {
    if s == [] then -1
    else if s[0] == x then 0
    else
      var j := IndexOf(s[1..], x);
      if j == -1 then -1
      else
        assert s[..j + 1] == [s[0]] + s[1..][..j];
        j + 1
  }

  /** `a.splice(a.indexOf(x), 1)` guarded by `indexOf !== -1`: drops the
      first occurrence of `x`; the sequence is unchanged when `x` is absent. */
  function RemoveFirst<T(==)>(s: seq<T>, x: T): (r: seq<T>)
    ensures x !in s ==> r == s
    ensures x in s ==> |r| == |s| - 1 && r == s[..IndexOf(s, x)] + s[IndexOf(s, x) + 1..]
  {
    var i := IndexOf(s, x);
    if i == -1 then s else s[..i] + s[i + 1..]
  }

  /** In a sequence without repetitions the removed element is gone, every
      other element stays, and no repetition appears. */
  lemma RemoveFirstNoDup<T>(s: seq<T>, x: T)
    requires NoDup(s)
    ensures NoDup(RemoveFirst(s, x))
    ensures x !in RemoveFirst(s, x)
    ensures forall y :: y != x ==> (y in RemoveFirst(s, x) <==> y in s)
  {
    var r := RemoveFirst(s, x);
    if x in s {
      var k := IndexOf(s, x);
      assert r == s[..k] + s[k + 1..];
      forall i | 0 <= i < |r|
        ensures r[i] == s[if i < k then i else i + 1]
      {
      }
      forall y | y in s && y != x
        ensures y in r
      {
        var j :| 0 <= j < |s| && s[j] == y;
        assert j != k;
        assert r[if j < k then j else j - 1] == y;
      }
    }
  }

  /** In a sequence without repetitions the first position of an element
      is its only position. */
  lemma IndexOfNoDup<T>(s: seq<T>, p: int)
    requires NoDup(s) && 0 <= p < |s|
    ensures IndexOf(s, s[p]) == p
  {
  }

  /** Dropping one position keeps a sequence free of repetitions. */
  lemma NoDupRemoveAt<T>(s: seq<T>, p: int)
    requires NoDup(s) && 0 <= p < |s|
    ensures NoDup(s[..p] + s[p + 1..])
  {
    var r := s[..p] + s[p + 1..];
    forall i | 0 <= i < |r|
      ensures r[i] == s[if i < p then i else i + 1]
    {
    }
  }
}

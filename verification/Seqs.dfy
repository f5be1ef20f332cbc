/** Ordered collections without repetitions: JavaScript queues, and the insertion order of a Map. */
module Seqs {
  ghost predicate NoDup<T(!new)>(s: seq<T>) {
    forall i, j :: 0 <= i < j < |s| ==> s[i] != s[j]
  }

  ghost predicate Increasing(s: seq<nat>) {
    forall i, j :: 0 <= i < j < |s| ==> s[i] < s[j]
  }

  /** The sequence with the first occurrence of `x` spliced out. */
  function Without<T(==)>(s: seq<T>, x: T): seq<T> {
    if s == [] then []
    else if s[0] == x then s[1..]
    else [s[0]] + Without(s[1..], x)
  }

  lemma {:induction false} WithoutCut<T>(s: seq<T>, x: T) returns (i: nat)
    ensures i <= |s| && x !in s[..i]
    ensures if i == |s| then Without(s, x) == s else s[i] == x && Without(s, x) == s[..i] + s[i + 1..]
    decreases |s|
  {
    if s == [] || s[0] == x {
      i := 0;
    } else {
      var k := WithoutCut(s[1..], x);
      i := k + 1;
      assert s[..i] == [s[0]] + s[1..][..k];
      if i < |s| {
        assert s[i + 1..] == s[1..][k + 1..];
      }
    }
  }

  /** In a sequence without repetitions splicing out an element removes exactly that element. */
  lemma WithoutOne<T(!new)>(s: seq<T>, x: T)
    requires NoDup(s)
    ensures NoDup(Without(s, x))
    ensures forall y :: y in Without(s, x) <==> y in s && y != x
  {
    var i := WithoutCut(s, x);
    if i < |s| {
      assert s == s[..i] + [x] + s[i + 1..];
      assert x !in s[i + 1..] by { assert forall k :: i < k < |s| ==> s[k] != s[i]; }
    }
  }

  lemma WithoutIncreasing(s: seq<nat>, x: nat)
    requires Increasing(s)
    ensures Increasing(Without(s, x))
    ensures forall y :: y in Without(s, x) <==> y in s && y != x
  {
    WithoutOne(s, x);
    var i := WithoutCut(s, x);
  }

  /** Everything in the parts, in order. */
  function Concat<T>(parts: seq<seq<T>>): seq<T> {
    if parts == [] then [] else Concat(parts[..|parts| - 1]) + parts[|parts| - 1]
  }
}

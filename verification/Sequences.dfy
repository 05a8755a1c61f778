// Sequences without repetitions, and circles given by one.
module Sequences {

  ghost predicate NoDup<T(!new)>(s: seq<T>) {
    forall i, j :: 0 <= i < j < |s| ==> s[i] != s[j]
  }

  function Without<T>(s: seq<T>, k: int): (r: seq<T>)
    requires 0 <= k < |s|
    ensures |r| == |s| - 1
    ensures forall i :: 0 <= i < |r| ==> r[i] == s[if i < k then i else i + 1]
  {
    s[..k] + s[k + 1..]
  }

  // The element after the i-th, going round.
  function After<T>(ring: seq<T>, i: int): T
    requires 0 <= i < |ring|
  {
    if i + 1 < |ring| then ring[i + 1] else ring[0]
  }

  lemma AfterInjective<T(!new)>(ring: seq<T>, i: int, j: int)
    requires NoDup(ring) && 0 <= i < |ring| && 0 <= j < |ring| && i != j
    ensures After(ring, i) != After(ring, j)
  {
  }

  lemma WithoutNoDup<T(!new)>(s: seq<T>, k: int)
    requires NoDup(s) && 0 <= k < |s|
    ensures NoDup(Without(s, k)) && s[k] !in Without(s, k)
  {
  }

  lemma SubsetSize<T>(a: set<T>, b: set<T>)
    requires a <= b
    ensures |a| <= |b|
  {
    assert b == a + (b - a);
  }

  // A set that holds all elements of a sequence without repetitions has at least its length.
  lemma {:induction false} AtLeast<T(!new)>(s: seq<T>, a: set<T>)
    requires NoDup(s) && forall i :: 0 <= i < |s| ==> s[i] in a
    ensures |s| <= |a|
  {
    if s != [] {
      var last := s[|s| - 1];
      AtLeast(s[..|s| - 1], a - {last});
    }
  }

  // A set of elements of a sequence has at most its length.
  lemma {:induction false} AtMost<T>(s: seq<T>, a: set<T>)
    requires forall x :: x in a ==> x in s
    ensures |a| <= |s|
  {
    if s != [] {
      var last, rest := s[|s| - 1], s[..|s| - 1];
      AtMost(rest, a - {last});
    } else {
      assert a == {};
    }
  }

  // How many entries are true.
  function Count(q: seq<bool>): nat {
    if q == [] then 0 else Count(q[..|q| - 1]) + if q[|q| - 1] then 1 else 0
  }

  lemma {:induction false} CountUpdate(q: seq<bool>, t: nat, b: bool)
    requires t < |q|
    ensures Count(q[t := b]) == Count(q) + (if b then 1 else 0) - (if q[t] then 1 else 0)
  {
    var front := q[..|q| - 1];
    if t == |q| - 1 {
      assert q[t := b][..|q| - 1] == front;
    } else {
      assert q[t := b][..|q| - 1] == front[t := b];
      CountUpdate(front, t, b);
    }
  }

  lemma {:induction false} CountNone(q: seq<bool>)
    requires forall i :: 0 <= i < |q| ==> !q[i]
    ensures Count(q) == 0
  {
    if q != [] { CountNone(q[..|q| - 1]); }
  }
}

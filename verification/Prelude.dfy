/** Small types and sequence helpers shared by the whole project. */
module Prelude {
  datatype Option<+T> = None | Some(value: T)

  /** The elements of s outside the set out, in order. */
  function Without(s: seq<int>, out: set<int>): seq<int> {
    if s == [] then []
    else if s[0] in out then Without(s[1..], out)
    else [s[0]] + Without(s[1..], out)
  }

  lemma {:induction false} WithoutExact(s: seq<int>, out: set<int>)
    ensures forall x :: x in Without(s, out) <==> x in s && x !in out
    ensures forall i :: 0 <= i < |Without(s, out)| ==> Without(s, out)[i] in s
  {
    if s != [] { WithoutExact(s[1..], out); }
  }

  /** s.take(n) for every integer n: nothing below zero, everything above the length. */
  function Take<T>(s: seq<T>, n: int): (r: seq<T>)
    ensures r <= s
  {
    if n <= 0 then [] else if n >= |s| then s else s[..n]
  }

  ghost predicate NoDuplicates<T>(s: seq<T>) {
    forall i, j :: 0 <= i < j < |s| ==> s[i] != s[j]
  }

  lemma {:induction false} WithoutKeepsDistinct(s: seq<int>, out: set<int>)
    requires NoDuplicates(s)
    ensures NoDuplicates(Without(s, out))
  {
    if s != [] {
      WithoutKeepsDistinct(s[1..], out);
      WithoutExact(s[1..], out);
      assert s[0] !in s[1..];
    }
  }

  lemma {:induction false} WithoutAppend(a: seq<int>, b: seq<int>, out: set<int>)
    ensures Without(a + b, out) == Without(a, out) + Without(b, out)
  {
    if a == [] {
      assert a + b == b;
    } else {
      WithoutAppend(a[1..], b, out);
      assert (a + b)[1..] == a[1..] + b;
    }
  }

  lemma WithoutLast(s: seq<int>, last: int, out: set<int>)
    ensures Without(s + [last], out) == Without(s, out) + (if last in out then [] else [last])
  {
    WithoutAppend(s, [last], out);
    assert [last][1..] == [];
  }

  lemma {:induction false} WithoutNothing(s: seq<int>)
    ensures Without(s, {}) == s
  {
    if s != [] { WithoutNothing(s[1..]); }
  }

  /** Filtering twice, by a smaller set first, is filtering once. */
  lemma {:induction false} WithoutTwice(s: seq<int>, out: set<int>, more: set<int>)
    requires out <= more
    ensures Without(Without(s, out), more) == Without(s, more)
  {
    if s != [] {
      WithoutTwice(s[1..], out, more);
    }
  }

  /** What holds at i and is handed on from each number to the next holds at j. */
  lemma {:induction false} Handed(i: int, j: int, inv: int -> bool)
    requires i <= j && inv(i) && forall k :: i <= k < j && inv(k) ==> inv(k + 1)
    ensures inv(j)
    decreases j - i
  {
    if i < j { Handed(i + 1, j, inv); }
  }

  lemma Regroup<T>(a: seq<T>, b: seq<T>, c: seq<T>)
    ensures (a + b) + c == a + (b + c)
  {
  }
}

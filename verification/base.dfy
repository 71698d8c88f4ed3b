/**
  Small vocabulary shared by the logger model: bytes, an optional value,
  regrouping concatenations, and counting the elements of a sequence that
  satisfy a predicate.
 */
module Base {

  /** A Go `byte`. */
  type byte = b: int | 0 <= b < 256

  /** A value that may be missing: a write's error, or the text a record carries. */
  datatype Option<+T> = None | Some(value: T)

  predicate IsAscii(s: string)
  {
    forall i :: 0 <= i < |s| ==> s[i] as int < 128
  }

  /** The bytes of a Go string literal made of ASCII characters only. */
  function Ascii(s: string): (r: seq<byte>)
    requires IsAscii(s)
    ensures |r| == |s|
    ensures forall i :: 0 <= i < |s| ==> r[i] == s[i] as int
  {
    if |s| == 0 then [] else [s[0] as int] + Ascii(s[1..])
  }

  /**
    Chaining two steps that each move bytes from pending to done: if `a`
    then `s1` is `s0` then `x`, and `b` then `s2` is `s1` then `y`, then
    `a` and `b` then `s2` is `s0` then `x` and `y`.
   */
  lemma Regroup<T>(a: seq<T>, b: seq<T>, s0: seq<T>, s1: seq<T>, s2: seq<T>, x: seq<T>, y: seq<T>)
    requires a + s1 == s0 + x
    requires b + s2 == s1 + y
    ensures (a + b) + s2 == s0 + (x + y)
  {
    calc {
      (a + b) + s2;
      a + (b + s2);
      a + (s1 + y);
      (a + s1) + y;
      (s0 + x) + y;
    }
  }

  /** The number of elements of `s` that satisfy `p`. */
  function Count<T>(s: seq<T>, p: T -> bool): (n: nat)
    ensures n <= |s|
  {
    if |s| == 0 then 0 else Count(s[..|s| - 1], p) + (if p(s[|s| - 1]) then 1 else 0)
  }

  lemma CountAppend<T>(s: seq<T>, x: T, p: T -> bool)
    ensures Count(s + [x], p) == Count(s, p) + (if p(x) then 1 else 0)
  {
    assert (s + [x])[..|s|] == s;
  }

  /** Replacing one element changes the count by what that element contributed. */
  lemma {:induction false} CountUpdate<T>(s: seq<T>, i: nat, x: T, p: T -> bool)
    requires i < |s|
    ensures Count(s[i := x], p)
         == Count(s, p) - (if p(s[i]) then 1 else 0) + (if p(x) then 1 else 0)
    decreases |s|
  {
    var last := |s| - 1;
    if i < last {
      assert s[i := x][..last] == s[..last][i := x];
      CountUpdate(s[..last], i, x, p);
    } else {
      assert s[i := x][..last] == s[..last];
    }
  }

  /** A satisfying element contributes to the count. */
  lemma {:induction false} CountWitness<T>(s: seq<T>, i: nat, p: T -> bool)
    requires i < |s| && p(s[i])
    ensures Count(s, p) >= 1
    decreases |s|
  {
    if i < |s| - 1 {
      assert s[..|s| - 1][i] == s[i];
      CountWitness(s[..|s| - 1], i, p);
    }
  }

  /** Two distinct satisfying elements make the count at least two. */
  lemma {:induction false} CountTwoWitnesses<T>(s: seq<T>, i: nat, j: nat, p: T -> bool)
    requires i < j < |s| && p(s[i]) && p(s[j])
    ensures Count(s, p) >= 2
    decreases |s|
  {
    var last := |s| - 1;
    assert s[..last][i] == s[i];
    if j < last {
      assert s[..last][j] == s[j];
      CountTwoWitnesses(s[..last], i, j, p);
    } else {
      CountWitness(s[..last], i, p);
    }
  }

  /** A positive count has a satisfying element. */
  lemma {:induction false} CountFound<T>(s: seq<T>, p: T -> bool)
    requires Count(s, p) > 0
    ensures exists i :: 0 <= i < |s| && p(s[i])
    decreases |s|
  {
    var last := |s| - 1;
    if !p(s[last]) {
      CountFound(s[..last], p);
      var i :| 0 <= i < last && p(s[..last][i]);
      assert s[i] == s[..last][i];
    }
  }

  /** A count of zero means no element satisfies the predicate. */
  lemma CountZero<T>(s: seq<T>, p: T -> bool)
    requires Count(s, p) == 0
    ensures forall i :: 0 <= i < |s| ==> !p(s[i])
  {
    forall i | 0 <= i < |s|
      ensures !p(s[i])
    {
      if p(s[i]) {
        CountWitness(s, i, p);
      }
    }
  }
}

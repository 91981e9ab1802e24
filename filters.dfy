/**
 * The pure parts of the two filter stages of main.go: the predicate each
 * stage applies to one number, and the stage's effect on a whole stream
 * of numbers taken one after another.
 */
module Filters {

  function Abs(x: int): (r: nat)
    ensures r == x || r == -x
  {
    if x < 0 then -x else x
  }

  /**
   * Go's `n % 3` on `int`: the remainder of truncated division by three.
   * Its sign follows the dividend, it lies strictly between -3 and 3, and
   * it differs from the dividend by a multiple of three. (Dafny's own `%`
   * is Euclidean and never negative.)
   */
  function GoRemByThree(a: int): (r: int)
    ensures -3 < r < 3
    ensures r == 0 || (r < 0 <==> a < 0)
    ensures (a - r) % 3 == 0
  {
    var m := Abs(a) % 3;
    if a < 0 then -m else m
  }

  /** `Triple(k) == n` says that n is a multiple of three. */
  function Triple(k: int): int { 3 * k }

  /** The negative filter forwards a number exactly when it is not negative. */
  predicate PassesNegativeFilter(n: int)
  {
    n >= 0
  }

  /**
   * The second filter forwards a number exactly when it is non-zero and
   * Go's truncated remainder by three is zero.
   */
  function PassesMultipleOfThreeFilter(n: int): (keep: bool)
    ensures keep <==> n != 0 && n % 3 == 0
  {
    n != 0 && GoRemByThree(n) == 0
  }

  /** The filter's verdict in terms of divisibility alone, both directions. */
  lemma MultipleOfThreeFilterMeansDivisible(n: int)
    ensures PassesMultipleOfThreeFilter(n) <==> n != 0 && exists k :: Triple(k) == n
  {
    if n % 3 == 0 {
      assert Triple(n / 3) == n;
    }
    if exists k :: Triple(k) == n {
      var k :| Triple(k) == n;
      assert n % 3 == 0;
    }
  }

  /** A filter stage over a stream: the numbers `keep` accepts, in arrival order. */
  function Filter(keep: int -> bool, xs: seq<int>): (r: seq<int>)
    ensures |r| <= |xs|
  {
    if xs == [] then []
    else (if keep(xs[0]) then [xs[0]] else []) + Filter(keep, xs[1..])
  }

  /** A filter forwards exactly the input values that `keep` accepts. */
  lemma {:induction false} FilterMembers(keep: int -> bool, xs: seq<int>)
    ensures forall x :: x in Filter(keep, xs) <==> x in xs && keep(x)
  {
    if xs != [] {
      FilterMembers(keep, xs[1..]);
      assert xs == [xs[0]] + xs[1..];
    }
  }

  /** `a` can be obtained from `b` by deleting elements, keeping the order of the rest. */
  ghost predicate IsSubsequence(a: seq<int>, b: seq<int>)
    decreases |b|
  {
    a == [] ||
    (b != [] &&
      ((a[0] == b[0] && IsSubsequence(a[1..], b[1..])) || IsSubsequence(a, b[1..])))
  }

  /** A filter never reorders: its output is a subsequence of its input. */
  lemma {:induction false} FilterIsSubsequence(keep: int -> bool, xs: seq<int>)
    ensures IsSubsequence(Filter(keep, xs), xs)
  {
    if xs != [] {
      FilterIsSubsequence(keep, xs[1..]);
      if keep(xs[0]) {
        assert Filter(keep, xs) == [xs[0]] + Filter(keep, xs[1..]);
      } else {
        assert Filter(keep, xs) == Filter(keep, xs[1..]);
      }
    }
  }

  /** Filtering a stream in two parts is filtering it whole: the stage keeps arrival order. */
  lemma {:induction false} FilterAppend(keep: int -> bool, a: seq<int>, b: seq<int>)
    ensures Filter(keep, a + b) == Filter(keep, a) + Filter(keep, b)
  {
    if a == [] {
      assert a + b == b;
    } else {
      var head := if keep(a[0]) then [a[0]] else [];
      calc {
        Filter(keep, a + b);
        head + Filter(keep, (a + b)[1..]);
        { assert (a + b)[1..] == a[1..] + b; }
        head + Filter(keep, a[1..] + b);
        { FilterAppend(keep, a[1..], b); }
        head + (Filter(keep, a[1..]) + Filter(keep, b));
        (head + Filter(keep, a[1..])) + Filter(keep, b);
        Filter(keep, a) + Filter(keep, b);
      }
    }
  }

  /** The first stage: stream through the negative filter. */
  function NegativeStage(xs: seq<int>): seq<int>
  {
    Filter(PassesNegativeFilter, xs)
  }

  /** The first stage passes a single number on unchanged exactly when it is not negative. */
  lemma NegativeStageSingleton(n: int)
    ensures NegativeStage([n]) == if n >= 0 then [n] else []
  {
  }

  /** The first stage forwards exactly the non-negative numbers it receives. */
  lemma {:induction false} NegativeStageMembers(xs: seq<int>)
    ensures forall x :: x in NegativeStage(xs) <==> x in xs && x >= 0
  {
    FilterMembers(PassesNegativeFilter, xs);
  }

  /** The second stage: stream through the multiple-of-three filter. */
  function MultipleOfThreeStage(xs: seq<int>): seq<int>
  {
    Filter(PassesMultipleOfThreeFilter, xs)
  }

  /** What survives both filters in series: the positive multiples of three. */
  predicate IsPositiveMultipleOfThree(n: int) { n > 0 && n % 3 == 0 }

  /**
   * Chaining the two stages is one filter that keeps exactly the positive
   * multiples of three, in arrival order (so -3, which the second filter
   * alone would forward, never reaches the buffer).
   */
  lemma {:induction false} StagesCompose(xs: seq<int>)
    ensures MultipleOfThreeStage(NegativeStage(xs)) == Filter(IsPositiveMultipleOfThree, xs)
  {
    if xs != [] {
      StagesCompose(xs[1..]);
      var head := Filter(PassesNegativeFilter, [xs[0]]);
      assert xs == [xs[0]] + xs[1..];
      FilterAppend(PassesNegativeFilter, [xs[0]], xs[1..]);
      FilterAppend(PassesMultipleOfThreeFilter, head, NegativeStage(xs[1..]));
      FilterAppend(IsPositiveMultipleOfThree, [xs[0]], xs[1..]);
    }
  }

  /** 0 is dropped though 3 divides it; -3 is kept. */
  lemma MultipleOfThreeFilterExamples()
    ensures !PassesMultipleOfThreeFilter(0) && !PassesMultipleOfThreeFilter(1)
    ensures !PassesMultipleOfThreeFilter(2) && !PassesMultipleOfThreeFilter(4)
    ensures PassesMultipleOfThreeFilter(-3) && PassesMultipleOfThreeFilter(3)
    ensures PassesMultipleOfThreeFilter(6) && PassesMultipleOfThreeFilter(-6)
  {
  }
}

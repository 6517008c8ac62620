/** The few ECMAScript language values the components compute with: Numbers
    that are integers or NaN, the two kinds of exception they can raise, and
    the completion of an operation that may throw. */
module Js {

  /** An ECMAScript Number as these components produce it: an integer or NaN.
      (`-0` is identified with `0`; no value here needs more than integers.) */
  datatype Num = NaN | Int(value: int)

  /** Numeric `+`: NaN is absorbing. */
  function Add(a: Num, b: Num): (r: Num)
    ensures r.NaN? <==> a.NaN? || b.NaN?
    ensures r.Int? ==> r.value == a.value + b.value
  {
    if a.NaN? || b.NaN? then NaN else Int(a.value + b.value)
  }

  /** Numeric `-`: NaN is absorbing. */
  function Sub(a: Num, b: Num): (r: Num)
    ensures r.NaN? <==> a.NaN? || b.NaN?
    ensures r.Int? ==> r.value == a.value - b.value
  {
    if a.NaN? || b.NaN? then NaN else Int(a.value - b.value)
  }

  /** Numeric `*` by an integer constant: NaN is absorbing. */
  function Times(a: Num, k: int): (r: Num)
    ensures r.NaN? <==> a.NaN?
    ensures r.Int? ==> r.value == a.value * k
  {
    if a.NaN? then NaN else Int(a.value * k)
  }

  /** `Math.ceil(a / b)` for a positive integer divisor: the least integer
      whose multiple of `b` reaches `a`. Dafny's `/` is floor division for a
      positive divisor, so the ceiling is the negated floor of `-a / b`. */
  function CeilDiv(a: int, b: int): (r: int)
    requires b > 0
    ensures r * b >= a && (r - 1) * b < a
  {
    -((-a) / b)
  }

  /** The only integer meeting the ceiling's defining inequalities is `CeilDiv`. */
  lemma CeilDivUnique(a: int, b: int, q: int)
    requires b > 0 && q * b >= a && (q - 1) * b < a
    ensures CeilDiv(a, b) == q
  {
  }

  /** `Math.max(0, x)`: NaN stays NaN. */
  function MaxZero(x: Num): (r: Num)
    ensures r.NaN? <==> x.NaN?
    ensures r.Int? ==> r.value >= 0 && r.value >= x.value && (r.value == 0 || r.value == x.value)
  {
    if x.NaN? then NaN else if x.value < 0 then Int(0) else x
  }

  /** A value or `null`. */
  datatype Option<T> = None | Some(value: T)

  /** The exceptions these components can raise. */
  datatype JsError = RangeError | TypeError

  /** The completion of an operation: a value, or an exception that
      propagates to the caller. */
  datatype Completion<T> = Normal(value: T) | Throw(error: JsError)

  /** `xs.map(f)` when `f` may throw (section 23.1.3.21 of ECMA-262): the
      callback runs on the elements in order and the first exception ends
      the whole map. */
  function MapOrThrow<A, B>(f: A -> Completion<B>, xs: seq<A>): (r: Completion<seq<B>>)
    ensures r.Normal? ==> |r.value| == |xs|
  {
    if xs == [] then Normal([])
    else
      match f(xs[0])
      case Throw(e) => Throw(e)
      case Normal(y) =>
        match MapOrThrow(f, xs[1..])
        case Throw(e) => Throw(e)
        case Normal(ys) => Normal([y] + ys)
  }

  /** The map completes exactly when every callback does, and then holds
      their values in order; otherwise it throws the first exception. */
  lemma {:induction false} MapOrThrowSpec<A, B>(f: A -> Completion<B>, xs: seq<A>)
    ensures var r := MapOrThrow(f, xs);
      (r.Normal? <==> forall i :: 0 <= i < |xs| ==> f(xs[i]).Normal?)
      && (r.Normal? ==> |r.value| == |xs| && forall i :: 0 <= i < |xs| ==> f(xs[i]) == Normal(r.value[i]))
      && (r.Throw? ==>
            exists i :: 0 <= i < |xs| && f(xs[i]) == Throw(r.error) && forall j :: 0 <= j < i ==> f(xs[j]).Normal?)
  {
    if xs != [] {
      MapOrThrowSpec(f, xs[1..]);
      assert forall i :: 1 <= i < |xs| ==> xs[1..][i - 1] == xs[i];
      var r := MapOrThrow(f, xs);
      if f(xs[0]).Normal? && MapOrThrow(f, xs[1..]).Throw? {
        var i :| 0 <= i < |xs[1..]| && f(xs[1..][i]) == Throw(MapOrThrow(f, xs[1..]).error)
          && forall j :: 0 <= j < i ==> f(xs[1..][j]).Normal?;
        assert f(xs[i + 1]) == Throw(r.error);
      }
      if r.Throw? && f(xs[0]).Throw? {
        assert f(xs[0]) == Throw(r.error);
      }
    }
  }

  /** A completed map holds the callback's value for element `i` at index `i`. */
  lemma MapOrThrowAt<A, B>(f: A -> Completion<B>, xs: seq<A>, i: int)
    requires MapOrThrow(f, xs).Normal? && 0 <= i < |xs|
    ensures |MapOrThrow(f, xs).value| == |xs| && f(xs[i]) == Normal(MapOrThrow(f, xs).value[i])
  {
    MapOrThrowSpec(f, xs);
  }

  /** One callback that throws makes the whole map throw. */
  lemma MapOrThrowFails<A, B>(f: A -> Completion<B>, xs: seq<A>, i: int)
    requires 0 <= i < |xs| && f(xs[i]).Throw?
    ensures MapOrThrow(f, xs).Throw?
  {
    MapOrThrowSpec(f, xs);
  }

  /** When every callback completes, so does the map. */
  lemma MapOrThrowCompletes<A, B>(f: A -> Completion<B>, xs: seq<A>)
    requires forall i :: 0 <= i < |xs| ==> f(xs[i]).Normal?
    ensures MapOrThrow(f, xs).Normal? && |MapOrThrow(f, xs).value| == |xs|
  {
    MapOrThrowSpec(f, xs);
  }

  /** `xs.filter(p)` (section 23.1.3.8 of ECMA-262): the elements that pass
      the test, in their original order. */
  function Filter<T>(p: T -> bool, xs: seq<T>): (r: seq<T>)
    ensures |r| <= |xs|
    ensures forall i :: 0 <= i < |r| ==> r[i] in xs && p(r[i])
    ensures forall i :: 0 <= i < |xs| && p(xs[i]) ==> xs[i] in r
  {
    if xs == [] then [] else (if p(xs[0]) then [xs[0]] else []) + Filter(p, xs[1..])
  }

  /** `a` is `b` with some elements left out, the rest in their order. */
  predicate Subsequence<T(==)>(a: seq<T>, b: seq<T>)
    decreases |b|
  {
    if a == [] then true
    else if b == [] then false
    else (a[0] == b[0] && Subsequence(a[1..], b[1..])) || Subsequence(a, b[1..])
  }

  /** Filtering keeps the survivors in their order: the result is a
      subsequence of the input. */
  lemma {:induction false} FilterSubsequence<T>(p: T -> bool, xs: seq<T>)
    ensures Subsequence(Filter(p, xs), xs)
  {
    if xs != [] {
      FilterSubsequence(p, xs[1..]);
      var r := Filter(p, xs);
      if p(xs[0]) {
        assert r[0] == xs[0] && r[1..] == Filter(p, xs[1..]);
      } else {
        assert r == Filter(p, xs[1..]);
      }
    }
  }

  /** Filtering a concatenation filters each part. */
  lemma {:induction false} FilterAppend<T>(p: T -> bool, a: seq<T>, b: seq<T>)
    ensures Filter(p, a + b) == Filter(p, a) + Filter(p, b)
  {
    if a == [] {
      assert a + b == b;
    } else {
      assert (a + b)[0] == a[0] && (a + b)[1..] == a[1..] + b;
      FilterAppend(p, a[1..], b);
    }
  }

  /** When every element passes, the filter returns its input unchanged. */
  lemma {:induction false} FilterAll<T>(p: T -> bool, xs: seq<T>)
    requires forall i :: 0 <= i < |xs| ==> p(xs[i])
    ensures Filter(p, xs) == xs
  {
    if xs != [] {
      FilterAll(p, xs[1..]);
    }
  }

  /** When no element passes, the filter returns the empty list. */
  lemma {:induction false} FilterNone<T>(p: T -> bool, xs: seq<T>)
    requires forall i :: 0 <= i < |xs| ==> !p(xs[i])
    ensures Filter(p, xs) == []
  {
    if xs != [] {
      FilterNone(p, xs[1..]);
    }
  }

  /** `xs.findIndex(p)` (section 23.1.3.11 of ECMA-262), with `-1` read as
      `None`: the first index whose element passes the test. */
  function FindIndex<T>(p: T -> bool, xs: seq<T>): (r: Option<nat>)
    ensures r.None? <==> forall i :: 0 <= i < |xs| ==> !p(xs[i])
    ensures r.Some? ==> r.value < |xs| && p(xs[r.value]) && forall j :: 0 <= j < r.value ==> !p(xs[j])
  {
    if xs == [] then None
    else if p(xs[0]) then Some(0)
    else match FindIndex(p, xs[1..])
      case None => None
      case Some(k) => Some(k + 1)
  }

  /** `xs.find(p)` (section 23.1.3.9 of ECMA-262), with `undefined` read as
      `None`: the first element that passes the test. */
  function Find<T>(p: T -> bool, xs: seq<T>): (r: Option<T>)
    ensures r.None? <==> forall i :: 0 <= i < |xs| ==> !p(xs[i])
    ensures r.Some? ==> p(r.value) && exists i :: 0 <= i < |xs| && xs[i] == r.value && forall j :: 0 <= j < i ==> !p(xs[j])
  {
    match FindIndex(p, xs)
    case None => None
    case Some(i) => Some(xs[i])
  }

  /** A prefix is a subsequence. */
  lemma {:induction false} PrefixSubsequence<T>(s: seq<T>, n: nat)
    requires n <= |s|
    ensures Subsequence(s[..n], s)
  {
    if n > 0 {
      PrefixSubsequence(s[1..], n - 1);
      assert s[..n][1..] == s[1..][..n - 1];
    }
  }

  /** Every sequence is a subsequence of itself. */
  lemma {:induction false} SubsequenceRefl<T>(s: seq<T>)
    ensures Subsequence(s, s)
  {
    if s != [] {
      SubsequenceRefl(s[1..]);
    }
  }

  /** Filtering by a stricter test keeps a subsequence of what the looser
      test keeps. */
  lemma {:induction false} FilterNarrower<T>(p: T -> bool, q: T -> bool, xs: seq<T>)
    requires forall i :: 0 <= i < |xs| && p(xs[i]) ==> q(xs[i])
    ensures Subsequence(Filter(p, xs), Filter(q, xs))
  {
    if xs != [] {
      assert forall i :: 0 <= i < |xs[1..]| ==> xs[1..][i] == xs[i + 1];
      FilterNarrower(p, q, xs[1..]);
      var a, b := Filter(p, xs), Filter(q, xs);
      if p(xs[0]) {
        assert a[0] == b[0] && a[1..] == Filter(p, xs[1..]) && b[1..] == Filter(q, xs[1..]);
      } else if q(xs[0]) {
        assert a == Filter(p, xs[1..]) && b[1..] == Filter(q, xs[1..]);
      } else {
        assert a == Filter(p, xs[1..]) && b == Filter(q, xs[1..]);
      }
    }
  }

  /** Two elements of a subsequence keep their relative order in the
      sequence. */
  lemma {:induction false} SubsequencePositions<T>(a: seq<T>, b: seq<T>, i: int, j: int)
    requires Subsequence(a, b) && 0 <= i < j < |a|
    ensures exists p, q :: 0 <= p < q < |b| && b[p] == a[i] && b[q] == a[j]
    decreases |b|
  {
    if a[0] == b[0] && Subsequence(a[1..], b[1..]) {
      if i == 0 {
        SubsequenceMember(a[1..], b[1..], j - 1);
        var q :| 0 <= q < |b[1..]| && b[1..][q] == a[1..][j - 1];
        assert b[0] == a[i] && b[q + 1] == a[j];
      } else {
        SubsequencePositions(a[1..], b[1..], i - 1, j - 1);
        var p, q :| 0 <= p < q < |b[1..]| && b[1..][p] == a[1..][i - 1] && b[1..][q] == a[1..][j - 1];
        assert b[p + 1] == a[i] && b[q + 1] == a[j];
      }
    } else {
      SubsequencePositions(a, b[1..], i, j);
      var p, q :| 0 <= p < q < |b[1..]| && b[1..][p] == a[i] && b[1..][q] == a[j];
      assert b[p + 1] == a[i] && b[q + 1] == a[j];
    }
  }

  /** Every element of a subsequence occurs in the sequence. */
  lemma {:induction false} SubsequenceMember<T>(a: seq<T>, b: seq<T>, i: int)
    requires Subsequence(a, b) && 0 <= i < |a|
    ensures exists q :: 0 <= q < |b| && b[q] == a[i]
    decreases |b|
  {
    if a[0] == b[0] && Subsequence(a[1..], b[1..]) {
      if i == 0 {
        assert b[0] == a[i];
      } else {
        SubsequenceMember(a[1..], b[1..], i - 1);
        var q :| 0 <= q < |b[1..]| && b[1..][q] == a[1..][i - 1];
        assert b[q + 1] == a[i];
      }
    } else {
      SubsequenceMember(a, b[1..], i);
      var q :| 0 <= q < |b[1..]| && b[1..][q] == a[i];
      assert b[q + 1] == a[i];
    }
  }

  /** `xs.map(f)` for a callback that cannot throw. */
  function Map<A, B>(f: A -> B, xs: seq<A>): (r: seq<B>)
    ensures |r| == |xs| && forall i :: 0 <= i < |xs| ==> r[i] == f(xs[i])
  {
    seq(|xs|, i requires 0 <= i < |xs| => f(xs[i]))
  }
}

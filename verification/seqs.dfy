/**
 * Sequence helpers shared by the components: filter-map, counting, sums,
 * minimum and maximum, and joining strings.
 */
module Seqs {
  import opened Types

  /** `[u]` for `Some(u)`, `[]` for `None`. */
  function Pick<U>(o: Option<U>): seq<U>
  {
    match o
    case Some(u) => [u]
    case None => []
  }

  /**
   * Keeps, in order, the values `f` picks out of `s` (JavaScript's
   * `filter` followed by `map`).
   */
  function Choose<T, U>(s: seq<T>, f: T -> Option<U>): (r: seq<U>)
    ensures |r| <= |s|
  {
    if |s| == 0 then [] else Choose(s[..|s| - 1], f) + Pick(f(s[|s| - 1]))
  }

  /** Choosing distributes over concatenation: the order of `s` is kept. */
  lemma {:induction false} ChooseAppend<T, U>(a: seq<T>, b: seq<T>, f: T -> Option<U>)
    ensures Choose(a + b, f) == Choose(a, f) + Choose(b, f)
  {
    if |b| == 0 {
      assert a + b == a;
    } else {
      var b' := b[..|b| - 1];
      assert (a + b)[..|a + b| - 1] == a + b';
      assert (a + b)[|a + b| - 1] == b[|b| - 1];
      ChooseAppend(a, b', f);
    }
  }

  /** `u` is chosen exactly when some element of `s` yields it. */
  lemma {:induction false} ChooseMembership<T, U>(s: seq<T>, f: T -> Option<U>, u: U)
    ensures u in Choose(s, f) <==> exists k :: 0 <= k < |s| && f(s[k]) == Some(u)
  {
    if |s| > 0 {
      var s' := s[..|s| - 1];
      var last := s[|s| - 1];
      ChooseMembership(s', f, u);
      assert Choose(s, f) == Choose(s', f) + Pick(f(last));
      assert u in Pick(f(last)) <==> f(last) == Some(u);
      if u in Choose(s', f) {
        var k :| 0 <= k < |s'| && f(s'[k]) == Some(u);
        assert s[k] == s'[k];
      }
      if exists k :: 0 <= k < |s| && f(s[k]) == Some(u) {
        var k :| 0 <= k < |s| && f(s[k]) == Some(u);
        if k < |s'| {
          assert s'[k] == s[k];
        }
      }
    }
  }

  /** The number of elements of `s` that satisfy `p`. */
  function Count<T>(s: seq<T>, p: T -> bool): (n: nat)
    ensures n <= |s|
  {
    if |s| == 0 then 0 else Count(s[..|s| - 1], p) + (if p(s[|s| - 1]) then 1 else 0)
  }

  /** Whatever `f` picks satisfies `p`, so `f` picks at most `Count(s, p)` values. */
  lemma {:induction false} ChooseAtMostCount<T, U>(s: seq<T>, f: T -> Option<U>, p: T -> bool)
    requires forall t :: f(t).Some? ==> p(t)
    ensures |Choose(s, f)| <= Count(s, p)
  {
    if |s| > 0 {
      ChooseAtMostCount(s[..|s| - 1], f, p);
    }
  }

  /** When `f` picks exactly the elements satisfying `p`, it picks `Count(s, p)` values. */
  lemma {:induction false} ChooseCount<T, U>(s: seq<T>, f: T -> Option<U>, p: T -> bool)
    requires forall t :: f(t).Some? <==> p(t)
    ensures |Choose(s, f)| == Count(s, p)
  {
    if |s| > 0 {
      ChooseCount(s[..|s| - 1], f, p);
    }
  }

  /**
   * Picking `g` of what `f` picks, element by element, is applying `g` to
   * everything `f` picks: the same length and the same order.
   */
  lemma {:induction false} ChooseCompose<T, U, V>(s: seq<T>, f: T -> Option<U>, g: U -> V, h: T -> Option<V>)
    requires forall t :: h(t) == if f(t).Some? then Some(g(f(t).value)) else None
    ensures |Choose(s, h)| == |Choose(s, f)|
    ensures forall k :: 0 <= k < |Choose(s, h)| ==> Choose(s, h)[k] == g(Choose(s, f)[k])
  {
    if |s| > 0 {
      ChooseCompose(s[..|s| - 1], f, g, h);
    }
  }

  /**
   * A filter keeps the order: if every earlier element of `s` is `less`
   * than every later one, the same holds for what `f` keeps.
   */
  lemma {:induction false} ChooseSorted<T>(s: seq<T>, f: T -> Option<T>, less: (T, T) -> bool)
    requires forall t :: f(t).Some? ==> f(t).value == t
    requires forall a, b :: 0 <= a < b < |s| ==> less(s[a], s[b])
    ensures var r := Choose(s, f);
            forall a, b :: 0 <= a < b < |r| ==> less(r[a], r[b])
  {
    if |s| > 0 {
      var s' := s[..|s| - 1];
      var last := s[|s| - 1];
      ChooseSorted(s', f, less);
      var r' := Choose(s', f);
      assert Choose(s, f) == r' + Pick(f(last));
      forall a | 0 <= a < |r'| ensures less(r'[a], last) {
        ChooseMembership(s', f, r'[a]);
        var k :| 0 <= k < |s'| && f(s'[k]) == Some(r'[a]);
        assert s'[k] == s[k];
      }
    }
  }

  /** `values.reduce((acc, val) => acc + val, 0)`, summed from the left. */
  function Sum(s: seq<real>): real
  {
    if |s| == 0 then 0.0 else Sum(s[..|s| - 1]) + s[|s| - 1]
  }

  /** `Math.min(...s)`. */
  function Min(s: seq<real>): (m: real)
    requires |s| > 0
    ensures m in s && forall k :: 0 <= k < |s| ==> m <= s[k]
  {
    if |s| == 1 then s[0]
    else
      var m' := Min(s[..|s| - 1]);
      if s[|s| - 1] < m' then s[|s| - 1] else m'
  }

  /** `Math.max(...s)`. */
  function Max(s: seq<real>): (m: real)
    requires |s| > 0
    ensures m in s && forall k :: 0 <= k < |s| ==> s[k] <= m
  {
    if |s| == 1 then s[0]
    else
      var m' := Max(s[..|s| - 1]);
      if s[|s| - 1] > m' then s[|s| - 1] else m'
  }

  /** |s| · lo <= Sum(s) <= |s| · hi when every element lies in [lo, hi]. */
  lemma {:induction false} SumBetween(s: seq<real>, lo: real, hi: real)
    requires forall k :: 0 <= k < |s| ==> lo <= s[k] <= hi
    ensures (|s| as real) * lo <= Sum(s) <= (|s| as real) * hi
  {
    if |s| > 0 {
      SumBetween(s[..|s| - 1], lo, hi);
      assert ((|s| - 1) as real) * lo + lo == (|s| as real) * lo;
      assert ((|s| - 1) as real) * hi + hi == (|s| as real) * hi;
    }
  }

  /** `xs.join(sep)`. */
  function Join(xs: seq<string>, sep: string): string
  {
    if |xs| == 0 then ""
    else if |xs| == 1 then xs[0]
    else Join(xs[..|xs| - 1], sep) + sep + xs[|xs| - 1]
  }

  /** `s.split(c)` for a one-character separator. */
  function Split(s: string, c: char): (r: seq<string>)
    ensures |r| > 0
  {
    if |s| == 0 then [""]
    else
      var rest := Split(s[1..], c);
      if s[0] == c then [""] + rest else [[s[0]] + rest[0]] + rest[1..]
  }

  /** Splitting `x + [c] + t` at `c` gives `x` first when `x` does not contain `c`. */
  lemma {:induction false} SplitAfterPiece(x: string, c: char, t: string)
    requires c !in x
    ensures Split(x + [c] + t, c) == [x] + Split(t, c)
  {
    if |x| == 0 {
      assert x + [c] + t == [c] + t;
      assert ([c] + t)[1..] == t;
    } else {
      var s := x + [c] + t;
      assert s[1..] == x[1..] + [c] + t;
      SplitAfterPiece(x[1..], c, t);
      assert [x[0]] + x[1..] == x;
    }
  }

  /** Splitting a string that does not contain `c` gives the string itself. */
  lemma {:induction false} SplitNoSeparator(x: string, c: char)
    requires c !in x
    ensures Split(x, c) == [x]
  {
    if |x| > 0 {
      SplitNoSeparator(x[1..], c);
      assert [x[0]] + x[1..] == x;
    }
  }

  /** Join with a one-character separator is undone by Split when no piece contains it. */
  lemma {:induction false} SplitJoin(xs: seq<string>, c: char)
    requires |xs| > 0
    requires forall k :: 0 <= k < |xs| ==> c !in xs[k]
    ensures Split(Join(xs, [c]), c) == xs
  {
    if |xs| == 1 {
      SplitNoSeparator(xs[0], c);
    } else {
      JoinFront(xs, [c]);
      SplitJoin(xs[1..], c);
      SplitAfterPiece(xs[0], c, Join(xs[1..], [c]));
      assert [xs[0]] + xs[1..] == xs;
    }
  }

  /** Join seen from the front: the first piece, the separator, the rest. */
  lemma {:induction false} JoinFront(xs: seq<string>, sep: string)
    requires |xs| >= 2
    ensures Join(xs, sep) == xs[0] + sep + Join(xs[1..], sep)
  {
    if |xs| > 2 {
      var init := xs[..|xs| - 1];
      JoinFront(init, sep);
      assert init[1..] == xs[1..][..|xs[1..]| - 1];
      assert init[0] == xs[0];
    } else {
      assert xs[1..] == [xs[1]];
      assert xs[..1] == [xs[0]];
    }
  }

  /** No element occurs twice. */
  predicate Distinct<T(==)>(s: seq<T>)
  {
    forall i, j :: 0 <= i < j < |s| ==> s[i] != s[j]
  }
}

/**
 * The iterator adaptors the handlers use on vectors: `filter` and `take`,
 * both keeping the order of the input.
 */
module Seqs {
  import opened Text

  /** `iter().filter(p).collect()`. */
  function Filter<T(!new)>(xs: seq<T>, p: T -> bool): (r: seq<T>)
    ensures |r| <= |xs|
    ensures forall x :: x in r <==> x in xs && p(x)
    decreases |xs|
  {
    if xs == [] then []
    else if p(xs[0]) then [xs[0]] + Filter(xs[1..], p)
    else Filter(xs[1..], p)
  }

  /** Filtering a concatenation filters each side. */
  lemma {:induction false} FilterAppend<T(!new)>(a: seq<T>, b: seq<T>, p: T -> bool)
    ensures Filter(a + b, p) == Filter(a, p) + Filter(b, p)
    decreases |a|
  {
    if a == [] {
      assert a + b == b;
    } else {
      assert (a + b)[0] == a[0];
      assert (a + b)[1..] == a[1..] + b;
      FilterAppend(a[1..], b, p);
    }
  }

  /** Filtering keeps everything when every element passes. */
  lemma {:induction false} FilterAll<T(!new)>(xs: seq<T>, p: T -> bool)
    requires forall i :: 0 <= i < |xs| ==> p(xs[i])
    ensures Filter(xs, p) == xs
    decreases |xs|
  {
    if xs != [] {
      FilterAll(xs[1..], p);
    }
  }

  /** How many elements pass `p`. */
  function CountWhere<T>(xs: seq<T>, p: T -> bool): nat
    decreases |xs|
  {
    if xs == [] then 0 else (if p(xs[0]) then 1 else 0) + CountWhere(xs[1..], p)
  }

  /** Filtering keeps one element per passing element. */
  lemma {:induction false} FilterLength<T(!new)>(xs: seq<T>, p: T -> bool)
    ensures |Filter(xs, p)| == CountWhere(xs, p)
    decreases |xs|
  {
    if xs != [] {
      FilterLength(xs[1..], p);
    }
  }

  /** Filtering keeps the order: a passing element lands at its rank among the passing elements before it. */
  lemma {:induction false} FilterPosition<T(!new)>(xs: seq<T>, p: T -> bool, j: nat)
    requires j < |xs| && p(xs[j])
    ensures CountWhere(xs[..j], p) < |Filter(xs, p)|
    ensures Filter(xs, p)[CountWhere(xs[..j], p)] == xs[j]
    decreases j
  {
    if j == 0 {
      assert xs[..0] == [];
    } else {
      FilterPosition(xs[1..], p, j - 1);
      assert xs[..j][1..] == xs[1..][..j - 1];
    }
  }

  /** Every position of the filtered sequence holds the passing element of that rank. */
  lemma {:induction false} FilterSource<T(!new)>(xs: seq<T>, p: T -> bool, k: nat) returns (j: nat)
    requires k < |Filter(xs, p)|
    ensures j < |xs| && p(xs[j]) && CountWhere(xs[..j], p) == k && Filter(xs, p)[k] == xs[j]
    decreases |xs|
  {
    if p(xs[0]) && k == 0 {
      j := 0;
      assert xs[..0] == [];
    } else {
      var k' := if p(xs[0]) then k - 1 else k;
      var j' := FilterSource(xs[1..], p, k');
      j := j' + 1;
      assert xs[..j][1..] == xs[1..][..j'];
    }
  }

  /** `iter().take(n)`. */
  function Take<T>(xs: seq<T>, n: nat): (r: seq<T>)
    ensures |r| == if |xs| < n then |xs| else n
    ensures forall i :: 0 <= i < |r| ==> r[i] == xs[i]
  {
    if |xs| <= n then xs else xs[..n]
  }

  /** The text pushed for each element in turn: `for x in xs { out.push_str(&f(x)) }`. */
  function ConcatMap<T>(xs: seq<T>, f: T -> string): string
    decreases |xs|
  {
    if xs == [] then "" else ConcatMap(xs[..|xs| - 1], f) + f(xs[|xs| - 1])
  }

  lemma {:induction false} ConcatMapAppend<T>(a: seq<T>, b: seq<T>, f: T -> string)
    ensures ConcatMap(a + b, f) == ConcatMap(a, f) + ConcatMap(b, f)
    decreases |b|
  {
    if b == [] {
      assert a + b == a;
    } else {
      var ab := a + b;
      assert ab[..|ab| - 1] == a + b[..|b| - 1];
      assert ab[|ab| - 1] == b[|b| - 1];
      ConcatMapAppend(a, b[..|b| - 1], f);
    }
  }

  lemma ConcatMapSingle<T>(x: T, f: T -> string)
    ensures ConcatMap([x], f) == f(x)
  {
    assert [x][..0] == [];
  }

  lemma AppendAssoc<T>(a: seq<T>, b: seq<T>, c: seq<T>)
    ensures a + b + c == a + (b + c)
  {
  }

  /** Pushing one more element's text extends the concatenation by that text. */
  lemma ConcatMapSnoc<T>(xs: seq<T>, f: T -> string, i: nat)
    requires i < |xs|
    ensures ConcatMap(xs[..i + 1], f) == ConcatMap(xs[..i], f) + f(xs[i])
  {
    assert xs[..i + 1][..i] == xs[..i];
  }

  /** `for x in xs { out.push_str(&f(x)) }`, run on `out`: the loop behind `ConcatMap`. */
  method PushEach<T>(out: string, xs: seq<T>, f: T -> string) returns (r: string)
    ensures r == out + ConcatMap(xs, f)
    ensures out == [] ==> r == ConcatMap(xs, f)
  {
    r := out;
    var i := 0;
    while i < |xs|
      invariant 0 <= i <= |xs|
      invariant r == out + ConcatMap(xs[..i], f)
    {
      ConcatMapSnoc(xs, f, i);
      r := r + f(xs[i]);
      i := i + 1;
    }
    assert xs[..i] == xs;
  }

  /** The text of element `k` sits between the text of the elements before it and of those after it. */
  lemma ConcatMapSplit<T>(xs: seq<T>, f: T -> string, k: nat)
    requires k < |xs|
    ensures ConcatMap(xs, f) == ConcatMap(xs[..k], f) + f(xs[k]) + ConcatMap(xs[k + 1..], f)
  {
    assert xs == xs[..k + 1] + xs[k + 1..];
    ConcatMapAppend(xs[..k + 1], xs[k + 1..], f);
    ConcatMapSnoc(xs, f, k);
  }

  /** Every element's text occurs in the concatenation, whatever surrounds it. */
  lemma ConcatMapContains<T>(pre: string, xs: seq<T>, f: T -> string, post: string, k: nat)
    requires k < |xs|
    ensures Contains(pre + ConcatMap(xs, f) + post, f(xs[k]))
  {
    ConcatMapSplit(xs, f, k);
    var a, b := ConcatMap(xs[..k], f), ConcatMap(xs[k + 1..], f);
    assert pre + ConcatMap(xs, f) + post == (pre + a) + f(xs[k]) + (b + post);
    ContainsInfix(pre + a, f(xs[k]), b + post);
  }

  /** Every element's text occurs in the concatenation. */
  lemma ConcatMapContainsElement<T>(xs: seq<T>, f: T -> string, k: nat)
    requires k < |xs|
    ensures Contains(ConcatMap(xs, f), f(xs[k]))
  {
    ConcatMapSplit(xs, f, k);
    ContainsInfix(ConcatMap(xs[..k], f), f(xs[k]), ConcatMap(xs[k + 1..], f));
  }
  /** `for x in xs { out.extend(f(x)) }`: each element's pieces, one element after another. */
  function FlatMap<T, U>(xs: seq<T>, f: T -> seq<U>): seq<U>
    decreases |xs|
  {
    if xs == [] then [] else FlatMap(xs[..|xs| - 1], f) + f(xs[|xs| - 1])
  }

  /** Extending by one more element's pieces. */
  lemma FlatMapSnoc<T, U>(xs: seq<T>, f: T -> seq<U>, i: nat)
    requires i < |xs|
    ensures FlatMap(xs[..i + 1], f) == FlatMap(xs[..i], f) + f(xs[i])
  {
    assert xs[..i + 1][..i] == xs[..i];
  }

  /** A piece is in the flattening exactly when some element produced it. */
  lemma {:induction false} FlatMapMember<T, U>(xs: seq<T>, f: T -> seq<U>, y: U)
    ensures y in FlatMap(xs, f) <==> exists i :: 0 <= i < |xs| && y in f(xs[i])
    decreases |xs|
  {
    if xs != [] {
      var n := |xs| - 1;
      var init := xs[..n];
      FlatMapMember(init, f, y);
      if y in FlatMap(xs, f) {
        if y in FlatMap(init, f) {
          var i :| 0 <= i < |init| && y in f(init[i]);
          assert xs[i] == init[i];
        } else {
          assert y in f(xs[n]);
        }
      }
      if exists i :: 0 <= i < |xs| && y in f(xs[i]) {
        var i :| 0 <= i < |xs| && y in f(xs[i]);
        if i < n {
          assert init[i] == xs[i];
        }
      }
    }
  }
}

/** Generic sequence helpers: the list comprehensions `[f(x) for x in xs]`
    and `[x for x in xs if p(x)]`, and list flattening. */
module Seqs {

  /** `[f(x) for x in xs]` */
  function Map<T, U>(f: T -> U, xs: seq<T>): (r: seq<U>)
    ensures |r| == |xs|
    ensures forall i :: 0 <= i < |xs| ==> r[i] == f(xs[i])
  {
    seq(|xs|, i requires 0 <= i < |xs| => f(xs[i]))
  }

  lemma MapConcat<T, U>(f: T -> U, a: seq<T>, b: seq<T>)
    ensures Map(f, a + b) == Map(f, a) + Map(f, b)
  {
  }

  /** Mapping a prefix one element longer appends that element's image. */
  lemma MapSnoc<T, U>(f: T -> U, xs: seq<T>, i: int)
    requires 0 <= i < |xs|
    ensures Map(f, xs[..i + 1]) == Map(f, xs[..i]) + [f(xs[i])]
  {
    assert xs[..i + 1] == xs[..i] + [xs[i]];
    MapConcat(f, xs[..i], [xs[i]]);
  }

  /** Putting an element in front of a concatenation regroups it. */
  lemma ConsAssoc<T>(x: T, a: seq<T>, b: seq<T>)
    ensures [x] + (a + b) == ([x] + a) + b
  {
  }

  /** The head and tail of a concatenation with a non-empty front. */
  lemma HeadTailConcat<T>(a: seq<T>, b: seq<T>)
    requires |a| > 0
    ensures (a + b)[0] == a[0] && (a + b)[1..] == a[1..] + b
  {
  }

  /** A sequence is its prefix followed by the rest. */
  lemma SplitAt<T>(s: seq<T>, k: int)
    requires 0 <= k <= |s|
    ensures s == s[..k] + s[k..]
  {
  }

  /** `[x for x in xs if p(x)]` */
  function Filter<T>(p: T -> bool, xs: seq<T>): (r: seq<T>)
    ensures |r| <= |xs|
    ensures forall i :: 0 <= i < |r| ==> p(r[i]) && r[i] in xs
    ensures forall i :: 0 <= i < |xs| && p(xs[i]) ==> xs[i] in r
  {
    if |xs| == 0 then []
    else if p(xs[0]) then [xs[0]] + Filter(p, xs[1..])
    else Filter(p, xs[1..])
  }

  /** Filtering distributes over concatenation: the kept elements keep their order. */
  lemma {:induction false} FilterConcat<T>(p: T -> bool, a: seq<T>, b: seq<T>)
    ensures Filter(p, a + b) == Filter(p, a) + Filter(p, b)
  {
    if |a| == 0 {
      assert a + b == b;
    } else {
      assert (a + b)[1..] == a[1..] + b;
      FilterConcat(p, a[1..], b);
    }
  }

  /** Filtering then mapping a prefix one element longer appends that
      element's image when it is kept. */
  lemma FilterMapSnoc<T, U>(f: T -> U, p: T -> bool, xs: seq<T>, i: int)
    requires 0 <= i < |xs|
    ensures Map(f, Filter(p, xs[..i + 1])) ==
            Map(f, Filter(p, xs[..i])) + (if p(xs[i]) then [f(xs[i])] else [])
  {
    assert xs[..i + 1] == xs[..i] + [xs[i]];
    FilterConcat(p, xs[..i], [xs[i]]);
    assert Filter(p, [xs[i]]) == if p(xs[i]) then [xs[i]] else [];
    MapConcat(f, Filter(p, xs[..i]), Filter(p, [xs[i]]));
  }

  /** Filtering with a predicate that holds everywhere changes nothing. */
  lemma {:induction false} FilterAll<T>(p: T -> bool, xs: seq<T>)
    requires forall i :: 0 <= i < |xs| ==> p(xs[i])
    ensures Filter(p, xs) == xs
  {
    if |xs| > 0 {
      FilterAll(p, xs[1..]);
    }
  }

  /** Filtering with a predicate that holds nowhere leaves nothing. */
  lemma {:induction false} FilterNone<T>(p: T -> bool, xs: seq<T>)
    requires forall i :: 0 <= i < |xs| ==> !p(xs[i])
    ensures Filter(p, xs) == []
  {
    if |xs| > 0 {
      FilterNone(p, xs[1..]);
    }
  }

  /** Concatenation of a sequence of sequences. */
  function Flatten<T>(xss: seq<seq<T>>): (r: seq<T>)
    ensures |xss| == 0 ==> r == []
  {
    if |xss| == 0 then [] else xss[0] + Flatten(xss[1..])
  }

  /** Every element of every part is an element of the flattening. */
  lemma {:induction false} FlattenContains<T>(xss: seq<seq<T>>, b: int, x: T)
    requires 0 <= b < |xss| && x in xss[b]
    ensures x in Flatten(xss)
  {
    if b > 0 {
      FlattenContains(xss[1..], b - 1, x);
    }
  }

  lemma {:induction false} FlattenConcat<T>(a: seq<seq<T>>, b: seq<seq<T>>)
    ensures Flatten(a + b) == Flatten(a) + Flatten(b)
  {
    if |a| == 0 {
      assert a + b == b;
    } else {
      assert (a + b)[1..] == a[1..] + b;
      FlattenConcat(a[1..], b);
    }
  }
}

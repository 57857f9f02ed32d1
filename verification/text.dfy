/** Python string primitives the application relies on: character classes of
    Python's `re` module and `str` methods (`lower`, `strip`, `split`,
    `join`, the `in` substring test). */
module Text {

  /** Python's whitespace (`str.isspace`, `str.strip()` and `\s` in `re`). */
  predicate IsSpace(c: char) {
    || c == ' '
    || ('\t' <= c <= '\r')
    || ('\U{1c}' <= c <= '\U{1f}')
    || c == '\U{85}' || c == '\U{a0}' || c == '\U{1680}'
    || ('\U{2000}' <= c <= '\U{200a}')
    || c == '\U{2028}' || c == '\U{2029}' || c == '\U{202f}'
    || c == '\U{205f}' || c == '\U{3000}'
  }

  predicate IsUpper(c: char) { 'A' <= c <= 'Z' }

  predicate IsLower(c: char) { 'a' <= c <= 'z' }

  predicate IsDigit(c: char) { '0' <= c <= '9' }

  /** `\w` of Python's `re` on str patterns: ASCII letters, digits and '_';
      every non-ASCII character that is not whitespace counts as a letter. */
  predicate IsWordChar(c: char) {
    IsUpper(c) || IsLower(c) || IsDigit(c) || c == '_' || (c > '\U{7f}' && !IsSpace(c))
  }

  function LowerChar(c: char): (r: char)
    ensures IsUpper(c) ==> IsLower(r)
    ensures !IsUpper(c) ==> r == c
  {
    if IsUpper(c) then (c as int - 'A' as int + 'a' as int) as char else c
  }

  /** `s.lower()` (ASCII letters only). */
  function Lower(s: string): (r: string)
    ensures |r| == |s|
    ensures forall i :: 0 <= i < |s| ==> r[i] == LowerChar(s[i])
  {
    seq(|s|, i requires 0 <= i < |s| => LowerChar(s[i]))
  }

  predicate AllSpace(s: string) {
    forall i :: 0 <= i < |s| ==> IsSpace(s[i])
  }

  /** Neither starts nor ends with whitespace: what `strip()` returns. */
  predicate Trimmed(s: string) {
    |s| == 0 || (!IsSpace(s[0]) && !IsSpace(s[|s| - 1]))
  }

  /** `s.lstrip()` */
  function StripStart(s: string): (r: string)
    ensures |r| <= |s| && r == s[|s| - |r|..]
    ensures |r| == 0 || !IsSpace(r[0])
    ensures AllSpace(s[..|s| - |r|])
    ensures |s| > 0 && IsSpace(s[0]) ==> |r| < |s|
    decreases |s|
  {
    if |s| > 0 && IsSpace(s[0]) then StripStart(s[1..]) else s
  }

  /** `s.rstrip()` */
  function StripEnd(s: string): (r: string)
    ensures |r| <= |s| && r == s[..|r|]
    ensures |r| == 0 || !IsSpace(r[|r| - 1])
    ensures AllSpace(s[|r|..])
    decreases |s|
  {
    if |s| > 0 && IsSpace(s[|s| - 1]) then StripEnd(s[..|s| - 1]) else s
  }

  /** A string that starts with whitespace is all whitespace exactly when
      its tail is. */
  lemma AllSpaceTail(a: string)
    requires |a| > 0 && IsSpace(a[0])
    ensures AllSpace(a) <==> AllSpace(a[1..])
  {
    if AllSpace(a[1..]) {
      forall i | 1 <= i < |a| ensures IsSpace(a[i]) {
        assert a[i] == a[1..][i - 1];
      }
    }
  }

  /** `lstrip()` of a concatenation: the second part is reached only when
      the first is all whitespace. */
  lemma {:induction false} StripStartConcat(a: string, b: string)
    ensures AllSpace(a) ==> StripStart(a + b) == StripStart(b)
    ensures !AllSpace(a) ==> StripStart(a + b) == StripStart(a) + b
    decreases |a|
  {
    if |a| == 0 {
      assert a + b == b;
    } else if !IsSpace(a[0]) {
      assert (a + b)[0] == a[0];
      assert !AllSpace(a);
    } else {
      assert (a + b)[0] == a[0] && (a + b)[1..] == a[1..] + b;
      StripStartConcat(a[1..], b);
      AllSpaceTail(a);
    }
  }

  /** A whitespace-only string strips to nothing at the front. */
  lemma StripStartAllSpace(s: string)
    requires AllSpace(s)
    ensures StripStart(s) == ""
  {
  }

  /** Number of whitespace characters `strip()` removes at the front. */
  function StripOffset(s: string): (n: nat)
    ensures n <= |s|
  {
    |s| - |StripStart(s)|
  }

  /** `s.strip()`: the slice of `s` left after removing whitespace at both
      ends. */
  function Strip(s: string): (r: string)
    ensures Trimmed(r)
    ensures StripOffset(s) + |r| <= |s|
    ensures r == s[StripOffset(s)..StripOffset(s) + |r|]
  {
    StripEnd(StripStart(s))
  }

  /** A property of every character survives `strip()`. */
  lemma StripPreserves(s: string, p: char -> bool)
    requires forall i :: 0 <= i < |s| ==> p(s[i])
    ensures forall i :: 0 <= i < |Strip(s)| ==> p(Strip(s)[i])
  {
    var r := Strip(s);
    var k := StripOffset(s);
    forall i | 0 <= i < |r| ensures p(r[i]) {
      assert r[i] == s[k + i];
    }
  }

  /** Only whitespace is removed by `strip()`. */
  lemma StripRemovesSpace(s: string)
    ensures AllSpace(s[..StripOffset(s)])
    ensures AllSpace(s[StripOffset(s) + |Strip(s)|..])
  {
    var t := StripStart(s);
    var k := StripOffset(s);
    assert t == s[k..];
    assert s[k + |Strip(s)|..] == t[|StripEnd(t)|..];
  }

  lemma StripTrimmed(s: string)
    requires Trimmed(s)
    ensures Strip(s) == s
  {
  }

  /** A string strips to the empty string exactly when it is all whitespace. */
  lemma StripEmpty(s: string)
    ensures Strip(s) == [] <==> AllSpace(s)
  {
    var k := StripOffset(s);
    StripRemovesSpace(s);
    if Strip(s) == [] {
      assert s == s[..k] + s[k..];
    } else {
      assert !IsSpace(s[k]);
    }
  }

  /** `strip()` cuts whitespace at the two ends and nothing else: the
      input is some whitespace, the result, and some whitespace. */
  lemma StripFrame(s: string)
    ensures exists p, q :: s == p + Strip(s) + q && AllSpace(p) && AllSpace(q)
  {
    var k, r := StripOffset(s), Strip(s);
    StripRemovesSpace(s);
    assert s == s[..k] + r + s[k + |r|..];
  }

  /** `sep.join(xs)` */
  function Join(sep: string, xs: seq<string>): string
    decreases |xs|
  {
    if |xs| == 0 then "" else if |xs| == 1 then xs[0] else xs[0] + sep + Join(sep, xs[1..])
  }

  lemma JoinCons(sep: string, x: string, xs: seq<string>)
    requires |xs| > 0
    ensures Join(sep, [x] + xs) == x + sep + Join(sep, xs)
  {
    assert ([x] + xs)[1..] == xs;
  }

  /** Position of the first `c` in `s`, or `|s|` when there is none. */
  function IndexOf(s: string, c: char): (k: nat)
    ensures k <= |s|
    ensures forall i :: 0 <= i < k ==> s[i] != c
    ensures k < |s| ==> s[k] == c
    decreases |s|
  {
    if |s| == 0 then 0 else if s[0] == c then 0 else 1 + IndexOf(s[1..], c)
  }

  /** `s.split(c)` for a one-character separator: the pieces between
      separators, including empty ones, so there is always at least one. */
  function Split(s: string, c: char): (r: seq<string>)
    ensures |r| >= 1
    ensures forall i :: 0 <= i < |r| ==> c !in r[i]
    ensures Join([c], r) == s
    decreases |s|
  {
    var k := IndexOf(s, c);
    if k == |s| then [s]
    else
      var rest := Split(s[k + 1..], c);
      JoinCons([c], s[..k], rest);
      assert s == s[..k] + [c] + s[k + 1..];
      [s[..k]] + rest
  }

  /** Splitting a join on a separator that no piece contains gives the pieces
      back: `split` and `join` are inverse. */
  lemma {:induction false} SplitJoin(xs: seq<string>, c: char)
    requires |xs| >= 1
    requires forall i :: 0 <= i < |xs| ==> c !in xs[i]
    ensures Split(Join([c], xs), c) == xs
    decreases |xs|
  {
    var s := Join([c], xs);
    if |xs| == 1 {
      assert IndexOf(s, c) == |s|;
    } else {
      JoinCons([c], xs[0], xs[1..]);
      assert xs == [xs[0]] + xs[1..];
      var k := IndexOf(s, c);
      assert s[|xs[0]|] == c;
      assert k == |xs[0]|;
      assert s[..k] == xs[0];
      assert s[k + 1..] == Join([c], xs[1..]);
      SplitJoin(xs[1..], c);
    }
  }

  /** Python's `needle in hay` on strings. */
  predicate Contains(hay: string, needle: string) {
    exists i :: 0 <= i <= |hay| - |needle| && OccursAt(hay, needle, i)
  }

  predicate OccursAt(hay: string, needle: string, i: int) {
    0 <= i && i + |needle| <= |hay| && hay[i..i + |needle|] == needle
  }

  /** A needle that holds a character the haystack lacks never occurs in it. */
  lemma ContainsOnlyHayChars(hay: string, needle: string, j: int)
    requires 0 <= j < |needle|
    requires forall i :: 0 <= i < |hay| ==> hay[i] != needle[j]
    ensures !Contains(hay, needle)
  {
    forall i | 0 <= i <= |hay| - |needle|
      ensures !OccursAt(hay, needle, i)
    {
      assert hay[i..i + |needle|][j] == hay[i + j] != needle[j];
    }
  }
}

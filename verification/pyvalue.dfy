/** Python values as the application receives them from `json.load`, from a
    pandas row or from the language model's JSON output, together with the
    three built-ins the core applies to them: truthiness, `str()` and
    `dict.get`. */
module PyValue {
  import opened Wrappers
  import opened Text

  /** A dictionary: an insertion-ordered association list with string keys. */
  type Assoc<V> = seq<(string, V)>

  datatype Value =
    | VNone
    | VBool(b: bool)
    | VInt(i: int)
    | VFloat(text: string)                 // a float, by its `str()` form ("1.5", "nan")
    | VStr(s: string)
    | VList(items: seq<Value>)
    | VDict(entries: seq<(string, Value)>)
    | VOther(text: string)                 // any other object (a Timestamp, a numpy scalar), by its `str()` form

  type Dict = Assoc<Value>

  /** Python's `bool(v)`. */
  predicate Truthy(v: Value) {
    match v
    case VNone => false
    case VBool(b) => b
    case VInt(i) => i != 0
    case VFloat(t) => t != "0.0" && t != "-0.0"
    case VStr(s) => |s| > 0
    case VList(xs) => |xs| > 0
    case VDict(d) => |d| > 0
    case VOther(_) => true
  }

  /** `isinstance(v, (str, int, float, bool))` */
  predicate IsScalar(v: Value) {
    v.VStr? || v.VInt? || v.VFloat? || v.VBool?
  }

  /** A non-empty Python string: what `isinstance(x, str) and x` accepts. */
  predicate IsNonEmptyStr(v: Value) {
    v.VStr? && |v.s| > 0
  }

  function DigitChar(d: nat): char
    requires d < 10
  {
    ('0' as int + d) as char
  }

  function NatToString(n: nat): (r: string)
    ensures |r| > 0
    decreases n
  {
    if n < 10 then [DigitChar(n)] else NatToString(n / 10) + [DigitChar(n % 10)]
  }

  /** Every element is a string. */
  predicate AllStr(xs: seq<Value>) {
    forall i :: 0 <= i < |xs| ==> xs[i].VStr?
  }

  /** The strings of a list of strings. */
  function Strs(xs: seq<Value>): (r: seq<string>)
    requires AllStr(xs)
    ensures |r| == |xs|
    ensures forall i :: 0 <= i < |xs| ==> xs[i] == VStr(r[i])
  {
    seq(|xs|, i requires 0 <= i < |xs| => xs[i].s)
  }

  /** `str(i)` for an integer. */
  function IntToString(i: int): string {
    if i < 0 then "-" + NatToString(-i) else NatToString(i)
  }

  /** `str(v)`: a string is itself; everything else is its `repr()`. */
  function Str(v: Value): (r: string)
    ensures v.VStr? ==> r == v.s
    decreases v, 1
  {
    match v
    case VStr(s) => s
    case _ => Repr(v)
  }

  /** `repr(v)`. */
  function Repr(v: Value): string
    decreases v, 0
  {
    match v
    case VNone => "None"
    case VBool(b) => if b then "True" else "False"
    case VInt(i) => IntToString(i)
    case VFloat(t) => t
    case VStr(s) => StrRepr(s)
    case VList(xs) =>
      "[" + Join(", ", seq(|xs|, k requires 0 <= k < |xs| => Repr(xs[k]))) + "]"
    case VDict(d) =>
      "{" + Join(", ", seq(|d|, k requires 0 <= k < |d| => StrRepr(d[k].0) + ": " + Repr(d[k].1))) + "}"
    case VOther(t) => t
  }

  // ---------------------------------------------------------------------
  // repr of a string
  // ---------------------------------------------------------------------

  /** The quote `repr` puts around a string: double quotes when the string
      holds a single quote and no double quote, single quotes otherwise. */
  function QuoteOf(s: string): (q: char)
    ensures q == '\'' || q == '"'
    ensures q in s ==> q == '\'' && '"' in s
  {
    if '\'' in s && '"' !in s then '"' else '\''
  }

  /** The ASCII control characters, which `repr` writes as `\xhh`. */
  predicate IsControl(c: char) {
    c < ' ' || c == '\U{7f}'
  }

  function HexDigit(d: nat): (c: char)
    requires d < 16
    ensures IsHexDigit(c)
  {
    if d < 10 then ('0' as int + d) as char else ('a' as int + d - 10) as char
  }

  predicate IsHexDigit(c: char) {
    '0' <= c <= '9' || 'a' <= c <= 'f'
  }

  function HexValue(c: char): (d: nat)
    requires IsHexDigit(c)
    ensures d < 16
  {
    if c <= '9' then c as int - '0' as int else c as int - 'a' as int + 10
  }

  lemma HexRoundTrip(d: nat)
    requires d < 16
    ensures HexValue(HexDigit(d)) == d
  {
  }

  /** How `repr` writes one character inside quotes `q`. */
  function EscapeChar(c: char, q: char): (e: string)
    ensures 1 <= |e| <= 4
    ensures |e| == 1 <==> c != q && c != '\\' && !IsControl(c)
    ensures |e| == 1 ==> e == [c]
    ensures |e| > 1 ==> e[0] == '\\'
  {
    if c == q || c == '\\' then ['\\', c]
    else if c == '\t' then "\\t"
    else if c == '\n' then "\\n"
    else if c == '\r' then "\\r"
    else if IsControl(c) then ['\\', 'x', HexDigit(c as int / 16), HexDigit(c as int % 16)]
    else [c]
  }

  /** The characters of `s` escaped for quotes `q`. */
  function EscapeAll(s: string, q: char): string
    decreases |s|
  {
    if |s| == 0 then "" else EscapeChar(s[0], q) + EscapeAll(s[1..], q)
  }

  /** `repr(s)` for a string `s`; control characters beyond ASCII are
      written as themselves (see the README). */
  function StrRepr(s: string): (r: string)
    ensures |r| >= 2 && r[0] == r[|r| - 1] == QuoteOf(s)
    ensures r[1..|r| - 1] == EscapeAll(s, QuoteOf(s))
  {
    [QuoteOf(s)] + EscapeAll(s, QuoteOf(s)) + [QuoteOf(s)]
  }

  /** Reads escaped text back: the inverse of `EscapeAll`. */
  function Unescape(e: string): string
    decreases |e|
  {
    if |e| == 0 then ""
    else if e[0] != '\\' || |e| == 1 then [e[0]] + Unescape(e[1..])
    else if e[1] == 't' then "\t" + Unescape(e[2..])
    else if e[1] == 'n' then "\n" + Unescape(e[2..])
    else if e[1] == 'r' then "\r" + Unescape(e[2..])
    else if e[1] == 'x' && |e| >= 4 && IsHexDigit(e[2]) && IsHexDigit(e[3]) then
      [(HexValue(e[2]) * 16 + HexValue(e[3])) as char] + Unescape(e[4..])
    else [e[1]] + Unescape(e[2..])
  }

  /** Each escaped character reads back as itself, whatever follows it. */
  lemma UnescapeChar(c: char, q: char, rest: string)
    requires q == '\'' || q == '"'
    ensures Unescape(EscapeChar(c, q) + rest) == [c] + Unescape(rest)
  {
    var e := EscapeChar(c, q);
    if c == q || c == '\\' || c == '\t' || c == '\n' || c == '\r' {
      assert |e| == 2 && (e + rest)[2..] == rest;
    } else if IsControl(c) {
      var hi, lo := c as int / 16, c as int % 16;
      HexRoundTrip(hi);
      HexRoundTrip(lo);
      assert e == ['\\', 'x', HexDigit(hi), HexDigit(lo)];
      assert (e + rest)[4..] == rest;
      assert (hi * 16 + lo) as char == c;
    } else {
      assert (e + rest)[1..] == rest;
    }
  }

  /** Escaping loses nothing: the string can be read back. */
  lemma {:induction false} UnescapeEscape(s: string, q: char)
    requires q == '\'' || q == '"'
    ensures Unescape(EscapeAll(s, q)) == s
    decreases |s|
  {
    if |s| > 0 {
      UnescapeChar(s[0], q, EscapeAll(s[1..], q));
      UnescapeEscape(s[1..], q);
    }
  }

  /** Inside the quotes of `repr(s)` there is no control character: a
      newline, say, becomes the two characters `\\` and `n`. */
  lemma {:induction false} EscapeNoControl(s: string, q: char)
    requires q == '\'' || q == '"'
    ensures forall i :: 0 <= i < |EscapeAll(s, q)| ==> !IsControl(EscapeAll(s, q)[i])
    decreases |s|
  {
    if |s| > 0 {
      EscapeNoControl(s[1..], q);
      var e, rest := EscapeChar(s[0], q), EscapeAll(s[1..], q);
      forall i | 0 <= i < |e| ensures !IsControl(e[i]) {
        if IsControl(s[0]) && s[0] != '\t' && s[0] != '\n' && s[0] != '\r' {
          assert e == ['\\', 'x', HexDigit(s[0] as int / 16), HexDigit(s[0] as int % 16)];
        }
      }
      assert EscapeAll(s, q) == e + rest;
    }
  }

  /** A newline inside a string is written as a backslash and `n`. */
  lemma ReprNewline()
    ensures StrRepr("x\nP") == "'x\\nP'"
  {
    var s := "x\nP";
    assert s[0] == 'x' && s[1] == '\n' && s[2] == 'P';
    assert '"' !in s;
    assert EscapeAll(s[2..], '\'') == "P";
    assert EscapeAll(s[1..], '\'') == "\\nP";
  }

  /** A single quote and no double quote switch the quotes to double ones. */
  lemma ReprSingleQuote()
    ensures StrRepr("it's") == "\"it's\""
  {
    var s := "it's";
    assert s[2] == '\'' && '"' !in s;
    assert EscapeAll(s[3..], '"') == "s";
    assert EscapeAll(s[2..], '"') == "'s";
    assert EscapeAll(s[1..], '"') == "t's";
  }

  /** Two strings with the same `repr` are the same string. */
  lemma StrReprInjective(s: string, t: string)
    requires StrRepr(s) == StrRepr(t)
    ensures s == t
  {
    var r := StrRepr(s);
    assert EscapeAll(s, QuoteOf(s)) == r[1..|r| - 1] == EscapeAll(t, QuoteOf(t));
    UnescapeEscape(s, QuoteOf(s));
    UnescapeEscape(t, QuoteOf(t));
  }

  predicate HasKey<V>(d: Assoc<V>, k: string) {
    exists i :: 0 <= i < |d| && d[i].0 == k
  }

  /** `d.get(k)`: the value bound to the first occurrence of `k`. */
  function Get<V>(d: Assoc<V>, k: string): (r: Option<V>)
    ensures r.Some? <==> HasKey(d, k)
    ensures r.Some? ==> (k, r.value) in d
    ensures |d| > 0 && d[0].0 == k ==> r == Some(d[0].1)
  {
    if |d| == 0 then None
    else if d[0].0 == k then Some(d[0].1)
    else Get(d[1..], k)
  }

  /** Lookup passes over a first binding of another key. */
  lemma GetSkip<V>(d: Assoc<V>, k: string)
    requires |d| > 0 && d[0].0 != k
    ensures Get(d, k) == Get(d[1..], k)
  {
  }

  /** The first binding of a key is the one `get` finds. */
  lemma {:induction false} GetFirst<V>(d: Assoc<V>, k: string, i: int)
    requires 0 <= i < |d| && d[i].0 == k
    requires forall j :: 0 <= j < i ==> d[j].0 != k
    ensures Get(d, k) == Some(d[i].1)
  {
    if i > 0 {
      GetFirst(d[1..], k, i - 1);
    }
  }

  /** `d.get(k, default)` */
  function GetOr<V>(d: Assoc<V>, k: string, default: V): (r: V)
    ensures HasKey(d, k) ==> r == Get(d, k).value
    ensures !HasKey(d, k) ==> r == default
  {
    match Get(d, k)
    case Some(v) => v
    case None => default
  }

  /** `d[k] = v`: rebinds an existing key where it stands, or appends a new one. */
  function Put<V>(d: Assoc<V>, k: string, v: V): (r: Assoc<V>)
    ensures Get(r, k) == Some(v)
    ensures forall k' :: k' != k ==> Get(r, k') == Get(d, k')
    ensures HasKey(d, k) ==> |r| == |d|
    ensures !HasKey(d, k) ==> |r| == |d| + 1
    ensures forall i :: 0 <= i < |r| ==> r[i] == (k, v) || r[i] in d
  {
    if |d| == 0 then [(k, v)]
    else if d[0].0 == k then [(k, v)] + d[1..]
    else [d[0]] + Put(d[1..], k, v)
  }

  /** The keys of a dictionary, in order. */
  function Keys<V>(d: Assoc<V>): (r: seq<string>)
    ensures |r| == |d|
    ensures forall i :: 0 <= i < |d| ==> r[i] == d[i].0
  {
    seq(|d|, i requires 0 <= i < |d| => d[i].0)
  }

  /** `for x in v`: a list yields its items, a string its characters, a
      dictionary its keys; any other value is not iterable (TypeError). */
  function Iterate(v: Value): (r: Option<seq<Value>>)
    ensures r.Some? <==> (v.VList? || v.VStr? || v.VDict?)
    ensures v.VList? ==> r == Some(v.items)
  {
    match v
    case VList(xs) => Some(xs)
    case VStr(s) => Some(seq(|s|, i requires 0 <= i < |s| => VStr([s[i]])))
    case VDict(d) => Some(seq(|d|, i requires 0 <= i < |d| => VStr(d[i].0)))
    case _ => None
  }
}

/**
 * The part of JavaScript's value semantics that the portfolio scripts rely on:
 * parsed translation documents, the result of a property read, truthiness,
 * `String.prototype.split` / `Array.prototype.join`, conversion of a value to
 * a string, and the number <-> string conversions used for array indices.
 */
module Js {

  datatype Option<T> = None | Some(value: T)

  /** A parsed JSON translation document: a string, an object, or an array. */
  datatype Node = Leaf(text: string) | Map(fields: map<string, Node>) | Arr(items: seq<Node>)

  /** The result of reading a property: `undefined`, or a node. */
  datatype Value = Undefined | Found(node: Node)

  /** `undefined` and the empty string are falsy; objects, arrays and non-empty strings are truthy. */
  predicate Truthy(v: Value) {
    v.Found? && v.node != Leaf("")
  }

  /** `x === a ? b : a`: the other of the two values `a` and `b`, and `a` for anything else. */
  function Other(x: string, a: string, b: string): string {
    if x == a then b else a
  }

  /** `typeof v === 'object'` for the values a lookup can produce (objects and arrays). */
  predicate IsObject(v: Value) {
    v.Found? && !v.node.Leaf?
  }

  // ---------------------------------------------------------------------------
  // Decimal digits, array indices and Number -> String

  predicate IsDigit(c: char) {
    '0' <= c <= '9'
  }

  predicate AllDigits(s: string) {
    forall i :: 0 <= i < |s| ==> IsDigit(s[i])
  }

  /** A canonical array index: what `String(n)` prints for a natural number n. */
  predicate IsCanonicalIndex(s: string) {
    |s| > 0 && AllDigits(s) && (s[0] == '0' ==> |s| == 1)
  }

  function DigitValue(c: char): nat
    requires IsDigit(c)
  {
    c as int - '0' as int
  }

  function DigitChar(d: nat): (c: char)
    requires d < 10
    ensures IsDigit(c) && DigitValue(c) == d
  {
    ('0' as int + d) as char
  }

  /** The value of a string of decimal digits (the empty string denotes 0). */
  function DigitsValue(s: string): nat
    requires AllDigits(s)
  {
    if s == [] then 0 else DigitsValue(s[..|s| - 1]) * 10 + DigitValue(s[|s| - 1])
  }

  /** `String(n)` for a natural number n. */
  function DecimalString(n: nat): (s: string)
    ensures IsCanonicalIndex(s) && DigitsValue(s) == n
  {
    if n < 10 then [DigitChar(n)]
    else
      var s := DecimalString(n / 10) + [DigitChar(n % 10)];
      assert s[..|s| - 1] == DecimalString(n / 10);
      s
  }

  lemma {:induction false} LeadingZeroValue(s: string)
    requires AllDigits(s) && |s| > 0 && s[0] == '0'
    ensures DigitsValue(s) == DigitsValue(s[1..])
    decreases |s|
  {
    if |s| == 1 {
    } else {
      var p := s[..|s| - 1];
      assert p[0] == '0' && p[1..] == s[1..][..|s[1..]| - 1];
      LeadingZeroValue(p);
    }
  }

  lemma {:induction false} CanonicalDigitsPositive(s: string)
    requires IsCanonicalIndex(s) && |s| > 1
    ensures DigitsValue(s) >= 10
    decreases |s|
  {
    var p := s[..|s| - 1];
    if |p| > 1 {
      CanonicalDigitsPositive(p);
    } else {
      assert p[0] == s[0] && s[0] != '0';
    }
  }

  /** Printing the value of a canonical index gives the index back: `String(parseInt(s)) == s`. */
  lemma {:induction false} DecimalOfCanonical(s: string)
    requires IsCanonicalIndex(s)
    ensures DecimalString(DigitsValue(s)) == s
    decreases |s|
  {
    if |s| > 1 {
      var p := s[..|s| - 1];
      assert IsCanonicalIndex(p) by { assert p[0] == s[0]; }
      CanonicalDigitsPositive(s);
      DecimalOfCanonical(p);
      var c := s[|s| - 1];
      DivMod10(DigitsValue(p), DigitValue(c));
      assert DigitChar(DigitValue(c)) == c;
      assert DecimalString(DigitsValue(s)) == DecimalString(DigitsValue(p)) + [c];
      assert s == p + [c];
    }
  }

  /** The last decimal digit and the rest of a number. */
  lemma DivMod10(a: nat, d: nat)
    requires d < 10
    ensures (a * 10 + d) / 10 == a && (a * 10 + d) % 10 == d
  {
  }

  // ---------------------------------------------------------------------------
  // Property reads

  /**
   * `n[key]` restricted to own properties: an object yields the field named `key`,
   * an array its element and a string its one-character substring at a canonical index.
   */
  function Prop(n: Node, key: string): (r: Value)
    ensures r.Found? && n.Map? ==> key in n.fields && r.node == n.fields[key]
    ensures r.Found? && !n.Map? ==> IsCanonicalIndex(key)
  {
    match n
    case Map(m) => if key in m then Found(m[key]) else Undefined
    case Arr(items) =>
      if IsCanonicalIndex(key) && DigitsValue(key) < |items| then Found(items[DigitsValue(key)]) else Undefined
    case Leaf(s) =>
      if IsCanonicalIndex(key) && DigitsValue(key) < |s| then Found(Leaf([s[DigitsValue(key)]])) else Undefined
  }

  /** A dictionary shaped like the translation files: objects whose leaves are strings. */
  ghost predicate MapTree(n: Node)
    decreases n
  {
    match n
    case Leaf(_) => true
    case Map(m) => forall k :: k in m ==> MapTree(m[k])
    case Arr(_) => false
  }

  /** The node reached by following `keys` through nested objects, or `undefined` when a key is missing. */
  ghost function Resolve(n: Node, keys: seq<string>): Value
    decreases |keys|
  {
    if keys == [] then Found(n)
    else if n.Map? && keys[0] in n.fields then Resolve(n.fields[keys[0]], keys[1..])
    else Undefined
  }

  // ---------------------------------------------------------------------------
  // split and join

  /** `s.split(sep)` for a one-character separator. */
  function Split(s: string, sep: char): (parts: seq<string>)
    ensures |parts| >= 1
    ensures forall i :: 0 <= i < |parts| ==> sep !in parts[i]
    decreases |s|
  {
    if s == [] then [""]
    else
      var rest := Split(s[1..], sep);
      if s[0] == sep then [""] + rest
      else [[s[0]] + rest[0]] + rest[1..]
  }

  /** `parts.join(sep)` for a non-empty list of strings. */
  function Join(parts: seq<string>, sep: char): string
    requires |parts| >= 1
  {
    if |parts| == 1 then parts[0] else parts[0] + [sep] + Join(parts[1..], sep)
  }

  /** Joining the pieces of a split gives the original string back. */
  lemma {:induction false} JoinSplit(s: string, sep: char)
    ensures Join(Split(s, sep), sep) == s
    decreases |s|
  {
    if s != [] {
      JoinSplit(s[1..], sep);
      var rest := Split(s[1..], sep);
      if s[0] != sep {
        if |rest| == 1 {
        } else {
          assert ([[s[0]] + rest[0]] + rest[1..])[1..] == rest[1..];
        }
      } else {
        assert ([""] + rest)[1..] == rest;
      }
    }
  }

  lemma {:induction false} SplitPrefix(p: string, t: string, sep: char)
    requires sep !in p
    ensures Split(p + t, sep) == [p + Split(t, sep)[0]] + Split(t, sep)[1..]
    decreases |p|
  {
    if p != [] {
      assert (p + t)[1..] == p[1..] + t;
      SplitPrefix(p[1..], t, sep);
      var rest, st := Split(p[1..] + t, sep), Split(t, sep);
      assert p[0] in p && (p + t)[0] == p[0];
      assert Split(p + t, sep) == [[p[0]] + rest[0]] + rest[1..];
      assert rest[0] == p[1..] + st[0] && rest[1..] == st[1..];
      assert [p[0]] + (p[1..] + st[0]) == p + st[0];
    } else {
      var st := Split(t, sep);
      assert p + t == t && p + st[0] == st[0] && [st[0]] + st[1..] == st;
    }
  }

  /** Splitting a join of separator-free pieces gives the pieces back. */
  lemma {:induction false} SplitJoin(parts: seq<string>, sep: char)
    requires |parts| >= 1
    requires forall i :: 0 <= i < |parts| ==> sep !in parts[i]
    ensures Split(Join(parts, sep), sep) == parts
    decreases |parts|
  {
    if |parts| == 1 {
      SplitPrefix(parts[0], "", sep);
      assert parts[0] + "" == parts[0];
    } else {
      var tail := Join(parts[1..], sep);
      assert sep !in parts[0];
      SplitPiece(parts[0], tail, sep);
      SplitJoin(parts[1..], sep);
      assert [parts[0]] + parts[1..] == parts;
    }
  }

  /** A separator-free piece followed by the separator splits off as the first piece. */
  lemma SplitPiece(p: string, t: string, sep: char)
    requires sep !in p
    ensures Split(p + [sep] + t, sep) == [p] + Split(t, sep)
  {
    assert p + [sep] + t == p + ([sep] + t);
    SplitPrefix(p, [sep] + t, sep);
    SplitAtSeparator(t, sep);
    assert p + "" == p;
  }

  /** A leading separator splits off an empty first piece. */
  lemma SplitAtSeparator(t: string, sep: char)
    ensures Split([sep] + t, sep) == [""] + Split(t, sep)
  {
    assert ([sep] + t)[1..] == t;
  }

  /** The last piece of `s.split(sep)`, as `s.split(sep).pop()` returns it: a separator-free suffix of `s`. */
  function LastPiece(s: string, sep: char): (r: string)
    ensures sep !in r
    ensures |r| <= |s| && s[|s| - |r|..] == r
    ensures |r| < |s| ==> s[|s| - |r| - 1] == sep
  {
    var parts := Split(s, sep);
    JoinLast(parts, sep);
    JoinSplit(s, sep);
    parts[|parts| - 1]
  }

  lemma {:induction false} JoinLast(parts: seq<string>, sep: char)
    requires |parts| >= 1
    ensures var j, r := Join(parts, sep), parts[|parts| - 1];
      |r| <= |j| && j[|j| - |r|..] == r && (|r| < |j| ==> j[|j| - |r| - 1] == sep)
    decreases |parts|
  {
    if |parts| > 1 {
      JoinLast(parts[1..], sep);
      var j', r := Join(parts[1..], sep), parts[|parts| - 1];
      assert parts[1..][|parts[1..]| - 1] == r;
      var j := parts[0] + [sep] + j';
      assert Join(parts, sep) == j;
      assert j[|j| - |r|..] == j'[|j'| - |r|..];
      if |r| == |j'| {
        assert j[|j| - |r| - 1] == sep;
      } else {
        assert j[|j| - |r| - 1] == j'[|j'| - |r| - 1];
      }
    }
  }

  // ---------------------------------------------------------------------------
  // Conversion to string, as an assignment to `textContent`, `innerHTML`,
  // `placeholder` or `value` performs it

  /** `String(n)`: a string is itself, an object prints as `[object Object]`, an array joins its elements with commas. */
  function ToJsString(n: Node): string
    decreases n
  {
    match n
    case Leaf(s) => s
    case Map(_) => "[object Object]"
    case Arr(items) =>
      if |items| == 0 then ""
      else Join(seq(|items|, i requires 0 <= i < |items| => ToJsString(items[i])), ',')
  }

  // ---------------------------------------------------------------------------
  // Strings

  /** The characters JavaScript's `trim` removes and the regular-expression class `\s` matches. */
  predicate IsWhitespace(c: char) {
    c == ' ' || c == '\t' || c == '\n' || c == '\r' || c == '\U{000B}' || c == '\U{000C}'
    || c == '\U{00A0}' || c == '\U{1680}' || ('\U{2000}' <= c <= '\U{200A}')
    || c == '\U{2028}' || c == '\U{2029}' || c == '\U{202F}' || c == '\U{205F}'
    || c == '\U{3000}' || c == '\U{FEFF}'
  }

  /** The number of whitespace characters `trimStart` removes. */
  function LeadingWhitespace(s: string): (n: nat)
    ensures n <= |s|
    ensures n < |s| ==> !IsWhitespace(s[n])
  {
    if s != [] && IsWhitespace(s[0]) then 1 + LeadingWhitespace(s[1..]) else 0
  }

  function TrimStart(s: string): (r: string)
    ensures |r| <= |s| && r == s[|s| - |r|..]
    ensures r == [] || !IsWhitespace(r[0])
  {
    s[LeadingWhitespace(s)..]
  }

  /** A leading whitespace character is removed along with the rest of the run. */
  lemma TrimStartSkip(s: string)
    requires s != [] && IsWhitespace(s[0])
    ensures TrimStart(s) == TrimStart(s[1..])
  {
    assert s[LeadingWhitespace(s)..] == s[1..][LeadingWhitespace(s[1..])..];
  }

  function TrimEnd(s: string): (r: string)
    ensures |r| <= |s| && r == s[..|r|]
    ensures r == [] || !IsWhitespace(r[|r| - 1])
  {
    if s != [] && IsWhitespace(s[|s| - 1]) then TrimEnd(s[..|s| - 1]) else s
  }

  /** Everything `trimStart` removes is whitespace. */
  lemma {:induction false} TrimStartRemovesWhitespace(s: string)
    ensures forall i :: 0 <= i < |s| - |TrimStart(s)| ==> IsWhitespace(s[i])
    decreases |s|
  {
    if s != [] && IsWhitespace(s[0]) {
      TrimStartSkip(s);
      TrimStartRemovesWhitespace(s[1..]);
      assert forall i :: 1 <= i < |s| ==> s[i] == s[1..][i - 1];
    }
  }

  /** Everything `trimEnd` removes is whitespace. */
  lemma {:induction false} TrimEndRemovesWhitespace(s: string)
    ensures forall i :: |TrimEnd(s)| <= i < |s| ==> IsWhitespace(s[i])
    decreases |s|
  {
    if s != [] && IsWhitespace(s[|s| - 1]) {
      TrimEndRemovesWhitespace(s[..|s| - 1]);
    }
  }

  /** `s.trim()`. */
  function Trim(s: string): string {
    TrimEnd(TrimStart(s))
  }

  function LowerChar(c: char): char {
    if 'A' <= c <= 'Z' then (c as int + 32) as char else c
  }

  function UpperChar(c: char): char {
    if 'a' <= c <= 'z' then (c as int - 32) as char else c
  }

  /** `s.toLowerCase()` on the ASCII letters. */
  function Lower(s: string): (r: string)
    ensures |r| == |s| && forall i :: 0 <= i < |s| ==> r[i] == LowerChar(s[i])
  {
    seq(|s|, i requires 0 <= i < |s| => LowerChar(s[i]))
  }

  /** `s.toUpperCase()` on the ASCII letters. */
  function Upper(s: string): (r: string)
    ensures |r| == |s| && forall i :: 0 <= i < |s| ==> r[i] == UpperChar(s[i])
  {
    seq(|s|, i requires 0 <= i < |s| => UpperChar(s[i]))
  }

  predicate StartsWith(s: string, prefix: string) {
    |prefix| <= |s| && s[..|prefix|] == prefix
  }

  /** `s.includes(sub)`, or equivalently `s.indexOf(sub) !== -1`. */
  predicate Contains(s: string, sub: string)
    decreases |s|
  {
    StartsWith(s, sub) || (s != [] && Contains(s[1..], sub))
  }

  /** `s.indexOf(sub)`: the first position at which `sub` occurs, or -1. */
  function IndexOf(s: string, sub: string): (r: int)
    ensures r == -1 || 0 <= r <= |s| - |sub|
    ensures r == -1 <==> !Contains(s, sub)
    ensures r >= 0 ==> s[r..r + |sub|] == sub && forall k :: 0 <= k < r ==> !StartsWith(s[k..], sub)
    decreases |s|
  {
    if StartsWith(s, sub) then 0
    else if s == [] then -1
    else
      var k := IndexOf(s[1..], sub);
      if k == -1 then -1
      else
        assert forall j :: 1 <= j <= k ==> s[j..] == s[1..][j - 1..];
        k + 1
  }

  /** `s.replace(pattern, replacement)` with a string pattern: only the first occurrence is replaced. */
  function ReplaceFirst(s: string, pattern: string, replacement: string): (r: string)
    ensures !Contains(s, pattern) ==> r == s
    ensures Contains(s, pattern) ==>
      var k := IndexOf(s, pattern); r == s[..k] + replacement + s[k + |pattern|..]
  {
    var k := IndexOf(s, pattern);
    if k == -1 then s else s[..k] + replacement + s[k + |pattern|..]
  }

  lemma {:induction false} ContainsPrefix(s: string, p: string, t: string)
    ensures Contains(p + s + t, s)
    decreases |p|
  {
    if p == [] {
      assert (p + s + t)[..|s|] == s;
    } else {
      assert (p + s + t)[1..] == p[1..] + s + t;
      ContainsPrefix(s, p[1..], t);
    }
  }

  /** A string that lacks one of the characters of `sub` does not contain `sub`. */
  lemma NotContainsMissingChar(s: string, sub: string, k: int)
    requires 0 <= k < |sub| && sub[k] !in s
    ensures !Contains(s, sub)
  {
    assert IndexOf(s, sub) == -1;
  }

  /** Whether `s` contains one of `words`: the alternation of a regular expression of literals. */
  function ContainsAny(s: string, words: seq<string>): (r: bool)
    ensures r <==> exists i :: 0 <= i < |words| && Contains(s, words[i])
    decreases |words|
  {
    if words == [] then false
    else if Contains(s, words[0]) then true
    else
      var r := ContainsAny(s, words[1..]);
      assert forall i :: 1 <= i < |words| ==> words[i] == words[1..][i - 1];
      r
  }

  /** A string without whitespace at either end. */
  predicate Trimmed(s: string) {
    s == [] || (!IsWhitespace(s[0]) && !IsWhitespace(s[|s| - 1]))
  }

  predicate AllWhitespace(s: string) {
    forall i :: 0 <= i < |s| ==> IsWhitespace(s[i])
  }

  /** `trimStart` removes exactly a whitespace prefix that is followed by a non-whitespace character or nothing. */
  lemma {:induction false} TrimStartPadded(pre: string, rest: string)
    requires AllWhitespace(pre) && (rest == [] || !IsWhitespace(rest[0]))
    ensures TrimStart(pre + rest) == rest
    decreases |pre|
  {
    if pre == [] {
      assert pre + rest == rest;
    } else {
      var t := pre + rest;
      assert t[0] == pre[0];
      assert t[1..] == pre[1..] + rest;
      TrimStartSkip(t);
      TrimStartPadded(pre[1..], rest);
    }
  }

  /** `trimEnd` removes exactly a whitespace suffix that follows a non-whitespace character or nothing. */
  lemma {:induction false} TrimEndPadded(rest: string, post: string)
    requires AllWhitespace(post) && (rest == [] || !IsWhitespace(rest[|rest| - 1]))
    ensures TrimEnd(rest + post) == rest
    decreases |post|
  {
    if post == [] {
      assert rest + post == rest;
    } else {
      var t := rest + post;
      assert t[|t| - 1] == post[|post| - 1];
      assert t[..|t| - 1] == rest + post[..|post| - 1];
      TrimEndPadded(rest, post[..|post| - 1]);
    }
  }

  /** `trim` removes exactly the whitespace padding around a trimmed core. */
  lemma TrimPadded(pre: string, core: string, post: string)
    requires AllWhitespace(pre) && AllWhitespace(post) && Trimmed(core)
    ensures Trim(pre + core + post) == core
  {
    if core == [] {
      assert pre + core + post == pre + post + [];
      assert AllWhitespace(pre + post);
      TrimStartPadded(pre + post, []);
    } else {
      assert pre + core + post == pre + (core + post);
      assert (core + post)[0] == core[0];
      TrimStartPadded(pre, core + post);
      TrimEndPadded(core, post);
    }
  }

  /** `trim` leaves nothing exactly when the string is all whitespace. */
  lemma TrimEmpty(s: string)
    ensures Trim(s) == [] <==> AllWhitespace(s)
  {
    var u := TrimStart(s);
    TrimStartRemovesWhitespace(s);
    TrimEndRemovesWhitespace(u);
  }

  /** A trimmed string is its own `trim`. */
  lemma TrimOfTrimmed(s: string)
    requires Trimmed(s)
    ensures Trim(s) == s
  {
    assert TrimStart(s) == s;
  }

  /** `trim` keeps a contiguous slice of its input. */
  lemma TrimSlice(s: string)
    ensures var k := |s| - |TrimStart(s)|; k + |Trim(s)| <= |s| && Trim(s) == s[k..k + |Trim(s)|]
  {
    var u := TrimStart(s);
    var t := TrimEnd(u);
    PrefixOfSuffix(s, u, t);
    assert Trim(s) == t;
  }

  /** A prefix `t` of a suffix `u` of `s` is the slice of `s` where `u` starts. */
  lemma PrefixOfSuffix(s: string, u: string, t: string)
    requires |u| <= |s| && u == s[|s| - |u|..]
    requires |t| <= |u| && t == u[..|t|]
    ensures var k := |s| - |u|; k + |t| <= |s| && t == s[k..k + |t|]
  {
  }

  /** The result of `trim` is trimmed, so trimming twice changes nothing more. */
  lemma TrimIdempotent(s: string)
    ensures Trimmed(Trim(s)) && Trim(Trim(s)) == Trim(s)
  {
    var u := TrimStart(s);
    var t := TrimEnd(u);
    if t != [] {
      assert t[0] == u[0];
    }
    TrimOfTrimmed(t);
  }

  predicate HasNoUpper(s: string) {
    forall i :: 0 <= i < |s| ==> !('A' <= s[i] <= 'Z')
  }

  /** Lower-casing a string without capitals changes nothing; lower-casing anything leaves no capitals. */
  lemma LowerFixes(s: string)
    ensures HasNoUpper(Lower(s))
    ensures HasNoUpper(s) ==> Lower(s) == s
  {
  }

  /** A slice of a string without capitals has none either. */
  lemma SliceHasNoUpper(s: string, k: int, n: int)
    requires HasNoUpper(s) && 0 <= k <= k + n <= |s|
    ensures HasNoUpper(s[k..k + n])
  {
  }

  /** Upper-casing then lower-casing is the same as lower-casing. */
  lemma LowerOfUpper(s: string)
    ensures Lower(Upper(s)) == Lower(s)
  {
  }

  /** Case mapping leaves whitespace, so whitespace padding survives `Lower`. */
  lemma LowerSplits(a: string, b: string, c: string)
    ensures Lower(a + b + c) == Lower(a) + Lower(b) + Lower(c)
    ensures AllWhitespace(a) ==> Lower(a) == a
  {
  }

  /** A match at a known position means the string contains the pattern. */
  lemma ContainsAt(s: string, sub: string, i: int)
    requires 0 <= i <= |s| - |sub| && s[i..i + |sub|] == sub
    ensures Contains(s, sub)
  {
    assert s == s[..i] + sub + s[i + |sub|..];
    ContainsPrefix(sub, s[..i], s[i + |sub|..]);
  }

  /** The longest prefix of `s` made of decimal digits. */
  function DigitPrefix(s: string): (r: string)
    ensures AllDigits(r) && |r| <= |s| && r == s[..|r|]
    ensures |r| < |s| ==> !IsDigit(s[|r|])
    decreases |s|
  {
    if s != [] && IsDigit(s[0]) then [s[0]] + DigitPrefix(s[1..]) else []
  }

  predicate IsHexDigit(c: char) {
    IsDigit(c) || 'a' <= c <= 'f' || 'A' <= c <= 'F'
  }

  function HexDigitValue(c: char): (d: nat)
    requires IsHexDigit(c)
    ensures d < 16
  {
    if IsDigit(c) then DigitValue(c)
    else if 'a' <= c <= 'f' then c as int - 'a' as int + 10
    else c as int - 'A' as int + 10
  }

  /** The longest prefix of `s` made of hexadecimal digits. */
  function HexPrefix(s: string): (r: string)
    ensures |r| <= |s| && r == s[..|r|]
    ensures forall i :: 0 <= i < |r| ==> IsHexDigit(r[i])
    ensures |r| < |s| ==> !IsHexDigit(s[|r|])
    decreases |s|
  {
    if s != [] && IsHexDigit(s[0]) then [s[0]] + HexPrefix(s[1..]) else []
  }

  /** The value of a string of hexadecimal digits. */
  function HexValue(s: string): nat
    requires forall i :: 0 <= i < |s| ==> IsHexDigit(s[i])
  {
    if s == [] then 0 else HexValue(s[..|s| - 1]) * 16 + HexDigitValue(s[|s| - 1])
  }

  /** Text that `parseInt` without a radix reads in base 16: `0x` or `0X` first. */
  predicate HasHexPrefix(s: string) {
    |s| >= 2 && s[0] == '0' && (s[1] == 'x' || s[1] == 'X')
  }

  /**
   * What `parseInt` reads after the whitespace and the sign: a `0x` or `0X`
   * switches to base 16, and the longest run of digits of the base that
   * follows is read; `None` (`NaN`) when there is no such digit.
   */
  function ParseDigits(body: string): (r: Option<nat>)
    ensures r.Some? ==> body != [] && IsDigit(body[0])
  {
    if HasHexPrefix(body) then
      var digits := HexPrefix(body[2..]);
      if digits == [] then None else Some(HexValue(digits))
    else
      var digits := DigitPrefix(body);
      if digits == [] then None
      else
        assert body[0] == digits[0];
        Some(DigitsValue(digits))
  }

  /**
   * `parseInt(s)` without a radix: leading whitespace is skipped, one sign is
   * accepted, and `ParseDigits` reads the rest; `None` is `NaN`.
   */
  function ParseInt(s: string): (r: Option<int>)
    ensures r.Some? ==> exists k :: 0 <= k < |s| && IsDigit(s[k])
  {
    var t := TrimStart(s);
    var body := if t != [] && (t[0] == '-' || t[0] == '+') then t[1..] else t;
    var n := ParseDigits(body);
    if n.None? then None
    else
      assert body[0] in s;
      Some(if t != [] && t[0] == '-' then -(n.value as int) else n.value)
  }

  /** A string that does not start with whitespace is its own `trimStart`. */
  lemma TrimStartNone(s: string)
    requires s == [] || !IsWhitespace(s[0])
    ensures TrimStart(s) == s
  {
  }

  /** `parseInt` of a non-empty run of decimal digits is its value. */
  lemma ParseIntDigits(s: string)
    requires AllDigits(s) && s != []
    ensures ParseInt(s) == Some(DigitsValue(s))
  {
    ParseIntDigitsThen(s, []);
    assert s + [] == s;
  }

  /** The digits of `d` are read, and reading stops at whatever follows, unless that is the `x` of a hexadecimal prefix. */
  lemma ParseDigitsThen(d: string, rest: string)
    requires AllDigits(d) && d != []
    requires rest == [] || (!IsDigit(rest[0]) && rest[0] != 'x' && rest[0] != 'X')
    ensures ParseDigits(d + rest) == Some(DigitsValue(d))
  {
    var s := d + rest;
    assert !HasHexPrefix(s) by {
      if |s| >= 2 {
        if |d| >= 2 { assert s[1] == d[1]; } else { assert s[1] == rest[0]; }
      }
    }
    DigitPrefixStops(d, rest);
  }

  /**
   * `parseInt` reads a run of decimal digits and stops at whatever follows it,
   * unless that is the `x` of a hexadecimal prefix.
   */
  lemma ParseIntDigitsThen(d: string, rest: string)
    requires AllDigits(d) && d != []
    requires rest == [] || (!IsDigit(rest[0]) && rest[0] != 'x' && rest[0] != 'X')
    ensures ParseInt(d + rest) == Some(DigitsValue(d))
  {
    var s := d + rest;
    assert s[0] == d[0] && IsDigit(s[0]);
    TrimStartNone(s);
    ParseDigitsThen(d, rest);
    ParseIntUnsigned(s);
  }

  /** `ParseDigits` reads a whole digit string. */
  lemma ParseDigitsAll(d: string)
    requires AllDigits(d) && d != []
    ensures ParseDigits(d) == Some(DigitsValue(d))
  {
    assert d + [] == d;
    ParseDigitsThen(d, []);
  }





  /** Text that starts with a digit is read by `ParseDigits` alone. */
  lemma ParseIntUnsigned(s: string)
    requires s != [] && IsDigit(s[0]) && TrimStart(s) == s
    ensures ParseDigits(s).None? ==> ParseInt(s).None?
    ensures ParseDigits(s).Some? ==> ParseInt(s) == Some(ParseDigits(s).value as int)
  {
    assert s[0] != '-' && s[0] != '+';
  }

  /** `parseInt` of `+` followed by a run of decimal digits is their value. */
  lemma ParseIntPlus(s: string)
    requires |s| >= 2 && s[0] == '+' && AllDigits(s[1..])
    ensures ParseInt(s) == Some(DigitsValue(s[1..]))
  {
    TrimStartNone(s);
    ParseDigitsAll(s[1..]);
  }

  /** `parseInt` of `-` followed by a run of decimal digits is minus their value. */
  lemma ParseIntMinus(s: string)
    requires |s| >= 2 && s[0] == '-' && AllDigits(s[1..])
    ensures ParseInt(s) == Some(-(DigitsValue(s[1..]) as int))
  {
    ParseDigitsAll(s[1..]);
    ParseIntNegated(s, DigitsValue(s[1..]));
  }

  /** `parseInt` of `-` followed by digits that read `v` is `-v`. */
  lemma ParseIntNegated(s: string, v: nat)
    requires |s| >= 2 && s[0] == '-' && ParseDigits(s[1..]) == Some(v)
    ensures ParseInt(s) == Some(-(v as int))
  {
    TrimStartNone(s);
  }





  /** `String(n)` for an integer n, where `-0` prints as `0`. */
  function IntString(n: int): (s: string)
    ensures n >= 0 ==> s == DecimalString(n)
    ensures n < 0 ==> s == "-" + DecimalString(-n)
  {
    if n < 0 then "-" + DecimalString(-n) else DecimalString(n)
  }

  /** The index after the mantissa of a `StrUnsignedDecimalLiteral` (digits, a dot and digits, at least one digit), or -1. */
  function MantissaLength(s: string): (m: int)
    ensures -1 <= m <= |s|
  {
    var a := |DigitPrefix(s)|;
    if a < |s| && s[a] == '.' then
      var b := |DigitPrefix(s[a + 1..])|;
      if a == 0 && b == 0 then -1 else a + 1 + b
    else if a == 0 then -1 else a
  }

  /** An optional exponent: `e` or `E`, an optional sign and at least one digit. */
  predicate ExponentPart(s: string) {
    s == [] ||
    (|s| >= 2 && (s[0] == 'e' || s[0] == 'E') &&
     var f := if s[1] == '+' || s[1] == '-' then s[2..] else s[1..];
     f != [] && AllDigits(f))
  }

  /** A `StrUnsignedDecimalLiteral`: `Infinity`, or a mantissa with an optional exponent. */
  predicate UnsignedDecimal(s: string) {
    s == "Infinity" || (var m := MantissaLength(s); m >= 0 && ExponentPart(s[m..]))
  }

  /** A `0x`, `0o` or `0b` literal (upper-case letters too), with at least one digit of its base. */
  predicate NonDecimalLiteral(s: string) {
    |s| >= 3 && s[0] == '0' &&
    (if s[1] == 'x' || s[1] == 'X' then forall i :: 2 <= i < |s| ==> IsHexDigit(s[i])
     else if s[1] == 'o' || s[1] == 'O' then forall i :: 2 <= i < |s| ==> '0' <= s[i] <= '7'
     else if s[1] == 'b' || s[1] == 'B' then forall i :: 2 <= i < |s| ==> s[i] == '0' || s[i] == '1'
     else false)
  }

  /**
   * `!isNaN(s)` for a string: after trimming, it is empty, a decimal literal
   * with an optional sign, or a non-decimal literal.
   */
  predicate NumericString(s: string) {
    var t := Trim(s);
    t == [] || UnsignedDecimal(t)
    || (t[0] in "+-" && UnsignedDecimal(t[1..]))
    || NonDecimalLiteral(t)
  }

  /** The digits of `d` are the whole digit prefix when a non-digit, or nothing, follows. */
  lemma {:induction false} DigitPrefixStops(d: string, rest: string)
    requires AllDigits(d) && (rest == [] || !IsDigit(rest[0]))
    ensures DigitPrefix(d + rest) == d
    decreases |d|
  {
    if d != [] {
      assert (d + rest)[1..] == d[1..] + rest;
      DigitPrefixStops(d[1..], rest);
    }
  }

  /** A non-empty run of decimal digits is an unsigned decimal literal. */
  lemma DigitsUnsignedDecimal(d: string)
    requires AllDigits(d) && d != []
    ensures UnsignedDecimal(d)
  {
    DigitPrefixStops(d, []);
    assert d + [] == d;
    assert MantissaLength(d) == |d|;
    assert d[|d|..] == [];
  }

  /** Digits, a dot and digits: an unsigned decimal literal such as `1.5` or `1.`. */
  lemma FractionUnsignedDecimal(d: string, f: string)
    requires AllDigits(d) && d != [] && AllDigits(f)
    ensures UnsignedDecimal(d + "." + f)
  {
    var s := d + "." + f;
    assert s == d + ("." + f);
    DigitPrefixStops(d, "." + f);
    assert s[|d| + 1..] == f + [];
    DigitPrefixStops(f, []);
    assert MantissaLength(s) == |s|;
    assert s[|s|..] == [];
  }

  /** Digits, `e` and digits: an unsigned decimal literal such as `1e3`. */
  lemma ExponentUnsignedDecimal(d: string, e: string)
    requires AllDigits(d) && d != [] && AllDigits(e) && e != []
    ensures UnsignedDecimal(d + "e" + e)
  {
    var s := d + "e" + e;
    assert s == d + ("e" + e);
    DigitPrefixStops(d, "e" + e);
    assert MantissaLength(s) == |d|;
    assert s[|d|..] == "e" + e;
    assert ("e" + e)[1..] == e;
    assert ExponentPart("e" + e);
  }

  /** A string that starts and ends with a non-whitespace character converts to a number when its own text is a literal. */
  lemma TrimmedNumeric(s: string)
    requires s != [] && !IsWhitespace(s[0]) && !IsWhitespace(s[|s| - 1])
    requires UnsignedDecimal(s) || (s[0] in "+-" && UnsignedDecimal(s[1..])) || NonDecimalLiteral(s)
    ensures NumericString(s)
  {
    TrimOfTrimmed(s);
  }

  /** A non-empty run of decimal digits converts to a number. */
  /** A digit string with a leading sign is a numeric string. */
  lemma SignedNumeric(d: string)
    requires AllDigits(d) && d != []
    ensures NumericString("+" + d) && NumericString("-" + d)
  {
    var plus := "+" + d;
    var minus := "-" + d;
    DigitsUnsignedDecimal(d);
    assert plus[1..] == d && minus[1..] == d;
    assert plus[|plus| - 1] == d[|d| - 1] && minus[|minus| - 1] == d[|d| - 1];
    TrimmedNumeric(plus);
    TrimmedNumeric(minus);
  }

  lemma DigitsNumeric(d: string)
    requires AllDigits(d) && d != []
    ensures NumericString(d)
  {
    assert IsDigit(d[0]) && IsDigit(d[|d| - 1]);
    DigitsUnsignedDecimal(d);
    TrimmedNumeric(d);
  }

  /** `1.5`-shaped text converts to a number. */
  lemma FractionNumeric(d: string, f: string)
    requires AllDigits(d) && d != [] && AllDigits(f)
    ensures NumericString(d + "." + f)
  {
    var s := d + "." + f;
    assert s[0] == d[0];
    assert s[|s| - 1] == if f == [] then '.' else f[|f| - 1];
    FractionUnsignedDecimal(d, f);
    TrimmedNumeric(s);
  }

  /** `1e3`-shaped text converts to a number. */
  lemma ExponentNumeric(d: string, e: string)
    requires AllDigits(d) && d != [] && AllDigits(e) && e != []
    ensures NumericString(d + "e" + e)
  {
    var s := d + "e" + e;
    assert s[0] == d[0] && s[|s| - 1] == e[|e| - 1];
    ExponentUnsignedDecimal(d, e);
    TrimmedNumeric(s);
  }

  /** A run of hexadecimal digits is its own hexadecimal prefix. */
  lemma {:induction false} HexPrefixAll(h: string)
    requires forall i :: 0 <= i < |h| ==> IsHexDigit(h[i])
    ensures HexPrefix(h) == h
    decreases |h|
  {
    if h != [] {
      HexPrefixAll(h[1..]);
    }
  }

  /** `parseInt` of `0x` and a run of hexadecimal digits is their value in base 16. */
  lemma ParseIntHex(h: string)
    requires h != [] && forall i :: 0 <= i < |h| ==> IsHexDigit(h[i])
    ensures ParseInt("0x" + h) == Some(HexValue(h))
  {
    var s := "0x" + h;
    assert s[0] == '0';
    TrimStartNone(s);
    ParseDigitsHex(h);
    ParseIntUnsigned(s);
  }

  /** After `0x`, the hexadecimal digits are read in base 16. */
  lemma ParseDigitsHex(h: string)
    requires h != [] && forall i :: 0 <= i < |h| ==> IsHexDigit(h[i])
    ensures ParseDigits("0x" + h) == Some(HexValue(h))
  {
    var s := "0x" + h;
    assert HasHexPrefix(s) && s[2..] == h;
    HexPrefixAll(h);
  }

  /** `0x` and a run of hexadecimal digits converts to a number. */
  lemma HexNumeric(h: string)
    requires h != [] && forall i :: 0 <= i < |h| ==> IsHexDigit(h[i])
    ensures NumericString("0x" + h)
  {
    var s := "0x" + h;
    assert s[|s| - 1] == h[|h| - 1];
    assert NonDecimalLiteral(s) by {
      assert forall i :: 2 <= i < |s| ==> s[i] == h[i - 2];
    }
    TrimmedNumeric(s);
  }

  /** What `Date.now().toString()` writes, `parseInt` reads back. */
  lemma ParseIntDecimal(n: nat)
    ensures ParseInt(DecimalString(n)) == Some(n)
  {
    ParseIntDigits(DecimalString(n));
  }
}

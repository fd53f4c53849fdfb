/** String primitives with the exact JavaScript semantics the program relies on:
    ASCII case folding (as in a non-Unicode `/i` regular expression matching an ASCII
    pattern), the `\b` word boundary, `String.prototype.trim`, `includes`, `join`,
    `padStart`, `slice(-n)`, `replace` with a string pattern, and decimal printing. */
module Text {
  import opened Wrappers

  // ---------------------------------------------------------------- case folding

  /** ASCII upper-casing; every other character is its own canonical form. */
  function Upper(c: char): char {
    if 'a' <= c <= 'z' then (c as int - 32) as char else c
  }

  /** Whether `t` occurs in `s` at index `i`, comparing characters case-insensitively. */
  predicate FoldMatchAt(s: string, t: string, i: int) {
    0 <= i && i + |t| <= |s| && forall k :: 0 <= k < |t| ==> Upper(s[i + k]) == Upper(t[k])
  }

  /** `new RegExp(t, 'i').test(s)` for a pattern `t` without metacharacters:
      a case-insensitive substring test. */
  predicate ContainsFolded(s: string, t: string) {
    exists i :: 0 <= i <= |s| - |t| && FoldMatchAt(s, t, i)
  }

  // ---------------------------------------------------------------- exact search

  /** Whether `t` occurs in `s` at index `i`, character for character. */
  predicate MatchAt(s: string, t: string, i: int) {
    0 <= i && i + |t| <= |s| && forall k :: 0 <= k < |t| ==> s[i + k] == t[k]
  }

  /** `s.includes(t)`. */
  predicate Includes(s: string, t: string) {
    exists i :: 0 <= i <= |s| - |t| && MatchAt(s, t, i)
  }

  /** A cheap refutation of `Includes`: no candidate position agrees on the first two characters. */
  lemma NotIncludedByFirstTwo(s: string, t: string)
    requires |t| >= 2
    requires forall i :: 0 <= i <= |s| - |t| ==> s[i] != t[0] || s[i + 1] != t[1]
    ensures !Includes(s, t)
  {
    forall i | 0 <= i <= |s| - |t| ensures !MatchAt(s, t, i) {
      if s[i] != t[0] {
        assert s[i + 0] != t[0];
      } else {
        assert s[i + 1] != t[1];
      }
    }
  }

  /** `s.indexOf(t)` as an option: the first index at or after `from` where `t` occurs. */
  function IndexOfFrom(s: string, t: string, from: nat): (r: Option<nat>)
    ensures r.Some? ==> from <= r.value && MatchAt(s, t, r.value)
    ensures r.Some? ==> forall j :: from <= j < r.value ==> !MatchAt(s, t, j)
    ensures r.None? ==> forall j :: from <= j ==> !MatchAt(s, t, j)
    decreases |s| - from
  {
    if from + |t| > |s| then None
    else if MatchAt(s, t, from) then Some(from)
    else IndexOfFrom(s, t, from + 1)
  }

  /** `s.replace(pat, rep)` with a string pattern: only the first occurrence is replaced. */
  function ReplaceFirst(s: string, pat: string, rep: string): (r: string)
    ensures (forall j :: !MatchAt(s, pat, j)) ==> r == s
  {
    match IndexOfFrom(s, pat, 0)
    case None => s
    case Some(i) => s[..i] + rep + s[i + |pat|..]
  }

  // ---------------------------------------------------------------- word boundaries

  /** The regular-expression word characters `[A-Za-z0-9_]`. */
  predicate IsWordChar(c: char) {
    ('a' <= c <= 'z') || ('A' <= c <= 'Z') || ('0' <= c <= '9') || c == '_'
  }

  /** Whether index `i` of `s` holds a word character (positions outside `s` do not). */
  predicate WordAt(s: string, i: int) {
    0 <= i < |s| && IsWordChar(s[i])
  }

  /** `\b` at position `i`: exactly one of the characters on either side is a word character. */
  predicate IsBoundary(s: string, i: int) {
    WordAt(s, i - 1) != WordAt(s, i)
  }

  /** `\bT\b` matches `s` at index `i`, case-insensitively. */
  predicate WholeWordAt(s: string, t: string, i: int) {
    FoldMatchAt(s, t, i) && IsBoundary(s, i) && IsBoundary(s, i + |t|)
  }

  /** `new RegExp('\\b' + escape(t) + '\\b', 'i').test(s)`: the escaping makes `t` a literal. */
  predicate ContainsWholeWord(s: string, t: string) {
    exists i :: 0 <= i <= |s| - |t| && WholeWordAt(s, t, i)
  }

  /** A token that ends in a non-word character (such as `C++`) never matches at the
      end of the text: the closing `\b` needs a word character after it. */
  lemma NonWordEndNeedsWordAfter(s: string, t: string, i: int)
    requires |t| > 0 && !IsWordChar(t[|t| - 1])
    requires WholeWordAt(s, t, i)
    ensures i + |t| < |s| && IsWordChar(s[i + |t|])
  {
    var e := i + |t|;
    assert Upper(s[e - 1]) == Upper(t[|t| - 1]) by {
      assert s[i + (|t| - 1)] == s[e - 1];
    }
    assert !IsWordChar(s[e - 1]);
  }

  // ---------------------------------------------------------------- trimming

  /** The characters `String.prototype.trim` removes: ECMAScript WhiteSpace and LineTerminator. */
  predicate IsSpace(c: char) {
    var n := c as int;
    (9 <= n <= 13) || n == 32 || n == 0xA0 || n == 0x1680 || (0x2000 <= n <= 0x200A)
    || n == 0x2028 || n == 0x2029 || n == 0x202F || n == 0x205F || n == 0x3000 || n == 0xFEFF
  }

  /** Removes leading white space. */
  function TrimStart(s: string): (r: string)
    ensures |r| <= |s| && r == s[|s| - |r|..]
    ensures |r| > 0 ==> !IsSpace(r[0])
    ensures forall i :: 0 <= i < |s| - |r| ==> IsSpace(s[i])
  {
    if |s| > 0 && IsSpace(s[0]) then TrimStart(s[1..]) else s
  }

  /** Removes trailing white space. */
  function TrimEnd(s: string): (r: string)
    ensures |r| <= |s| && r == s[..|r|]
    ensures |r| > 0 ==> !IsSpace(r[|r| - 1])
    ensures forall i :: |r| <= i < |s| ==> IsSpace(s[i])
  {
    if |s| > 0 && IsSpace(s[|s| - 1]) then TrimEnd(s[..|s| - 1]) else s
  }

  /** `s.trim()`: the longest infix of `s` that neither starts nor ends with white space. */
  function Trim(s: string): (r: string)
    ensures |r| > 0 ==> !IsSpace(r[0]) && !IsSpace(r[|r| - 1])
    ensures r == "" <==> forall i :: 0 <= i < |s| ==> IsSpace(s[i])
    ensures exists i, j ::
              && 0 <= i <= j <= |s| && r == s[i..j]
              && (forall k :: 0 <= k < i ==> IsSpace(s[k]))
              && (forall k :: j <= k < |s| ==> IsSpace(s[k]))
  {
    var a := TrimStart(s);
    var r := TrimEnd(a);
    assert |r| > 0 ==> r[0] == a[0];
    assert r == "" ==> a == "";
    TrimInfix(s, a, r);
    r
  }

  /** Dropping a white-space prefix and then a white-space suffix leaves an infix. */
  lemma TrimInfix(s: string, a: string, r: string)
    requires |a| <= |s| && a == s[|s| - |a|..] && forall k :: 0 <= k < |s| - |a| ==> IsSpace(s[k])
    requires |r| <= |a| && r == a[..|r|] && forall k :: |r| <= k < |a| ==> IsSpace(a[k])
    ensures exists i, j ::
              && 0 <= i <= j <= |s| && r == s[i..j]
              && (forall k :: 0 <= k < i ==> IsSpace(s[k]))
              && (forall k :: j <= k < |s| ==> IsSpace(s[k]))
  {
    var i := |s| - |a|;
    var j := i + |r|;
    assert a == s[i..];
    forall t | 0 <= t < |r| ensures r[t] == s[i..j][t] {
      assert r[t] == a[t];
    }
    assert r == s[i..j];
    forall k | j <= k < |s| ensures IsSpace(s[k]) {
      assert s[k] == a[k - i];
    }
    assert forall k :: 0 <= k < i ==> IsSpace(s[k]);
  }

  /** Trimming text that starts with a non-space prefix `p`, and has a non-space
      character somewhere after it, keeps `p` at the front. */
  lemma {:induction false} TrimKeepsPrefix(p: string, q: string, j: nat)
    requires |p| > 0 && !IsSpace(p[0])
    requires j < |q| && !IsSpace(q[j])
    ensures |Trim(p + q)| >= |p| && Trim(p + q)[..|p|] == p
  {
    var s := p + q;
    assert TrimStart(s) == s;
    var r := TrimEnd(s);
    assert s[|p| + j] == q[j];
    assert |r| > |p| + j;
    assert r[..|p|] == s[..|p|] == p;
  }

  // ---------------------------------------------------------------- building strings

  /** `xs.join(sep)`. */
  function Join(xs: seq<string>, sep: string): string {
    if |xs| == 0 then ""
    else if |xs| == 1 then xs[0]
    else xs[0] + sep + Join(xs[1..], sep)
  }

  /** `c.repeat(n)` for a one-character string `c`. */
  function Repeat(c: char, n: nat): (r: string)
    ensures |r| == n && forall i :: 0 <= i < n ==> r[i] == c
  {
    seq(n, _ => c)
  }

  /** `s.padStart(n, c)` with a one-character fill. */
  function PadStart(s: string, n: nat, c: char): (r: string)
    ensures |r| == if |s| < n then n else |s|
    ensures r[|r| - |s|..] == s
  {
    if |s| >= n then s else Repeat(c, n - |s|) + s
  }

  /** `s.slice(-n)` for `n > 0`: the last `n` characters, or all of `s` when shorter. */
  function TakeLast(s: string, n: nat): (r: string)
    requires n > 0
    ensures |r| == if |s| < n then |s| else n
    ensures r == s[|s| - |r|..]
  {
    if |s| <= n then s else s[|s| - n..]
  }

  // ---------------------------------------------------------------- decimal numbers

  /** The character of a decimal digit. */
  function Digit(d: nat): char
    requires d < 10
  {
    ('0' as int + d) as char
  }

  /** `String(n)` for a non-negative integer: its decimal representation, no leading zeros. */
  function Decimal(n: nat): (r: string)
    ensures |r| >= 1
    ensures |r| == 1 <==> n < 10
    ensures r[|r| - 1] == Digit(n % 10)
    ensures forall i :: 0 <= i < |r| ==> '0' <= r[i] <= '9'
  {
    if n < 10 then [Digit(n)] else Decimal(n / 10) + [Digit(n % 10)]
  }

  /** Distinct numbers print differently. */
  lemma {:induction false} DecimalInjective(a: nat, b: nat)
    requires Decimal(a) == Decimal(b)
    ensures a == b
  {
    if a >= 10 && b >= 10 {
      var da, db := Decimal(a), Decimal(b);
      assert Digit(a % 10) == da[|da| - 1] == db[|db| - 1] == Digit(b % 10);
      assert Decimal(a / 10) == da[..|da| - 1] == db[..|db| - 1] == Decimal(b / 10);
      DecimalInjective(a / 10, b / 10);
    }
  }
}

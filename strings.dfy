/**
 * Characters and strings as JavaScript's String methods and regular expressions
 * see them: the `\s` and `\d` classes, `trim()`, the case folding of a
 * case-insensitive (non-Unicode) pattern, `split('\n')`, decimal digit strings
 * and the UTF-16 `length` of a string.
 */
module Strings {

  /** The code points `\s` matches and `trim()` removes (WhiteSpace and LineTerminator). */
  predicate IsSpace(c: char) {
    var n := c as int;
    (0x09 <= n <= 0x0D) || n == 0x20 || n == 0xA0 || n == 0x1680 || (0x2000 <= n <= 0x200A)
    || n == 0x2028 || n == 0x2029 || n == 0x202F || n == 0x205F || n == 0x3000 || n == 0xFEFF
  }

  /** `\d`: an ASCII decimal digit. */
  predicate IsDigit(c: char) {
    '0' <= c <= '9'
  }

  /** The character classes the source's patterns repeat: `\d`, `\s` and `[\d\s]`. */
  datatype CharClass = Digit | Space | DigitOrSpace

  predicate InClass(c: char, k: CharClass) {
    match k
    case Digit => IsDigit(c)
    case Space => IsSpace(c)
    case DigitOrSpace => IsDigit(c) || IsSpace(c)
  }

  /** The end of the longest run of class `k` starting at `i`: what a greedy `k*` consumes. */
  function Span(s: string, i: nat, k: CharClass): (j: nat)
    requires i <= |s|
    ensures i <= j <= |s|
    ensures forall p :: i <= p < j ==> InClass(s[p], k)
    ensures j == |s| || !InClass(s[j], k)
    decreases |s| - i
  {
    if i < |s| && InClass(s[i], k) then Span(s, i + 1, k) else i
  }

  /** A run of class `k` from `i` that ends at `j` determines the span. */
  lemma {:induction false} SpanIs(s: string, i: nat, k: CharClass, j: nat)
    requires i <= j <= |s|
    requires forall p :: i <= p < j ==> InClass(s[p], k)
    requires j == |s| || !InClass(s[j], k)
    ensures Span(s, i, k) == j
    decreases j - i
  {
    if i < j {
      SpanIs(s, i + 1, k, j);
    }
  }

  /** `trimStart()`. */
  function TrimStart(s: string): (r: string)
    ensures |r| <= |s| && forall k :: 0 <= k < |r| ==> r[k] == s[|s| - |r| + k]
    ensures forall p :: 0 <= p < |s| - |r| ==> IsSpace(s[p])
    ensures r == [] || !IsSpace(r[0])
  {
    s[Span(s, 0, Space)..]
  }

  /** The start of the run of white space that ends at `j`. */
  function SpaceBefore(s: string, j: nat): (i: nat)
    requires j <= |s|
    ensures i <= j
    ensures forall p :: i <= p < j ==> IsSpace(s[p])
    ensures i == 0 || !IsSpace(s[i - 1])
  {
    if j > 0 && IsSpace(s[j - 1]) then SpaceBefore(s, j - 1) else j
  }

  /** `trimEnd()`. */
  function TrimEnd(s: string): (r: string)
    ensures |r| <= |s| && forall k :: 0 <= k < |r| ==> r[k] == s[k]
    ensures forall p :: |r| <= p < |s| ==> IsSpace(s[p])
    ensures r == [] || !IsSpace(r[|r| - 1])
  {
    s[..SpaceBefore(s, |s|)]
  }

  /** `trim()`: never longer than `s`, and white space at neither end. */
  function Trim(s: string): (r: string)
    ensures |r| <= |s|
    ensures Trimmed(r)
  {
    TrimEnd(TrimStart(s))
  }

  /** `trim()` removes exactly a leading and a trailing run of white space and leaves neither end white. */
  lemma TrimShape(s: string) returns (a: nat, b: nat)
    ensures a <= b <= |s| && Trim(s) == s[a..b]
    ensures forall p :: 0 <= p < a ==> IsSpace(s[p])
    ensures forall p :: b <= p < |s| ==> IsSpace(s[p])
    ensures Trim(s) == [] || (!IsSpace(Trim(s)[0]) && !IsSpace(Trim(s)[|Trim(s)| - 1]))
  {
    var t := TrimStart(s);
    a := |s| - |t|;
    b := a + |Trim(s)|;
    assert Trim(s) == t[..|Trim(s)|];
    forall p | b <= p < |s| ensures IsSpace(s[p]) {
      assert s[p] == t[p - a];
    }
    if Trim(s) != [] {
      assert Trim(s)[0] == t[0];
    }
  }

  /** A run of white space ending at `j` and preceded by no white space determines where it starts. */
  lemma {:induction false} SpaceBeforeIs(s: string, j: nat, i: nat)
    requires i <= j <= |s|
    requires forall p :: i <= p < j ==> IsSpace(s[p])
    requires i == 0 || !IsSpace(s[i - 1])
    ensures SpaceBefore(s, j) == i
    decreases j - i
  {
    if i < j {
      SpaceBeforeIs(s, j - 1, i);
    }
  }

  /** `trim()` of a trimmed string padded on both sides with white space is that string. */
  lemma TrimPadded(x: string, m: string, y: string)
    requires forall p :: 0 <= p < |x| ==> IsSpace(x[p])
    requires forall p :: 0 <= p < |y| ==> IsSpace(y[p])
    requires Trimmed(m)
    ensures Trim(x + m + y) == m
  {
    var s := x + m + y;
    if m == [] {
      assert forall p :: 0 <= p < |s| ==> IsSpace(s[p]) by {
        assert s == x + y;
      }
      TrimEmpty(s);
    } else {
      SpanIs(s, 0, Space, |x|);
      var t := TrimStart(s);
      assert t == m + y;
      SpaceBeforeIs(t, |t|, |m|);
    }
  }

  /** The white space after `b`, followed by a carriage return, is all white space. */
  lemma TailSpacesCr(p: string, b: nat)
    requires b <= |p| && forall q :: b <= q < |p| ==> IsSpace(p[q])
    ensures forall q :: 0 <= q < |p[b..] + "\r"| ==> IsSpace((p[b..] + "\r")[q])
  {
  }

  /** Cutting a string in three at `a` and `b` and adding a carriage return at the end. */
  lemma CutCr(p: string, a: nat, b: nat)
    requires a <= b <= |p|
    ensures p + "\r" == p[..a] + p[a..b] + (p[b..] + "\r")
  {
    assert p == p[..a] + p[a..b] + p[b..];
  }

  /** A carriage return at the end of a line makes no difference once the line is trimmed. */
  lemma TrimCr(p: string)
    ensures Trim(p + "\r") == Trim(p)
  {
    var a, b := TrimShape(p);
    CutCr(p, a, b);
    TailSpacesCr(p, b);
    assert forall q :: 0 <= q < |p[..a]| ==> IsSpace(p[..a][q]);
    TrimPadded(p[..a], p[a..b], p[b..] + "\r");
  }

  /** Neither end of `s` is white space. */
  predicate Trimmed(s: string) {
    s == [] || (!IsSpace(s[0]) && !IsSpace(s[|s| - 1]))
  }

  /** A string whose ends are not white space is its own trim. */
  lemma TrimNoop(s: string)
    requires Trimmed(s)
    ensures Trim(s) == s
  {
  }

  /** The result of `trim()` has no white space at either end. */
  lemma TrimIsTrimmed(s: string)
    ensures Trimmed(Trim(s))
  {
    var _, _ := TrimShape(s);
  }

  /** Trimming twice is trimming once. */
  lemma TrimIdempotent(s: string)
    ensures Trim(Trim(s)) == Trim(s)
  {
    var _, _ := TrimShape(s);
    TrimNoop(Trim(s));
  }

  /** `trim()` gives the empty string exactly when every character is white space. */
  lemma {:induction false} TrimEmpty(s: string)
    ensures Trim(s) == [] <==> forall p :: 0 <= p < |s| ==> IsSpace(s[p])
  {
    var a, b := TrimShape(s);
    if Trim(s) != [] {
      assert !IsSpace(s[a]);
    }
  }

  /**
   * A small letter of U+0460–U+04FF whose capital is the code point just
   * before it: the odd code points of the three runs of capital-small pairs,
   * and the even ones from U+04C2 to U+04CE.
   */
  predicate PairedSmall(n: int) {
    ((0x460 <= n <= 0x481 || 0x48A <= n <= 0x4BF || 0x4D0 <= n <= 0x4FF) && n % 2 == 1)
    || (0x4C1 <= n <= 0x4CE && n % 2 == 0)
  }

  /**
   * The canonical form of a character in a case-insensitive, non-Unicode
   * JavaScript pattern (its upper case), for ASCII letters and the whole
   * Cyrillic block U+0400–U+04FF, together with the characters outside the
   * block that fold with one of its letters: the Cyrillic Extended-C letters
   * U+1C80–U+1C88 and U+A64B, which shares its capital U+A64A with U+1C88.
   * Letters of other scripts are left as they are.
   */
  function Upper(c: char): (u: char)
    ensures 'a' <= c <= 'z' ==> 'A' <= u <= 'Z' && u != c
    ensures 'A' <= c <= 'Z' || IsDigit(c) || IsSpace(c) ==> u == c
  {
    var n := c as int;
    if 'a' <= c <= 'z' then (n - 32) as char
    else if 0x430 <= n <= 0x44F then (n - 32) as char
    else if 0x450 <= n <= 0x45F then (n - 80) as char
    else if PairedSmall(n) then (n - 1) as char
    else if n == 0x4CF then '\U{04C0}'
    else if n == 0x1C80 then '\U{0412}'
    else if n == 0x1C81 then '\U{0414}'
    else if n == 0x1C82 then '\U{041E}'
    else if n == 0x1C83 then '\U{0421}'
    else if n == 0x1C84 || n == 0x1C85 then '\U{0422}'
    else if n == 0x1C86 then '\U{042A}'
    else if n == 0x1C87 then '\U{0462}'
    else if n == 0x1C88 || n == 0xA64B then '\U{A64A}'
    else c
  }

  /** The pairs past the basic letters fold too: Ѣ and ѣ, Ґ and ґ, Ӏ and ӏ. */
  lemma UpperCyrillicPairs()
    ensures Upper('\U{0463}') == Upper('\U{0462}') == '\U{0462}'
    ensures Upper('\U{0491}') == Upper('\U{0490}') == '\U{0490}'
    ensures Upper('\U{04CF}') == Upper('\U{04C0}') == '\U{04C0}'
    ensures Upper('\U{04C2}') == '\U{04C1}' && Upper('\U{04D1}') == '\U{04D0}'
  {
  }

  /** Folding is a canonical form: a folded character folds to itself. */
  lemma UpperIdempotent(c: char)
    ensures Upper(Upper(c)) == Upper(c)
  {
  }

  /** Characters that fold alike are in the same classes: folding changes letters only. */
  lemma FoldKeepsClass(c: char, d: char, k: CharClass)
    requires Upper(c) == Upper(d)
    ensures InClass(c, k) <==> InClass(d, k)
  {
  }

  /** `t` and `u` differ at most in letter case, as a case-insensitive pattern sees them. */
  predicate SameFold(t: string, u: string) {
    |t| == |u| && forall k :: 0 <= k < |t| ==> Upper(t[k]) == Upper(u[k])
  }

  /** The literal `w` occurs in `s` at position `i`, ignoring case. */
  predicate WordAt(s: string, i: nat, w: string) {
    i + |w| <= |s| && forall k :: 0 <= k < |w| ==> Upper(s[i + k]) == Upper(w[k])
  }

  /** An unanchored case-insensitive pattern made of the literal `w` finds a match in `s`. */
  predicate Contains(s: string, w: string) {
    exists i :: 0 <= i <= |s| && WordAt(s, i, w)
  }

  /** A greedy run of a class ends at the same place in strings that differ only in letter case. */
  lemma {:induction false} SpanSameFold(t: string, u: string, i: nat, k: CharClass)
    requires SameFold(t, u) && i <= |t|
    ensures Span(t, i, k) == Span(u, i, k)
    decreases |t| - i
  {
    if i < |t| {
      FoldKeepsClass(t[i], u[i], k);
      SpanSameFold(t, u, i + 1, k);
    }
  }

  /** An unanchored literal occurs in one of two strings that differ only in letter case exactly when it occurs in the other. */
  lemma ContainsSameFold(t: string, u: string, w: string)
    requires SameFold(t, u)
    ensures Contains(t, w) <==> Contains(u, w)
  {
    if Contains(t, w) {
      var i :| 0 <= i <= |t| && WordAt(t, i, w);
      assert WordAt(u, i, w);
    }
    if Contains(u, w) {
      var i :| 0 <= i <= |u| && WordAt(u, i, w);
      assert WordAt(t, i, w);
    }
  }

  /** `split('\n')`: the pieces between line breaks, an empty string giving one empty piece. */
  function SplitLines(s: string): (r: seq<string>)
    ensures |r| >= 1
    ensures forall k :: 0 <= k < |r| ==> '\n' !in r[k]
  {
    if s == [] then [""]
    else
      var rest := SplitLines(s[1..]);
      if s[0] == '\n' then [""] + rest else [[s[0]] + rest[0]] + rest[1..]
  }

  /** `split(/\r?\n/)`: a carriage return followed by a line feed breaks a line as one separator. */
  function SplitCrLf(s: string): (r: seq<string>)
    ensures |r| >= 1
  {
    if s == [] then [""]
    else if s[0] == '\n' then [""] + SplitCrLf(s[1..])
    else if s[0] == '\r' && |s| >= 2 && s[1] == '\n' then [""] + SplitCrLf(s[2..])
    else
      var rest := SplitCrLf(s[1..]);
      [[s[0]] + rest[0]] + rest[1..]
  }

  /**
   * Splitting on line feeds alone gives as many pieces as splitting on
   * `\r?\n`, each the same piece or the same piece followed by the carriage return.
   */
  lemma {:induction false} SplitLinesCrLf(s: string)
    ensures |SplitLines(s)| == |SplitCrLf(s)|
    ensures forall k :: 0 <= k < |SplitLines(s)| ==>
      SplitLines(s)[k] == SplitCrLf(s)[k] || SplitLines(s)[k] == SplitCrLf(s)[k] + "\r"
    decreases |s|
  {
    if s == [] {
    } else if s[0] == '\n' {
      SplitLinesCrLf(s[1..]);
    } else if s[0] == '\r' && |s| >= 2 && s[1] == '\n' {
      SplitLinesCrLf(s[2..]);
      assert s[1..][1..] == s[2..];
      var rest := SplitLines(s[1..]);
      assert rest == [""] + SplitLines(s[2..]);
      assert rest[0] == "" && rest[1..] == SplitLines(s[2..]);
      assert [s[0]] + rest[0] == "\r";
    } else {
      SplitLinesCrLf(s[1..]);
      var a, b := SplitLines(s[1..]), SplitCrLf(s[1..]);
      assert a[0] == b[0] || a[0] == b[0] + "\r";
      assert [s[0]] + (b[0] + "\r") == [s[0]] + b[0] + "\r";
    }
  }

  /** `join('\n')`. */
  function JoinLines(ls: seq<string>): string {
    if ls == [] then ""
    else if |ls| == 1 then ls[0]
    else ls[0] + "\n" + JoinLines(ls[1..])
  }

  /** Splitting on line breaks loses nothing: joining the pieces gives the text back. */
  lemma {:induction false} JoinSplit(s: string)
    ensures JoinLines(SplitLines(s)) == s
  {
    if s != [] {
      JoinSplit(s[1..]);
      var rest := SplitLines(s[1..]);
      if s[0] == '\n' {
        assert SplitLines(s) == [""] + rest;
      } else {
        var r := SplitLines(s);
        assert r[0] == [s[0]] + rest[0] && r[1..] == rest[1..];
        if |rest| > 1 {
          assert rest == [rest[0]] + rest[1..];
          assert JoinLines(rest) == rest[0] + "\n" + JoinLines(rest[1..]);
        }
      }
    }
  }

  /** Joining lines that hold no line break and splitting again gives the same lines. */
  lemma {:induction false} SplitJoin(ls: seq<string>)
    requires |ls| >= 1
    requires forall k :: 0 <= k < |ls| ==> '\n' !in ls[k]
    ensures SplitLines(JoinLines(ls)) == ls
  {
    if |ls| == 1 {
      SplitNoBreak(ls[0]);
    } else {
      SplitJoin(ls[1..]);
      SplitAppend(ls[0], JoinLines(ls[1..]));
    }
  }

  lemma {:induction false} SplitNoBreak(s: string)
    requires '\n' !in s
    ensures SplitLines(s) == [s]
  {
    if s != [] {
      assert s[0] in s;
      assert forall c :: c in s[1..] ==> c in s;
      SplitNoBreak(s[1..]);
      assert [s[0]] + s[1..] == s;
    }
  }

  lemma {:induction false} SplitAppend(a: string, b: string)
    requires '\n' !in a
    ensures SplitLines(a + "\n" + b) == [a] + SplitLines(b)
  {
    if a == [] {
      assert a + "\n" + b == "\n" + b;
      assert ("\n" + b)[1..] == b;
    } else {
      assert a[0] in a;
      assert forall c :: c in a[1..] ==> c in a;
      SplitAppend(a[1..], b);
      assert (a + "\n" + b)[0] == a[0];
      assert (a + "\n" + b)[1..] == a[1..] + "\n" + b;
      assert [a[0]] + a[1..] == a;
    }
  }

  /** `replace(/\s/g, '')`. */
  function RemoveSpaces(s: string): (r: string)
    ensures forall k :: 0 <= k < |r| ==> !IsSpace(r[k])
    ensures forall c :: c in r <==> c in s && !IsSpace(c)
    ensures (forall k :: 0 <= k < |s| ==> InClass(s[k], DigitOrSpace)) ==> AllDigits(r)
  {
    if s == [] then ""
    else if IsSpace(s[0]) then RemoveSpaces(s[1..])
    else [s[0]] + RemoveSpaces(s[1..])
  }

  /** A string of digits has no white space to remove. */
  lemma {:induction false} DigitsKept(u: string)
    requires AllDigits(u)
    ensures RemoveSpaces(u) == u
  {
    if u != [] {
      DigitsKept(u[1..]);
    }
  }

  /** One white-space character in front of a digit string is all `replace(/\s/g, '')` removes. */
  lemma SpaceThenDigits(t: string)
    requires |t| > 0 && IsSpace(t[0]) && AllDigits(t[1..])
    ensures RemoveSpaces(t) == t[1..]
  {
    DigitsKept(t[1..]);
  }

  function DigitValue(c: char): nat
    requires IsDigit(c)
  {
    c as int - '0' as int
  }

  function DigitChar(d: nat): (c: char)
    requires d < 10
    ensures IsDigit(c) && DigitValue(c) == d
  {
    ('0' as int + d) as char
  }

  predicate AllDigits(s: string) {
    forall k :: 0 <= k < |s| ==> IsDigit(s[k])
  }

  /** `parseInt(s, 10)` of a string of decimal digits (0 for the empty string). */
  function DigitsValue(s: string): nat
    requires AllDigits(s)
  {
    if s == [] then 0 else DigitsValue(s[..|s| - 1]) * 10 + DigitValue(s[|s| - 1])
  }

  function Pow10(n: nat): (r: nat)
    ensures r >= 1
  {
    if n == 0 then 1 else 10 * Pow10(n - 1)
  }

  /** The shortest decimal representation of `n`, as `String(n)` writes an integer. */
  function NatToDigits(n: nat): (s: string)
    ensures |s| >= 1 && AllDigits(s)
  {
    if n < 10 then [DigitChar(n)] else NatToDigits(n / 10) + [DigitChar(n % 10)]
  }

  /** Reading back the decimal representation of `n` gives `n`. */
  lemma {:induction false} DigitsRoundTrip(n: nat)
    ensures DigitsValue(NatToDigits(n)) == n
  {
    if n >= 10 {
      var s := NatToDigits(n);
      assert s[..|s| - 1] == NatToDigits(n / 10);
      DigitsRoundTrip(n / 10);
    }
  }

  /** The value of `n` digits is below 10 to the `n`. */
  lemma {:induction false} DigitsValueBound(s: string)
    requires AllDigits(s)
    ensures DigitsValue(s) < Pow10(|s|)
  {
    if s != [] {
      DigitsValueBound(s[..|s| - 1]);
    }
  }

  /** `s.length`: the number of UTF-16 code units, two for a character outside the Basic Multilingual Plane. */
  function Utf16Length(s: string): (n: nat)
    ensures |s| <= n <= 2 * |s|
  {
    if s == [] then 0 else (if s[0] as int > 0xFFFF then 2 else 1) + Utf16Length(s[1..])
  }
}

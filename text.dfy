/**
 * String operations the components build on: the JavaScript `\s` class,
 * `trim`, `toLowerCase` (ASCII letters only), the character-class
 * replacements and `includes`.
 */
module Text {
  import opened Wrappers

  /** The characters matched by `\s` and removed by `trim` in ECMAScript:
      WhiteSpace and LineTerminator. */
  predicate IsWhitespace(c: char) {
    || c == ' ' || c == '\t' || c == '\n' || c == '\r'
    || c == '\U{000B}' || c == '\U{000C}' || c == '\U{00A0}' || c == '\U{1680}'
    || ('\U{2000}' <= c <= '\U{200A}')
    || c == '\U{2028}' || c == '\U{2029}' || c == '\U{202F}' || c == '\U{205F}'
    || c == '\U{3000}' || c == '\U{FEFF}'
  }

  /** `\d`: an ASCII decimal digit. */
  predicate IsDigit(c: char) {
    '0' <= c <= '9'
  }

  /** `[a-z0-9]`. */
  predicate IsLowerAlnum(c: char) {
    ('a' <= c <= 'z') || IsDigit(c)
  }

  predicate AllDigits(s: string) {
    forall i :: 0 <= i < |s| ==> IsDigit(s[i])
  }

  predicate AllLowerAlnum(s: string) {
    forall i :: 0 <= i < |s| ==> IsLowerAlnum(s[i])
  }

  predicate AllWhitespace(s: string) {
    forall i :: 0 <= i < |s| ==> IsWhitespace(s[i])
  }

  predicate NoWhitespace(s: string) {
    forall i :: 0 <= i < |s| ==> !IsWhitespace(s[i])
  }

  function ToLowerChar(c: char): char {
    if 'A' <= c <= 'Z' then (c as int + 32) as char else c
  }

  /** `s.toLowerCase()` restricted to ASCII letters. */
  function ToLower(s: string): (r: string)
    ensures |r| == |s|
    ensures forall i :: 0 <= i < |s| ==> r[i] == ToLowerChar(s[i])
  {
    seq(|s|, i requires 0 <= i < |s| => ToLowerChar(s[i]))
  }

  /** The length of the leading whitespace run. */
  function LeadingWhitespace(s: string): (n: nat)
    ensures n <= |s| && AllWhitespace(s[..n])
    ensures n < |s| ==> !IsWhitespace(s[n])
  {
    if s != [] && IsWhitespace(s[0]) then
      var k := LeadingWhitespace(s[1..]);
      WhitespaceExtendsLeft(s, k + 1);
      k + 1
    else 0
  }

  /** Leading whitespace removed. */
  function TrimStart(s: string): (r: string)
    ensures |r| <= |s| && r == s[|s| - |r|..]
    ensures r == [] || !IsWhitespace(r[0])
    ensures AllWhitespace(s[..|s| - |r|])
  {
    s[LeadingWhitespace(s)..]
  }

  /** Trailing whitespace removed. */
  function TrimEnd(s: string): (r: string)
    ensures |r| <= |s| && r == s[..|r|]
    ensures r == [] || !IsWhitespace(r[|r| - 1])
    ensures AllWhitespace(s[|r|..])
  {
    if s != [] && IsWhitespace(s[|s| - 1]) then
      var r := TrimEnd(s[..|s| - 1]);
      WhitespaceExtendsRight(s, |r|);
      r
    else s
  }

  /** A whitespace run after a leading whitespace character is one run. */
  lemma WhitespaceExtendsLeft(s: string, k: nat)
    requires 1 <= k <= |s| && IsWhitespace(s[0]) && AllWhitespace(s[1..][..k - 1])
    ensures AllWhitespace(s[..k])
  {
    forall i | 1 <= i < k ensures IsWhitespace(s[..k][i]) {
      assert s[..k][i] == s[1..][..k - 1][i - 1];
    }
  }

  /** A whitespace run before a trailing whitespace character is one run. */
  lemma WhitespaceExtendsRight(s: string, k: nat)
    requires k < |s| && IsWhitespace(s[|s| - 1]) && AllWhitespace(s[..|s| - 1][k..])
    ensures AllWhitespace(s[k..])
  {
    forall i | 0 <= i < |s| - 1 - k ensures IsWhitespace(s[k..][i]) {
      assert s[k..][i] == s[..|s| - 1][k..][i];
    }
  }

  /** `s.trim()`. */
  function Trim(s: string): string {
    TrimEnd(TrimStart(s))
  }

  /** `!s.trim()`: the string is empty once trimmed. */
  predicate IsBlank(s: string) {
    Trim(s) == ""
  }

  /** `s.replace(/\D/g, '')`. */
  function KeepDigits(s: string): (r: string)
    ensures AllDigits(r) && |r| <= |s|
    ensures AllDigits(s) ==> r == s
  {
    if s == [] then []
    else if IsDigit(s[0]) then [s[0]] + KeepDigits(s[1..])
    else KeepDigits(s[1..])
  }

  /** `s.replace(/[^a-z0-9]/g, '')`. */
  function KeepLowerAlnum(s: string): (r: string)
    ensures AllLowerAlnum(r) && |r| <= |s|
    ensures AllLowerAlnum(s) ==> r == s
  {
    if s == [] then []
    else if IsLowerAlnum(s[0]) then [s[0]] + KeepLowerAlnum(s[1..])
    else KeepLowerAlnum(s[1..])
  }

  /** `replace(/\D/g, '')` works character by character: a digit is kept, anything
      else is dropped. */
  lemma KeepDigitsChar(c: char)
    ensures KeepDigits([c]) == if IsDigit(c) then [c] else []
  {
  }

  /** ... and the pieces of a concatenation are filtered independently. */
  lemma {:induction false} KeepDigitsAppend(a: string, b: string)
    ensures KeepDigits(a + b) == KeepDigits(a) + KeepDigits(b)
  {
    if a == [] {
      assert a + b == b;
    } else {
      assert (a + b)[1..] == a[1..] + b;
      KeepDigitsAppend(a[1..], b);
    }
  }

  /** `replace(/[^a-z0-9]/g, '')` keeps a character of [a-z0-9] and drops any other. */
  lemma KeepLowerAlnumChar(c: char)
    ensures KeepLowerAlnum([c]) == if IsLowerAlnum(c) then [c] else []
  {
  }

  /** ... and the pieces of a concatenation are filtered independently. */
  lemma {:induction false} KeepLowerAlnumAppend(a: string, b: string)
    ensures KeepLowerAlnum(a + b) == KeepLowerAlnum(a) + KeepLowerAlnum(b)
  {
    if a == [] {
      assert a + b == b;
    } else {
      assert (a + b)[1..] == a[1..] + b;
      KeepLowerAlnumAppend(a[1..], b);
    }
  }

  /** `toLowerCase` maps each character on its own. */
  lemma ToLowerAppend(a: string, b: string)
    ensures ToLower(a + b) == ToLower(a) + ToLower(b)
  {
  }

  /** The number of UTF-16 code units of a character: a character above U+FFFF is
      stored as a surrogate pair. */
  function Utf16Units(c: char): nat {
    if c as int > 0xFFFF then 2 else 1
  }

  /** `s.length` in JavaScript, which counts UTF-16 code units rather than characters. */
  function Utf16Length(s: string): (n: nat)
    ensures |s| <= n <= 2 * |s|
    ensures n == |s| <==> forall i :: 0 <= i < |s| ==> s[i] as int <= 0xFFFF
  {
    if s == [] then 0 else Utf16Units(s[0]) + Utf16Length(s[1..])
  }

  /** `s.substring(0, n)` for a non-negative `n`. */
  function Take(s: string, n: nat): (r: string)
    ensures |r| == if |s| <= n then |s| else n
    ensures r == s[..|r|]
  {
    if |s| <= n then s else s[..n]
  }

  /** Number of occurrences of `c` in `s`. */
  function CountChar(s: string, c: char): (n: nat)
    ensures n <= |s|
    ensures n == 0 <==> c !in s
  {
    if s == [] then 0 else (if s[0] == c then 1 else 0) + CountChar(s[1..], c)
  }

  /** `s.indexOf(c)`, with `None` for -1. */
  function IndexOf(s: string, c: char): (r: Option<nat>)
    ensures r.None? <==> c !in s
    ensures r.Some? ==> r.value < |s| && s[r.value] == c && c !in s[..r.value]
  {
    if s == [] then None
    else if s[0] == c then Some(0)
    else
      var r := IndexOf(s[1..], c);
      if r.Some? then
        assert s[..r.value + 1] == [s[0]] + s[1..][..r.value];
        Some(r.value + 1)
      else None
  }

  /** The first occurrence of `c` is what `IndexOf` finds. */
  lemma {:induction false} IndexOfFirst(s: string, c: char, k: nat)
    requires k < |s| && s[k] == c && c !in s[..k]
    ensures IndexOf(s, c) == Some(k)
  {
    if k > 0 {
      assert s[0] in s[..k];
      assert s[1..][..k - 1] == s[..k][1..];
      IndexOfFirst(s[1..], c, k - 1);
    }
  }

  /** Occurrences split across a concatenation. */
  lemma {:induction false} CountCharAppend(a: string, b: string, c: char)
    ensures CountChar(a + b, c) == CountChar(a, c) + CountChar(b, c)
  {
    if a != [] {
      assert (a + b)[1..] == a[1..] + b;
      CountCharAppend(a[1..], b, c);
    } else {
      assert a + b == b;
    }
  }

  /** A string is what comes before position `i`, the character there, and what follows. */
  lemma SplitAround(s: string, i: nat)
    requires i < |s|
    ensures s == s[..i] + [s[i]] + s[i + 1..]
  {
  }

  predicate IsPrefix(p: string, s: string) {
    |p| <= |s| && s[..|p|] == p
  }

  /** `sub` occurs in `s` starting at offset `i`. */
  predicate OccursAt(s: string, sub: string, i: int) {
    0 <= i <= |s| - |sub| && s[i..i + |sub|] == sub
  }

  /** `s.includes(sub)`. */
  predicate Contains(s: string, sub: string)
    decreases |s|
  {
    IsPrefix(sub, s) || (s != [] && Contains(s[1..], sub))
  }

  /** Case-insensitive `includes`, as every search box of the dashboards uses it. */
  predicate MatchesQuery(field: string, query: string) {
    Contains(ToLower(field), ToLower(query))
  }

  // ---------------------------------------------------------------------------
  // Lemmas

  /** `includes` is the existence of an occurrence at some offset. */
  lemma {:induction false} ContainsOccurs(s: string, sub: string)
    ensures Contains(s, sub) <==> exists i :: OccursAt(s, sub, i)
  {
    if |sub| <= |s| && s[..|sub|] == sub {
      assert OccursAt(s, sub, 0);
    } else if s == [] {
    } else {
      ContainsOccurs(s[1..], sub);
      if Contains(s, sub) {
        var i :| OccursAt(s[1..], sub, i);
        assert s[i + 1..i + 1 + |sub|] == sub;
        assert OccursAt(s, sub, i + 1);
      } else {
        forall i ensures !OccursAt(s, sub, i) {
          if 0 < i <= |s| - |sub| {
            assert !OccursAt(s[1..], sub, i - 1);
            assert s[1..][i - 1..i - 1 + |sub|] == s[i..i + |sub|];
          }
        }
      }
    }
  }

  /** Every string includes the empty string, so an empty query matches everything. */
  lemma EmptyQueryMatches(field: string)
    ensures MatchesQuery(field, "")
  {
    assert IsPrefix("", ToLower(field));
  }

  /** A digit is not whitespace. */
  lemma DigitNotWhitespace(c: char)
    requires IsDigit(c)
    ensures !IsWhitespace(c)
  {
  }

  /** A blank string is exactly one made only of whitespace. */
  lemma BlankIffAllWhitespace(s: string)
    ensures IsBlank(s) <==> AllWhitespace(s)
  {
    var t := TrimStart(s);
    assert t != [] ==> t[0] == s[|s| - |t|];
    assert s == s[..|s| - |t|] + t;
  }

  /** `trim` leaves no whitespace at either end. */
  lemma TrimEndsClean(s: string)
    ensures var r := Trim(s); r == [] || (!IsWhitespace(r[0]) && !IsWhitespace(r[|r| - 1]))
  {
    var t := TrimStart(s);
    var r := TrimEnd(t);
    assert r != [] ==> r[0] == t[0];
  }

  /** `trim` returns a slice of its input. */
  lemma TrimOccurs(s: string)
    ensures exists i :: OccursAt(s, Trim(s), i)
  {
    var t := TrimStart(s);
    var r := TrimEnd(t);
    var i := |s| - |t|;
    assert s[i..][..|r|] == s[i..i + |r|];
    assert OccursAt(s, r, i);
    assert r == Trim(s);
  }

  /** Trimming removes exactly leading and trailing whitespace: the result is a
      slice of the input that neither starts nor ends with whitespace. */
  lemma TrimShape(s: string)
    ensures var r := Trim(s);
      && (r == [] || (!IsWhitespace(r[0]) && !IsWhitespace(r[|r| - 1])))
      && exists i :: OccursAt(s, r, i)
  {
    TrimEndsClean(s);
    TrimOccurs(s);
  }

  lemma TrimNoWhitespace(s: string)
    requires NoWhitespace(s)
    ensures Trim(s) == s
  {
  }

  /** A string with no whitespace at either end is its own `trim`. */
  lemma TrimUnchanged(s: string)
    requires s == [] || (!IsWhitespace(s[0]) && !IsWhitespace(s[|s| - 1]))
    ensures Trim(s) == s
  {
    if s != [] {
      assert TrimStart(s) == s;
    }
  }

  /** A string that starts and ends with a digit is its own `trim`. */
  lemma DigitEndsTrimmed(s: string)
    requires s == [] || (IsDigit(s[0]) && IsDigit(s[|s| - 1]))
    ensures Trim(s) == s
  {
    if s != [] {
      DigitNotWhitespace(s[0]);
      DigitNotWhitespace(s[|s| - 1]);
    }
    TrimUnchanged(s);
  }

  /** `trim` is idempotent. */
  lemma TrimIdempotent(s: string)
    ensures Trim(Trim(s)) == Trim(s)
  {
    TrimShape(s);
    TrimUnchanged(Trim(s));
  }

  /** Leading whitespace does not change what `TrimStart` leaves. */
  lemma {:induction false} TrimStartSkips(w: string, x: string)
    requires AllWhitespace(w)
    ensures TrimStart(w + x) == TrimStart(x)
  {
    if w != [] {
      assert (w + x)[1..] == w[1..] + x;
      TrimStartSkips(w[1..], x);
    } else {
      assert w + x == x;
    }
  }

  /** Whitespace put in front of a trimmed string is removed again. */
  lemma TrimAfterLeadingWhitespace(w: string, s: string)
    requires AllWhitespace(w)
    ensures Trim(w + Trim(s)) == Trim(s)
  {
    var t := Trim(s);
    TrimShape(s);
    TrimStartSkips(w, t);
    assert TrimStart(t) == t;
  }

  lemma KeepDigitsIdempotent(s: string)
    ensures KeepDigits(KeepDigits(s)) == KeepDigits(s)
  {
  }

  lemma KeepLowerAlnumIdempotent(s: string)
    ensures KeepLowerAlnum(KeepLowerAlnum(s)) == KeepLowerAlnum(s)
  {
  }

  /** A string of digits is left unchanged by lower-casing. */
  lemma ToLowerDigits(s: string)
    requires AllDigits(s)
    ensures ToLower(s) == s
  {
  }

  lemma TakeAllDigits(s: string, n: nat)
    requires AllDigits(s)
    ensures AllDigits(Take(s, n))
  {
  }

  lemma TakeLowerAlnum(s: string, n: nat)
    requires AllLowerAlnum(s)
    ensures AllLowerAlnum(Take(s, n))
  {
  }
}

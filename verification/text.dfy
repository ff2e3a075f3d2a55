/** The few string operations the repository's checks rest on. */
module Text {
  /** The Unicode White_Space property, which Rust's `trim` and Go's `TrimSpace` both use. */
  predicate IsWhitespace(c: char) {
    || '\U{9}' <= c <= '\U{D}'
    || c in {'\U{20}', '\U{85}', '\U{A0}', '\U{1680}', '\U{2028}', '\U{2029}', '\U{202F}', '\U{205F}', '\U{3000}'}
    || '\U{2000}' <= c <= '\U{200A}'
  }

  /** The 25 code points with the property. */
  lemma WhitespaceIs(c: char)
    ensures IsWhitespace(c) <==>
              c as int in [9, 10, 11, 12, 13, 32, 133, 160, 5760, 8192, 8193, 8194, 8195, 8196, 8197, 8198, 8199, 8200,
                           8201, 8202, 8232, 8233, 8239, 8287, 12288]
  {
  }

  function TrimStart(s: string): string {
    if s != "" && IsWhitespace(s[0]) then TrimStart(s[1..]) else s
  }

  function TrimEnd(s: string): string {
    if s != "" && IsWhitespace(s[|s| - 1]) then TrimEnd(s[..|s| - 1]) else s
  }

  function Trim(s: string): string {
    TrimEnd(TrimStart(s))
  }

  function FirstNonBlank(a: string, b: string): string {
    if Trim(a) == "" then Trim(b) else Trim(a)
  }

  /** Trimming drops whitespace and nothing else. */
  lemma {:induction false} TrimStartDropsWhitespace(s: string, c: char)
    requires c in s && !IsWhitespace(c)
    ensures c in TrimStart(s)
  {
    if s != "" && IsWhitespace(s[0]) {
      TrimStartDropsWhitespace(s[1..], c);
    }
  }

  lemma {:induction false} TrimEndDropsWhitespace(s: string, c: char)
    requires c in s && !IsWhitespace(c)
    ensures c in TrimEnd(s)
  {
    if s != "" && IsWhitespace(s[|s| - 1]) {
      TrimEndDropsWhitespace(s[..|s| - 1], c);
    }
  }

  lemma TrimDropsWhitespace(s: string, c: char)
    requires c in s && !IsWhitespace(c)
    ensures c in Trim(s)
  {
    TrimStartDropsWhitespace(s, c);
    TrimEndDropsWhitespace(TrimStart(s), c);
  }

  /** Text without whitespace is its own trimmed form. */
  lemma TrimKeeps(s: string)
    requires forall i :: 0 <= i < |s| ==> !IsWhitespace(s[i])
    ensures Trim(s) == s
  {
  }

  lemma {:induction false} TrimStartStops(s: string)
    ensures TrimStart(s) == "" || !IsWhitespace(TrimStart(s)[0])
  {
    if s != "" && IsWhitespace(s[0]) {
      TrimStartStops(s[1..]);
    }
  }

  lemma {:induction false} TrimEndStops(s: string)
    ensures TrimEnd(s) <= s
    ensures TrimEnd(s) == "" || !IsWhitespace(TrimEnd(s)[|TrimEnd(s)| - 1])
  {
    if s != "" && IsWhitespace(s[|s| - 1]) {
      TrimEndStops(s[..|s| - 1]);
    }
  }

  /** Trimming twice is trimming once. */
  lemma TrimTwice(s: string)
    ensures Trim(Trim(s)) == Trim(s)
  {
    TrimStartStops(s);
    TrimEndStops(TrimStart(s));
    assert TrimStart(Trim(s)) == Trim(s);
  }

  // ----- letters -----

  ghost predicate IsLetterOrDigit(c: char) {
    || c in "abcdefghijklm" || c in "nopqrstuvwxyz"
    || c in "ABCDEFGHIJKLM" || c in "NOPQRSTUVWXYZ"
    || c in "0123456789"
  }

  lemma LowerFirstHalf(c: char)
    ensures c in "abcdefghijklm" <==> 'a' <= c <= 'm'
  {
    if 'a' <= c <= 'm' {
      assert "abcdefghijklm"[c as int - 'a' as int] == c;
    }
  }

  lemma LowerSecondHalf(c: char)
    ensures c in "nopqrstuvwxyz" <==> 'n' <= c <= 'z'
  {
    if 'n' <= c <= 'z' {
      assert "nopqrstuvwxyz"[c as int - 'n' as int] == c;
    }
  }

  lemma UpperFirstHalf(c: char)
    ensures c in "ABCDEFGHIJKLM" <==> 'A' <= c <= 'M'
  {
    if 'A' <= c <= 'M' {
      assert "ABCDEFGHIJKLM"[c as int - 'A' as int] == c;
    }
  }

  lemma UpperSecondHalf(c: char)
    ensures c in "NOPQRSTUVWXYZ" <==> 'N' <= c <= 'Z'
  {
    if 'N' <= c <= 'Z' {
      assert "NOPQRSTUVWXYZ"[c as int - 'N' as int] == c;
    }
  }

  lemma Numerals(c: char)
    ensures c in "0123456789" <==> '0' <= c <= '9'
  {
    if '0' <= c <= '9' {
      assert "0123456789"[c as int - '0' as int] == c;
    }
  }

  lemma LettersAndDigits(c: char)
    ensures IsLetterOrDigit(c) <==> 'a' <= c <= 'z' || 'A' <= c <= 'Z' || '0' <= c <= '9'
  {
    LowerFirstHalf(c);
    LowerSecondHalf(c);
    UpperFirstHalf(c);
    UpperSecondHalf(c);
    Numerals(c);
  }

  /** Between 1 and `most` characters, each a letter, a digit or one of the marks. */
  ghost predicate IsPlain(s: string, most: nat, marks: string) {
    1 <= |s| <= most && forall i :: 0 <= i < |s| ==> IsLetterOrDigit(s[i]) || s[i] in marks
  }

  /** Text is blank exactly when all of it is whitespace. */
  lemma {:induction false} BlankExactlyWhen(s: string)
    ensures Trim(s) == "" <==> forall i :: 0 <= i < |s| ==> IsWhitespace(s[i])
  {
    if i :| 0 <= i < |s| && !IsWhitespace(s[i]) {
      TrimDropsWhitespace(s, s[i]);
    } else {
      TrimStartOfBlank(s);
    }
  }

  lemma {:induction false} TrimStartOfBlank(s: string)
    requires forall i :: 0 <= i < |s| ==> IsWhitespace(s[i])
    ensures TrimStart(s) == ""
  {
    if s != "" {
      TrimStartOfBlank(s[1..]);
    }
  }

  /** The order of strings in Go and in Rust's sorted maps. */
  predicate Precedes(a: string, b: string) {
    if b == "" then false
    else if a == "" then true
    else a[0] < b[0] || (a[0] == b[0] && Precedes(a[1..], b[1..]))
  }

  lemma {:induction false} PrecedesIsTotal(a: string, b: string)
    ensures Precedes(a, b) || Precedes(b, a) || a == b
    ensures !(Precedes(a, b) && Precedes(b, a))
    ensures !Precedes(a, a)
  {
    if a != "" {
      PrecedesIsTotal(a[1..], if b == "" then "" else b[1..]);
      assert b != "" ==> a == [a[0]] + a[1..] && b == [b[0]] + b[1..];
    }
  }

  lemma {:induction false} PrecedesIsTransitive(a: string, b: string, c: string)
    requires Precedes(a, b) && Precedes(b, c)
    ensures Precedes(a, c)
  {
    if a != "" && a[0] == b[0] == c[0] {
      PrecedesIsTransitive(a[1..], b[1..], c[1..]);
    }
  }

  /** Length in bytes of the UTF-8 form. */
  function Utf8Len(s: string): nat {
    if s == "" then 0 else
    (if s[0] < '\U{80}' then 1 else if s[0] < '\U{800}' then 2 else if s[0] < '\U{10000}' then 3 else 4)
    + Utf8Len(s[1..])
  }

  /** One to four bytes, which carry 7, 11, 16 and 21 bits of the code point. */
  lemma Utf8LenOfChar(c: char)
    ensures var v := c as int;
            Utf8Len([c]) == if v < 128 then 1 else if v < 2_048 then 2 else if v < 65_536 then 3 else 4
  {
  }

  lemma {:induction false} Utf8LenOfBoth(a: string, b: string)
    ensures Utf8Len(a + b) == Utf8Len(a) + Utf8Len(b)
  {
    if a == "" {
      assert a + b == b;
    } else {
      assert (a + b)[1..] == a[1..] + b;
      Utf8LenOfBoth(a[1..], b);
    }
  }

  lemma {:induction false} AsciiUtf8Len(s: string)
    requires forall i :: 0 <= i < |s| ==> s[i] < '\U{80}'
    ensures Utf8Len(s) == |s|
  {
    if s != "" {
      AsciiUtf8Len(s[1..]);
    }
  }

  function LowerChar(c: char): char {
    if 'A' <= c <= 'Z' then c + 'a' - 'A' else c
  }

  function ToAsciiLower(s: string): (r: string)
    ensures |r| == |s|
    ensures forall i :: 0 <= i < |s| ==> r[i] == LowerChar(s[i])
  {
    seq(|s|, i requires 0 <= i < |s| => LowerChar(s[i]))
  }

  /** Capitals become the small letters, and nothing else changes. */
  lemma LoweringIs(s: string)
    ensures ToAsciiLower("ABCDEFGHIJKLM") == "abcdefghijklm" && ToAsciiLower("NOPQRSTUVWXYZ") == "nopqrstuvwxyz"
    ensures forall i :: 0 <= i < |s| && ToAsciiLower(s)[i] != s[i] ==>
              s[i] in "ABCDEFGHIJKLM" || s[i] in "NOPQRSTUVWXYZ"
  {
    forall i | 0 <= i < |s| && ToAsciiLower(s)[i] != s[i]
      ensures s[i] in "ABCDEFGHIJKLM" || s[i] in "NOPQRSTUVWXYZ"
    {
      UpperFirstHalf(s[i]);
      UpperSecondHalf(s[i]);
    }
  }
}

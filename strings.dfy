/** The JavaScript string operations the modelled code relies on: `String(n)` of a
    non-negative integer, `padStart(2, '0')`, `join`, `split` on one character,
    `trim`, `repeat`, UTF-16 length, and the ASCII case folding used by regular
    expressions with the `i` flag and by SQLite's `LIKE`. */
module Strings {
  import opened Wrappers

  /** A string that may be `undefined` is truthy when it is there and not empty. */
  predicate Truthy(s: Option<string>) {
    s.Some? && s.value != ""
  }

  // ---------------------------------------------------------------- digits

  predicate IsDigit(c: char) {
    '0' <= c <= '9'
  }

  predicate AllDigits(s: string) {
    forall i :: 0 <= i < |s| ==> IsDigit(s[i])
  }

  function DigitChar(d: nat): (c: char)
    requires d < 10
    ensures IsDigit(c) && c as int - '0' as int == d
  {
    ('0' as int + d) as char
  }

  /** `String(n)` for a non-negative integer: its decimal digits, most significant first. */
  function NatStr(n: nat): (r: string)
    ensures 1 <= |r| && AllDigits(r)
    ensures n < 10 <==> |r| == 1
    decreases n
  {
    if n < 10 then [DigitChar(n)] else NatStr(n / 10) + [DigitChar(n % 10)]
  }

  /** The number a string of decimal digits denotes (leading zeros allowed). */
  function DigitsValue(s: string): nat
    requires AllDigits(s)
  {
    if s == [] then 0 else 10 * DigitsValue(s[..|s| - 1]) + (s[|s| - 1] as int - '0' as int)
  }

  lemma {:induction false} NatStrRoundTrip(n: nat)
    ensures DigitsValue(NatStr(n)) == n
    decreases n
  {
    if n >= 10 {
      var s := NatStr(n);
      assert s[..|s| - 1] == NatStr(n / 10);
      NatStrRoundTrip(n / 10);
    }
  }

  /** Different numbers print differently, so a printed number identifies it. */
  lemma NatStrInjective(a: nat, b: nat)
    requires NatStr(a) == NatStr(b)
    ensures a == b
  {
    NatStrRoundTrip(a);
    NatStrRoundTrip(b);
  }

  lemma {:induction false} LeadingZero(s: string)
    requires AllDigits(s)
    ensures AllDigits("0" + s) && DigitsValue("0" + s) == DigitsValue(s)
    decreases |s|
  {
    if s != [] {
      var t := "0" + s;
      assert t[..|t| - 1] == "0" + s[..|s| - 1];
      LeadingZero(s[..|s| - 1]);
    }
  }

  /** `s.padStart(2, '0')`. */
  function PadStart2(s: string): (r: string)
    ensures |s| >= 2 ==> r == s
    ensures |s| < 2 ==> |r| == 2 && r[2 - |s|..] == s && forall i :: 0 <= i < 2 - |s| ==> r[i] == '0'
    decreases 2 - |s|
  {
    if |s| >= 2 then s else PadStart2("0" + s)
  }

  /** `String(n).padStart(2, '0')`. */
  function PadTwo(n: nat): string {
    PadStart2(NatStr(n))
  }

  /** A two-digit field: exactly two digits that read back as `n`. */
  lemma PadTwoField(n: nat)
    requires n < 100
    ensures |PadTwo(n)| == 2 && AllDigits(PadTwo(n))
    ensures DigitsValue(PadTwo(n)) == n
  {
    var s := NatStr(n);
    NatStrRoundTrip(n);
    if n < 10 {
      assert PadTwo(n) == "0" + s;
      LeadingZero(s);
    }
  }

  lemma PadTwoInjective(a: nat, b: nat)
    requires a < 100 && b < 100 && PadTwo(a) == PadTwo(b)
    ensures a == b
  {
    PadTwoField(a);
    PadTwoField(b);
  }

  // ---------------------------------------------------------------- join / split

  /** `parts.join(sep)`. */
  function Join(parts: seq<string>, sep: string): string {
    if |parts| == 0 then ""
    else if |parts| == 1 then parts[0]
    else parts[0] + sep + Join(parts[1..], sep)
  }

  lemma JoinTwo(a: string, b: string, sep: string)
    ensures Join([a, b], sep) == a + sep + b
  {
    assert [a, b][1..] == [b];
  }

  lemma JoinThree(a: string, b: string, c: string, sep: string)
    ensures Join([a, b, c], sep) == a + sep + b + sep + c
  {
    assert [a, b, c][1..] == [b, c];
    JoinTwo(b, c, sep);
    assert a + sep + (b + sep + c) == a + sep + b + sep + c;
  }

  lemma JoinFour(a: string, b: string, c: string, d: string, sep: string)
    ensures Join([a, b, c, d], sep) == a + sep + b + sep + c + sep + d
  {
    assert [a, b, c, d][1..] == [b, c, d];
    JoinThree(b, c, d, sep);
    assert a + sep + (b + sep + c + sep + d) == a + sep + b + sep + c + sep + d;
  }

  lemma JoinFive(a: string, b: string, c: string, d: string, e: string, sep: string)
    ensures Join([a, b, c, d, e], sep) == a + sep + b + sep + c + sep + d + sep + e
  {
    assert [a, b, c, d, e][1..] == [b, c, d, e];
    JoinFour(b, c, d, e, sep);
    assert a + sep + (b + sep + c + sep + d + sep + e) == a + sep + b + sep + c + sep + d + sep + e;
  }

  /** `s.split(c)` for a one-character separator: the pieces between occurrences of `c`. */
  function Split(s: string, c: char): (r: seq<string>)
    ensures |r| >= 1
    decreases |s|
  {
    if s == [] then [""]
    else
      var rest := Split(s[1..], c);
      if s[0] == c then [""] + rest else [[s[0]] + rest[0]] + rest[1..]
  }

  lemma {:induction false} SplitNoSep(p: string, tail: string, c: char)
    requires c !in p
    ensures Split(p + tail, c) == [p + Split(tail, c)[0]] + Split(tail, c)[1..]
    decreases |p|
  {
    var t := Split(tail, c);
    if p == [] {
      assert p + tail == tail;
      assert p + t[0] == t[0];
      assert [t[0]] + t[1..] == t;
    } else {
      var s := p + tail;
      assert s[0] == p[0] && s[0] != c;
      assert s[1..] == p[1..] + tail;
      SplitNoSep(p[1..], tail, c);
      var rest := Split(s[1..], c);
      assert Split(s, c) == [[s[0]] + rest[0]] + rest[1..];
      assert rest[0] == p[1..] + t[0];
      assert [p[0]] + (p[1..] + t[0]) == p + t[0];
    }
  }

  /** Splitting a join on a separator that no part contains gives the parts back. */
  lemma {:induction false} SplitJoin(parts: seq<string>, c: char)
    requires |parts| >= 1
    requires forall i :: 0 <= i < |parts| ==> c !in parts[i]
    ensures Split(Join(parts, [c]), c) == parts
    decreases |parts|
  {
    if |parts| == 1 {
      SplitNoSep(parts[0], "", c);
      assert parts[0] + "" == parts[0];
    } else {
      var tail := [c] + Join(parts[1..], [c]);
      assert Join(parts, [c]) == parts[0] + tail;
      SplitNoSep(parts[0], tail, c);
      SplitJoin(parts[1..], c);
      assert tail[1..] == Join(parts[1..], [c]);
      assert Split(tail, c) == [""] + parts[1..];
      assert parts[0] + "" == parts[0];
    }
  }

  /** A piece without the separator splits to itself. */
  lemma SplitLine(p: string, c: char)
    requires c !in p
    ensures Split(p, c) == [p]
  {
    SplitNoSep(p, "", c);
    assert p + "" == p;
  }

  /** Splitting at one occurrence of the separator splits each side on its own. */
  lemma {:induction false} SplitAround(p: string, tail: string, c: char)
    ensures Split(p + [c] + tail, c) == Split(p, c) + Split(tail, c)
    decreases |p|
  {
    var s := p + [c] + tail;
    if p == [] {
      assert s == [c] + tail && s[1..] == tail;
    } else {
      assert s[0] == p[0] && s[1..] == p[1..] + [c] + tail;
      SplitAround(p[1..], tail, c);
      var head := Split(p[1..], c);
      var rest := Split(s[1..], c);
      assert rest == head + Split(tail, c);
      if p[0] != c {
        assert rest[0] == head[0] && rest[1..] == head[1..] + Split(tail, c);
      }
    }
  }

  /** A separator-free line, a newline, then the rest. */
  lemma LineThen(p: string, tail: string)
    requires '\n' !in p
    ensures Split(p + "\n" + tail, '\n') == [p] + Split(tail, '\n')
  {
    SplitAround(p, tail, '\n');
    SplitLine(p, '\n');
  }

  /** Joining one more part appends the separator and that part. */
  lemma {:induction false} JoinSnoc(parts: seq<string>, x: string, sep: string)
    requires |parts| >= 1
    ensures Join(parts + [x], sep) == Join(parts, sep) + sep + x
    decreases |parts|
  {
    if |parts| == 1 {
      assert parts + [x] == [parts[0], x];
      JoinTwo(parts[0], x, sep);
    } else {
      assert (parts + [x])[1..] == parts[1..] + [x];
      JoinSnoc(parts[1..], x, sep);
    }
  }

  lemma DigitsHaveNo(s: string, c: char)
    requires AllDigits(s) && !IsDigit(c)
    ensures c !in s
  {
  }

  /** `s.repeat(n)` for a one-character string. */
  function Repeat(c: char, n: nat): (r: string)
    ensures |r| == n && forall i :: 0 <= i < n ==> r[i] == c
  {
    if n == 0 then "" else [c] + Repeat(c, n - 1)
  }

  // ---------------------------------------------------------------- whitespace and trim

  /** The characters JavaScript's `trim()` removes and `\s` matches: WhiteSpace and LineTerminator. */
  predicate IsJsSpace(c: char) {
    c == '\t' || c == '\n' || c == '\U{000B}' || c == '\U{000C}' || c == '\r' || c == ' '
    || c == '\U{00A0}' || c == '\U{1680}' || ('\U{2000}' <= c <= '\U{200A}')
    || c == '\U{2028}' || c == '\U{2029}' || c == '\U{202F}' || c == '\U{205F}'
    || c == '\U{3000}' || c == '\U{FEFF}'
  }

  /** The first index at or after `i` that is not white space, or `|s|`. */
  function SkipSpace(s: string, i: nat): (r: nat)
    requires i <= |s|
    ensures i <= r <= |s|
    ensures forall k :: i <= k < r ==> IsJsSpace(s[k])
    ensures r < |s| ==> !IsJsSpace(s[r])
    decreases |s| - i
  {
    if i < |s| && IsJsSpace(s[i]) then SkipSpace(s, i + 1) else i
  }

  /** The least end `r` with `lo <= r <= j` such that `s[r..j]` is all white space. */
  function BackSpace(s: string, lo: nat, j: nat): (r: nat)
    requires lo <= j <= |s|
    ensures lo <= r <= j
    ensures forall k :: r <= k < j ==> IsJsSpace(s[k])
    ensures r > lo ==> !IsJsSpace(s[r - 1])
    decreases j
  {
    if j > lo && IsJsSpace(s[j - 1]) then BackSpace(s, lo, j - 1) else j
  }

  /** Where `s.trim()` starts and ends in `s`. */
  function TrimFrom(s: string): nat {
    SkipSpace(s, 0)
  }

  function TrimTo(s: string): nat {
    BackSpace(s, TrimFrom(s), |s|)
  }

  /** `s.trim()`. */
  function Trim(s: string): string {
    s[TrimFrom(s)..TrimTo(s)]
  }

  /** What trim keeps: a slice of the input that neither starts nor ends with white
      space, with only white space cut off on either side. */
  lemma TrimIsCore(s: string)
    ensures var r, i := Trim(s), TrimFrom(s);
      && i + |r| <= |s| && s[i..i + |r|] == r
      && (forall k :: 0 <= k < i ==> IsJsSpace(s[k]))
      && (forall k :: i + |r| <= k < |s| ==> IsJsSpace(s[k]))
      && (r == [] || (!IsJsSpace(r[0]) && !IsJsSpace(r[|r| - 1])))
  {
    var i, j := TrimFrom(s), TrimTo(s);
    if i < j {
      assert Trim(s)[0] == s[i];
      assert Trim(s)[j - i - 1] == s[j - 1];
    }
  }

  lemma TrimIdempotent(s: string)
    ensures Trim(Trim(s)) == Trim(s)
  {
    var r := Trim(s);
    TrimIsCore(s);
    if r != [] {
      assert SkipSpace(r, 0) == 0;
      assert BackSpace(r, 0, |r|) == |r|;
    }
  }

  /** A string that is empty after trimming holds only white space. */
  lemma TrimEmpty(s: string)
    ensures Trim(s) == "" <==> forall i :: 0 <= i < |s| ==> IsJsSpace(s[i])
  {
    TrimIsCore(s);
  }

  // ---------------------------------------------------------------- length and case

  /** JavaScript's `length`: UTF-16 code units, two for a character outside the BMP. */
  function Utf16Len(s: string): (n: nat)
    ensures n >= |s|
  {
    if s == [] then 0 else (if s[0] as int > 0xFFFF then 2 else 1) + Utf16Len(s[1..])
  }

  lemma {:induction false} Utf16LenBmp(s: string)
    requires forall i :: 0 <= i < |s| ==> s[i] as int <= 0xFFFF
    ensures Utf16Len(s) == |s|
  {
    if s != [] {
      Utf16LenBmp(s[1..]);
    }
  }

  /** ASCII-only lower-casing. It is SQLite's `LIKE` folding. A non-Unicode `i`
      regular expression folds more widely (`/é/i` matches `É`), but it never maps a
      non-ASCII character onto an ASCII one, so for the all-ASCII patterns this model
      applies it to, ASCII folding gives the same matches. */
  function AsciiLower(c: char): char {
    if 'A' <= c <= 'Z' then (c as int + 32) as char else c
  }

  function LowerAll(s: string): (r: string)
    ensures |r| == |s| && forall i :: 0 <= i < |s| ==> r[i] == AsciiLower(s[i])
  {
    if s == [] then "" else [AsciiLower(s[0])] + LowerAll(s[1..])
  }

  /** `sub` occurs in `s` at position `i`, ignoring ASCII case. */
  predicate MatchesAtFolded(s: string, i: nat, sub: string) {
    i + |sub| <= |s| && forall k :: 0 <= k < |sub| ==> AsciiLower(s[i + k]) == AsciiLower(sub[k])
  }

  /** `sub` occurs in `s` at position `i`. */
  predicate MatchesAt(s: string, i: nat, sub: string) {
    i + |sub| <= |s| && s[i..i + |sub|] == sub
  }
}

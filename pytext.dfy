/**
 * The pieces of Python's text handling that the modelled programs rely on:
 * `str.isspace`, `str.strip`, `str.split(sep)`, `str.split()`, `int(text)`,
 * `str.isdigit`, `str.upper`/`str.lower` on ASCII letters, `str(n)` for
 * integers, ISO-8859-1 decoding and UTF-8 encoding.
 */
module PyText {
  import opened Wrappers

  type byte = x: int | 0 <= x < 256

  // ---------------------------------------------------------------------
  // Whitespace and stripping

  /** Python 3 `str.isspace` for one character (the set `strip`, `split()` and `int()` skip). */
  predicate IsSpace(c: char) {
    || c == ' '
    || ('\t' <= c <= '\r')
    || ('\U{1c}' <= c <= '\U{1f}')
    || c == '\U{85}' || c == '\U{a0}' || c == '\U{1680}'
    || ('\U{2000}' <= c <= '\U{200a}')
    || c == '\U{2028}' || c == '\U{2029}' || c == '\U{202f}' || c == '\U{205f}' || c == '\U{3000}'
  }

  predicate AllSpace(s: string) {
    forall i :: 0 <= i < |s| ==> IsSpace(s[i])
  }

  /** `s.lstrip()`: drop the leading whitespace. */
  function LStrip(s: string): (r: string)
    ensures |r| <= |s|
    ensures r == [] || !IsSpace(r[0])
  {
    if s != [] && IsSpace(s[0]) then LStrip(s[1..]) else s
  }

  /** `s.rstrip()`: drop the trailing whitespace. */
  function RStrip(s: string): (r: string)
    ensures |r| <= |s|
    ensures r == [] || (!IsSpace(r[|r| - 1]) && r[0] == s[0])
  {
    if s != [] && IsSpace(s[|s| - 1]) then RStrip(s[..|s| - 1]) else s
  }

  /** `s.strip()`: a slice of `s` with whitespace only outside it. */
  function Strip(s: string): (r: string)
    ensures |r| <= |s|
    ensures r == [] || (!IsSpace(r[0]) && !IsSpace(r[|r| - 1]))
  {
    RStrip(LStrip(s))
  }

  /** `lstrip` keeps a suffix and removes only whitespace. */
  lemma {:induction false} LStripSuffix(s: string)
    ensures var r := LStrip(s); r == s[|s| - |r|..] && AllSpace(s[..|s| - |r|])
  {
    if s != [] && IsSpace(s[0]) {
      LStripSuffix(s[1..]);
      var r := LStrip(s);
      var t := s[1..];
      assert t[|t| - |r|..] == s[|s| - |r|..];
      assert forall k :: 0 <= k < |t| - |r| ==> t[k] == s[k + 1];
    }
  }

  /** `rstrip` keeps a prefix and removes only whitespace. */
  lemma {:induction false} RStripPrefix(s: string)
    ensures var r := RStrip(s); r == s[..|r|] && AllSpace(s[|r|..])
  {
    if s != [] && IsSpace(s[|s| - 1]) {
      RStripPrefix(s[..|s| - 1]);
      var r := RStrip(s);
      assert s[..|s| - 1][..|r|] == s[..|r|];
      assert forall k :: |r| <= k < |s| - 1 ==> s[..|s| - 1][k] == s[k];
    }
  }

  /** What `strip` removes is whitespace, from both ends only. */
  lemma StripIsSlice(s: string)
    ensures var r := Strip(s);
      exists i :: 0 <= i <= |s| - |r| && r == s[i..i + |r|] && AllSpace(s[..i]) && AllSpace(s[i + |r|..])
  {
    var l := LStrip(s);
    var r := RStrip(l);
    LStripSuffix(s);
    RStripPrefix(l);
    var i := |s| - |l|;
    SliceOfSuffix(s, i, |r|);
    assert AllSpace(s[i + |r|..]);
  }

  /** A prefix of a suffix is a middle slice, and what follows it is the rest of the suffix. */
  lemma SliceOfSuffix(s: string, i: nat, n: nat)
    requires i + n <= |s|
    ensures s[i..][..n] == s[i..i + n]
    ensures s[i..][n..] == s[i + n..]
  {
  }

  lemma {:induction false} LStripOfNonSpace(s: string)
    requires s == [] || !IsSpace(s[0])
    ensures LStrip(s) == s
  {
  }

  /** Stripping twice strips nothing more. */
  lemma StripIdempotent(s: string)
    ensures Strip(Strip(s)) == Strip(s)
  {
    var r := Strip(s);
    LStripOfNonSpace(r);
    if r != [] {
      assert !IsSpace(r[|r| - 1]);
    }
  }

  // ---------------------------------------------------------------------
  // `str.split(sep)` and its inverse `sep.join(parts)`

  /** The position of the first `c` in `s`. */
  function IndexOf(s: string, c: char): (i: nat)
    requires c in s
    ensures i < |s| && s[i] == c && c !in s[..i]
    ensures forall k :: 0 <= k < i ==> s[k] != c
  {
    if s[0] == c then 0 else 1 + IndexOf(s[1..], c)
  }

  /** `sep.join(parts)`. */
  function Join(parts: seq<string>, sep: char): string
  {
    if parts == [] then []
    else if |parts| == 1 then parts[0]
    else parts[0] + [sep] + Join(parts[1..], sep)
  }

  /** `s.split(sep)` for a one-character separator: never empty, no piece holds `sep`. */
  function Split(s: string, sep: char): (r: seq<string>)
    ensures |r| >= 1
    ensures forall i :: 0 <= i < |r| ==> sep !in r[i]
    ensures Join(r, sep) == s
    decreases |s|
  {
    if sep !in s then [s]
    else
      var i := IndexOf(s, sep);
      var rest := Split(s[i + 1..], sep);
      assert s == s[..i] + [sep] + s[i + 1..];
      [s[..i]] + rest
  }

  /** The first separator of `a + [sep] + b` is the one after `a` when `a` holds none. */
  lemma {:induction false} IndexOfAfter(a: string, sep: char, b: string)
    requires sep !in a
    ensures IndexOf(a + [sep] + b, sep) == |a|
  {
    if a != [] {
      assert (a + [sep] + b)[1..] == a[1..] + [sep] + b;
      IndexOfAfter(a[1..], sep, b);
    }
  }

  /** Splitting at the first separator: the piece before it, then the split of the rest. */
  lemma SplitFirst(a: string, sep: char, b: string)
    requires sep !in a
    ensures Split(a + [sep] + b, sep) == [a] + Split(b, sep)
  {
    var s := a + [sep] + b;
    assert s[|a|] == sep;
    IndexOfAfter(a, sep, b);
    assert s[..|a|] == a;
    assert s[|a| + 1..] == b;
  }

  /** Splitting a join of separator-free pieces gives the pieces back. */
  lemma {:induction false} SplitJoin(parts: seq<string>, sep: char)
    requires |parts| >= 1
    requires forall i :: 0 <= i < |parts| ==> sep !in parts[i]
    ensures Split(Join(parts, sep), sep) == parts
  {
    if |parts| > 1 {
      assert sep !in parts[0];
      SplitFirst(parts[0], sep, Join(parts[1..], sep));
      SplitJoin(parts[1..], sep);
    }
  }

  // ---------------------------------------------------------------------
  // `str.split()` with no argument: runs of whitespace separate words

  /** The length of the word at the start of `s`. */
  function WordLength(s: string): (n: nat)
    ensures n <= |s|
    ensures forall i :: 0 <= i < n ==> !IsSpace(s[i])
    ensures n == |s| || IsSpace(s[n])
  {
    if s == [] || IsSpace(s[0]) then 0 else 1 + WordLength(s[1..])
  }

  predicate IsWord(w: string) {
    w != [] && forall i :: 0 <= i < |w| ==> !IsSpace(w[i])
  }

  /** `s.split()`: the non-empty whitespace-free words of `s`, in order. */
  function Words(s: string): (r: seq<string>)
    ensures forall i :: 0 <= i < |r| ==> IsWord(r[i])
    ensures AllSpace(s) ==> r == []
    decreases |s|
  {
    if s == [] then []
    else if IsSpace(s[0]) then Words(s[1..])
    else
      var n := WordLength(s);
      [s[..n]] + Words(s[n..])
  }

  /** Words joined by single spaces. */
  function Unwords(ws: seq<string>): string
  {
    if ws == [] then [] else if |ws| == 1 then ws[0] else ws[0] + " " + Unwords(ws[1..])
  }

  lemma {:induction false} WordLengthOfWord(w: string, rest: string)
    requires IsWord(w)
    requires rest == [] || IsSpace(rest[0])
    ensures WordLength(w + rest) == |w|
  {
    if |w| > 1 {
      assert (w + rest)[1..] == w[1..] + rest;
      WordLengthOfWord(w[1..], rest);
    } else {
      assert (w + rest)[1..] == rest;
    }
  }

  /** Splitting words joined by spaces gives the words back. */
  lemma {:induction false} WordsUnwords(ws: seq<string>)
    requires forall i :: 0 <= i < |ws| ==> IsWord(ws[i])
    ensures Words(Unwords(ws)) == ws
  {
    if ws == [] {
    } else if |ws| == 1 {
      WordLengthOfWord(ws[0], []);
      assert ws[0][..|ws[0]|] == ws[0];
      assert ws[0][|ws[0]|..] == [];
    } else {
      var s := Unwords(ws);
      var rest := " " + Unwords(ws[1..]);
      assert s == ws[0] + rest;
      WordLengthOfWord(ws[0], rest);
      assert s[..|ws[0]|] == ws[0];
      assert s[|ws[0]|..] == rest;
      assert Words(rest) == Words(Unwords(ws[1..])) by { assert rest[1..] == Unwords(ws[1..]); }
      WordsUnwords(ws[1..]);
    }
  }

  // ---------------------------------------------------------------------
  // Digits, `str.isdigit`, `int(text)` and `str(n)`

  predicate IsDigit(c: char) { '0' <= c <= '9' }

  function DigitValue(c: char): (d: nat)
    requires IsDigit(c)
    ensures d < 10
  {
    (c as int) - ('0' as int)
  }

  function DigitChar(d: nat): (c: char)
    requires d < 10
    ensures IsDigit(c) && DigitValue(c) == d
  {
    (('0' as int) + d) as char
  }

  /** `s.isdigit()` on ASCII text: non-empty and all decimal digits. */
  predicate IsDigitText(s: string) {
    s != [] && forall i :: 0 <= i < |s| ==> IsDigit(s[i])
  }

  predicate AllDigits(s: string) {
    forall i :: 0 <= i < |s| ==> IsDigit(s[i])
  }

  /** The decimal value of a string of digits. */
  function DigitsValue(s: string): nat
    requires AllDigits(s)
  {
    if s == [] then 0 else DigitsValue(s[..|s| - 1]) * 10 + DigitValue(s[|s| - 1])
  }

  /** Digits with single underscores between them, as Python 3.6+ literals allow ("1_000"). */
  predicate IsUnderscoredDigits(t: string) {
    && t != []
    && IsDigit(t[0])
    && IsDigit(t[|t| - 1])
    && DigitsOrUnderscores(t)
    && forall i :: 0 <= i < |t| - 1 ==> t[i] != '_' || t[i + 1] != '_'
  }

  predicate DigitsOrUnderscores(t: string) {
    forall i :: 0 <= i < |t| ==> IsDigit(t[i]) || t[i] == '_'
  }

  function RemoveUnderscores(t: string): (r: string)
    ensures DigitsOrUnderscores(t) ==> AllDigits(r)
    ensures AllDigits(t) ==> r == t
  {
    if t == [] then []
    else if t[0] == '_' then RemoveUnderscores(t[1..])
    else [t[0]] + RemoveUnderscores(t[1..])
  }

  /** The value of a body of digits and underscores. */
  function UnderscoredValue(t: string): nat
    requires IsUnderscoredDigits(t)
  {
    DigitsValue(RemoveUnderscores(t))
  }

  /**
   * Python's `int(text)` in base 10: optional surrounding whitespace, an
   * optional sign, then digits with single underscores between them.
   * `None` stands for the `ValueError` Python raises.
   */
  function ParseInt(text: string): Option<int>
  {
    ParseStripped(IntStrip(text))
  }

  /**
   * The whitespace `int(text)` skips around the number: the ASCII space and
   * `\t` to `\r`, and every non-ASCII character `str.isspace` accepts (which
   * `int` first turns into a space). The ASCII separators U+001C to U+001F,
   * which `str.isspace` and `strip` accept, are not skipped.
   */
  predicate IsIntSpace(c: char) {
    IsSpace(c) && !('\U{1c}' <= c <= '\U{1f}')
  }

  /** Drop the leading whitespace `int` skips. */
  function IntLStrip(s: string): (r: string)
    ensures |r| <= |s|
    ensures r == [] || !IsIntSpace(r[0])
  {
    if s != [] && IsIntSpace(s[0]) then IntLStrip(s[1..]) else s
  }

  /** Drop the trailing whitespace `int` skips. */
  function IntRStrip(s: string): (r: string)
    ensures |r| <= |s|
    ensures r == [] || (!IsIntSpace(r[|r| - 1]) && r[0] == s[0])
  {
    if s != [] && IsIntSpace(s[|s| - 1]) then IntRStrip(s[..|s| - 1]) else s
  }

  /** The text `int` reads once its surrounding whitespace is gone. */
  function IntStrip(s: string): (r: string)
    ensures |r| <= |s|
    ensures r == [] || (!IsIntSpace(r[0]) && !IsIntSpace(r[|r| - 1]))
  {
    IntRStrip(IntLStrip(s))
  }

  /** The sign-and-digits part of `int(text)`, after the whitespace is gone. */
  function ParseStripped(t: string): Option<int>
  {
    if t == [] then None
    else if t[0] == '-' || t[0] == '+' then
      var body := t[1..];
      if IsUnderscoredDigits(body) then
        var v: int := UnderscoredValue(body);
        Some(if t[0] == '-' then -v else v)
      else None
    else if IsUnderscoredDigits(t) then Some(UnderscoredValue(t))
    else None
  }

  /** `str(n)` for a natural number. */
  function NatToText(n: nat): (s: string)
    ensures IsDigitText(s)
    ensures n < 10 <==> |s| == 1
  {
    if n < 10 then [DigitChar(n)] else NatToText(n / 10) + [DigitChar(n % 10)]
  }

  /** `str(n)` for any integer. */
  function IntToText(n: int): string
  {
    if n < 0 then "-" + NatToText(-n) else NatToText(n)
  }

  lemma {:induction false} NatToTextValue(n: nat)
    ensures DigitsValue(NatToText(n)) == n
  {
    if n >= 10 {
      var s := NatToText(n);
      var p := NatToText(n / 10);
      assert s == p + [DigitChar(n % 10)];
      assert s[..|s| - 1] == p;
      NatToTextValue(n / 10);
    }
  }

  lemma StripUnpadded(s: string)
    requires s != [] && !IsSpace(s[0]) && !IsSpace(s[|s| - 1])
    ensures Strip(s) == s
  {
    LStripOfNonSpace(s);
  }

  lemma ParseUnpadded(s: string)
    requires s != [] && !IsSpace(s[0]) && !IsSpace(s[|s| - 1])
    ensures ParseInt(s) == ParseStripped(s)
  {
    assert IntLStrip(s) == s;
  }

  /** Digits without underscores are a valid literal body with their decimal value. */
  lemma DigitTextUnderscored(digits: string)
    requires IsDigitText(digits)
    ensures IsUnderscoredDigits(digits) && UnderscoredValue(digits) == DigitsValue(digits)
  {
    assert DigitsOrUnderscores(digits);
    assert forall i :: 0 <= i < |digits| - 1 ==> digits[i] != '_';
  }

  /** A plain string of digits reads as its decimal value. */
  lemma StrippedDigits(digits: string)
    requires IsDigitText(digits)
    ensures ParseStripped(digits) == Some(DigitsValue(digits))
  {
    DigitTextUnderscored(digits);
  }

  /** A minus sign and digits read as the negated value. */
  lemma StrippedNegatedDigits(digits: string, v: nat)
    requires IsDigitText(digits) && DigitsValue(digits) == v
    ensures ParseStripped("-" + digits) == Some(-(v as int))
  {
    var s := "-" + digits;
    assert s[1..] == digits;
    DigitTextUnderscored(digits);
    StrippedMinus(s);
  }

  lemma StrippedMinus(t: string)
    requires t != [] && t[0] == '-' && IsUnderscoredDigits(t[1..])
    ensures ParseStripped(t) == Some(-(UnderscoredValue(t[1..]) as int))
  {
  }

  /** `str(n)` is never empty and carries no whitespace at either end. */
  lemma IntToTextUnpadded(n: int)
    ensures var s := IntToText(n); s != [] && !IsSpace(s[0]) && !IsSpace(s[|s| - 1])
  {
    var s := IntToText(n);
    if n < 0 {
      var digits := NatToText(-n);
      assert s[|s| - 1] == digits[|digits| - 1];
    }
  }

  /** Without its whitespace step, the parser already inverts `str(n)`. */
  lemma StrippedIntToText(n: int)
    ensures ParseStripped(IntToText(n)) == Some(n)
  {
    if n < 0 {
      StrippedNegatedNat(-n);
    } else {
      NatToTextValue(n);
      StrippedDigits(NatToText(n));
    }
  }

  lemma StrippedNegatedNat(m: nat)
    ensures ParseStripped("-" + NatToText(m)) == Some(-(m as int))
  {
    NatToTextValue(m);
    StrippedNegatedDigits(NatToText(m), m);
  }

  /** `int(str(n)) == n`: the integer parser inverts the integer formatter. */
  lemma IntToTextRoundTrip(n: int)
    ensures ParseInt(IntToText(n)) == Some(n)
  {
    StrippedIntToText(n);
    IntToTextUnpadded(n);
    ParseUnpadded(IntToText(n));
  }

  // ---------------------------------------------------------------------
  // Letter case (ASCII letters only)

  function UpperChar(c: char): char {
    if 'a' <= c <= 'z' then ((c as int) - 32) as char else c
  }

  function LowerChar(c: char): char {
    if 'A' <= c <= 'Z' then ((c as int) + 32) as char else c
  }

  /** `s.upper()` restricted to ASCII letters. */
  function Upper(s: string): (r: string)
    ensures |r| == |s| && forall i :: 0 <= i < |s| ==> r[i] == UpperChar(s[i])
  {
    seq(|s|, i requires 0 <= i < |s| => UpperChar(s[i]))
  }

  /** `s.lower()` restricted to ASCII letters. */
  function Lower(s: string): (r: string)
    ensures |r| == |s| && forall i :: 0 <= i < |s| ==> r[i] == LowerChar(s[i])
  {
    seq(|s|, i requires 0 <= i < |s| => LowerChar(s[i]))
  }

  // ---------------------------------------------------------------------
  // Bytes and text

  /** `str(data, "iso-8859-1")`: every byte is the character with that code. */
  function Latin1Decode(data: seq<byte>): (s: string)
    ensures |s| == |data| && forall i :: 0 <= i < |data| ==> s[i] as int == data[i]
  {
    if data == [] then [] else [data[0] as char] + Latin1Decode(data[1..])
  }

  /** The inverse of `Latin1Decode` on characters below 256. */
  function Latin1Encode(s: string): (data: seq<byte>)
    requires forall i :: 0 <= i < |s| ==> s[i] as int < 256
    ensures |data| == |s| && forall i :: 0 <= i < |s| ==> data[i] == s[i] as int
  {
    if s == [] then [] else [s[0] as int as byte] + Latin1Encode(s[1..])
  }

  lemma Latin1RoundTrip(s: string)
    requires forall i :: 0 <= i < |s| ==> s[i] as int < 256
    ensures Latin1Decode(Latin1Encode(s)) == s
  {
  }

  function Utf8Char(c: char): (bs: seq<byte>)
    ensures 1 <= |bs| <= 4
    ensures (c as int < 128) <==> bs == [c as int]
  {
    var cp := c as int;
    if cp < 0x80 then [cp]
    else if cp < 0x800 then [0xC0 + cp / 64, 0x80 + cp % 64]
    else if cp < 0x10000 then [0xE0 + cp / 4096, 0x80 + (cp / 64) % 64, 0x80 + cp % 64]
    else [0xF0 + cp / 262144, 0x80 + (cp / 4096) % 64, 0x80 + (cp / 64) % 64, 0x80 + cp % 64]
  }

  /** `s.encode("utf-8")`. */
  function Utf8(s: string): (bs: seq<byte>)
    ensures |bs| >= |s|
  {
    if s == [] then [] else Utf8Char(s[0]) + Utf8(s[1..])
  }

  /** ASCII text encodes to one byte per character, each its code. */
  lemma {:induction false} Utf8Ascii(s: string)
    requires forall i :: 0 <= i < |s| ==> s[i] as int < 128
    ensures |Utf8(s)| == |s| && forall i :: 0 <= i < |s| ==> Utf8(s)[i] == s[i] as int
  {
    if s != [] {
      assert forall i :: 0 <= i < |s[1..]| ==> s[1..][i] == s[i + 1];
      Utf8Ascii(s[1..]);
    }
  }

  lemma {:induction false} Utf8Append(a: string, b: string)
    ensures Utf8(a + b) == Utf8(a) + Utf8(b)
  {
    if a != [] {
      var ab := a + b;
      assert ab[0] == a[0] && ab[1..] == a[1..] + b;
      Utf8Append(a[1..], b);
      assert Utf8(ab) == Utf8Char(a[0]) + Utf8(a[1..] + b);
    } else {
      assert a + b == b;
    }
  }

  /** Only U+0000 is encoded with a zero byte. */
  lemma Utf8CharNonZero(c: char)
    requires c != '\0'
    ensures 0 !in Utf8Char(c)
  {
  }

  /**
   * The first character of strict UTF-8 and the number of bytes it takes:
   * no overlong forms, no surrogates, nothing above U+10FFFF.
   */
  function Utf8First(bs: seq<byte>): (r: Option<(char, nat)>)
    requires bs != []
    ensures r.Some? ==> 1 <= r.value.1 <= |bs|
  {
    var b0: int := bs[0];
    var b1: int := if |bs| > 1 then bs[1] else 0;
    var b2: int := if |bs| > 2 then bs[2] else 0;
    var b3: int := if |bs| > 3 then bs[3] else 0;
    if b0 < 0x80 then Some((b0 as char, 1))
    else if 0xC2 <= b0 < 0xE0 then
      if |bs| >= 2 && 0x80 <= b1 < 0xC0 then
        Some((((b0 - 0xC0) * 64 + (b1 - 0x80)) as char, 2))
      else None
    else if 0xE0 <= b0 < 0xF0 then
      var lo := if b0 == 0xE0 then 0xA0 else 0x80;
      var hi := if b0 == 0xED then 0xA0 else 0xC0;
      if |bs| >= 3 && lo <= b1 < hi && 0x80 <= b2 < 0xC0 then
        Some((((b0 - 0xE0) * 4096 + (b1 - 0x80) * 64 + (b2 - 0x80)) as char, 3))
      else None
    else if 0xF0 <= b0 < 0xF5 then
      var lo := if b0 == 0xF0 then 0x90 else 0x80;
      var hi := if b0 == 0xF4 then 0x90 else 0xC0;
      if |bs| >= 4 && lo <= b1 < hi && 0x80 <= b2 < 0xC0 && 0x80 <= b3 < 0xC0 then
        Some((((b0 - 0xF0) * 262144 + (b1 - 0x80) * 4096 + (b2 - 0x80) * 64 + (b3 - 0x80)) as char, 4))
      else None
    else None
  }

  /** `data.decode("utf-8")` in strict mode; `None` for the `UnicodeDecodeError`. */
  function Utf8Decode(bs: seq<byte>): Option<string>
    decreases |bs|
  {
    if bs == [] then Some([])
    else
      match Utf8First(bs)
      case None => None
      case Some((c, n)) =>
        match Utf8Decode(bs[n..])
        case None => None
        case Some(rest) => Some([c] + rest)
  }

  /** The decoder reads back the bytes the encoder writes for one character. */
  lemma Utf8FirstOfChar(c: char, rest: seq<byte>)
    ensures Utf8First(Utf8Char(c) + rest) == Some((c, |Utf8Char(c)|))
  {
    var cp := c as int;
    if cp < 0x80 {
    } else if cp < 0x800 {
      Utf8FirstOfTwo(c, rest);
    } else if cp < 0x10000 {
      Utf8FirstOfThree(c, rest);
    } else {
      Utf8FirstOfFour(c, rest);
    }
  }

  lemma Utf8FirstOfTwo(c: char, rest: seq<byte>)
    requires 0x80 <= c as int < 0x800
    ensures Utf8First(Utf8Char(c) + rest) == Some((c, 2))
  {
    var cp := c as int;
    var bs := Utf8Char(c) + rest;
    assert bs[0] == 0xC0 + cp / 64 && bs[1] == 0x80 + cp % 64;
  }

  lemma Utf8FirstOfThree(c: char, rest: seq<byte>)
    requires 0x800 <= c as int < 0x10000
    ensures Utf8First(Utf8Char(c) + rest) == Some((c, 3))
  {
    var cp := c as int;
    var q := cp / 64;
    var p := cp / 4096;
    assert p == q / 64;
    var bs := Utf8Char(c) + rest;
    assert bs[0] == 0xE0 + p && bs[1] == 0x80 + q % 64 && bs[2] == 0x80 + cp % 64;
    assert p * 4096 + (q % 64) * 64 + cp % 64 == cp;
    assert p == 0 ==> q % 64 >= 0x20;
    assert p == 0xD ==> q % 64 < 0x20;
  }

  lemma Utf8FirstOfFour(c: char, rest: seq<byte>)
    requires 0x10000 <= c as int
    ensures Utf8First(Utf8Char(c) + rest) == Some((c, 4))
  {
    var cp := c as int;
    var q := cp / 64;
    var p := cp / 4096;
    var t := cp / 262144;
    assert p == q / 64 && t == p / 64;
    var bs := Utf8Char(c) + rest;
    assert bs[0] == 0xF0 + t && bs[1] == 0x80 + p % 64 && bs[2] == 0x80 + q % 64 && bs[3] == 0x80 + cp % 64;
    assert t * 262144 + (p % 64) * 4096 + (q % 64) * 64 + cp % 64 == cp;
    assert t == 0 ==> p % 64 >= 0x10;
    assert t == 4 ==> p % 64 < 0x10;
  }

  /** Strict UTF-8 decoding inverts the encoder. */
  lemma {:induction false} Utf8RoundTrip(s: string)
    ensures Utf8Decode(Utf8(s)) == Some(s)
  {
    if s != [] {
      var bs := Utf8(s);
      var n := |Utf8Char(s[0])|;
      Utf8FirstOfChar(s[0], Utf8(s[1..]));
      assert bs[n..] == Utf8(s[1..]);
      Utf8RoundTrip(s[1..]);
      assert [s[0]] + s[1..] == s;
    }
  }
}

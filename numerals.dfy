/** Decimal numerals: how a number is written out (C#'s `ToString()` of an
    integral value) and how text is read back as a 32-bit integer (C#'s
    `int.TryParse` with its default number style: white space around the
    number, an optional leading sign, ASCII decimal digits, and the range of
    `int`). */
module Numerals {
  import opened Wrappers

  const MinInt32: int := -0x8000_0000
  const MaxInt32: int := 0x7FFF_FFFF

  predicate IsDigit(c: char) {
    '0' <= c <= '9'
  }

  /** The white space `int.TryParse` allows around a number: the space and
      the control characters tab, line feed, vertical tab, form feed and
      carriage return. */
  predicate IsWhite(c: char) {
    c == ' ' || '\t' <= c <= '\r'
  }

  predicate AllDigits(s: string) {
    forall i | 0 <= i < |s| :: IsDigit(s[i])
  }

  function DigitChar(d: nat): (c: char)
    requires d < 10
    ensures IsDigit(c)
  {
    ('0' as int + d) as char
  }

  /** The decimal digits of `n`, most significant first, without leading
      zeros. */
  function Digits(n: nat): (s: string)
    ensures |s| > 0 && AllDigits(s)
    ensures s[0] == '0' ==> n == 0
  {
    if n < 10 then [DigitChar(n)] else Digits(n / 10) + [DigitChar(n % 10)]
  }

  /** The number a string of digits denotes. */
  function NatOf(s: string): nat
    requires AllDigits(s)
  {
    if s == [] then 0 else NatOf(s[..|s| - 1]) * 10 + (s[|s| - 1] as int - '0' as int)
  }

  /** An integer written in decimal, with a minus sign when negative. */
  function ShowInt(n: int): string {
    if n < 0 then "-" + Digits(-n) else Digits(n)
  }

  /** The string without its leading white space. */
  function TrimStart(s: string): (r: string)
    ensures r == [] || !IsWhite(r[0])
    ensures |r| <= |s| && r == s[|s| - |r|..]
  {
    if s != [] && IsWhite(s[0]) then TrimStart(s[1..]) else s
  }

  /** The string without its trailing white space. */
  function TrimEnd(s: string): (r: string)
    ensures r == [] || !IsWhite(r[|r| - 1])
    ensures |r| <= |s| && r == s[..|r|]
  {
    if s != [] && IsWhite(s[|s| - 1]) then TrimEnd(s[..|s| - 1]) else s
  }

  /** A non-empty run of digits, read as a number. */
  function Unsigned(s: string): Option<nat> {
    if s != [] && AllDigits(s) then Some(NatOf(s)) else None
  }

  /** Digits with an optional leading `-` or `+`. */
  function Signed(s: string): Option<int> {
    if s != [] && s[0] == '-' then
      match Unsigned(s[1..])
      case Some(v) => Some(-(v as int))
      case None => None
    else if s != [] && s[0] == '+' then
      match Unsigned(s[1..])
      case Some(v) => Some(v)
      case None => None
    else
      match Unsigned(s)
      case Some(v) => Some(v)
      case None => None
  }

  /** `int.TryParse(s, out n)`: `Some(n)` when it returns true. */
  function ParseInt32(s: string): (r: Option<int>)
    ensures r.Some? ==> MinInt32 <= r.value <= MaxInt32
  {
    match Signed(TrimEnd(TrimStart(s)))
    case Some(v) => if MinInt32 <= v <= MaxInt32 then Some(v) else None
    case None => None
  }

  /** Reading back the digits of a number gives the number. */
  lemma {:induction false} NatOfDigits(n: nat)
    ensures NatOf(Digits(n)) == n
  {
    if n >= 10 {
      NatOfDigits(n / 10);
      var s := Digits(n);
      assert s[..|s| - 1] == Digits(n / 10);
    }
  }

  /** Every 32-bit integer written out by `ShowInt` is read back by
      `ParseInt32` as itself. */
  lemma ParseShow(n: int)
    requires MinInt32 <= n <= MaxInt32
    ensures ParseInt32(ShowInt(n)) == Some(n)
  {
    var s := ShowInt(n);
    assert TrimStart(s) == s;
    assert TrimEnd(s) == s;
    SignedShow(n);
  }

  /** The sign and digits of a number read back as the number. */
  lemma SignedShow(n: int)
    ensures Signed(ShowInt(n)) == Some(n)
  {
    if n < 0 {
      NatOfDigits(-n);
      assert ShowInt(n)[1..] == Digits(-n);
    } else {
      NatOfDigits(n);
    }
  }

  /** White space in front of a number does not change how it is read. */
  lemma ParseSkipsLeadingWhite(c: char, s: string)
    requires IsWhite(c)
    ensures ParseInt32([c] + s) == ParseInt32(s)
  {
    assert ([c] + s)[1..] == s;
  }

  /** White space after a number does not change how it is read. */
  lemma ParseSkipsTrailingWhite(s: string, c: char)
    requires IsWhite(c)
    ensures ParseInt32(s + [c]) == ParseInt32(s)
  {
    var t := TrimStart(s + [c]);
    if TrimStart(s) == [] {
      TrimStartAllWhite(s + [c], s);
    } else {
      TrimStartKeepsTail(s, c);
      assert TrimStart(s + [c]) == TrimStart(s) + [c];
      assert (TrimStart(s) + [c])[..|TrimStart(s) + [c]| - 1] == TrimStart(s);
    }
  }

  /** A string of white space trims to nothing. */
  lemma {:induction false} TrimStartAllWhite(s: string, prefix: string)
    requires TrimStart(prefix) == [] && |s| == |prefix| + 1 && s[..|prefix|] == prefix && IsWhite(s[|prefix|])
    ensures TrimStart(s) == []
  {
    if prefix != [] {
      assert IsWhite(prefix[0]) && s[0] == prefix[0];
      assert s[1..][..|prefix[1..]|] == prefix[1..];
      TrimStartAllWhite(s[1..], prefix[1..]);
    } else {
      assert s == [s[0]];
    }
  }

  /** Trimming the front of `s + [c]` leaves the trimmed front of `s`
      followed by `c`, when `s` holds something besides white space. */
  lemma {:induction false} TrimStartKeepsTail(s: string, c: char)
    requires TrimStart(s) != []
    ensures TrimStart(s + [c]) == TrimStart(s) + [c]
  {
    if IsWhite(s[0]) {
      assert (s + [c])[1..] == s[1..] + [c];
      TrimStartKeepsTail(s[1..], c);
    }
  }
}

/** Numbers as text: what fmt prints and what strconv.ParseInt reads back. */
module Numbers {
  import opened Wrappers
  import opened ByteStrings

  /** One past the largest 64-bit signed integer. */
  const INT64_LIMIT := 0x8000_0000_0000_0000

  datatype Radix = Decimal | Hex {
    function Base(): nat { if Decimal? then 10 else 16 }

    function Shift(n: int): int { if Decimal? then n * 10 else n * 16 }

    function Quotient(n: nat): nat { if Decimal? then n / 10 else n / 16 }

    function Rest(n: nat): (r: nat)
      ensures r < Base() && n == Shift(Quotient(n)) + r
    {
      if Decimal? then n % 10 else n % 16
    }
  }

  function Digit(c: Byte): Option<nat> {
    if '0' <= c <= '9' then Some(c as int - '0' as int)
    else if 'a' <= c <= 'f' then Some(c as int - 'a' as int + 10)
    else if 'A' <= c <= 'F' then Some(c as int - 'A' as int + 10)
    else None
  }

  /** The lower-case digit with a value. */
  function DigitChar(n: nat): (c: Byte)
    requires n < 16
    ensures Digit(c) == Some(n) && c != '-' && c != '+'
  {
    if n < 10 then ('0' as int + n) as char else ('a' as int + n - 10) as char
  }

  /** The value of a non-empty run of digits. */
  function ParseDigits(s: Bytes, radix: Radix): Option<nat> {
    if s == [] then None
    else
      var n := |s| - 1;
      var d := Digit(s[n]);
      if d.None? || d.value >= radix.Base() then None
      else if n == 0 then d
      else
        var before := ParseDigits(s[..n], radix);
        if before.None? then None else Some(radix.Shift(before.value) + d.value)
  }

  /** strconv.ParseInt(s, radix, 64): an optional sign, digits, and a value that fits. */
  function ParseInt(s: Bytes, radix: Radix): Option<int> {
    if s != [] && (s[0] == '-' || s[0] == '+') then
      var v := ParseDigits(s[1..], radix);
      if v.None? then None
      else if s[0] == '-' then (if v.value <= INT64_LIMIT then Some(0 - v.value) else None)
      else (if v.value < INT64_LIMIT then Some(v.value) else None)
    else
      var v := ParseDigits(s, radix);
      if v.None? || v.value >= INT64_LIMIT then None else Some(v.value)
  }

  function Format(n: nat, radix: Radix): (s: Bytes)
    ensures s != [] && forall i :: 0 <= i < |s| ==> Digit(s[i]).Some?
    decreases n
  {
    if n < radix.Base() then [DigitChar(n)]
    else Format(radix.Quotient(n), radix) + [DigitChar(radix.Rest(n))]
  }

  lemma {:induction false} ParseFormatDigits(n: nat, radix: Radix)
    ensures ParseDigits(Format(n, radix), radix) == Some(n)
    decreases n
  {
    hide Digit;
    if n >= radix.Base() {
      var s := Format(n, radix);
      assert s[..|s| - 1] == Format(radix.Quotient(n), radix);
      ParseFormatDigits(radix.Quotient(n), radix);
    }
  }

  /** The first digits of a number read as a smaller number, and not as zero unless the number is. */
  lemma {:induction false} ParsePrefix(n: nat, radix: Radix, m: nat)
    requires 0 < m <= |Format(n, radix)|
    ensures var v := ParseDigits(Format(n, radix)[..m], radix);
            v.Some? && v.value <= n && (n > 0 ==> v.value > 0)
    decreases n
  {
    var s := Format(n, radix);
    ParseFormatDigits(n, radix);
    if m == |s| {
      assert s[..m] == s;
    } else {
      assert n >= radix.Base();
      assert s[..m] == Format(radix.Quotient(n), radix)[..m];
      ParsePrefix(radix.Quotient(n), radix, m);
    }
  }

  /** What is printed is read back, while it fits in 64 bits. */
  lemma ParseFormat(n: nat, radix: Radix)
    ensures ParseInt(Format(n, radix), radix) == if n < INT64_LIMIT then Some(n) else None
  {
    ParseFormatDigits(n, radix);
    var s := Format(n, radix);
    assert Digit(s[0]).Some?;
    hide Format, ParseDigits;
  }
}

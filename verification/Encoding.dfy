/** Padded base64 (section 4 of RFC 4648) and decimal integers, as Go's base64.StdEncoding,
    strconv.Itoa and strconv.Atoi read and write them. */
module Encoding {
  import opened Wrappers

  type Byte = x: int | 0 <= x < 256
  type Sextet = x: int | 0 <= x < 64

  // Base64

  function SextetChar(x: Sextet): (c: char)
    ensures CharSextet(c) == Some(x)
  {
    if x < 26 then ('A' as int + x) as char
    else if x < 52 then ('a' as int + (x - 26)) as char
    else if x < 62 then ('0' as int + (x - 52)) as char
    else if x == 62 then '+'
    else '/'
  }

  function CharSextet(c: char): Option<Sextet> {
    if 'A' <= c <= 'Z' then Some(c as int - 'A' as int)
    else if 'a' <= c <= 'z' then Some(c as int - 'a' as int + 26)
    else if '0' <= c <= '9' then Some(c as int - '0' as int + 52)
    else if c == '+' then Some(62)
    else if c == '/' then Some(63)
    else None
  }

  /** A decoder's view of one character: newlines are skipped, everything else counts. */
  predicate IsNewline(c: char) {
    c == '\n' || c == '\r'
  }

  function EncodeBase64(b: seq<Byte>): (s: string)
    ensures |b| > 0 ==> |s| > 0
  {
    if |b| == 0 then
      ""
    else if |b| == 1 then
      [SextetChar(b[0] / 4), SextetChar(b[0] % 4 * 16), '=', '=']
    else if |b| == 2 then
      [SextetChar(b[0] / 4), SextetChar(b[0] % 4 * 16 + b[1] / 16), SextetChar(b[1] % 16 * 4), '=']
    else
      [SextetChar(b[0] / 4), SextetChar(b[0] % 4 * 16 + b[1] / 16),
       SextetChar(b[1] % 16 * 4 + b[2] / 64), SextetChar(b[2] % 64)] + EncodeBase64(b[3..])
  }

  function WithoutNewlines(s: string): string {
    if s == "" then ""
    else if IsNewline(s[0]) then WithoutNewlines(s[1..])
    else [s[0]] + WithoutNewlines(s[1..])
  }

  /** Decodes quanta of four characters. Padding may only close the last quantum, and the
      unused bits before the padding are not checked (the decoder is not the strict one). */
  function FirstByte(c0: Sextet, c1: Sextet): Byte { c0 * 4 + c1 / 16 }

  function SecondByte(c1: Sextet, c2: Sextet): Byte { c1 % 16 * 16 + c2 / 4 }

  function ThirdByte(c2: Sextet, c3: Sextet): Byte { c2 % 4 * 64 + c3 }

  function DecodeQuanta(s: string): Option<seq<Byte>> {
    if s == "" then
      Some([])
    else if |s| < 4 then
      None
    else
      match (CharSextet(s[0]), CharSextet(s[1]), CharSextet(s[2]), CharSextet(s[3]))
      case (Some(c0), Some(c1), Some(c2), Some(c3)) =>
        (match DecodeQuanta(s[4..])
         case None => None
         case Some(rest) => Some([FirstByte(c0, c1), SecondByte(c1, c2), ThirdByte(c2, c3)] + rest))
      case (Some(c0), Some(c1), Some(c2), None) =>
        if |s| == 4 && s[3] == '=' then Some([FirstByte(c0, c1), SecondByte(c1, c2)]) else None
      case (Some(c0), Some(c1), None, None) =>
        if |s| == 4 && s[2] == '=' && s[3] == '=' then Some([FirstByte(c0, c1)]) else None
      case _ => None
  }

  function DecodeBase64(s: string): Option<seq<Byte>> {
    DecodeQuanta(WithoutNewlines(s))
  }

  predicate NoNewlines(s: string) {
    forall i | 0 <= i < |s| :: !IsNewline(s[i])
  }

  lemma {:induction false} WithoutNewlinesIdentity(s: string)
    requires NoNewlines(s)
    ensures WithoutNewlines(s) == s
  {
    if s == "" {
    } else {
      WithoutNewlinesIdentity(s[1..]);
    }
  }

  lemma {:induction false} EncodedHasNoNewlines(b: seq<Byte>)
    ensures NoNewlines(EncodeBase64(b))
  {
    if |b| > 2 {
      EncodedHasNoNewlines(b[3..]);
    }
  }

  lemma {:induction false} QuantumInverts(b0: Byte, b1: Byte, b2: Byte)
    ensures FirstByte(b0 / 4, b0 % 4 * 16 + b1 / 16) == b0
    ensures FirstByte(b0 / 4, b0 % 4 * 16) == b0
    ensures SecondByte(b0 % 4 * 16 + b1 / 16, b1 % 16 * 4 + b2 / 64) == b1
    ensures SecondByte(b0 % 4 * 16 + b1 / 16, b1 % 16 * 4) == b1
    ensures ThirdByte(b1 % 16 * 4 + b2 / 64, b2 % 64) == b2
  {
  }

  lemma {:induction false} DecodeQuantaInverts(b: seq<Byte>)
    ensures DecodeQuanta(EncodeBase64(b)) == Some(b)
  {
    hide FirstByte, SecondByte, ThirdByte, SextetChar, CharSextet;
    var s := EncodeBase64(b);
    if |b| > 2 {
      QuantumInverts(b[0], b[1], b[2]);
      DecodeQuantaInverts(b[3..]);
      assert s[4..] == EncodeBase64(b[3..]);
      assert b == [b[0], b[1], b[2]] + b[3..];
    } else if |b| == 2 {
      QuantumInverts(b[0], b[1], 0);
      PaddingIsNoSextet();
      assert b == [b[0], b[1]];
    } else if |b| == 1 {
      QuantumInverts(b[0], 0, 0);
      PaddingIsNoSextet();
      assert b == [b[0]];
    }
  }

  lemma {:induction false} PaddingIsNoSextet()
    ensures CharSextet('=') == None
  {
  }

  lemma {:induction false} Base64RoundTrip(b: seq<Byte>)
    ensures DecodeBase64(EncodeBase64(b)) == Some(b)
  {
    EncodedHasNoNewlines(b);
    WithoutNewlinesIdentity(EncodeBase64(b));
    DecodeQuantaInverts(b);
  }

  // Decimal integers

  const MAX_INT64 := 0x7FFF_FFFF_FFFF_FFFF
  const MIN_INT64 := -0x8000_0000_0000_0000

  predicate IsDigit(b: Byte) {
    '0' as int <= b <= '9' as int
  }

  function DigitsOf(n: nat): (s: seq<Byte>)
    ensures |s| > 0
  {
    if n < 10 then ['0' as int + n] else DigitsOf(n / 10) + ['0' as int + n % 10]
  }

  /** strconv.Itoa, as bytes. */
  function Itoa(n: int): (s: seq<Byte>)
    ensures |s| > 0
  {
    if n < 0 then ['-' as int] + DigitsOf(-n) else DigitsOf(n)
  }

  predicate AllDigits(s: seq<Byte>) {
    forall i | 0 <= i < |s| :: IsDigit(s[i])
  }

  function Magnitude(s: seq<Byte>): nat
    requires AllDigits(s)
  {
    if s == [] then 0 else Magnitude(s[..|s| - 1]) * 10 + (s[|s| - 1] - '0' as int)
  }

  /** strconv.Atoi with a 64-bit int: an optional sign, at least one digit, value in range. */
  function Atoi(s: seq<Byte>): Option<int> {
    var signed := s != [] && (s[0] == '+' as int || s[0] == '-' as int);
    var digits := if signed then s[1..] else s;
    if digits == [] || !AllDigits(digits) then
      None
    else
      var m: int := Magnitude(digits);
      var n := if signed && s[0] == '-' as int then -m else m;
      if MIN_INT64 <= n <= MAX_INT64 then Some(n) else None
  }

  lemma {:induction false} MagnitudeInvertsDigits(n: nat)
    ensures AllDigits(DigitsOf(n)) && Magnitude(DigitsOf(n)) == n
  {
    if n >= 10 {
      MagnitudeInvertsDigits(n / 10);
      var s := DigitsOf(n);
      assert s[..|s| - 1] == DigitsOf(n / 10);
    } else {
      assert DigitsOf(n)[..0] == [];
    }
  }

  lemma {:induction false} DecimalRoundTrip(n: int)
    requires MIN_INT64 <= n <= MAX_INT64
    ensures Atoi(Itoa(n)) == Some(n)
  {
    hide Magnitude, DigitsOf;
    if n < 0 {
      MagnitudeInvertsDigits(-n);
      assert Itoa(n)[1..] == DigitsOf(-n);
    } else {
      MagnitudeInvertsDigits(n);
      assert IsDigit(DigitsOf(n)[0]);
    }
  }
}

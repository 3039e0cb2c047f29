/**
 The identifiers of src/nugu_uuid.c: their base16 form and the time field at their front. Masks and shifts by
 whole bytes or nibbles are written as division and remainder.
 */
module Uuid {
  import opened Bytes

  // Base16.

  function Digit(n: byte): byte
    requires n < 16
  {
    if n > 9 then 97 + (n - 10) else 48 + n
  }

  /** What a character stands for; uint8_t arithmetic wraps on characters below '0'. */
  function DigitValue(c: byte): byte {
    if c >= 97 then c - 97 + 10 else if c >= 65 then c - 65 + 10 else if c >= 48 then c - 48 else 208 + c
  }

  function Upper(b: byte): (n: byte)
    ensures n < 16
  {
    b / 16
  }

  function Lower(b: byte): (n: byte)
    ensures n < 16
  {
    b % 16
  }

  /** The bitwise or. */
  function Or(a: nat, b: nat): nat {
    if a == 0 then b
    else if b == 0 then a
    else (if a % 2 == 1 || b % 2 == 1 then 1 else 0) + 2 * Or(a / 2, b / 2)
  }

  /** (upper << 4) | lower, as a uint8_t. */
  function Join(upper: byte, lower: byte): byte {
    (Or(upper as int * 16, lower as int) % 256) as byte
  }

  /** Shifting one operand past the bits of the other makes the or a sum: one bit at a time. */
  lemma OrStep(a: nat, b: nat)
    requires Or(a, b / 2) == a + b / 2
    ensures Or(2 * a, b) == 2 * a + b
  {
  }

  lemma OrNibble(a: nat, b: nat)
    requires b < 16
    ensures Or(16 * a, b) == 16 * a + b
  {
    assert b / 8 / 2 == 0 && Or(a, 0) == a;
    OrStep(a, b / 8);
    assert b / 4 / 2 == b / 8 && b / 2 / 2 == b / 4;
    OrStep(2 * a, b / 4);
    OrStep(4 * a, b / 2);
    OrStep(8 * a, b);
  }

  function Encode(input: seq<byte>): seq<byte> {
    if input == [] then [] else [Digit(Upper(input[0])), Digit(Lower(input[0]))] + Encode(input[1..])
  }

  function Decode(base16: seq<byte>): seq<byte>
    requires |base16| % 2 == 0
  {
    if base16 == [] then [] else [Join(DigitValue(base16[0]), DigitValue(base16[1]))] + Decode(base16[2..])
  }

  lemma ByteRoundTrip(b: byte)
    ensures Join(DigitValue(Digit(Upper(b))), DigitValue(Digit(Lower(b)))) == b
  {
    OrNibble(Upper(b) as int, Lower(b) as int);
  }

  lemma {:induction false} EncodeLength(input: seq<byte>)
    ensures |Encode(input)| == 2 * |input|
  {
    if input != [] {
      EncodeLength(input[1..]);
    }
  }

  /** "0123456789abcdef", and the capitals that the decoder takes as well. */
  const HEX: seq<byte> := [48, 49, 50, 51, 52, 53, 54, 55, 56, 57, 97, 98, 99, 100, 101, 102]
  const CAPITALS: seq<byte> := [48, 49, 50, 51, 52, 53, 54, 55, 56, 57, 65, 66, 67, 68, 69, 70]

  lemma DigitsOf(n: byte)
    requires n < 16
    ensures Digit(n) == HEX[n] && DigitValue(HEX[n]) == n && DigitValue(CAPITALS[n]) == n
  {
  }

  /** Characters in front of the capitals are taken for digits, and those in front of '0' wrap around. */
  lemma OtherCharacters(c: byte)
    requires c < 65
    ensures (DigitValue(c) as int + 48) % 256 == c as int
  {
  }

  /** Every byte is written as its two hexadecimal digits, the upper one first, in small letters. */
  lemma {:induction false} EncodedDigits(input: seq<byte>, i: nat)
    requires i < |input|
    ensures |Encode(input)| == 2 * |input|
    ensures Encode(input)[2 * i] == HEX[input[i] / 16] && Encode(input)[2 * i + 1] == HEX[input[i] % 16]
  {
    EncodeLength(input);
    if i == 0 {
      DigitsOf(input[0] / 16);
      DigitsOf(input[0] % 16);
    } else {
      EncodedDigits(input[1..], i - 1);
      assert Encode(input)[2..] == Encode(input[1..]);
      assert Encode(input)[2..][2 * (i - 1)] == Encode(input)[2 * i];
      assert Encode(input)[2..][2 * (i - 1) + 1] == Encode(input)[2 * i + 1];
    }
  }

  /** Decoding the base16 form of any bytes gives them back. */
  lemma {:induction false} Base16RoundTrip(input: seq<byte>)
    ensures |Encode(input)| % 2 == 0 && Decode(Encode(input)) == input
  {
    EncodeLength(input);
    if input != [] {
      ByteRoundTrip(input[0]);
      Base16RoundTrip(input[1..]);
      assert Encode(input)[2..] == Encode(input[1..]);
    }
  }

  lemma {:induction false} EncodeSnoc(input: seq<byte>, b: byte)
    ensures Encode(input + [b]) == Encode(input) + [Digit(Upper(b)), Digit(Lower(b))]
  {
    if input == [] {
      assert input + [b] == [b] && [b][1..] == [];
    } else {
      assert (input + [b])[1..] == input[1..] + [b];
      EncodeSnoc(input[1..], b);
    }
  }

  lemma {:induction false} DecodeSnoc(text: seq<byte>, c: byte, d: byte)
    requires |text| % 2 == 0
    ensures Decode(text + [c, d]) == Decode(text) + [Join(DigitValue(c), DigitValue(d))]
  {
    if text == [] {
      assert text + [c, d] == [c, d] && [c, d][2..] == [];
    } else {
      assert (text + [c, d])[2..] == text[2..] + [c, d];
      DecodeSnoc(text[2..], c, d);
    }
  }

  method ConvertBase16(input: array<byte>, out: array<byte>)
    requires input != out && out.Length == input.Length * 2 + 1
    modifies out
    ensures out[..input.Length * 2] == Encode(input[..]) && out[input.Length * 2] == 0
  {
    var i := 0;
    while i < input.Length
      invariant i <= input.Length
      invariant out[..i * 2] == Encode(input[..i])
    {
      out[i * 2] := Digit(Upper(input[i]));
      out[i * 2 + 1] := Digit(Lower(input[i]));
      assert out[..(i + 1) * 2] == out[..i * 2] + [out[i * 2], out[i * 2 + 1]];
      assert input[..i + 1] == input[..i] + [input[i]];
      EncodeSnoc(input[..i], input[i]);
      i := i + 1;
    }
    assert input[..i] == input[..];
    out[input.Length * 2] := 0;
  }

  method ConvertBytes(base16: seq<byte>, out: array<byte>)
    requires |base16| % 2 == 0 && out.Length == |base16| / 2
    modifies out
    ensures out[..] == Decode(base16)
  {
    var i := 0;
    while i < |base16|
      invariant i <= |base16| && i % 2 == 0
      invariant out[..i / 2] == Decode(base16[..i])
    {
      out[i / 2] := Join(DigitValue(base16[i]), DigitValue(base16[i + 1]));
      assert out[..i / 2 + 1] == out[..i / 2] + [out[i / 2]];
      assert base16[..i + 2] == base16[..i] + [base16[i], base16[i + 1]];
      DecodeSnoc(base16[..i], base16[i], base16[i + 1]);
      i := i + 2;
    }
    assert base16[..i] == base16;
    assert out[..] == out[..i / 2];
  }

  // The time field.

  const BASE_TIMESTAMP := 1546300800

  const NANOSECONDS := 1_000_000_000

  /** round() of a non-negative value. */
  function Round(x: real): int {
    (x + 0.5).Floor
  }

  /** Tenths of a second since the base timestamp, as nugu_uuid_generate_time computes them. */
  function Tenths(seconds: int, nanoseconds: nat): int {
    (seconds - BASE_TIMESTAMP) * 10 + (Round(nanoseconds as real / 1000000.0) as real / 100.0).Floor
  }

  /** The four masks and shifts. */
  function TimeField(tenths: nat): (field: seq<byte>)
    ensures |field| == 4
  {
    [(tenths / 0x100_0000 % 0x100) as byte, (tenths / 0x1_0000 % 0x100) as byte, (tenths / 0x100 % 0x100) as byte,
     (tenths % 0x100) as byte]
  }

  /** The four bytes as a 32-bit int. */
  function FieldValue(field: seq<byte>): int
    requires |field| >= 4
  {
    var u := field[0] as int * 0x100_0000 + field[1] as int * 0x1_0000 + field[2] as int * 0x100 + field[3] as int;
    if u >= 0x8000_0000 then u - 0x1_0000_0000 else u
  }

  /** The division of C truncates towards zero. */
  function Tenth(x: int): int {
    if x >= 0 then x / 10 else -(-x / 10)
  }

  /** The time that nugu_dump_timeuuid reads from the decoded bytes. */
  function DumpedTime(bytes: seq<byte>): int
    requires |bytes| >= 4
  {
    BASE_TIMESTAMP + Tenth(FieldValue(bytes))
  }

  lemma RoundBounds(nanoseconds: nat)
    requires nanoseconds < NANOSECONDS
    ensures var r := Round(nanoseconds as real / 1000000.0);
            0 <= r <= 1000 && (r == 1000 <==> nanoseconds >= 999_500_000)
  {
    var x := nanoseconds as real / 1000000.0;
    assert x * 1000000.0 == nanoseconds as real;
  }

  /** Rounding to milliseconds can carry into the next second, and does from half a millisecond before its end. */
  lemma TenthsShape(seconds: int, nanoseconds: nat)
    requires nanoseconds < NANOSECONDS
    ensures Tenths(seconds, nanoseconds) / 10 ==
            seconds - BASE_TIMESTAMP + (if nanoseconds >= 999_500_000 then 1 else 0)
  {
    RoundBounds(nanoseconds);
    var r := Round(nanoseconds as real / 1000000.0);
    var h := (r as real / 100.0).Floor;
    assert 0 <= h <= 10 && (h == 10 <==> r == 1000) by {
      assert r as real / 100.0 * 100.0 == r as real;
    }
  }

  /** The tenths in whole numbers, from the first second of 2019 on: the milliseconds are rounded first, then cut. */
  lemma TenthsExactly(seconds: int, nanoseconds: nat)
    ensures Tenths(seconds, nanoseconds) == (seconds - 1546300800) * 10 + (nanoseconds + 500_000) / 100_000_000
  {
    RoundedMilliseconds(nanoseconds);
    CutTenths((nanoseconds + 500_000) / 1_000_000);
    assert (nanoseconds + 500_000) / 1_000_000 / 100 == (nanoseconds + 500_000) / 100_000_000;
  }

  lemma RoundedMilliseconds(nanoseconds: nat)
    ensures Round(nanoseconds as real / 1000000.0) == (nanoseconds + 500_000) / 1_000_000
  {
    var x := nanoseconds as real / 1000000.0;
    var q := (nanoseconds + 500_000) / 1_000_000;
    assert x * 1000000.0 == nanoseconds as real;
    assert q * 1_000_000 <= nanoseconds + 500_000 < (q + 1) * 1_000_000;
    assert q as real * 1000000.0 <= (x + 0.5) * 1000000.0 < (q + 1) as real * 1000000.0;
  }

  lemma CutTenths(r: nat)
    ensures (r as real / 100.0).Floor == r / 100
  {
    var q := r / 100;
    assert r as real / 100.0 * 100.0 == r as real;
    assert q as real * 100.0 <= r as real < (q + 1) as real * 100.0;
  }

  /** Reading the tenths as a 32-bit int gives the same second exactly when they fit one. */
  lemma TenthFits(tenths: nat)
    ensures var u := tenths % 0x1_0000_0000;
            Tenth(if u >= 0x8000_0000 then u - 0x1_0000_0000 else u) == tenths / 10 <==> tenths < 0x8000_0000
  {
  }

  lemma FieldRoundTrip(tenths: nat)
    ensures var u := tenths % 0x1_0000_0000;
            FieldValue(TimeField(tenths)) == if u >= 0x8000_0000 then u - 0x1_0000_0000 else u
  {
    var a := tenths / 0x100;
    var b := a / 0x100;
    var c := b / 0x100;
    assert tenths / 0x1_0000 == b && tenths / 0x100_0000 == c && tenths / 0x1_0000_0000 == c / 0x100;
  }

  lemma FrontField(field: seq<byte>, rest: seq<byte>)
    requires |field| == 4
    ensures FieldValue(field + rest) == FieldValue(field)
  {
  }

  /**
   From the base timestamp on: printing an identifier and reading its time gives the second at which it was made,
   or the next one from the last half millisecond on, if and only if the tenths fit a positive 32-bit int.
   */
  lemma TimeRoundTrip(seconds: int, nanoseconds: nat, rest: seq<byte>)
    requires seconds >= BASE_TIMESTAMP && nanoseconds < NANOSECONDS
    ensures Tenths(seconds, nanoseconds) >= 0
    ensures var text := Encode(TimeField(Tenths(seconds, nanoseconds)) + rest);
            && |text| % 2 == 0 && |Decode(text)| >= 4
            && (DumpedTime(Decode(text)) == seconds + (if nanoseconds >= 999_500_000 then 1 else 0)
                <==> Tenths(seconds, nanoseconds) < 0x8000_0000)
  {
    TenthsShape(seconds, nanoseconds);
    var tenths := Tenths(seconds, nanoseconds);
    var bytes := TimeField(tenths) + rest;
    Base16RoundTrip(bytes);
    FieldRoundTrip(tenths);
    FrontField(TimeField(tenths), rest);
    TenthFits(tenths);
  }

  // The clock at which it fails.

  /** The first full second whose tenths no longer fit. */
  const OVERFLOW_SECOND := 1761049165

  lemma FullSecond(seconds: int)
    ensures Tenths(seconds, 0) == (seconds - BASE_TIMESTAMP) * 10
  {
    assert 0 as real / 1000000.0 == 0.0;
    assert Round(0.0) == 0;
    assert 0 as real / 100.0 == 0.0;
  }

  /** An identifier made in that second dumps a time before the base timestamp. */
  lemma TimeOverflows(rest: seq<byte>)
    ensures Tenths(OVERFLOW_SECOND - 1, 0) < 0x8000_0000 <= Tenths(OVERFLOW_SECOND, 0)
    ensures var text := Encode(TimeField(Tenths(OVERFLOW_SECOND, 0)) + rest);
            |text| % 2 == 0 && |Decode(text)| >= 4 && DumpedTime(Decode(text)) < BASE_TIMESTAMP
  {
    FullSecond(OVERFLOW_SECOND - 1);
    FullSecond(OVERFLOW_SECOND);
    OverflowDump(Tenths(OVERFLOW_SECOND, 0), rest);
  }

  /** Tenths in the upper half of the 32-bit range come out negative, and their division is cut towards zero. */
  lemma OverflowDump(tenths: nat, rest: seq<byte>)
    requires 0x8000_0000 <= tenths < 0x1_0000_0000
    ensures var text := Encode(TimeField(tenths) + rest);
            && |text| % 2 == 0 && |Decode(text)| >= 4
            && DumpedTime(Decode(text)) == BASE_TIMESTAMP - (0x1_0000_0000 - tenths) / 10
  {
    Base16RoundTrip(TimeField(tenths) + rest);
    FrontField(TimeField(tenths), rest);
    UpperHalf(tenths);
  }

  lemma UpperHalf(tenths: nat)
    requires 0x8000_0000 <= tenths < 0x1_0000_0000
    ensures Tenth(FieldValue(TimeField(tenths))) == -((0x1_0000_0000 - tenths) / 10)
  {
    FieldRoundTrip(tenths);
  }
}

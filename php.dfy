/** Pieces of PHP's runtime the page scripts lean on: request fields, the
    ['type' => ..., 'message' => ...] notices, strlen's byte count, bin2hex
    and %d formatting. Text is a sequence of Unicode scalar values, taken to
    arrive as UTF-8. */
module Php {
  import opened Strings

  /** A submitted form: field name to value; a name outside the map was not sent. */
  type Payload = map<string, string>

  /** `$payload[k] ?? d`. */
  function Field(p: Payload, k: string, d: string): (r: string)
    ensures k in p ==> r == p[k]
    ensures k !in p ==> r == d
  {
    if k in p then p[k] else d
  }

  datatype Kind = Error | Info | Success

  /** A message to show the user, with its kind. */
  datatype Notice = Notice(kind: Kind, message: string)

  // ---------------------------------------------------------------------
  // strlen: the UTF-8 length in bytes

  function CharBytes(c: char): nat {
    if c as int < 0x80 then 1
    else if c as int < 0x800 then 2
    else if c as int < 0x10000 then 3
    else 4
  }

  function Utf8Len(s: string): nat {
    if s == [] then 0 else CharBytes(s[0]) + Utf8Len(s[1..])
  }

  predicate IsAscii(s: string) {
    forall i :: 0 <= i < |s| ==> s[i] as int < 0x80
  }

  /** Every character takes one to four bytes, and an ASCII text one byte per
      character. */
  lemma {:induction false} Utf8LenBounds(s: string)
    ensures |s| <= Utf8Len(s) <= 4 * |s|
    ensures IsAscii(s) ==> Utf8Len(s) == |s|
  {
    if s != [] {
      Utf8LenBounds(s[1..]);
      assert IsAscii(s) ==> IsAscii(s[1..]) by {
        if IsAscii(s) {
          forall i | 0 <= i < |s[1..]| ensures s[1..][i] as int < 0x80 {
            assert s[1..][i] == s[i + 1];
          }
        }
      }
    }
  }

  lemma {:induction false} Utf8LenAppend(a: string, b: string)
    ensures Utf8Len(a + b) == Utf8Len(a) + Utf8Len(b)
  {
    if a != [] {
      assert (a + b)[0] == a[0] && (a + b)[1..] == a[1..] + b;
      Utf8LenAppend(a[1..], b);
      assert Utf8Len(a + b) == CharBytes(a[0]) + Utf8Len(a[1..] + b);
    } else {
      assert a + b == b;
    }
  }

  // ---------------------------------------------------------------------
  // bin2hex

  type Byte = b: int | 0 <= b < 256

  function HexChar(n: int): (c: char)
    requires 0 <= n < 16
    ensures IsHexDigit(c)
  {
    if n < 10 then ('0' as int + n) as char else ('a' as int + n - 10) as char
  }

  function HexValue(c: char): (n: int)
    requires IsHexDigit(c)
    ensures 0 <= n < 16
  {
    if IsDigit(c) then c as int - '0' as int else c as int - 'a' as int + 10
  }

  /** Two lower-case hex digits per byte, high half first. */
  function Bin2Hex(bytes: seq<Byte>): (r: string)
    ensures |r| == 2 * |bytes|
    ensures forall i :: 0 <= i < |r| ==> IsHexDigit(r[i])
  {
    if bytes == [] then []
    else [HexChar(bytes[0] / 16), HexChar(bytes[0] % 16)] + Bin2Hex(bytes[1..])
  }

  /** The inverse of bin2hex on its own output (hex2bin). */
  function Hex2Bin(s: string): seq<Byte>
    requires |s| % 2 == 0
    requires forall i :: 0 <= i < |s| ==> IsHexDigit(s[i])
  {
    if s == [] then []
    else
      var b: Byte := HexValue(s[0]) * 16 + HexValue(s[1]);
      [b] + Hex2Bin(s[2..])
  }

  lemma HexCharValue(n: int)
    requires 0 <= n < 16
    ensures HexValue(HexChar(n)) == n
  {
  }

  /** Decoding the hex text gives back the bytes. */
  lemma {:induction false} Bin2HexRoundTrip(bytes: seq<Byte>)
    ensures Hex2Bin(Bin2Hex(bytes)) == bytes
  {
    if bytes != [] {
      var s := Bin2Hex(bytes);
      HexCharValue(bytes[0] / 16);
      HexCharValue(bytes[0] % 16);
      assert s[2..] == Bin2Hex(bytes[1..]);
      Bin2HexRoundTrip(bytes[1..]);
    }
  }

  // ---------------------------------------------------------------------
  // %d

  function DigitChar(n: int): (c: char)
    requires 0 <= n < 10
    ensures IsDigit(c)
  {
    ('0' as int + n) as char
  }

  /** The decimal digits of n, without leading zeros. */
  function NatToDecimal(n: nat): (r: string)
    ensures r != [] && AllDigits(r)
    ensures |r| > 1 ==> r[0] != '0'
  {
    if n < 10 then [DigitChar(n)]
    else NatToDecimal(n / 10) + [DigitChar(n % 10)]
  }

  /** sprintf's %d. */
  function IntToDecimal(i: int): string {
    if i < 0 then "-" + NatToDecimal(-i) else NatToDecimal(i)
  }

  lemma {:induction false} DecimalValue(n: nat)
    ensures DigitsValue(NatToDecimal(n)) == n
  {
    var r := NatToDecimal(n);
    if n >= 10 {
      assert r[..|r| - 1] == NatToDecimal(n / 10);
      DecimalValue(n / 10);
    }
  }

  /** (int) of what %d prints is the number printed. */
  lemma IntCastOfDecimal(i: int)
    ensures PhpInt(IntToDecimal(i)) == i
  {
    var n: nat := if i < 0 then -i else i;
    var d := NatToDecimal(n);
    DecimalValue(n);
    assert d[..|d|] == d;
    PhpIntOfInteger(d, |d|);
    if i < 0 {
      var s := IntToDecimal(i);
      assert s[0] == '-' && s[1..] == d;
      assert SkipSpace(s) == s;
      PhpIntUnsigned(d);
    }
  }
}

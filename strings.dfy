/** Text helpers with the semantics of the PHP built-ins the site relies on:
    trim (which strips " \t\n\r\0\x0B"), the ASCII-only strtolower/strtoupper
    and strcasecmp, and the (int) cast of a string. All of them look only at
    ASCII characters, so they act alike on a character and on the bytes that
    encode it; where the code counts bytes of form text, Php.Utf8Len gives the
    UTF-8 length. */
module Strings {

  datatype Option<+T> = None | Some(value: T)

  /** `$v ?? $default` for a text that may be missing. */
  function OrElse(v: Option<string>, default: string): string {
    match v
    case Some(s) => s
    case None => default
  }

  /** The characters PHP's trim() removes by default. */
  predicate IsTrimChar(c: char) {
    c == ' ' || c == '\t' || c == '\n' || c == '\r' || c == '\0' || c == '\U{0B}'
  }

  function TrimLeft(s: string): (r: string)
    ensures |r| <= |s| && r == s[|s| - |r|..]
    ensures r != [] ==> !IsTrimChar(r[0])
    ensures forall i :: 0 <= i < |s| - |r| ==> IsTrimChar(s[i])
  {
    if s != [] && IsTrimChar(s[0]) then
      var r := TrimLeft(s[1..]);
      assert forall i :: 1 <= i < |s| - |r| ==> IsTrimChar(s[1..][i - 1]) && s[i] == s[1..][i - 1];
      assert s[|s| - |r|..] == s[1..][|s| - 1 - |r|..];
      r
    else s
  }

  function TrimRight(s: string): (r: string)
    ensures |r| <= |s| && r == s[..|r|]
    ensures r != [] ==> !IsTrimChar(r[|r| - 1])
    ensures forall i :: |r| <= i < |s| ==> IsTrimChar(s[i])
  {
    if s != [] && IsTrimChar(s[|s| - 1]) then
      var r := TrimRight(s[..|s| - 1]);
      assert forall i :: |r| <= i < |s| - 1 ==> IsTrimChar(s[..|s| - 1][i]) && s[i] == s[..|s| - 1][i];
      assert s[..|r|] == s[..|s| - 1][..|r|];
      r
    else s
  }

  /** PHP trim(): strip trim characters at both ends. The result is the
      input with its leading and trailing runs of trim characters cut off. */
  function Trim(s: string): (r: string)
    ensures IsTrimmed(r)
    ensures |r| <= |s|
    ensures |r| <= |TrimLeft(s)| && r == TrimLeft(s)[..|r|]
    ensures forall c :: c in r ==> c in s
    ensures IsTrimmed(s) ==> r == s
  {
    var l := TrimLeft(s);
    var r := TrimRight(l);
    assert r != [] ==> r[0] == l[0];
    assert forall c :: c in r ==> c in l;
    assert forall c :: c in l ==> c in s;
    assert IsTrimmed(s) ==> l == s;
    assert IsTrimmed(l) ==> r == l;
    r
  }

  /** The trimmed text is a slice of the text. */
  lemma TrimIsSlice(s: string) returns (off: nat)
    ensures off + |Trim(s)| <= |s| && Trim(s) == s[off..off + |Trim(s)|]
  {
    var l := TrimLeft(s);
    var r := Trim(s);
    off := |s| - |l|;
    assert r == s[off..][..|r|];
  }

  lemma TrimIdempotent(s: string)
    ensures Trim(Trim(s)) == Trim(s)
  {
  }

  /** Remove trailing occurrences of one character (PHP rtrim with a one-character list). */
  function RTrimChar(s: string, c: char): (r: string)
    ensures |r| <= |s| && r == s[..|r|]
    ensures r != [] ==> r[|r| - 1] != c
    ensures forall i :: |r| <= i < |s| ==> s[i] == c
  {
    if s != [] && s[|s| - 1] == c then RTrimChar(s[..|s| - 1], c) else s
  }

  function LowerChar(c: char): char {
    if 'A' <= c <= 'Z' then (c as int + 32) as char else c
  }

  function UpperChar(c: char): char {
    if 'a' <= c <= 'z' then (c as int - 32) as char else c
  }

  /** PHP strtolower (ASCII letters only). */
  function Lower(s: string): (r: string)
    ensures |r| == |s|
    ensures forall i :: 0 <= i < |s| ==> r[i] == LowerChar(s[i])
  {
    seq(|s|, i requires 0 <= i < |s| => LowerChar(s[i]))
  }

  /** PHP strtoupper (ASCII letters only). */
  function Upper(s: string): (r: string)
    ensures |r| == |s|
    ensures forall i :: 0 <= i < |s| ==> r[i] == UpperChar(s[i])
  {
    seq(|s|, i requires 0 <= i < |s| => UpperChar(s[i]))
  }

  /** strcasecmp(a, b) === 0 */
  predicate SameIgnoringCase(a: string, b: string) {
    Lower(a) == Lower(b)
  }

  predicate IsTrimmed(s: string) {
    s == [] || (!IsTrimChar(s[0]) && !IsTrimChar(s[|s| - 1]))
  }

  lemma LowerIdempotent(s: string)
    ensures Lower(Lower(s)) == Lower(s)
  {
  }

  /** Lower-casing a trimmed text leaves it trimmed. */
  lemma LowerTrimmed(s: string)
    ensures Trim(Lower(Trim(s))) == Lower(Trim(s))
  {
    var t := Trim(s);
    var l := Lower(t);
    if t != [] {
      LowerKeepsTrimChars(t[0]);
      LowerKeepsTrimChars(t[|t| - 1]);
      assert l[0] == LowerChar(t[0]) && l[|l| - 1] == LowerChar(t[|t| - 1]);
    }
    assert IsTrimmed(l);
  }

  lemma LowerKeepsTrimChars(c: char)
    ensures IsTrimChar(LowerChar(c)) <==> IsTrimChar(c)
  {
  }

  /** lower(trim(...)) is idempotent. */
  lemma LowerTrimIdempotent(s: string)
    ensures Lower(Trim(Lower(Trim(s)))) == Lower(Trim(s))
  {
    LowerTrimmed(s);
    LowerIdempotent(Trim(s));
  }

  predicate StartsWith(s: string, prefix: string) {
    |prefix| <= |s| && s[..|prefix|] == prefix
  }

  predicate IsDigit(c: char) { '0' <= c <= '9' }
  predicate IsLowerAscii(c: char) { 'a' <= c <= 'z' }
  predicate IsUpperAscii(c: char) { 'A' <= c <= 'Z' }
  predicate IsAlnum(c: char) { IsDigit(c) || IsLowerAscii(c) || IsUpperAscii(c) }
  predicate IsHexDigit(c: char) { IsDigit(c) || 'a' <= c <= 'f' }

  predicate AllDigits(s: string) {
    forall i :: 0 <= i < |s| ==> IsDigit(s[i])
  }

  /** Delete every occurrence of the characters in `cs` (str_replace with '' as replacement). */
  function RemoveChars(s: string, cs: set<char>): (r: string)
    ensures forall i :: 0 <= i < |r| ==> r[i] !in cs
    ensures forall c :: c in r ==> c in s
    ensures (forall i :: 0 <= i < |s| ==> s[i] !in cs) ==> r == s
  {
    if s == [] then []
    else if s[0] in cs then RemoveChars(s[1..], cs)
    else [s[0]] + RemoveChars(s[1..], cs)
  }

  /** Replace every occurrence of the characters in `cs` by `by` (str_replace with a one-character replacement). */
  function ReplaceChars(s: string, cs: set<char>, with: char): (r: string)
    ensures |r| == |s|
    ensures forall i :: 0 <= i < |s| ==> r[i] == (if s[i] in cs then with else s[i])
  {
    seq(|s|, i requires 0 <= i < |s| => if s[i] in cs then with else s[i])
  }

  /** Index of the first occurrence of `c`, if any (strpos for a single character). */
  function IndexOf(s: string, c: char): (r: Option<nat>)
    ensures r.None? <==> c !in s
    ensures r.Some? ==> r.value < |s| && s[r.value] == c && c !in s[..r.value]
  {
    if s == [] then None
    else if s[0] == c then Some(0)
    else match IndexOf(s[1..], c)
      case None => None
      case Some(k) => assert s[1..][..k] == s[1..k + 1]; Some(k + 1)
  }

  /** The first occurrence of c after a prefix that does not contain it. */
  lemma {:induction false} IndexOfAfter(p: string, c: char, rest: string)
    requires c !in p
    ensures IndexOf(p + [c] + rest, c) == Some(|p|)
  {
    if p != [] {
      assert (p + [c] + rest)[1..] == p[1..] + [c] + rest;
      assert p[0] in p;
      IndexOfAfter(p[1..], c, rest);
    }
  }

  /** Elements joined with a separator (PHP implode). */
  function Join(parts: seq<string>, sep: string): string
  {
    if parts == [] then ""
    else if |parts| == 1 then parts[0]
    else parts[0] + sep + Join(parts[1..], sep)
  }

  /** Whitespace PHP allows before a number. */
  predicate IsNumericSpace(c: char) {
    c == ' ' || c == '\t' || c == '\n' || c == '\r' || c == '\U{0B}' || c == '\U{0C}'
  }

  function SkipSpace(s: string): (r: string)
    ensures |r| <= |s| && r == s[|s| - |r|..]
  {
    if s != [] && IsNumericSpace(s[0]) then SkipSpace(s[1..]) else s
  }

  /** The longest prefix of decimal digits. */
  function DigitRun(s: string): (r: string)
    ensures |r| <= |s| && r == s[..|r|] && AllDigits(r)
    ensures |r| < |s| ==> !IsDigit(s[|r|])
  {
    if s != [] && IsDigit(s[0]) then [s[0]] + DigitRun(s[1..]) else []
  }

  function DigitsValue(ds: string): nat
    requires AllDigits(ds)
  {
    if ds == [] then 0
    else
      assert IsDigit(ds[|ds| - 1]);
      DigitsValue(ds[..|ds| - 1]) * 10 + (ds[|ds| - 1] as int - '0' as int)
  }

  /** 10 to the power n. */
  function Pow10(n: nat): (r: nat)
    ensures r >= 1
  {
    if n == 0 then 1 else 10 * Pow10(n - 1)
  }

  /** n times 10 to the power e, truncated: the integer part of a
      non-negative decimal, one digit place at a time. */
  function Scaled(n: nat, e: int): nat
    decreases if e < 0 then -e else e
  {
    if e > 0 then Scaled(n * 10, e - 1)
    else if e < 0 then Scaled(n / 10, e + 1)
    else n
  }

  /** The exponent that may follow a mantissa: 'e' or 'E', an optional sign
      and digits. Without digits there is no exponent, which is 0. */
  function ExponentValue(s: string): int {
    if s == [] || (s[0] != 'e' && s[0] != 'E') then 0
    else
      var u := s[1..];
      var signed := u != [] && (u[0] == '-' || u[0] == '+');
      var v: int := DigitsValue(DigitRun(if signed then u[1..] else u));
      if signed && u[0] == '-' then -v else v
  }

  function DigitValue(c: char): nat
    requires IsDigit(c)
  {
    c as int - '0' as int
  }

  /** Reads an unsigned leading number one character at a time: `acc` holds
      the mantissa's digits read so far, `places` how many of them follow the
      point, `point` whether the point has been read. At the first character
      that does not continue the mantissa the exponent is read and the
      mantissa scaled, truncating toward zero. Without a digit the value
      is 0. */
  function ScanNumber(u: string, acc: nat, places: nat, point: bool): nat
    decreases |u|
  {
    if u != [] && IsDigit(u[0]) then
      ScanNumber(u[1..], acc * 10 + DigitValue(u[0]), if point then places + 1 else places, point)
    else if u != [] && u[0] == '.' && !point then ScanNumber(u[1..], acc, places, true)
    else Scaled(acc, ExponentValue(u) - places)
  }

  /** The digits read onto `acc`, most significant first. */
  function Accumulate(acc: nat, ds: string): nat
    requires AllDigits(ds)
    decreases ds
  {
    if ds == [] then acc else Accumulate(acc * 10 + DigitValue(ds[0]), ds[1..])
  }

  /** (int) of a string, as PHP 8 reads a leading numeric string: leading
      whitespace, an optional sign, then a decimal number with an optional
      fraction and exponent, truncated toward zero; 0 when no number starts
      the text. */
  function PhpInt(s: string): int {
    var t := SkipSpace(s);
    var signed := t != [] && (t[0] == '-' || t[0] == '+');
    var m: int := ScanNumber(if signed then t[1..] else t, 0, 0, false);
    if signed && t[0] == '-' then -m else m
  }

  // ---------------------------------------------------------------------------
  // What (int) reads

  /** Scaling up is multiplying by a power of ten. */
  lemma {:induction false} ScaledUp(n: nat, e: nat)
    ensures Scaled(n, e) == n * Pow10(e)
    decreases e
  {
    if e > 0 {
      ScaledUp(n * 10, e - 1);
      assert (n * 10) * Pow10(e - 1) == n * (10 * Pow10(e - 1));
    }
  }

  /** Scaling down by the length of the trailing digits drops them. */
  lemma {:induction false} ScaledDropsDigits(ds: string, fs: string)
    requires AllDigits(ds) && AllDigits(fs)
    ensures AllDigits(ds + fs)
    ensures Scaled(DigitsValue(ds + fs), -|fs|) == DigitsValue(ds)
  {
    if fs == [] {
      assert ds + fs == ds;
    } else {
      var init := fs[..|fs| - 1];
      var c := fs[|fs| - 1] as int - '0' as int;
      assert (ds + fs)[..|ds + fs| - 1] == ds + init;
      assert AllDigits(init) && 0 <= c < 10;
      ScaledDropsDigits(ds, init);
      var v := DigitsValue(ds + init);
      assert DigitsValue(ds + fs) == v * 10 + c;
      assert (v * 10 + c) / 10 == v;
    }
  }

  /** The digit run of a text is its first k characters when they are digits
      and no digit follows them. */
  lemma {:induction false} DigitRunUpTo(s: string, k: nat)
    requires k <= |s| && AllDigits(s[..k])
    requires k == |s| || !IsDigit(s[k])
    ensures DigitRun(s) == s[..k]
  {
    if k > 0 {
      assert IsDigit(s[..k][0]);
      assert s[1..][..k - 1] == s[..k][1..];
      DigitRunUpTo(s[1..], k - 1);
    }
  }

  lemma {:induction false} AccumulateSnoc(acc: nat, ds: string, c: char)
    requires AllDigits(ds) && IsDigit(c)
    ensures AllDigits(ds + [c])
    ensures Accumulate(acc, ds + [c]) == Accumulate(acc, ds) * 10 + DigitValue(c)
    decreases ds
  {
    if ds != [] {
      assert (ds + [c])[1..] == ds[1..] + [c];
      AccumulateSnoc(acc * 10 + DigitValue(ds[0]), ds[1..], c);
    }
  }

  /** Reading digits from the left gives their decimal value. */
  lemma {:induction false} AccumulateValue(ds: string)
    requires AllDigits(ds)
    ensures Accumulate(0, ds) == DigitsValue(ds)
  {
    if ds != [] {
      var init := ds[..|ds| - 1];
      assert ds == init + [ds[|ds| - 1]];
      AccumulateValue(init);
      AccumulateSnoc(0, init, ds[|ds| - 1]);
    }
  }

  lemma {:induction false} AccumulateAppend(acc: nat, a: string, b: string)
    requires AllDigits(a) && AllDigits(b)
    ensures AllDigits(a + b)
    ensures Accumulate(acc, a + b) == Accumulate(Accumulate(acc, a), b)
    decreases a
  {
    if a == [] {
      assert a + b == b;
    } else {
      assert (a + b)[1..] == a[1..] + b && (a + b)[0] == a[0];
      AccumulateAppend(acc * 10 + DigitValue(a[0]), a[1..], b);
    }
  }

  /** Reading k digits onto the mantissa. */
  lemma {:induction false} ScanDigits(s: string, k: nat, acc: nat, places: nat, point: bool)
    requires k <= |s| && AllDigits(s[..k])
    ensures ScanNumber(s, acc, places, point)
         == ScanNumber(s[k..], Accumulate(acc, s[..k]), if point then places + k else places, point)
    decreases k
  {
    if k > 0 {
      assert s[..k][0] == s[0];
      assert s[1..][..k - 1] == s[..k][1..];
      assert s[1..][k - 1..] == s[k..];
      ScanDigits(s[1..], k - 1, acc * 10 + DigitValue(s[0]), if point then places + 1 else places, point);
    }
  }

  /** A text that starts with a digit is read as an unsigned number. */
  lemma PhpIntUnsigned(s: string)
    requires s != [] && IsDigit(s[0])
    ensures PhpInt(s) == ScanNumber(s, 0, 0, false)
  {
    assert SkipSpace(s) == s;
  }

  /** A run of digits that no '.', exponent or further digit follows is read
      as that number. */
  lemma PhpIntOfInteger(s: string, k: nat)
    requires 0 < k <= |s| && AllDigits(s[..k])
    requires k == |s| || !(IsDigit(s[k]) || s[k] == '.' || s[k] == 'e' || s[k] == 'E')
    ensures PhpInt(s) == DigitsValue(s[..k])
  {
    assert s[..k][0] == s[0];
    PhpIntUnsigned(s);
    ScanDigits(s, k, 0, 0, false);
    assert ExponentValue(s[k..]) == 0;
    AccumulateValue(s[..k]);
  }

  /** From the point at k: the fraction digits up to m, and no exponent. */
  lemma ScanFraction(s: string, k: nat, m: nat, a: nat)
    requires k < m <= |s| && s[k] == '.' && AllDigits(s[k + 1..m])
    requires m == |s| || !(IsDigit(s[m]) || s[m] == 'e' || s[m] == 'E')
    ensures ScanNumber(s[k..], a, 0, false) == Scaled(Accumulate(a, s[k + 1..m]), -(m - k - 1))
  {
    assert s[k..][1..] == s[k + 1..];
    assert ScanNumber(s[k..], a, 0, false) == ScanNumber(s[k + 1..], a, 0, true);
    assert s[k + 1..][..m - k - 1] == s[k + 1..m] && s[k + 1..][m - k - 1..] == s[m..];
    ScanDigits(s[k + 1..], m - k - 1, a, 0, true);
    assert ExponentValue(s[m..]) == 0;
  }

  /** A fraction is cut off: digits, '.', digits are read as the whole part. */
  lemma PhpIntTruncatesFraction(s: string, k: nat, m: nat)
    requires 0 < k < m <= |s| && AllDigits(s[..k]) && s[k] == '.' && AllDigits(s[k + 1..m])
    requires m == |s| || !(IsDigit(s[m]) || s[m] == 'e' || s[m] == 'E')
    ensures PhpInt(s) == DigitsValue(s[..k])
  {
    var whole, frac := s[..k], s[k + 1..m];
    assert whole[0] == s[0];
    PhpIntUnsigned(s);
    ScanDigits(s, k, 0, 0, false);
    ScanFraction(s, k, m, Accumulate(0, whole));
    AccumulateAppend(0, whole, frac);
    AccumulateValue(whole + frac);
    ScaledDropsDigits(whole, frac);
  }

  /** The exponent digits from k + 1 up to m. */
  lemma ExponentDigits(s: string, k: nat, m: nat)
    requires k + 1 < m <= |s| && (s[k] == 'e' || s[k] == 'E')
    requires AllDigits(s[k + 1..m]) && (m == |s| || !IsDigit(s[m]))
    ensures ExponentValue(s[k..]) == DigitsValue(s[k + 1..m])
  {
    var u := s[k..][1..];
    assert u[0] == s[k + 1] && IsDigit(s[k + 1..m][0]);
    assert u[..m - k - 1] == s[k + 1..m];
    DigitRunUpTo(u, m - k - 1);
  }

  /** An exponent scales the mantissa (ScaledUp: by that power of ten), so
      "1e2" is read as 100. */
  lemma PhpIntOfExponent(s: string, k: nat, m: nat)
    requires 0 < k && k + 1 < m <= |s| && AllDigits(s[..k]) && (s[k] == 'e' || s[k] == 'E')
    requires AllDigits(s[k + 1..m]) && (m == |s| || !IsDigit(s[m]))
    ensures PhpInt(s) == Scaled(DigitsValue(s[..k]), DigitsValue(s[k + 1..m]))
  {
    assert s[..k][0] == s[0];
    PhpIntUnsigned(s);
    ScanDigits(s, k, 0, 0, false);
    ExponentDigits(s, k, m);
    AccumulateValue(s[..k]);
  }

  /** "1e2", as a number field may send it, is read as 100. */
  lemma PhpIntReadsExponent()
    ensures PhpInt("1e2") == 100
  {
    var s := "1e2";
    assert s[..1] == "1" && s[2..3] == "2";
    assert DigitsValue("1") == 1 && DigitsValue("2") == 2;
    PhpIntOfExponent(s, 1, 3);
    assert Scaled(1, 2) == 100;
  }

  /** "2.9" is read as 2. */
  lemma PhpIntReadsFraction()
    ensures PhpInt("2.9") == 2
  {
    var s := "2.9";
    assert s[..1] == "2" && s[2..3] == "9";
    assert DigitsValue("2") == 2;
    PhpIntTruncatesFraction(s, 1, 3);
  }
}

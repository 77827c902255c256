/** The password rule of post_changepassword.php and newuserpost.php, the
    pattern ^(?=.*[a-z])(?=.*[A-Z])(?=.*\d)(?=.*[^A-Za-z0-9]).{12,}$ as PCRE
    reads it without modifiers: it works on bytes, '.' matches any byte but a
    line feed, and '$' matches at the end or just before a final line feed.
    The password is not trimmed first. */
module Passwords {
  import opened Strings
  import opened Php

  /** The text before the first line feed. */
  function FirstLine(s: string): (r: string)
    ensures '\n' !in r
    ensures |r| <= |s| && r == s[..|r|]
    ensures |r| < |s| ==> s[|r|] == '\n'
  {
    match IndexOf(s, '\n')
    case None => s
    case Some(i) => s[..i]
  }

  predicate IsSymbol(c: char) { !IsAlnum(c) }

  predicate HasLower(s: string) { exists i :: 0 <= i < |s| && IsLowerAscii(s[i]) }
  predicate HasUpper(s: string) { exists i :: 0 <= i < |s| && IsUpperAscii(s[i]) }
  predicate HasDigit(s: string) { exists i :: 0 <= i < |s| && IsDigit(s[i]) }
  predicate HasSymbol(s: string) { exists i :: 0 <= i < |s| && IsSymbol(s[i]) }

  /** The pattern. Each look-ahead scans from the start without crossing a
      line feed, so its character lies in the first line, except that the
      symbol class also matches the line feed that ends it. The body needs 12
      or more bytes of that line, followed by the end or by one final line
      feed. */
  predicate MeetsPasswordPolicy(p: string) {
    var line := FirstLine(p);
    && (p == line || p == line + "\n")
    && Utf8Len(line) >= 12
    && HasLower(line) && HasUpper(line) && HasDigit(line)
    && (HasSymbol(line) || p != line)
  }

  /** The rule as the error message states it: at least 12 characters with a
      lower-case letter, an upper-case letter, a digit and a symbol. For a
      password of one line this is what the pattern checks, with the length
      counted in bytes. */
  lemma PolicyOnOneLine(p: string)
    requires '\n' !in p
    ensures MeetsPasswordPolicy(p) <==>
      Utf8Len(p) >= 12 && HasLower(p) && HasUpper(p) && HasDigit(p) && HasSymbol(p)
  {
    assert FirstLine(p) == p;
  }

  /** A final line feed stands in for the symbol: a one-line password with
      the three letter and digit classes and a line feed after it is
      accepted, whether or not it has a symbol. */
  lemma FinalLineFeedCountsAsSymbol(line: string)
    requires '\n' !in line
    ensures MeetsPasswordPolicy(line + "\n") <==>
      Utf8Len(line) >= 12 && HasLower(line) && HasUpper(line) && HasDigit(line)
  {
    var p := line + "\n";
    assert IndexOf(p, '\n') == Some(|line|) by {
      IndexOfAfter(line, '\n', "");
      assert line + ['\n'] + "" == p;
    }
    assert FirstLine(p) == line;
  }

  /** The first line of a password with a line feed anywhere but at the end
      is not the whole password, so the pattern fails. */
  lemma InnerLineFeedRejected(p: string, i: nat)
    requires i + 1 < |p| && p[i] == '\n'
    ensures !MeetsPasswordPolicy(p)
  {
    var line := FirstLine(p);
    assert forall j :: 0 <= j < |line| ==> p[j] == line[j] && line[j] != '\n';
  }

  /** "Abcdefghijk1" has no symbol and is refused. */
  lemma ExampleWithoutSymbolRefused()
    ensures !MeetsPasswordPolicy("Abcdefghijk1")
  {
    ExampleClasses();
    PolicyOnOneLine("Abcdefghijk1");
  }

  /** With a final line feed, "Abcdefghijk1" is accepted. */
  lemma ExampleWithLineFeedAccepted()
    ensures MeetsPasswordPolicy("Abcdefghijk1" + "\n")
  {
    ExampleClasses();
    FinalLineFeedCountsAsSymbol("Abcdefghijk1");
  }

  lemma ExampleClasses()
    ensures var line := "Abcdefghijk1";
      && '\n' !in line && Utf8Len(line) == 12
      && HasLower(line) && HasUpper(line) && HasDigit(line) && !HasSymbol(line)
  {
    ExampleLength();
    ExampleLetters();
  }

  lemma ExampleLength()
    ensures '\n' !in "Abcdefghijk1" && Utf8Len("Abcdefghijk1") == 12
  {
    var line := "Abcdefghijk1";
    assert IsAscii(line) && '\n' !in line by {
      ExampleAlnum();
    }
    Utf8LenBounds(line);
  }

  lemma ExampleLetters()
    ensures var line := "Abcdefghijk1";
      HasLower(line) && HasUpper(line) && HasDigit(line) && !HasSymbol(line)
  {
    var line := "Abcdefghijk1";
    assert IsLowerAscii(line[1]) && IsUpperAscii(line[0]) && IsDigit(line[11]);
    ExampleAlnum();
  }

  lemma ExampleAlnum()
    ensures var line := "Abcdefghijk1";
      forall i :: 0 <= i < |line| ==> IsAlnum(line[i]) && line[i] as int < 0x80
  {
  }

  /** An ASCII password of fewer than 12 characters is refused. */
  lemma ShortAsciiRejected(p: string)
    requires IsAscii(p) && |p| < 12
    ensures !MeetsPasswordPolicy(p)
  {
    var line := FirstLine(p);
    assert IsAscii(line) by {
      forall i | 0 <= i < |line| ensures line[i] as int < 0x80 {
        assert line[i] == p[i];
      }
    }
    Utf8LenBounds(line);
  }
}

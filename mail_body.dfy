/** The body side of includes/mailer.php: normalizeEmailBody, which turns any
    mixture of CRLF, CR and LF line ends into CRLF, and the dot-stuffing applied
    before DATA (section 4.5.2 of RFC 5321).

    The functions follow the PHP code step by step (two str_replace passes and
    two regex replacements, each scanning left to right). The properties are
    stated against an independent, line-level reading of a body: the list of
    its lines (SplitLines) joined with CRLF. */
module MailBody {
  import opened Strings

  const CRLF: string := "\r\n"

  /** A line holds neither CR nor LF. */
  predicate LineFree(l: string) {
    '\r' !in l && '\n' !in l
  }

  predicate AllLineFree(ls: seq<string>) {
    forall i :: 0 <= i < |ls| ==> LineFree(ls[i])
  }

  /** Every CR is immediately followed by LF and every LF immediately preceded by CR. */
  predicate IsCrLfText(s: string) {
    && (forall i :: 0 <= i < |s| && s[i] == '\r' ==> i + 1 < |s| && s[i + 1] == '\n')
    && (forall i :: 0 <= i < |s| && s[i] == '\n' ==> 0 < i && s[i - 1] == '\r')
  }

  // ---------------------------------------------------------------------------
  // normalizeEmailBody, as written

  /** str_replace("\r\n", "\n", ...): non-overlapping, left to right. */
  function CollapseCrLf(s: string): string
  {
    if |s| >= 2 && s[0] == '\r' && s[1] == '\n' then "\n" + CollapseCrLf(s[2..])
    else if s == [] then []
    else [s[0]] + CollapseCrLf(s[1..])
  }

  /** preg_replace('/\n/u', "\r\n", ...). */
  function LfToCrLf(s: string): string
  {
    if s == [] then []
    else if s[0] == '\n' then CRLF + LfToCrLf(s[1..])
    else [s[0]] + LfToCrLf(s[1..])
  }

  /** normalizeEmailBody: CRLF and then lone CR become LF, then every LF becomes CRLF. */
  function NormalizeEmailBody(body: string): string
  {
    LfToCrLf(ReplaceChars(CollapseCrLf(body), {'\r'}, '\n'))
  }

  // ---------------------------------------------------------------------------
  // Reference reading: a body is a list of lines

  /** The lines of a text, where CRLF, a lone CR and a lone LF each end a line.
      There is always at least one (possibly empty) line. */
  function SplitLines(s: string): (ls: seq<string>)
    ensures |ls| >= 1 && AllLineFree(ls)
  {
    if s == [] then [""]
    else if |s| >= 2 && s[0] == '\r' && s[1] == '\n' then [""] + SplitLines(s[2..])
    else if s[0] == '\r' || s[0] == '\n' then [""] + SplitLines(s[1..])
    else
      var rest := SplitLines(s[1..]);
      [[s[0]] + rest[0]] + rest[1..]
  }

  function JoinCrLf(ls: seq<string>): string
  {
    Join(ls, CRLF)
  }

  lemma JoinCons(l: string, ls: seq<string>)
    requires |ls| >= 1
    ensures JoinCrLf([l] + ls) == l + CRLF + JoinCrLf(ls)
  {
    assert ([l] + ls)[1..] == ls;
  }

  lemma JoinPrepend(c: string, ls: seq<string>)
    requires |ls| >= 1
    ensures JoinCrLf([c + ls[0]] + ls[1..]) == c + JoinCrLf(ls)
  {
    if |ls| > 1 {
      JoinCons(c + ls[0], ls[1..]);
      JoinCons(ls[0], ls[1..]);
      assert [ls[0]] + ls[1..] == ls;
    }
  }

  // one step of each pass of normalizeEmailBody

  lemma ReplaceCons(c: char, t: string, cs: set<char>, with: char)
    ensures ReplaceChars([c] + t, cs, with) == [if c in cs then with else c] + ReplaceChars(t, cs, with)
  {
  }

  lemma LfToCrLfCons(c: char, t: string)
    ensures LfToCrLf([c] + t) == (if c == '\n' then CRLF else [c]) + LfToCrLf(t)
  {
    assert ([c] + t)[1..] == t;
  }

  lemma NormalizeBreak(s: string, k: nat)
    requires k <= |s| && (k == 1 || k == 2)
    requires k == 2 ==> s[0] == '\r' && s[1] == '\n'
    requires k == 1 ==> (s[0] == '\n' || (s[0] == '\r' && !(|s| >= 2 && s[1] == '\n')))
    ensures NormalizeEmailBody(s) == CRLF + NormalizeEmailBody(s[k..])
  {
    var t := CollapseCrLf(s[k..]);
    if k == 2 {
      assert CollapseCrLf(s) == "\n" + t;
    } else {
      assert CollapseCrLf(s) == [s[0]] + t;
    }
    ReplaceCons(s[0], t, {'\r'}, '\n');
    ReplaceCons('\n', t, {'\r'}, '\n');
    LfToCrLfCons('\n', ReplaceChars(t, {'\r'}, '\n'));
  }

  lemma NormalizePlain(s: string)
    requires s != [] && s[0] != '\r' && s[0] != '\n'
    ensures NormalizeEmailBody(s) == [s[0]] + NormalizeEmailBody(s[1..])
  {
    var t := CollapseCrLf(s[1..]);
    assert CollapseCrLf(s) == [s[0]] + t;
    ReplaceCons(s[0], t, {'\r'}, '\n');
    LfToCrLfCons(s[0], ReplaceChars(t, {'\r'}, '\n'));
  }

  /** normalizeEmailBody is exactly "split into lines, join with CRLF". */
  lemma {:induction false} NormalizeIsJoinOfLines(s: string)
    ensures NormalizeEmailBody(s) == JoinCrLf(SplitLines(s))
    decreases |s|
  {
    if s == [] {
    } else if |s| >= 2 && s[0] == '\r' && s[1] == '\n' {
      NormalizeBreak(s, 2);
      NormalizeIsJoinOfLines(s[2..]);
      JoinCons("", SplitLines(s[2..]));
    } else if s[0] == '\r' || s[0] == '\n' {
      NormalizeBreak(s, 1);
      NormalizeIsJoinOfLines(s[1..]);
      JoinCons("", SplitLines(s[1..]));
    } else {
      NormalizePlain(s);
      NormalizeIsJoinOfLines(s[1..]);
      JoinPrepend([s[0]], SplitLines(s[1..]));
    }
  }

  lemma {:induction false} SplitLineFree(l: string)
    requires LineFree(l)
    ensures SplitLines(l) == [l]
  {
    if l != [] {
      assert l[0] in l;
      assert LineFree(l[1..]) by { assert forall c :: c in l[1..] ==> c in l; }
      SplitLineFree(l[1..]);
      assert [l[0]] + l[1..] == l;
    }
  }

  lemma {:induction false} SplitAfterLineFree(a: string, t: string)
    requires LineFree(a)
    ensures SplitLines(a + t) == [a + SplitLines(t)[0]] + SplitLines(t)[1..]
  {
    if a != [] {
      assert a[0] in a && (a + t)[0] == a[0];
      assert (a + t)[1..] == a[1..] + t;
      assert LineFree(a[1..]) by { assert forall c :: c in a[1..] ==> c in a; }
      SplitAfterLineFree(a[1..], t);
      var st := SplitLines(t);
      var rest := SplitLines(a[1..] + t);
      assert rest == [a[1..] + st[0]] + st[1..];
      assert rest[0] == a[1..] + st[0] && rest[1..] == st[1..];
      assert SplitLines(a + t) == [[a[0]] + rest[0]] + rest[1..];
      assert [a[0]] + (a[1..] + st[0]) == a + st[0];
    } else {
      assert a + t == t;
      assert a + SplitLines(t)[0] == SplitLines(t)[0];
      assert [SplitLines(t)[0]] + SplitLines(t)[1..] == SplitLines(t);
    }
  }

  /** Splitting undoes joining, for lines without CR or LF. */
  lemma {:induction false} SplitJoin(ls: seq<string>)
    requires |ls| >= 1 && AllLineFree(ls)
    ensures SplitLines(JoinCrLf(ls)) == ls
  {
    if |ls| == 1 {
      SplitJoinSingle(ls);
    } else {
      assert AllLineFree(ls[1..]);
      SplitJoin(ls[1..]);
      SplitJoinCons(ls);
    }
  }

  lemma SplitJoinSingle(ls: seq<string>)
    requires |ls| == 1 && LineFree(ls[0])
    ensures SplitLines(JoinCrLf(ls)) == ls
  {
    assert JoinCrLf(ls) == ls[0];
    SplitLineFree(ls[0]);
    assert [ls[0]] == ls;
  }

  lemma SplitJoinCons(ls: seq<string>)
    requires |ls| >= 2 && LineFree(ls[0]) && SplitLines(JoinCrLf(ls[1..])) == ls[1..]
    ensures SplitLines(JoinCrLf(ls)) == ls
  {
    var t := JoinCrLf(ls[1..]);
    JoinCons(ls[0], ls[1..]);
    assert [ls[0]] + ls[1..] == ls;
    SplitAfterBreak(t);
    var after := SplitLines(CRLF + t);
    assert after[0] == "" && after[1..] == ls[1..];
    assert ls[0] + CRLF + t == ls[0] + (CRLF + t);
    SplitAfterLineFree(ls[0], CRLF + t);
    assert ls[0] + "" == ls[0];
  }

  lemma SplitAfterBreak(t: string)
    ensures SplitLines(CRLF + t) == [""] + SplitLines(t)
  {
    var s := CRLF + t;
    assert s[0] == '\r' && s[1] == '\n' && s[2..] == t;
  }

  /** Every CR of a CRLF-joined list of line-free lines begins a CRLF and every LF ends one. */
  lemma {:induction false} JoinIsCrLfText(ls: seq<string>)
    requires |ls| >= 1 && AllLineFree(ls)
    ensures IsCrLfText(JoinCrLf(ls))
  {
    if |ls| == 1 {
      assert forall i :: 0 <= i < |ls[0]| ==> ls[0][i] in ls[0];
    } else {
      var l := ls[0];
      var t := JoinCrLf(ls[1..]);
      JoinIsCrLfText(ls[1..]);
      JoinCons(l, ls[1..]);
      assert [ls[0]] + ls[1..] == ls;
      var s := l + CRLF + t;
      assert LineFree(l) by { assert LineFree(ls[0]); }
      forall i | 0 <= i < |s|
        ensures (s[i] == '\r' ==> i + 1 < |s| && s[i + 1] == '\n')
        ensures (s[i] == '\n' ==> 0 < i && s[i - 1] == '\r')
      {
        if i < |l| {
          assert s[i] == l[i] && l[i] in l;
        } else if i == |l| {
          assert s[i] == '\r' && s[i + 1] == '\n';
        } else if i == |l| + 1 {
          assert s[i] == '\n' && s[i - 1] == '\r';
        } else {
          var j := i - |l| - 2;
          assert s[i] == t[j];
          CrLfAt(t, j);
          if j + 1 < |t| { assert s[i + 1] == t[j + 1]; }
          if j > 0 { assert s[i - 1] == t[j - 1]; }
        }
      }
    }
  }

  /** After normalizeEmailBody every CR begins a CRLF and every LF ends one. */
  lemma NormalizedIsCrLfText(s: string)
    ensures IsCrLfText(NormalizeEmailBody(s))
  {
    NormalizeIsJoinOfLines(s);
    JoinIsCrLfText(SplitLines(s));
  }

  /** Normalising keeps the lines: the normalised body has the same lines as the input. */
  lemma NormalizeKeepsLines(s: string)
    ensures SplitLines(NormalizeEmailBody(s)) == SplitLines(s)
  {
    NormalizeIsJoinOfLines(s);
    SplitJoin(SplitLines(s));
  }

  /** Applying normalizeEmailBody twice is the same as applying it once. */
  lemma NormalizeIdempotent(s: string)
    ensures NormalizeEmailBody(NormalizeEmailBody(s)) == NormalizeEmailBody(s)
  {
    NormalizeIsJoinOfLines(s);
    NormalizeIsJoinOfLines(NormalizeEmailBody(s));
    NormalizeKeepsLines(s);
  }

  /** Text without CR or LF is left unchanged. */
  lemma NormalizeSingleLine(s: string)
    requires LineFree(s)
    ensures NormalizeEmailBody(s) == s
  {
    NormalizeIsJoinOfLines(s);
    SplitLineFree(s);
  }

  /** Text that is already CRLF-only is left unchanged. */
  lemma NormalizeCanonical(s: string)
    requires IsCrLfText(s)
    ensures NormalizeEmailBody(s) == s
  {
    CrLfTextIsJoin(s);
    NormalizeIsJoinOfLines(s);
  }

  lemma CrLfAt(s: string, i: int)
    requires IsCrLfText(s) && 0 <= i < |s|
    ensures s[i] == '\r' ==> i + 1 < |s| && s[i + 1] == '\n'
    ensures s[i] == '\n' ==> 0 < i && s[i - 1] == '\r'
  {
  }

  lemma {:induction false} CrLfTextIsJoin(s: string)
    requires IsCrLfText(s)
    ensures JoinCrLf(SplitLines(s)) == s
    decreases |s|
  {
    if s == [] {
    } else if |s| >= 2 && s[0] == '\r' && s[1] == '\n' {
      assert IsCrLfText(s[2..]) by {
        forall i | 0 <= i < |s[2..]|
          ensures (s[2..][i] == '\r' ==> i + 1 < |s[2..]| && s[2..][i + 1] == '\n')
          ensures (s[2..][i] == '\n' ==> 0 < i && s[2..][i - 1] == '\r')
        {
          CrLfAt(s, i + 2);
          assert s[2..][i] == s[i + 2];
          if i + 1 < |s[2..]| { assert s[2..][i + 1] == s[i + 3]; }
          if i > 0 { assert s[2..][i - 1] == s[i + 1]; }
        }
      }
      CrLfTextIsJoin(s[2..]);
      JoinCons("", SplitLines(s[2..]));
    } else {
      CrLfAt(s, 0);
      assert IsCrLfText(s[1..]) by {
        forall i | 0 <= i < |s[1..]|
          ensures (s[1..][i] == '\r' ==> i + 1 < |s[1..]| && s[1..][i + 1] == '\n')
          ensures (s[1..][i] == '\n' ==> 0 < i && s[1..][i - 1] == '\r')
        {
          CrLfAt(s, i + 1);
          assert s[1..][i] == s[i + 1];
          if i + 1 < |s[1..]| { assert s[1..][i + 1] == s[i + 2]; }
          if i > 0 { assert s[1..][i - 1] == s[i]; }
        }
      }
      CrLfTextIsJoin(s[1..]);
      JoinPrepend([s[0]], SplitLines(s[1..]));
    }
  }

  // ---------------------------------------------------------------------------
  // Dot-stuffing, as written: preg_replace('/(^|\r\n)\./', '$1..', $body)

  /** The scan after the start of the text: every "\r\n." becomes "\r\n..". */
  function StuffFrom(s: string): string
  {
    if |s| >= 3 && s[0] == '\r' && s[1] == '\n' && s[2] == '.' then "\r\n.." + StuffFrom(s[3..])
    else if s == [] then []
    else [s[0]] + StuffFrom(s[1..])
  }

  /** A leading '.' of the whole text is doubled too (the `^` alternative). */
  function DotStuff(s: string): string
  {
    if |s| >= 1 && s[0] == '.' then ".." + StuffFrom(s[1..]) else StuffFrom(s)
  }

  /** Line-level reading of dot-stuffing: a line starting with '.' gets one more. */
  function EscapeLine(l: string): string
  {
    if |l| > 0 && l[0] == '.' then "." + l else l
  }

  /** The receiving side: drop one leading '.' from a dot-led line. */
  function UnescapeLine(l: string): string
  {
    if |l| > 0 && l[0] == '.' then l[1..] else l
  }

  function EscapeLines(ls: seq<string>): (r: seq<string>)
    ensures |r| == |ls|
  {
    seq(|ls|, i requires 0 <= i < |ls| => EscapeLine(ls[i]))
  }

  function UnescapeLines(ls: seq<string>): (r: seq<string>)
    ensures |r| == |ls|
  {
    seq(|ls|, i requires 0 <= i < |ls| => UnescapeLine(ls[i]))
  }

  lemma {:induction false} StuffLineFree(a: string, t: string)
    requires '\r' !in a
    ensures StuffFrom(a + t) == a + StuffFrom(t)
  {
    if a != [] {
      var s := a + t;
      assert s[0] == a[0] && a[0] in a;
      assert s[1..] == a[1..] + t;
      assert '\r' !in a[1..] by { assert forall c :: c in a[1..] ==> c in a; }
      StuffLineFree(a[1..], t);
      assert StuffFrom(s) == [a[0]] + StuffFrom(s[1..]);
      assert [a[0]] + (a[1..] + StuffFrom(t)) == a + StuffFrom(t);
    } else {
      assert a + t == t;
    }
  }

  lemma StuffAfterBreak(t: string)
    ensures StuffFrom(CRLF + t) == CRLF + DotStuff(t)
  {
    var s := CRLF + t;
    if |t| >= 1 && t[0] == '.' {
      assert s[3..] == t[1..];
    } else {
      assert s[1..] == "\n" + t;
      assert ("\n" + t)[1..] == t;
    }
  }

  lemma EscapeLineFree(l: string)
    requires LineFree(l)
    ensures LineFree(EscapeLine(l)) && DotStuff(l) == EscapeLine(l)
  {
    if |l| > 0 && l[0] == '.' {
      assert '\r' !in l[1..] by { assert forall c :: c in l[1..] ==> c in l; }
      StuffLineFree(l[1..], []);
      assert l[1..] + [] == l[1..];
      assert "." + l == ".." + l[1..];
    } else {
      StuffLineFree(l, []);
      assert l + [] == l;
    }
  }

  lemma DotStuffLine(l: string, t: string)
    requires LineFree(l)
    ensures DotStuff(l + CRLF + t) == EscapeLine(l) + CRLF + DotStuff(t)
  {
    StuffAfterBreak(t);
    var u := CRLF + t;
    assert l + CRLF + t == l + u;
    if l == [] {
      assert l + u == u;
      assert u[0] == '\r';
    } else if l[0] == '.' {
      DotLedLine(l, u);
    } else {
      assert (l + u)[0] == l[0];
      StuffLineFree(l, u);
    }
  }

  lemma DotLedLine(l: string, u: string)
    requires LineFree(l) && |l| > 0 && l[0] == '.'
    ensures DotStuff(l + u) == EscapeLine(l) + StuffFrom(u)
  {
    var s := l + u;
    assert s[0] == '.';
    assert s[1..] == l[1..] + u;
    assert '\r' !in l[1..] by { assert forall c :: c in l[1..] ==> c in l; }
    StuffLineFree(l[1..], u);
    assert DotStuff(s) == ".." + StuffFrom(s[1..]);
    DoubledDot(l);
    AppendAssoc("..", l[1..], StuffFrom(u));
  }

  lemma DoubledDot(l: string)
    requires |l| > 0 && l[0] == '.'
    ensures ".." + l[1..] == "." + l
  {
    assert l == [l[0]] + l[1..];
  }

  lemma AppendAssoc(a: string, b: string, c: string)
    ensures a + (b + c) == (a + b) + c
  {
  }

  /** Dot-stuffing a CRLF-joined body escapes each line on its own and touches nothing else. */
  lemma {:induction false} StuffJoin(ls: seq<string>)
    requires |ls| >= 1 && AllLineFree(ls)
    ensures DotStuff(JoinCrLf(ls)) == JoinCrLf(EscapeLines(ls))
  {
    if |ls| == 1 {
      EscapeLineFree(ls[0]);
    } else {
      var rest := ls[1..];
      assert DotStuff(JoinCrLf(ls)) == EscapeLine(ls[0]) + CRLF + DotStuff(JoinCrLf(rest)) by {
        JoinCons(ls[0], rest);
        assert [ls[0]] + rest == ls;
        DotStuffLine(ls[0], JoinCrLf(rest));
      }
      assert AllLineFree(rest) by {
        forall i | 0 <= i < |rest| ensures LineFree(rest[i]) { assert rest[i] == ls[i + 1]; }
      }
      StuffJoin(rest);
      assert JoinCrLf(EscapeLines(ls)) == EscapeLine(ls[0]) + CRLF + JoinCrLf(EscapeLines(rest)) by {
        assert EscapeLines(ls) == [EscapeLine(ls[0])] + EscapeLines(rest);
        JoinCons(EscapeLine(ls[0]), EscapeLines(rest));
      }
    }
  }

  lemma EscapeLinesFree(ls: seq<string>)
    requires AllLineFree(ls)
    ensures AllLineFree(EscapeLines(ls))
  {
    forall i | 0 <= i < |ls| ensures LineFree(EscapeLines(ls)[i]) {
      EscapeLineFree(ls[i]);
    }
  }

  /** The escaped form of a line is never the lone "." that ends DATA. */
  lemma EscapedLineNotTerminator(l: string)
    ensures EscapeLine(l) != "."
  {
    if |l| > 0 && l[0] == '.' {
      assert |EscapeLine(l)| >= 2;
    }
  }

  /** Dot-stuffing of the normalised body, as buildSmtpMessage applies it:
      its lines are the body's lines with a leading '.' doubled; dropping one
      leading '.' from every dot-led line gives the normalised body back; and
      no line of it is exactly ".". */
  lemma StuffedBody(body: string)
    ensures var n := NormalizeEmailBody(body);
      var st := DotStuff(n);
      && st == JoinCrLf(EscapeLines(SplitLines(body)))
      && SplitLines(st) == EscapeLines(SplitLines(n))
      && JoinCrLf(UnescapeLines(SplitLines(st))) == n
      && (forall i :: 0 <= i < |SplitLines(st)| ==> SplitLines(st)[i] != ".")
  {
    var ls := SplitLines(body);
    var n := NormalizeEmailBody(body);
    NormalizeIsJoinOfLines(body);
    NormalizeKeepsLines(body);
    StuffJoin(ls);
    EscapeLinesFree(ls);
    SplitJoin(EscapeLines(ls));
    var st := DotStuff(n);
    assert UnescapeLines(EscapeLines(ls)) == ls;
    forall i | 0 <= i < |ls| ensures SplitLines(st)[i] != "." {
      EscapedLineNotTerminator(ls[i]);
    }
  }
}

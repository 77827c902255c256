/** Properties of the SMTP session of includes/mailer.php, stated over the
    specification functions that the imperative session is proved to follow. */
module SmtpProperties {
  import opened Strings
  import opened MailBody
  import opened MailHeaders
  import opened Smtp

  // ---------------------------------------------------------------------------
  // smtpReadResponse: where a reply ends

  /** How many lines smtpReadResponse consumes. */
  function ReplyLength(lines: seq<string>): (n: nat)
    ensures n <= |lines|
  {
    if lines == [] then 0
    else if IsFinalLine(lines[0]) then 1
    else 1 + ReplyLength(lines[1..])
  }

  /** The reply is the first n lines exactly when all but the last of them are
      continuation lines and, unless the input ran out, the last is final. */
  predicate ReplyEnds(lines: seq<string>, n: nat) {
    && n <= |lines|
    && (forall j :: 0 <= j < n - 1 ==> !IsFinalLine(lines[j]))
    && (n < |lines| ==> 0 < n && IsFinalLine(lines[n - 1]))
  }

  lemma {:induction false} ReplyEndsMeaning(lines: seq<string>, n: nat)
    ensures ReplyEnds(lines, n) <==> n == ReplyLength(lines)
  {
    if lines != [] {
      if IsFinalLine(lines[0]) {
        if ReplyEnds(lines, n) {
          assert n != 0;
        }
      } else {
        ReplyEndsMeaning(lines[1..], ReplyLength(lines[1..]));
        if n == ReplyLength(lines) {
          assert ReplyEnds(lines[1..], n - 1);
          forall j | 0 <= j < n - 1 ensures !IsFinalLine(lines[j]) {
            if j > 0 { assert lines[j] == lines[1..][j - 1]; }
          }
        }
        if ReplyEnds(lines, n) {
          assert n != 0;
          forall j | 0 <= j < n - 2 ensures !IsFinalLine(lines[1..][j]) {
            assert lines[1..][j] == lines[j + 1];
          }
          assert ReplyEnds(lines[1..], n - 1);
          ReplyEndsMeaning(lines[1..], n - 1);
        }
      }
    }
  }

  function ConcatLines(ls: seq<string>): string {
    if ls == [] then "" else ls[0] + ConcatLines(ls[1..])
  }

  function LineEvents(ls: seq<string>): (es: seq<Event>)
    ensures |es| == |ls|
  {
    if ls == [] then [] else [Line(ls[0])] + LineEvents(ls[1..])
  }

  lemma ConcatLinesCons(l: string, ls: seq<string>)
    ensures ConcatLines([l] + ls) == l + ConcatLines(ls)
    ensures LineEvents([l] + ls) == [Line(l)] + LineEvents(ls)
  {
    assert ([l] + ls)[1..] == ls;
  }

  /** What smtpReadResponse does to a wire: it consumes exactly the lines of
      one reply, returns their concatenation, and records each line in the
      transcript. */
  predicate ReadsOneReply(w: Wire, r: (string, Wire)) {
    var n := ReplyLength(w.replies);
    && r.0 == ConcatLines(w.replies[..n])
    && r.1.replies == w.replies[n..]
    && r.1.log == w.log + LineEvents(w.replies[..n])
    && r.1.writeBudget == w.writeBudget && r.1.tlsAvailable == w.tlsAvailable && r.1.closed == w.closed
  }

  lemma ReadContinued(w: Wire)
    requires w.replies != [] && !IsFinalLine(w.replies[0])
    requires ReadsOneReply(AfterRead(w), ReadReply(AfterRead(w)))
    ensures ReadsOneReply(w, ReadReply(w))
  {
    var l := w.replies[0];
    var w1 := AfterRead(w);
    var n1 := ReplyLength(w1.replies);
    var part := w1.replies[..n1];
    ReadStep(w);
    ReplySplit(w.replies, n1);
    ConcatLinesCons(l, part);
    LogStep(w.log, Line(l), LineEvents(part));
  }

  /** Reading a continuation line and then the rest of the reply. */
  lemma ReadStep(w: Wire)
    requires w.replies != [] && !IsFinalLine(w.replies[0])
    ensures var w1 := AfterRead(w);
      && w1.replies == w.replies[1..] && w1.log == w.log + [Line(w.replies[0])]
      && w1.writeBudget == w.writeBudget && w1.tlsAvailable == w.tlsAvailable && w1.closed == w.closed
      && ReplyLength(w.replies) == 1 + ReplyLength(w1.replies)
      && ReadReply(w).0 == w.replies[0] + ReadReply(w1).0 && ReadReply(w).1 == ReadReply(w1).1
  {
  }

  lemma ReplySplit(lines: seq<string>, n1: nat)
    requires lines != [] && n1 <= |lines| - 1
    ensures lines[..1 + n1] == [lines[0]] + lines[1..][..n1]
    ensures lines[1..][n1..] == lines[1 + n1..]
  {
  }

  lemma LogStep(log: seq<Event>, e: Event, rest: seq<Event>)
    ensures log + [e] + rest == log + ([e] + rest)
  {
  }

  lemma ReadEmpty(w: Wire)
    requires w.replies == []
    ensures ReadsOneReply(w, ReadReply(w))
  {
    assert ReplyLength(w.replies) == 0;
    assert w.replies[..0] == [];
    assert w.log + LineEvents([]) == w.log;
  }

  lemma ReadFinal(w: Wire)
    requires w.replies != [] && IsFinalLine(w.replies[0])
    ensures ReadsOneReply(w, ReadReply(w))
  {
    assert w.replies[..1] == [w.replies[0]] + [];
    ConcatLinesCons(w.replies[0], []);
  }

  lemma {:induction false} ReadReplyShape(w: Wire)
    ensures ReadsOneReply(w, ReadReply(w))
    decreases |w.replies|
  {
    if w.replies == [] {
      ReadEmpty(w);
    } else if IsFinalLine(w.replies[0]) {
      ReadFinal(w);
    } else {
      ReadReplyShape(AfterRead(w));
      ReadContinued(w);
    }
  }

  // ---------------------------------------------------------------------------
  // smtpExpectCodes: what an accepted code says about the reply

  lemma {:induction false} ScaledZero(e: int)
    ensures Scaled(0, e) == 0
    decreases if e < 0 then -e else e
  {
    if e > 0 {
      ScaledZero(e - 1);
    } else if e < 0 {
      ScaledZero(e + 1);
    }
  }

  lemma {:induction false} ScaledNoMore(n: nat, e: int)
    requires e <= 0
    ensures Scaled(n, e) <= n
    decreases -e
  {
    if e < 0 {
      ScaledNoMore(n / 10, e + 1);
    }
  }

  /** At most one character left: no exponent, at most one more digit. */
  lemma ScanOne(u: string, acc: nat, places: nat, point: bool)
    requires |u| <= 1
    ensures ScanNumber(u, acc, places, point) <= acc * 10 + 9
  {
    if u != [] && IsDigit(u[0]) {
      ScanNoExponent(u[1..], acc * 10 + DigitValue(u[0]), if point then places + 1 else places, point);
    } else if u != [] && u[0] == '.' && !point {
      ScanNoExponent(u[1..], acc, places, true);
    } else {
      ScanNoExponent(u, acc, places, point);
    }
  }

  lemma ScanNoExponent(u: string, acc: nat, places: nat, point: bool)
    requires |u| <= 1 && (u == [] || !IsDigit(u[0]))
    requires u == [] || u[0] != '.' || point
    ensures ScanNumber(u, acc, places, point) <= acc
  {
    assert ExponentValue(u) == 0;
    ScaledNoMore(acc, -(places as int));
  }

  /** Two characters hold no number of 100 or more. */
  lemma ScanTwo(u: string, places: nat, point: bool)
    requires |u| <= 2
    ensures ScanNumber(u, 0, places, point) < 100
  {
    if u != [] && IsDigit(u[0]) {
      ScanOne(u[1..], DigitValue(u[0]), if point then places + 1 else places, point);
    } else if u != [] && u[0] == '.' && !point {
      ScanOne(u[1..], 0, places, true);
    } else {
      ScaledZero(ExponentValue(u) - places);
    }
  }

  /** Three characters hold a number of 100 or more only as three digits or
      as a digit, an exponent mark and a digit. */
  lemma ScanThree(u: string)
    requires |u| == 3
    ensures ScanNumber(u, 0, 0, false) >= 100 ==>
      IsDigit(u[0]) && IsDigit(u[2]) && (IsDigit(u[1]) || u[1] == 'e' || u[1] == 'E')
  {
    if u[0] == '.' {
      ScanTwo(u[1..], 0, true);
    } else if !IsDigit(u[0]) {
      ScaledZero(ExponentValue(u));
    } else {
      var d := DigitValue(u[0]);
      var v := u[1..];
      assert ScanNumber(u, 0, 0, false) == ScanNumber(v, d, 0, false);
      if IsDigit(v[0]) {
        var w := v[1..];
        assert ScanNumber(v, d, 0, false) == ScanNumber(w, d * 10 + DigitValue(v[0]), 0, false);
        if !IsDigit(w[0]) {
          ScanOne(w, d * 10 + DigitValue(v[0]), 0, false);
          if w[0] == '.' {
            assert ScanNumber(w, d * 10 + DigitValue(v[0]), 0, false) == ScanNumber([], d * 10 + DigitValue(v[0]), 0, true);
          } else {
            ScanNoExponent(w, d * 10 + DigitValue(v[0]), 0, false);
          }
        }
      } else if v[0] == '.' {
        ScanOne(v[1..], d, 0, true);
      } else if (v[0] == 'e' || v[0] == 'E') && !IsDigit(v[1]) {
        assert ExponentValue(v) == 0;
      } else if v[0] != 'e' && v[0] != 'E' {
        assert ExponentValue(v) == 0;
      }
    }
  }

  /** A digit scaled to 100 or more is a multiple of 100. */
  lemma RoundScaledDigit(d: nat, x: nat)
    requires d < 10 && Scaled(d, x) >= 100
    ensures Scaled(d, x) % 100 == 0
  {
    if x >= 2 {
      assert Scaled(d, x) == Scaled(d * 10, x - 1) == Scaled(d * 100, x - 2);
      ScaledKeepsHundreds(d * 100, x - 2);
    }
  }

  /** Scaling a multiple of 100 up keeps it a multiple of 100. */
  lemma {:induction false} ScaledKeepsHundreds(n: nat, e: nat)
    requires n % 100 == 0
    ensures Scaled(n, e) % 100 == 0
    decreases e
  {
    if e > 0 {
      ScaledKeepsHundreds(n * 10, e - 1);
    }
  }

  /** Three characters read as 100 or more: three digits, or a digit, an
      exponent mark and a digit, read as a multiple of 100. */
  lemma HeadCode(p: string)
    requires |p| <= 3
    ensures PhpInt(p) >= 100 ==>
      && |p| == 3 && IsDigit(p[0]) && IsDigit(p[2])
      && ((AllDigits(p) && PhpInt(p) == DigitsValue(p))
          || ((p[1] == 'e' || p[1] == 'E')
              && PhpInt(p) == Scaled(DigitValue(p[0]), DigitValue(p[2])) && PhpInt(p) % 100 == 0))
  {
    if |p| == 3 && IsDigit(p[0]) {
      PhpIntUnsigned(p);
      ScanThree(p);
      if PhpInt(p) >= 100 {
        if IsDigit(p[1]) {
          HeadDigits(p);
        } else {
          HeadExponent(p);
        }
      }
    } else {
      HeadSmall(p);
    }
  }

  /** Without three characters led by a digit, the number is below 100. */
  lemma HeadSmall(p: string)
    requires |p| <= 3 && !(|p| == 3 && IsDigit(p[0]))
    ensures PhpInt(p) < 100
  {
    var t := SkipSpace(p);
    var signed := t != [] && (t[0] == '-' || t[0] == '+');
    var u := if signed then t[1..] else t;
    if |u| <= 2 {
      ScanTwo(u, 0, false);
    } else {
      assert u == p;
      ScanThree(p);
    }
  }

  lemma HeadDigits(p: string)
    requires |p| == 3 && IsDigit(p[0]) && IsDigit(p[1]) && IsDigit(p[2])
    ensures AllDigits(p) && PhpInt(p) == DigitsValue(p)
  {
    assert p[..3] == p;
    PhpIntOfInteger(p, 3);
  }

  lemma HeadExponent(p: string)
    requires |p| == 3 && IsDigit(p[0]) && (p[1] == 'e' || p[1] == 'E') && IsDigit(p[2])
    ensures PhpInt(p) == Scaled(DigitValue(p[0]), DigitValue(p[2]))
    ensures PhpInt(p) >= 100 ==> PhpInt(p) % 100 == 0
  {
    assert AllDigits(p[..1]) && AllDigits(p[2..3]);
    PhpIntOfExponent(p, 1, 3);
    assert DigitsValue(p[..1]) == DigitValue(p[0]) by {
      assert p[..1][..0] == [];
    }
    assert DigitsValue(p[2..3]) == DigitValue(p[2]) by {
      assert p[2..3][..0] == [];
    }
    if PhpInt(p) >= 100 {
      RoundScaledDigit(DigitValue(p[0]), DigitValue(p[2]));
    }
  }

  /** A reply code of at least 100 comes from the reply's first three
      characters: three digits, read as their value, or a digit, 'e' or 'E'
      and a digit, read as the first digit scaled by the power of ten the
      last one names ("2e2" is read as 200, a multiple of 100). So a code of
      at least 100 that is no multiple of 100 comes from three digits. */
  lemma CodeShape(response: string)
    ensures ReplyCode(response) >= 100 ==>
      && |response| >= 3 && IsDigit(response[0]) && IsDigit(response[2])
      && ((AllDigits(response[..3]) && ReplyCode(response) == DigitsValue(response[..3]))
          || ((response[1] == 'e' || response[1] == 'E')
              && ReplyCode(response) == Scaled(DigitValue(response[0]), DigitValue(response[2]))))
    ensures ReplyCode(response) >= 100 && ReplyCode(response) % 100 != 0 ==>
      |response| >= 3 && AllDigits(response[..3]) && DigitsValue(response[..3]) == ReplyCode(response)
  {
    var p := if |response| <= 3 then response else response[..3];
    HeadCode(p);
    if ReplyCode(response) >= 100 {
      assert p == response[..3];
    }
  }

  /** smtpExpectCodes: an empty reply fails; otherwise it succeeds exactly when
      the code is expected, and for three-digit codes that means the reply
      starts with those three digits. */
  lemma ExpectMeaning(w: Wire, codes: set<int>, tag: Tag)
    ensures var reply := ReadReply(w).0;
      && (ExpectStep(w, codes, tag).failure.None? <==> reply != "" && ReplyCode(reply) in codes)
      && (reply == "" ==> ExpectStep(w, codes, tag).failure == Some(EmptyReply(tag)))
      && (ExpectStep(w, codes, tag).failure.None? && (forall c :: c in codes ==> 100 <= c && c % 100 != 0) ==>
            |reply| >= 3 && AllDigits(reply[..3]) && DigitsValue(reply[..3]) in codes)
  {
    CodeShape(ReadReply(w).0);
  }

  // ---------------------------------------------------------------------------
  // The transcript: what the session writes, in which order, and how it ends

  predicate NoShut(log: seq<Event>) {
    forall i :: 0 <= i < |log| ==> log[i] != Shut
  }

  predicate NoHelo(log: seq<Event>) {
    forall i :: 0 <= i < |log| ==> !(log[i].Sent? && log[i].tag.Helo?)
  }

  /** The text of the reply lines among some events. */
  function LineTexts(es: seq<Event>): string {
    if es == [] then "" else (if es[0].Line? then es[0].text else "") + LineTexts(es[1..])
  }

  /** A reply that smtpExpectCodes would not accept for EHLO. */
  predicate Rejected(reply: string) {
    reply == "" || ReplyCode(reply) != 250
  }

  /** The HELO at position i follows the EHLO of the same round, with only that
      EHLO's rejected reply in between. */
  predicate HeloFollowsRejectedEhlo(log: seq<Event>, i: int)
    requires 0 <= i < |log| && log[i].Sent? && log[i].tag.Helo?
  {
    exists j :: 0 <= j < i && RejectedEhloAt(log, j, i, log[i].tag.round)
  }

  /** The EHLO of `round` was sent at j and the events up to i are its
      rejected reply. */
  predicate RejectedEhloAt(log: seq<Event>, j: int, i: int, round: nat) {
    && 0 <= j < i <= |log| && log[j].Sent? && log[j].tag == Ehlo(round)
    && (forall m :: j < m < i ==> log[m].Line?) && Rejected(LineTexts(log[j + 1..i]))
  }

  predicate HeloGuarded(log: seq<Event>) {
    forall i :: 0 <= i < |log| && log[i].Sent? && log[i].tag.Helo? ==> HeloFollowsRejectedEhlo(log, i)
  }

  /** The Sent tags other than HELO: the steps of the fixed order. */
  function Milestones(log: seq<Event>): seq<Tag> {
    if log == [] then []
    else Milestones(log[..|log| - 1]) + (var e := log[|log| - 1]; if e.Sent? && !e.tag.Helo? then [e.tag] else [])
  }

  lemma {:induction false} MilestonesAppend(a: seq<Event>, b: seq<Event>)
    ensures Milestones(a + b) == Milestones(a) + Milestones(b)
    decreases |b|
  {
    if b == [] {
      assert a + b == a;
    } else {
      var b' := b[..|b| - 1];
      assert (a + b)[..|a + b| - 1] == a + b';
      MilestonesAppend(a, b');
    }
  }

  lemma {:induction false} LineEventsAt(ls: seq<string>, i: int)
    requires 0 <= i < |ls|
    ensures LineEvents(ls)[i] == Line(ls[i])
  {
    if i > 0 {
      LineEventsAt(ls[1..], i - 1);
    }
  }

  /** Reply lines are quiet: no milestone, no close, no HELO. */
  lemma {:induction false} LineEventsQuiet(ls: seq<string>)
    ensures Milestones(LineEvents(ls)) == []
    ensures NoShut(LineEvents(ls)) && NoHelo(LineEvents(ls))
    ensures LineTexts(LineEvents(ls)) == ConcatLines(ls)
    ensures forall i :: 0 <= i < |ls| ==> LineEvents(ls)[i].Line?
    decreases |ls|
  {
    if ls != [] {
      LineEventsQuiet(ls[1..]);
      MilestonesAppend([Line(ls[0])], LineEvents(ls[1..]));
      assert Milestones([Line(ls[0])]) == [];
      assert LineEvents(ls)[1..] == LineEvents(ls[1..]);
    }
    forall i | 0 <= i < |ls| ensures LineEvents(ls)[i] == Line(ls[i]) {
      LineEventsAt(ls, i);
    }
  }

  /** Appending events that close nothing keeps the transcript free of closes. */
  lemma AppendNoShut(log: seq<Event>, d: seq<Event>)
    requires NoShut(log) && NoShut(d)
    ensures NoShut(log + d)
  {
    var l := log + d;
    forall i | 0 <= i < |l| ensures l[i] != Shut {
      if i >= |log| { assert l[i] == d[i - |log|]; }
    }
  }

  /** One HELO stays guarded when events are appended after it. */
  lemma GuardKept(log: seq<Event>, d: seq<Event>, i: int)
    requires 0 <= i < |log| && log[i].Sent? && log[i].tag.Helo?
    requires HeloFollowsRejectedEhlo(log, i)
    ensures (log + d)[i] == log[i]
    ensures HeloFollowsRejectedEhlo(log + d, i)
  {
    var j :| RejectedEhloAt(log, j, i, log[i].tag.round);
    RejectedEhloKept(log, d, j, i, log[i].tag.round);
  }

  lemma RejectedEhloKept(log: seq<Event>, d: seq<Event>, j: int, i: int, round: nat)
    requires RejectedEhloAt(log, j, i, round)
    ensures RejectedEhloAt(log + d, j, i, round)
  {
    var l := log + d;
    assert l[j + 1..i] == log[j + 1..i];
    assert l[j] == log[j];
    forall m | j < m < i ensures l[m].Line? { assert l[m] == log[m]; }
  }

  /** Appending events that send no HELO keeps every HELO guarded. */
  lemma AppendGuarded(log: seq<Event>, d: seq<Event>)
    requires HeloGuarded(log) && NoHelo(d)
    ensures HeloGuarded(log + d)
  {
    var l := log + d;
    forall i | 0 <= i < |log| && log[i].Sent? && log[i].tag.Helo? ensures HeloFollowsRejectedEhlo(l, i) {
      GuardKept(log, d, i);
    }
    forall i | |log| <= i < |l| ensures !(l[i].Sent? && l[i].tag.Helo?) {
      assert l[i] == d[i - |log|];
    }
  }

  /** A HELO sent right after an EHLO and its rejected reply is guarded. */
  lemma AddHelo(log: seq<Event>, round: nat, ehlo: string, x: seq<string>, helo: string)
    requires HeloGuarded(log) && Rejected(ConcatLines(x))
    ensures HeloGuarded(log + [Sent(Ehlo(round), ehlo)] + LineEvents(x) + [Sent(Helo(round), helo)])
  {
    var d := Exchange(Ehlo(round), ehlo, x);
    var l1 := log + d;
    var l2 := l1 + [Sent(Helo(round), helo)];
    assert HeloGuarded(l1) by {
      ExchangeQuiet(Ehlo(round), ehlo, x);
      AppendGuarded(log, d);
    }
    assert HeloGuarded(l2) by {
      assert l1[|log|] == Sent(Ehlo(round), ehlo) && l1[|log| + 1..] == LineEvents(x) by {
        assert l1[|log|..] == d;
      }
      LastHeloGuarded(l1, |log|, round, ehlo, x, helo);
      AppendOneHelo(l1, Sent(Helo(round), helo), |log|);
    }
    assert log + [Sent(Ehlo(round), ehlo)] + LineEvents(x) + [Sent(Helo(round), helo)] == l2;
  }

  /** A HELO appended after its EHLO's rejected reply keeps every HELO
      guarded. */
  lemma AppendOneHelo(l1: seq<Event>, h: Event, j: int)
    requires HeloGuarded(l1) && h.Sent? && h.tag.Helo?
    requires RejectedEhloAt(l1 + [h], j, |l1|, h.tag.round)
    ensures HeloGuarded(l1 + [h])
  {
    var l2 := l1 + [h];
    forall i | 0 <= i < |l2| && l2[i].Sent? && l2[i].tag.Helo? ensures HeloFollowsRejectedEhlo(l2, i) {
      if i < |l1| {
        assert l2[i] == l1[i];
        GuardKept(l1, [h], i);
      } else {
        assert l2[i] == h;
      }
    }
  }

  /** The HELO appended after an EHLO at j and that EHLO's rejected reply. */
  lemma LastHeloGuarded(l1: seq<Event>, j: int, round: nat, ehlo: string, x: seq<string>, helo: string)
    requires 0 <= j < |l1| && l1[j] == Sent(Ehlo(round), ehlo) && l1[j + 1..] == LineEvents(x)
    requires Rejected(ConcatLines(x))
    ensures RejectedEhloAt(l1 + [Sent(Helo(round), helo)], j, |l1|, round)
  {
    var l2 := l1 + [Sent(Helo(round), helo)];
    var i := |l1|;
    LineEventsQuiet(x);
    assert l2[j] == l1[j];
    assert l2[j + 1..i] == l1[j + 1..];
    forall m | j < m < i ensures l2[m].Line? {
      assert l2[m] == LineEvents(x)[m - j - 1];
    }
    assert Rejected(LineTexts(l2[j + 1..i]));
    assert RejectedEhloAt(l2, j, i, round);
  }

  // ---------------------------------------------------------------------------
  // How each step extends the transcript

  /** The transcript only grows, nothing in the new part closes the socket,
      and the socket stays as open as it was. */
  predicate Grows(a: Wire, b: Wire) {
    && |a.log| <= |b.log| && b.log[..|a.log|] == a.log
    && NoShut(b.log[|a.log|..]) && b.closed == a.closed
  }

  function Delta(a: Wire, b: Wire): seq<Event>
    requires |a.log| <= |b.log|
  {
    b.log[|a.log|..]
  }

  lemma GrowsSplit(a: Wire, b: Wire)
    requires Grows(a, b)
    ensures b.log == a.log + Delta(a, b)
  {
    assert b.log == b.log[..|a.log|] + b.log[|a.log|..];
  }

  lemma GrowsByAppend(a: Wire, b: Wire, d: seq<Event>)
    requires b.log == a.log + d && NoShut(d) && b.closed == a.closed
    ensures Grows(a, b) && Delta(a, b) == d
  {
    assert b.log[..|a.log|] == a.log;
    assert b.log[|a.log|..] == d;
  }

  lemma GrowsTrans(a: Wire, b: Wire, c: Wire)
    requires Grows(a, b) && Grows(b, c)
    ensures Grows(a, c) && Delta(a, c) == Delta(a, b) + Delta(b, c)
  {
    GrowsSplit(a, b);
    GrowsSplit(b, c);
    AppendNoShut(Delta(a, b), Delta(b, c));
    assert c.log == a.log + (Delta(a, b) + Delta(b, c));
    GrowsByAppend(a, c, Delta(a, b) + Delta(b, c));
  }

  lemma GrowsRefl(w: Wire)
    ensures Grows(w, w) && Delta(w, w) == []
  {
    assert w.log + [] == w.log;
    GrowsByAppend(w, w, []);
  }

  /** The lines of the reply smtpReadResponse would read next. */
  function ReplyLines(w: Wire): seq<string> {
    w.replies[..ReplyLength(w.replies)]
  }

  lemma ReadEffect(w: Wire)
    ensures Grows(w, ReadReply(w).1) && Delta(w, ReadReply(w).1) == LineEvents(ReplyLines(w))
    ensures ReadReply(w).0 == ConcatLines(ReplyLines(w))
    ensures ReadReply(w).1.writeBudget == w.writeBudget && ReadReply(w).1.tlsAvailable == w.tlsAvailable
  {
    ReadReplyShape(w);
    LineEventsQuiet(ReplyLines(w));
    GrowsByAppend(w, ReadReply(w).1, LineEvents(ReplyLines(w)));
  }

  /** A command and its reply. */
  function Exchange(tag: Tag, data: string, ls: seq<string>): seq<Event> {
    [Sent(tag, data)] + LineEvents(ls)
  }

  lemma ExchangeQuiet(tag: Tag, data: string, ls: seq<string>)
    ensures NoShut(Exchange(tag, data, ls))
    ensures !tag.Helo? ==> NoHelo(Exchange(tag, data, ls))
    ensures Milestones(Exchange(tag, data, ls)) == (if tag.Helo? then [] else [tag])
  {
    var rest := LineEvents(ls);
    assert NoShut(rest) && NoHelo(rest) && Milestones(rest) == [] by { LineEventsQuiet(ls); }
    ConsQuiet(Sent(tag, data), rest);
    assert Milestones([Sent(tag, data)] + rest) == (if tag.Helo? then [] else [tag]) by {
      MilestonesAppend([Sent(tag, data)], rest);
      assert [Sent(tag, data)][..0] == [];
    }
  }

  /** One event in front of events that neither close nor send HELO. */
  lemma ConsQuiet(x: Event, rest: seq<Event>)
    requires NoShut(rest) && NoHelo(rest) && x != Shut
    ensures NoShut([x] + rest)
    ensures !(x.Sent? && x.tag.Helo?) ==> NoHelo([x] + rest)
  {
    var d := [x] + rest;
    forall i | 0 < i < |d| ensures d[i] == rest[i - 1] { }
  }

  lemma CommandEffect(w: Wire, tag: Tag, command: string, codes: set<int>)
    ensures var r := CommandStep(w, tag, command, codes);
      && Grows(w, r.wire)
      && (!CanWrite(w) ==> r.wire == w && r.failure == Some(WriteFailed(tag)))
      && (CanWrite(w) ==>
            Delta(w, r.wire) == Exchange(tag, command + CRLF, ReplyLines(AfterWrite(w, tag, command + CRLF))))
  {
    if CanWrite(w) {
      var w1 := AfterWrite(w, tag, command + CRLF);
      GrowsByAppend(w, w1, [Sent(tag, command + CRLF)]);
      ReadEffect(w1);
      GrowsTrans(w, w1, ReadReply(w1).1);
    } else {
      GrowsRefl(w);
    }
  }

  // ---------------------------------------------------------------------------
  // What each stage keeps

  /** The milestone each stage contributes when it gets its command out. */
  function StageTags(st: Stage): seq<Tag> {
    match st
    case Await(_, _) => []
    case Ask(tag, _, _) => [tag]
    case Hello(round, _) => [Ehlo(round)]
    case Upgrade => []
    case Payload(_) => [Body]
  }

  /** A stage grows the transcript, keeps every HELO guarded, and adds its
      milestone, or on failure possibly nothing. */
  predicate StageKeeps(st: Stage, w: Wire, r: Step) {
    && Grows(w, r.wire)
    && (HeloGuarded(w.log) ==> HeloGuarded(r.wire.log))
    && (Milestones(r.wire.log) == Milestones(w.log) + StageTags(st)
        || (r.failure.Some? && Milestones(r.wire.log) == Milestones(w.log)))
  }

  lemma QuietKeeps(st: Stage, w: Wire, r: Step)
    requires Grows(w, r.wire) && NoHelo(Delta(w, r.wire))
    requires Milestones(Delta(w, r.wire)) == StageTags(st) || (r.failure.Some? && Milestones(Delta(w, r.wire)) == [])
    ensures StageKeeps(st, w, r)
  {
    GrowsSplit(w, r.wire);
    MilestonesAppend(w.log, Delta(w, r.wire));
    if HeloGuarded(w.log) {
      AppendGuarded(w.log, Delta(w, r.wire));
    }
  }

  lemma AwaitKeeps(w: Wire, tag: Tag, codes: set<int>)
    ensures StageKeeps(Await(tag, codes), w, ExpectStep(w, codes, tag))
  {
    ReadEffect(w);
    LineEventsQuiet(ReplyLines(w));
    QuietKeeps(Await(tag, codes), w, ExpectStep(w, codes, tag));
  }

  lemma AskKeeps(w: Wire, tag: Tag, command: string, codes: set<int>)
    requires !tag.Helo?
    ensures StageKeeps(Ask(tag, command, codes), w, CommandStep(w, tag, command, codes))
  {
    CommandEffect(w, tag, command, codes);
    if CanWrite(w) {
      ExchangeQuiet(tag, command + CRLF, ReplyLines(AfterWrite(w, tag, command + CRLF)));
    }
    QuietKeeps(Ask(tag, command, codes), w, CommandStep(w, tag, command, codes));
  }

  lemma UpgradeKeeps(w: Wire)
    ensures StageKeeps(Upgrade, w, SecureStep(w))
  {
    var r := SecureStep(w);
    if w.tlsAvailable {
      GrowsByAppend(w, r.wire, [Secured]);
      assert Milestones([Secured]) == [] by { assert [Secured][..0] == []; }
    } else {
      GrowsRefl(w);
    }
    QuietKeeps(Upgrade, w, r);
  }

  lemma PayloadKeeps(w: Wire, data: string)
    ensures StageKeeps(Payload(data), w, PayloadStep(w, data))
  {
    var r := PayloadStep(w, data);
    if CanWrite(w) {
      GrowsByAppend(w, r.wire, [Sent(Body, data)]);
      assert Milestones([Sent(Body, data)]) == [Body] by { assert [Sent(Body, data)][..0] == []; }
    } else {
      GrowsRefl(w);
    }
    QuietKeeps(Payload(data), w, r);
  }

  /** The transcript of an EHLO that got out and was rejected followed by a
      HELO that got out. */
  lemma HeloSentLog(w: Wire, round: nat, name: string)
    requires CanWrite(w)
    requires CommandStep(w, Ehlo(round), "EHLO " + name, {250}).failure.Some?
    requires CanWrite(CommandStep(w, Ehlo(round), "EHLO " + name, {250}).wire)
    ensures var e := CommandStep(w, Ehlo(round), "EHLO " + name, {250});
      var x := ReplyLines(AfterWrite(w, Ehlo(round), "EHLO " + name + CRLF));
      var y := ReplyLines(AfterWrite(e.wire, Helo(round), "HELO " + name + CRLF));
      var r := GreetStep(w, round, name);
      && Grows(w, r.wire)
      && Delta(w, r.wire) == Exchange(Ehlo(round), "EHLO " + name + CRLF, x) + Exchange(Helo(round), "HELO " + name + CRLF, y)
      && Rejected(ConcatLines(x))
  {
    var e := CommandStep(w, Ehlo(round), "EHLO " + name, {250});
    var w1 := AfterWrite(w, Ehlo(round), "EHLO " + name + CRLF);
    CommandEffect(w, Ehlo(round), "EHLO " + name, {250});
    CommandEffect(e.wire, Helo(round), "HELO " + name, {250});
    ExpectMeaning(w1, {250}, Ehlo(round));
    ReadEffect(w1);
    GrowsTrans(w, e.wire, GreetStep(w, round, name).wire);
  }

  /** A rejected EHLO exchange followed by a HELO exchange adds the one
      milestone of the EHLO. */
  lemma HeloExchangesMilestones(log: seq<Event>, round: nat, ehlo: string, x: seq<string>, helo: string, y: seq<string>)
    ensures Milestones(log + (Exchange(Ehlo(round), ehlo, x) + Exchange(Helo(round), helo, y)))
         == Milestones(log) + [Ehlo(round)]
  {
    var d1 := Exchange(Ehlo(round), ehlo, x);
    var d2 := Exchange(Helo(round), helo, y);
    ExchangeQuiet(Ehlo(round), ehlo, x);
    ExchangeQuiet(Helo(round), helo, y);
    MilestonesAppend(log, d1 + d2);
    MilestonesAppend(d1, d2);
  }

  /** ... and keeps every HELO guarded. */
  lemma HeloExchangesGuarded(log: seq<Event>, round: nat, ehlo: string, x: seq<string>, helo: string, y: seq<string>)
    requires Rejected(ConcatLines(x)) && HeloGuarded(log)
    ensures HeloGuarded(log + (Exchange(Ehlo(round), ehlo, x) + Exchange(Helo(round), helo, y)))
  {
    var l2 := log + [Sent(Ehlo(round), ehlo)] + LineEvents(x) + [Sent(Helo(round), helo)];
    assert log + (Exchange(Ehlo(round), ehlo, x) + Exchange(Helo(round), helo, y)) == l2 + LineEvents(y);
    LineEventsQuiet(y);
    AddHelo(log, round, ehlo, x, helo);
    AppendGuarded(l2, LineEvents(y));
  }

  /** The EHLO/HELO stage when EHLO got out and was rejected and HELO got out
      too: the new HELO follows that EHLO and its rejected reply. */
  lemma HeloSentKeeps(w: Wire, round: nat, name: string)
    requires CanWrite(w)
    requires CommandStep(w, Ehlo(round), "EHLO " + name, {250}).failure.Some?
    requires CanWrite(CommandStep(w, Ehlo(round), "EHLO " + name, {250}).wire)
    ensures StageKeeps(Hello(round, name), w, GreetStep(w, round, name))
  {
    var e := CommandStep(w, Ehlo(round), "EHLO " + name, {250});
    var r := GreetStep(w, round, name);
    var x := ReplyLines(AfterWrite(w, Ehlo(round), "EHLO " + name + CRLF));
    var y := ReplyLines(AfterWrite(e.wire, Helo(round), "HELO " + name + CRLF));
    var d := Exchange(Ehlo(round), "EHLO " + name + CRLF, x) + Exchange(Helo(round), "HELO " + name + CRLF, y);
    HeloSentLog(w, round, name);
    GrowsSplit(w, r.wire);
    HeloExchangesMilestones(w.log, round, "EHLO " + name + CRLF, x, "HELO " + name + CRLF, y);
    if HeloGuarded(w.log) {
      HeloExchangesGuarded(w.log, round, "EHLO " + name + CRLF, x, "HELO " + name + CRLF, y);
    }
    KeepsByLog(Hello(round, name), w, r, d);
  }

  /** A stage keeps the transcript's properties when what it appended does. */
  lemma KeepsByLog(st: Stage, w: Wire, r: Step, d: seq<Event>)
    requires Grows(w, r.wire) && r.wire.log == w.log + d
    requires Milestones(w.log + d) == Milestones(w.log) + StageTags(st)
    requires HeloGuarded(w.log) ==> HeloGuarded(w.log + d)
    ensures StageKeeps(st, w, r)
  {
  }

  /** The EHLO/HELO stage: HELO goes out only after EHLO got out and was
      rejected. */
  lemma GreetKeeps(w: Wire, round: nat, name: string)
    ensures StageKeeps(Hello(round, name), w, GreetStep(w, round, name))
  {
    var st := Hello(round, name);
    var e := CommandStep(w, Ehlo(round), "EHLO " + name, {250});
    CommandEffect(w, Ehlo(round), "EHLO " + name, {250});
    if !CanWrite(w) {
      CommandEffect(e.wire, Helo(round), "HELO " + name, {250});
      QuietKeeps(st, w, GreetStep(w, round, name));
    } else if e.failure.None? {
      ExchangeQuiet(Ehlo(round), "EHLO " + name + CRLF, ReplyLines(AfterWrite(w, Ehlo(round), "EHLO " + name + CRLF)));
      QuietKeeps(st, w, e);
    } else if !CanWrite(e.wire) {
      ExchangeQuiet(Ehlo(round), "EHLO " + name + CRLF, ReplyLines(AfterWrite(w, Ehlo(round), "EHLO " + name + CRLF)));
      CommandEffect(e.wire, Helo(round), "HELO " + name, {250});
      QuietKeeps(st, w, GreetStep(w, round, name));
    } else {
      HeloSentKeeps(w, round, name);
    }
  }

  lemma StageEffect(st: Stage, w: Wire)
    requires !(st.Ask? && st.tag.Helo?)
    ensures StageKeeps(st, w, RunStage(st, w))
  {
    match st
    case Await(tag, codes) => AwaitKeeps(w, tag, codes);
    case Ask(tag, command, codes) => AskKeeps(w, tag, command, codes);
    case Hello(round, name) => GreetKeeps(w, round, name);
    case Upgrade => UpgradeKeeps(w);
    case Payload(data) => PayloadKeeps(w, data);
  }

  function PlanTags(plan: seq<Stage>): seq<Tag> {
    if plan == [] then [] else StageTags(plan[0]) + PlanTags(plan[1..])
  }

  /** No stage of the plan sends HELO on its own: HELO only comes from the
      EHLO/HELO stage. */
  predicate NoHeloAsk(plan: seq<Stage>) {
    plan == [] || (!(plan[0].Ask? && plan[0].tag.Helo?) && NoHeloAsk(plan[1..]))
  }

  /** Milestones of a first stage followed by the prefix of the rest. */
  lemma PrefixThen(m0: seq<Tag>, a: seq<Tag>, b: seq<Tag>, k': nat)
    requires k' <= |b|
    ensures m0 + a + b[..k'] == m0 + (a + b)[..|a| + k']
    ensures m0 == m0 + (a + b)[..0]
  {
    assert (a + b)[..|a| + k'] == a + b[..k'];
  }

  /** Running a plan grows the transcript, keeps every HELO guarded, and the
      milestones it adds are the first k of the plan's, all of them when the
      plan succeeds. */
  lemma {:induction false} RunPlanEffect(plan: seq<Stage>, w: Wire) returns (k: nat)
    requires NoHeloAsk(plan)
    ensures var r := RunPlan(plan, w);
      && Grows(w, r.wire)
      && (HeloGuarded(w.log) ==> HeloGuarded(r.wire.log))
      && k <= |PlanTags(plan)| && Milestones(r.wire.log) == Milestones(w.log) + PlanTags(plan)[..k]
      && (r.failure.None? ==> k == |PlanTags(plan)|)
  {
    if plan == [] {
      GrowsRefl(w);
      k := 0;
    } else {
      var st := plan[0];
      StageEffect(st, w);
      var r := RunStage(st, w);
      var a := StageTags(st);
      var b := PlanTags(plan[1..]);
      if r.failure.Some? {
        PrefixThen(Milestones(w.log), a, b, 0);
        k := if Milestones(r.wire.log) == Milestones(w.log) + a then |a| else 0;
      } else {
        var k' := RunPlanEffect(plan[1..], r.wire);
        GrowsTrans(w, r.wire, RunPlan(plan[1..], r.wire).wire);
        PrefixThen(Milestones(w.log), a, b, k');
        k := |a| + k';
      }
    }
  }

  lemma PlanTagsCons(st: Stage, q: seq<Stage>)
    ensures PlanTags([st] + q) == StageTags(st) + PlanTags(q)
    ensures NoHeloAsk([st] + q) == (!(st.Ask? && st.tag.Helo?) && NoHeloAsk(q))
  {
    assert ([st] + q)[1..] == q;
  }

  lemma PlanTagsAppend(p: seq<Stage>, q: seq<Stage>)
    ensures PlanTags(p + q) == PlanTags(p) + PlanTags(q)
    ensures NoHeloAsk(p + q) == (NoHeloAsk(p) && NoHeloAsk(q))
  {
    if p != [] {
      assert (p + q)[1..] == p[1..] + q;
      PlanTagsAppend(p[1..], q);
    } else {
      assert p + q == q;
    }
  }

  /** The order sendEmailViaSmtp writes its commands in (HELO aside). */
  function FixedOrder(enc: Encryption): seq<Tag> {
    [Ehlo(1)] + (if enc == StartTlsMode then [StartTls, Ehlo(2)] else [])
      + [AuthLogin, AuthUser, AuthPass, MailFrom, RcptTo, DataCmd, Body]
  }

  lemma TransactionTags(e: Envelope)
    ensures NoHeloAsk(TransactionPlan(e))
    ensures PlanTags(TransactionPlan(e)) == [AuthLogin, AuthUser, AuthPass, MailFrom, RcptTo, DataCmd, Body]
  {
    var a1, a2, a3 := Ask(AuthLogin, "AUTH LOGIN", {334}), Ask(AuthUser, e.user64, {334}), Ask(AuthPass, e.pass64, {235});
    var a4, a5 := Ask(MailFrom, "MAIL FROM:<" + e.fromAddress + ">", {250}), Ask(RcptTo, "RCPT TO:<" + e.toAddress + ">", {250, 251});
    var a6, p, w := Ask(DataCmd, "DATA", {354}), Payload(e.message + "\r\n.\r\n"), Await(DataCommit, {250});
    assert TransactionPlan(e) == [a1] + ([a2] + ([a3] + ([a4] + ([a5] + ([a6] + ([p] + [w]))))));
    TransactionShape(a1, a2, a3, a4, a5, a6, p, w);
  }

  /** The tags of six commands, the message and the final reply. */
  lemma TransactionShape(a1: Stage, a2: Stage, a3: Stage, a4: Stage, a5: Stage, a6: Stage, p: Stage, w: Stage)
    requires a1.Ask? && a1.tag == AuthLogin && a2.Ask? && a2.tag == AuthUser && a3.Ask? && a3.tag == AuthPass
    requires a4.Ask? && a4.tag == MailFrom && a5.Ask? && a5.tag == RcptTo && a6.Ask? && a6.tag == DataCmd
    requires p.Payload? && w.Await?
    ensures var plan := [a1] + ([a2] + ([a3] + ([a4] + ([a5] + ([a6] + ([p] + [w]))))));
      && NoHeloAsk(plan)
      && PlanTags(plan) == [AuthLogin] + ([AuthUser] + ([AuthPass] + ([MailFrom] + ([RcptTo] + ([DataCmd] + [Body])))))
  {
    var t6 := [p] + [w];
    PlanTagsCons(w, []);
    PlanTagsCons(p, [w]);
    assert PlanTags(t6) == [Body] && NoHeloAsk(t6);
    var t5 := [a6] + t6;
    PlanTagsCons(a6, t6);
    var t4 := [a5] + t5;
    PlanTagsCons(a5, t5);
    var t3 := [a4] + t4;
    PlanTagsCons(a4, t4);
    assert PlanTags(t3) == [MailFrom] + ([RcptTo] + ([DataCmd] + [Body])) && NoHeloAsk(t3);
    var t2 := [a3] + t3;
    PlanTagsCons(a3, t3);
    var t1 := [a2] + t2;
    PlanTagsCons(a2, t2);
    PlanTagsCons(a1, t1);
  }

  lemma HandshakeTags(e: Envelope)
    ensures NoHeloAsk(HandshakePlan(e))
    ensures PlanTags(HandshakePlan(e))
         == [Ehlo(1)] + (if e.encryption == StartTlsMode then [StartTls, Ehlo(2)] else [])
  {
    var tls := if e.encryption == StartTlsMode
      then [Ask(StartTls, "STARTTLS", {220})] + ([Upgrade] + [Hello(2, e.clientName)]) else [];
    assert HandshakePlan(e) == [Await(Banner, {220})] + ([Hello(1, e.clientName)] + tls);
    PlanTagsCons(Await(Banner, {220}), [Hello(1, e.clientName)] + tls);
    PlanTagsCons(Hello(1, e.clientName), tls);
    if e.encryption == StartTlsMode {
      PlanTagsCons(Hello(2, e.clientName), []);
      PlanTagsCons(Upgrade, [Hello(2, e.clientName)]);
      PlanTagsCons(Ask(StartTls, "STARTTLS", {220}), [Upgrade] + [Hello(2, e.clientName)]);
    }
  }

  /** The stages of sendEmailViaSmtp write, HELO aside, the fixed order, and
      none of them is a bare HELO. */
  lemma PlanOrder(e: Envelope)
    ensures NoHeloAsk(Plan(e))
    ensures PlanTags(Plan(e)) == FixedOrder(e.encryption)
  {
    PlanTagsAppend(HandshakePlan(e), TransactionPlan(e));
    HandshakeTags(e);
    TransactionTags(e);
  }

  // ---------------------------------------------------------------------------
  // The session as a whole

  /** The QUIT the closing exchange sends: one exactly when the socket still
      takes writes. */
  function QuitSent(w: Wire): seq<Tag> {
    if CanWrite(w) then [Quit] else []
  }

  /** How the session ends after the stages: the transcript so far, then the
      QUIT command and its reply when the socket still takes writes, then the
      one close. */
  predicate EndsSession(w: Wire, t: seq<Event>) {
    && |w.log| < |t| && t[..|w.log|] == w.log
    && t[|t| - 1] == Shut && NoShut(t[|w.log|..|t| - 1]) && NoHelo(t[|w.log|..])
    && Milestones(t) == Milestones(w.log) + QuitSent(w)
  }

  lemma CloseAfter(w: Wire, pre: Wire)
    requires Grows(w, pre) && NoHelo(Delta(w, pre))
    requires Milestones(Delta(w, pre)) == QuitSent(w)
    ensures EndsSession(w, CloseWire(pre).log)
  {
    var t := CloseWire(pre).log;
    var d := Delta(w, pre);
    GrowsSplit(w, pre);
    assert t == w.log + d + [Shut];
    assert t[..|w.log|] == w.log;
    assert t[|w.log|..|t| - 1] == d;
    assert t[|w.log|..] == d + [Shut];
    assert NoHelo(d + [Shut]) by {
      forall i | 0 <= i < |d| + 1 ensures !((d + [Shut])[i].Sent? && (d + [Shut])[i].tag.Helo?) {
        if i < |d| { assert (d + [Shut])[i] == d[i]; }
      }
    }
    assert t[..|t| - 1] == pre.log;
    MilestonesAppend(w.log, d);
  }

  /** The cleanup closure ends the session. */
  lemma CleanupEnds(w: Wire)
    ensures EndsSession(w, CleanupWire(w).log)
  {
    var w1 := AfterWrite(w, Quit, "QUIT\r\n");
    var pre := ReadReply(w1).1;
    ReadEffect(w1);
    if CanWrite(w) {
      GrowsByAppend(w, w1, [Sent(Quit, "QUIT\r\n")]);
      GrowsTrans(w, w1, pre);
      ExchangeQuiet(Quit, "QUIT\r\n", ReplyLines(w1));
    } else {
      LineEventsQuiet(ReplyLines(w1));
    }
    CloseAfter(w, pre);
  }

  /** QUIT and fclose after a delivery end the session. */
  lemma FinishEnds(w: Wire)
    ensures EndsSession(w, FinishWire(w).log)
  {
    var pre := CommandStep(w, Quit, "QUIT", {221}).wire;
    CommandEffect(w, Quit, "QUIT", {221});
    if CanWrite(w) {
      ExchangeQuiet(Quit, "QUIT" + CRLF, ReplyLines(AfterWrite(w, Quit, "QUIT" + CRLF)));
    }
    CloseAfter(w, pre);
  }

  /** The connected part of Session: the stages from the opened wire, then
      the cleanup closure or QUIT and fclose. */
  function Conclude(plan: seq<Stage>, w0: Wire): SessionResult {
    var r := RunPlan(plan, w0);
    if r.failure.Some? then SessionResult(Failed(r.failure.value), CleanupWire(r.wire).log)
    else SessionResult(Delivered, FinishWire(r.wire).log)
  }

  lemma SessionConcludes(s: SmtpSettings, m: Mail, server: Server, env: MessageEnv)
    requires SettingsComplete(s) && server.accepts
    ensures Session(s, m, server, env) == Conclude(Plan(EnvelopeOf(s, m, env)), OpenWire(s, server))
    ensures EnvelopeOf(s, m, env).encryption == EncryptionOf(s)
    ensures OpenWire(s, server).log == [Opened(TransportOf(EncryptionOf(s)), HostOf(s), PortOf(s))]
  {
  }

  /** The ending after any run of the stages: the transcript so far, then
      the closing exchange. */
  lemma ConcludeEnds(plan: seq<Stage>, w0: Wire)
    ensures EndsSession(RunPlan(plan, w0).wire, Conclude(plan, w0).transcript)
  {
    var r := RunPlan(plan, w0);
    if r.failure.Some? {
      CleanupEnds(r.wire);
    } else {
      FinishEnds(r.wire);
    }
  }

  /** The stages from the opened connection: they extend it, keep every HELO
      guarded and send a prefix of the fixed order, all of it when no stage
      failed. */
  lemma StagesRun(e: Envelope, w0: Wire) returns (k: nat)
    requires |w0.log| == 1 && w0.log[0] != Shut && !(w0.log[0].Sent?)
    ensures var r := RunPlan(Plan(e), w0);
      && Grows(w0, r.wire) && HeloGuarded(r.wire.log)
      && k <= |FixedOrder(e.encryption)| && Milestones(r.wire.log) == FixedOrder(e.encryption)[..k]
      && (r.failure.None? ==> k == |FixedOrder(e.encryption)|)
  {
    PlanOrder(e);
    k := RunPlanEffect(Plan(e), w0);
    assert Milestones(w0.log) == [] by { assert w0.log[..0] == []; }
  }

  /** The transcript of a connected session is that of its connected part,
      which starts from the opened connection. */
  lemma SessionTranscript(s: SmtpSettings, m: Mail, server: Server, env: MessageEnv)
    requires SettingsComplete(s) && server.accepts
    ensures Session(s, m, server, env).transcript == Conclude(Plan(EnvelopeOf(s, m, env)), OpenWire(s, server)).transcript
    ensures OpenWire(s, server).log == [Opened(TransportOf(EncryptionOf(s)), HostOf(s), PortOf(s))]
  {
  }

  /** The same, with the envelope and the opened wire left unnamed. */
  lemma ConnectedPart(s: SmtpSettings, m: Mail, server: Server, env: MessageEnv) returns (e: Envelope, w0: Wire)
    requires SettingsComplete(s) && server.accepts
    ensures Session(s, m, server, env).transcript == Conclude(Plan(e), w0).transcript
    ensures w0.log == [Opened(TransportOf(EncryptionOf(s)), HostOf(s), PortOf(s))]
  {
    e, w0 := EnvelopeOf(s, m, env), OpenWire(s, server);
    SessionTranscript(s, m, server, env);
  }

  lemma TransportIff(enc: Encryption)
    ensures TransportOf(enc) == ImplicitTls <==> enc == ImplicitSsl
  {
  }

  /** sendEmailViaSmtp gives up before any connection when a setting is
      missing, and without a transcript when the connection is refused. */
  lemma SessionGates(s: SmtpSettings, m: Mail, server: Server, env: MessageEnv)
    ensures !SettingsComplete(s) ==> Session(s, m, server, env) == SessionResult(Failed(MissingSettings), [])
    ensures SettingsComplete(s) && !server.accepts ==> Session(s, m, server, env) == SessionResult(Failed(ConnectFailed), [])
  {
  }

  /** A connected run opens the connection first and closes it exactly once,
      last, on success and on every failure. */
  lemma ConcludeOpensAndClosesOnce(e: Envelope, w0: Wire)
    requires |w0.log| == 1 && w0.log[0] != Shut && !(w0.log[0].Sent?)
    ensures var t := Conclude(Plan(e), w0).transcript;
      && |t| >= 2 && t[0] == w0.log[0]
      && t[|t| - 1] == Shut && NoShut(t[..|t| - 1])
  {
    var _ := StagesRun(e, w0);
    ConcludeEnds(Plan(e), w0);
    var r := RunPlan(Plan(e), w0);
    var t := Conclude(Plan(e), w0).transcript;
    GrowsSplit(w0, r.wire);
    assert t[0] == t[..|r.wire.log|][0];
    AppendNoShut(w0.log, Delta(w0, r.wire));
    AppendNoShut(r.wire.log, t[|r.wire.log|..|t| - 1]);
    assert t[..|t| - 1] == r.wire.log + t[|r.wire.log|..|t| - 1];
  }

  /** A connected session opens the connection first, over implicit TLS
      exactly when the encryption is 'ssl', and closes it exactly once, last,
      on success and on every failure. */
  lemma SessionOpensAndClosesOnce(s: SmtpSettings, m: Mail, server: Server, env: MessageEnv)
    requires SettingsComplete(s) && server.accepts
    ensures var t := Session(s, m, server, env).transcript;
      && |t| >= 2 && t[0] == Opened(TransportOf(EncryptionOf(s)), HostOf(s), PortOf(s))
      && (t[0].transport == ImplicitTls <==> EncryptionOf(s) == ImplicitSsl)
      && t[|t| - 1] == Shut && NoShut(t[..|t| - 1])
  {
    var e, w0 := ConnectedPart(s, m, server, env);
    ConcludeOpensAndClosesOnce(e, w0);
    TransportIff(EncryptionOf(s));
  }

  lemma ConcludeHeloGuarded(e: Envelope, w0: Wire)
    requires |w0.log| == 1 && w0.log[0] != Shut && !(w0.log[0].Sent?)
    ensures HeloGuarded(Conclude(Plan(e), w0).transcript)
  {
    var r := RunPlan(Plan(e), w0);
    assert HeloGuarded(r.wire.log) by { var _ := StagesRun(e, w0); }
    ConcludeEnds(Plan(e), w0);
    EndsGuarded(r.wire, Conclude(Plan(e), w0).transcript);
  }

  /** The ending sends no HELO, so it keeps every HELO guarded. */
  lemma EndsGuarded(w: Wire, t: seq<Event>)
    requires HeloGuarded(w.log) && EndsSession(w, t)
    ensures HeloGuarded(t)
  {
    assert t == w.log + t[|w.log|..];
    AppendGuarded(w.log, t[|w.log|..]);
  }

  /** Every HELO of the transcript is the fallback for the EHLO of the same
      round, sent right after that EHLO's reply was rejected. */
  lemma SessionHeloOnlyAfterRejectedEhlo(s: SmtpSettings, m: Mail, server: Server, env: MessageEnv)
    requires SettingsComplete(s) && server.accepts
    ensures HeloGuarded(Session(s, m, server, env).transcript)
  {
    SessionConcludes(s, m, server, env);
    ConcludeHeloGuarded(EnvelopeOf(s, m, env), OpenWire(s, server));
  }

  lemma ConcludeOrder(e: Envelope, w0: Wire) returns (k: nat)
    requires |w0.log| == 1 && w0.log[0] != Shut && !(w0.log[0].Sent?)
    ensures var res := Conclude(Plan(e), w0); var order := FixedOrder(e.encryption);
      && k <= |order|
      && Milestones(res.transcript) == order[..k] + QuitSent(RunPlan(Plan(e), w0).wire)
      && (res.outcome == Delivered ==> k == |order|)
  {
    k := StagesRun(e, w0);
    ConcludeEnds(Plan(e), w0);
  }

  /** The socket after the stages of a connected session, before the
      closing exchange. */
  function StagesEnd(s: SmtpSettings, m: Mail, server: Server, env: MessageEnv): Wire {
    RunPlan(Plan(EnvelopeOf(s, m, env)), OpenWire(s, server)).wire
  }

  /** The commands go out in the fixed order and stop at the first failure:
      the transcript's commands (HELO aside) are a prefix of the fixed order,
      followed by QUIT exactly when the socket still takes writes after the
      stages, on a failed run as after a delivery; a delivery sent all of
      them. */
  lemma SessionOrder(s: SmtpSettings, m: Mail, server: Server, env: MessageEnv) returns (k: nat)
    requires SettingsComplete(s) && server.accepts
    ensures var res := Session(s, m, server, env); var order := FixedOrder(EncryptionOf(s));
      && k <= |order|
      && Milestones(res.transcript) == order[..k] + QuitSent(StagesEnd(s, m, server, env))
      && (res.outcome == Delivered ==> k == |order|)
  {
    SessionConcludes(s, m, server, env);
    k := ConcludeOrder(EnvelopeOf(s, m, env), OpenWire(s, server));
  }

  lemma OrderHasStartTls(order: seq<Tag>, k: nat, t: seq<Tag>, enc: Encryption)
    requires order == FixedOrder(enc) && k <= |order|
    requires t == order[..k] || t == order[..k] + [Quit]
    ensures StartTls in t ==> enc == StartTlsMode
    ensures k == |order| && enc == StartTlsMode ==> StartTls in t && Ehlo(2) in t
  {
    assert forall x :: x in order[..k] ==> x in order;
    if k == |order| {
      assert order[..k] == order;
    }
  }

  /** STARTTLS is sent only when the encryption is STARTTLS, and a delivery in
      that mode sent it and greeted a second time. */
  lemma StartTlsOnlyWhenConfigured(s: SmtpSettings, m: Mail, server: Server, env: MessageEnv)
    requires SettingsComplete(s) && server.accepts
    ensures var res := Session(s, m, server, env);
      && (StartTls in Milestones(res.transcript) ==> EncryptionOf(s) == StartTlsMode)
      && (res.outcome == Delivered && EncryptionOf(s) == StartTlsMode ==>
            StartTls in Milestones(res.transcript) && Ehlo(2) in Milestones(res.transcript))
  {
    var k := SessionOrder(s, m, server, env);
    var res := Session(s, m, server, env);
    OrderHasStartTls(FixedOrder(EncryptionOf(s)), k, Milestones(res.transcript), EncryptionOf(s));
  }

  /** Three digits worth 250 are the text "250". */
  lemma Code250(p: string)
    requires |p| == 3 && AllDigits(p) && DigitsValue(p) == 250
    ensures p == "250"
  {
    assert IsDigit(p[0]) && IsDigit(p[1]) && IsDigit(p[2]);
    assert p[..1][..0] == [] && p[..1][0] == p[0];
    assert DigitsValue(p[..1]) == p[0] as int - '0' as int;
    assert p[..2][..1] == p[..1] && p[..2][1] == p[1];
    assert DigitsValue(p[..2]) == DigitsValue(p[..1]) * 10 + (p[1] as int - '0' as int);
    assert p[..|p| - 1] == p[..2];
    assert DigitsValue(p) == DigitsValue(p[..2]) * 10 + (p[2] as int - '0' as int);
  }

  /** A reply of three or more characters begins with the first three
      characters of its first line. */
  /** A reply accepted for code 250 starts with "250". */
  lemma Accepted250(w: Wire, tag: Tag)
    requires ExpectStep(w, {250}, tag).failure.None?
    ensures |ReadReply(w).0| >= 3 && ReadReply(w).0[..3] == "250"
  {
    var reply := ReadReply(w).0;
    assert reply != "" && ReplyCode(reply) == 250 by {
      ExpectMeaning(w, {250}, tag);
    }
    CodeShape(reply);
    Code250(reply[..3]);
  }

  lemma ReplyPrefix(w: Wire)
    ensures var reply := ReadReply(w).0;
      |reply| >= 3 ==> ReplyLines(w) != [] && |ReplyLines(w)[0]| >= 3 && reply[..3] == ReplyLines(w)[0][..3]
  {
    ReadEffect(w);
    if w.replies != [] {
      assert ReplyLines(w)[0] == w.replies[0];
    }
  }

  lemma RunSingle(st: Stage, w: Wire)
    ensures RunPlan([st], w) == (var r := RunStage(st, w); if r.failure.Some? then r else Step(None, r.wire))
  {
    assert [st][1..] == [];
  }

  lemma TailRun(wp: Wire, data: string, last: Stage)
    ensures var r1 := PayloadStep(wp, data);
      RunPlan([Payload(data), last], wp) == if r1.failure.Some? then r1 else RunPlan([last], r1.wire)
  {
    assert [Payload(data), last][1..] == [last];
  }

  /** An accepted reply to the data commit starts with a line beginning
      with 250. */
  lemma CommitReply(wq: Wire)
    requires ExpectStep(wq, {250}, DataCommit).failure.None?
    ensures var fin := ExpectStep(wq, {250}, DataCommit).wire;
        && Grows(wq, fin) && |fin.log| >= |wq.log| + 1
        && fin.log[|wq.log|].Line? && StartsWith(fin.log[|wq.log|].text, "250")
  {
    var reply := ReadReply(wq).0;
    var fin := ReadReply(wq).1;
    Accepted250(wq, DataCommit);
    ReadEffect(wq);
    ReplyPrefix(wq);
    var lines := ReplyLines(wq);
    assert ExpectStep(wq, {250}, DataCommit).wire == fin;
    assert lines != [] && lines[0][..3] == "250";
    LineEventsAt(lines, 0);
    assert fin.log[|wq.log|] == Delta(wq, fin)[0] == Line(lines[0]);
  }

  /** An accepted data commit: the line after the body is a reply beginning
      with 250. */
  lemma CommitAccepted(wp: Wire, data: string)
    requires CanWrite(wp)
    requires ExpectStep(AfterWrite(wp, Body, data), {250}, DataCommit).failure.None?
    ensures var fin := ExpectStep(AfterWrite(wp, Body, data), {250}, DataCommit).wire;
        && Grows(wp, fin) && |fin.log| >= |wp.log| + 2 && fin.log[|wp.log|] == Sent(Body, data)
        && fin.log[|wp.log| + 1].Line? && StartsWith(fin.log[|wp.log| + 1].text, "250")
  {
    var wq := AfterWrite(wp, Body, data);
    var fin := ExpectStep(wq, {250}, DataCommit).wire;
    CommitReply(wq);
    GrowsByAppend(wp, wq, [Sent(Body, data)]);
    GrowsTrans(wp, wq, fin);
    assert fin.log[|wp.log|] == fin.log[..|wq.log|][|wp.log|];
  }

  /** The last two stages: when they succeed, the body went out and the line
      right after it is a reply beginning with 250. */
  lemma CommitTail(wp: Wire, data: string)
    ensures var r := RunPlan([Payload(data), Await(DataCommit, {250})], wp);
      r.failure.None? ==>
        && Grows(wp, r.wire) && |r.wire.log| >= |wp.log| + 2 && r.wire.log[|wp.log|] == Sent(Body, data)
        && r.wire.log[|wp.log| + 1].Line? && StartsWith(r.wire.log[|wp.log| + 1].text, "250")
  {
    TailRun(wp, data, Await(DataCommit, {250}));
    if CanWrite(wp) {
      RunSingle(Await(DataCommit, {250}), AfterWrite(wp, Body, data));
      if ExpectStep(AfterWrite(wp, Body, data), {250}, DataCommit).failure.None? {
        CommitAccepted(wp, data);
      }
    }
  }

  /** A delivered run wrote the message and then read a reply beginning with
      250 right after it. */
  lemma ConcludeDelivered(e: Envelope, w0: Wire)
    ensures var res := Conclude(Plan(e), w0); var t := res.transcript;
      res.outcome == Delivered ==>
        exists i :: 0 <= i < |t| - 1 && t[i] == Sent(Body, e.message + "\r\n.\r\n")
          && t[i + 1].Line? && StartsWith(t[i + 1].text, "250")
  {
    var d := e.message + "\r\n.\r\n";
    var head := HandshakePlan(e) + [Ask(AuthLogin, "AUTH LOGIN", {334}), Ask(AuthUser, e.user64, {334}),
      Ask(AuthPass, e.pass64, {235}), Ask(MailFrom, "MAIL FROM:<" + e.fromAddress + ">", {250}),
      Ask(RcptTo, "RCPT TO:<" + e.toAddress + ">", {250, 251}), Ask(DataCmd, "DATA", {354})];
    var tail := [Payload(d), Await(DataCommit, {250})];
    assert Plan(e) == head + tail;
    RunPlanAppend(head, tail, w0);
    var rh := RunPlan(head, w0);
    var r := RunPlan(Plan(e), w0);
    if rh.failure.None? && r.failure.None? {
      CommitTail(rh.wire, d);
      FinishEnds(r.wire);
      var t := Conclude(Plan(e), w0).transcript;
      var i := |rh.wire.log|;
      assert t[i] == r.wire.log[i] && t[i + 1] == r.wire.log[i + 1];
    }
  }

  /** sendEmailViaSmtp reports a delivery only after the message went out and
      the server answered it with 250. */
  lemma DeliveredOnlyAfterCommit(s: SmtpSettings, m: Mail, server: Server, env: MessageEnv)
    ensures var res := Session(s, m, server, env); var t := res.transcript;
      res.outcome == Delivered ==>
        exists i :: 0 <= i < |t| - 1 && t[i] == Sent(Body, EnvelopeOf(s, m, env).message + "\r\n.\r\n")
          && t[i + 1].Line? && StartsWith(t[i + 1].text, "250")
  {
    if SettingsComplete(s) && server.accepts {
      SessionConcludes(s, m, server, env);
      ConcludeDelivered(EnvelopeOf(s, m, env), OpenWire(s, server));
    }
  }
}

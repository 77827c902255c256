/** What newuserpost.php's gates and checks guarantee. */
module RegistrationProperties {
  import opened Strings
  import opened Php
  import opened Passwords
  import opened Registration

  /** The name pattern's allowance for a final line feed never applies to a
      trimmed name: there it is exactly 4 to 32 letters, digits, underscores
      and hyphens. */
  lemma NamePatternOnTrimmed(s: string)
    requires IsTrimmed(s)
    ensures MatchesNamePattern(s) <==> ValidAccountName(s)
  {
    if ValidAccountName(s) {
      assert s == s[..|s|];
    }
    if MatchesNamePattern(s) {
      var n :| 4 <= n <= 32 && n <= |s| && AllNameChars(s[..n]) && (s == s[..n] || s == s[..n] + "\n");
      LineFeedEndNotTrimmed(s[..n]);
      assert s == s[..n];
    }
  }

  lemma LineFeedEndNotTrimmed(t: string)
    ensures !IsTrimmed(t + "\n")
  {
    var u := t + "\n";
    assert u[|u| - 1] == '\n';
  }

  /** Without trimming the pattern would take a name with a line feed after
      it. */
  lemma NamePatternTakesFinalLineFeed()
    ensures MatchesNamePattern("pilot" + "\n")
    ensures !ValidAccountName("pilot" + "\n")
  {
    var s := "pilot" + "\n";
    assert s[..5] == "pilot";
    assert !IsNameChar(s[5]);
    assert AllNameChars("pilot") by {
      assert forall i :: 0 <= i < 5 ==> IsLowerAscii("pilot"[i]);
    }
  }

  lemma AppendMembers(errors: seq<RegError>, failed: bool, e: RegError)
    ensures forall x :: x in Append(errors, failed, e) <==> x in errors || (failed && x == e)
  {
  }

  lemma AppendEmpty(errors: seq<RegError>, failed: bool, e: RegError)
    ensures Append(errors, failed, e) == [] <==> errors == [] && !failed
  {
  }

  /** The messages of the failed checks are listed, and no others. */
  lemma FailureMembers(badName: bool, badEmail: bool, longEmail: bool, mismatch: bool,
                       weak: bool, noTerms: bool, nameTaken: bool, emailTaken: bool)
    ensures forall x :: (x in Failures(badName, badEmail, longEmail, mismatch, weak, noTerms, nameTaken, emailTaken)
                         <==> (|| (badName && x == BadUsername) || (badEmail && x == BadEmail)
                               || (longEmail && x == LongEmail) || (mismatch && x == ConfirmMismatch)
                               || (weak && x == WeakPassword) || (noTerms && x == TermsRequired)
                               || (nameTaken && x == UsernameTaken) || (emailTaken && x == EmailTaken)))
  {
    var r1 := Append([], badName, BadUsername);
    var r2 := Append(r1, badEmail, BadEmail);
    var r3 := Append(r2, longEmail, LongEmail);
    var r4 := Append(r3, mismatch, ConfirmMismatch);
    var r5 := Append(r4, weak, WeakPassword);
    var r6 := Append(r5, noTerms, TermsRequired);
    var r7 := Append(r6, nameTaken, UsernameTaken);
    AppendMembers([], badName, BadUsername);
    AppendMembers(r1, badEmail, BadEmail);
    AppendMembers(r2, longEmail, LongEmail);
    AppendMembers(r3, mismatch, ConfirmMismatch);
    AppendMembers(r4, weak, WeakPassword);
    AppendMembers(r5, noTerms, TermsRequired);
    AppendMembers(r6, nameTaken, UsernameTaken);
    AppendMembers(r7, emailTaken, EmailTaken);
  }

  /** No message is listed exactly when every check passes. */
  lemma FailureEmpty(badName: bool, badEmail: bool, longEmail: bool, mismatch: bool,
                     weak: bool, noTerms: bool, nameTaken: bool, emailTaken: bool)
    ensures Failures(badName, badEmail, longEmail, mismatch, weak, noTerms, nameTaken, emailTaken) == []
      <==> !(badName || badEmail || longEmail || mismatch || weak || noTerms || nameTaken || emailTaken)
  {
    var r1 := Append([], badName, BadUsername);
    var r2 := Append(r1, badEmail, BadEmail);
    var r3 := Append(r2, longEmail, LongEmail);
    var r4 := Append(r3, mismatch, ConfirmMismatch);
    var r5 := Append(r4, weak, WeakPassword);
    var r6 := Append(r5, noTerms, TermsRequired);
    var r7 := Append(r6, nameTaken, UsernameTaken);
    AppendEmpty([], badName, BadUsername);
    AppendEmpty(r1, badEmail, BadEmail);
    AppendEmpty(r2, longEmail, LongEmail);
    AppendEmpty(r3, mismatch, ConfirmMismatch);
    AppendEmpty(r4, weak, WeakPassword);
    AppendEmpty(r5, noTerms, TermsRequired);
    AppendEmpty(r6, nameTaken, UsernameTaken);
    AppendEmpty(r7, emailTaken, EmailTaken);
  }

  /** Whether the check behind message `e` failed, given each check's
      outcome; the gate messages are not field checks. */
  predicate Flagged(badName: bool, badEmail: bool, longEmail: bool, mismatch: bool,
                    weak: bool, noTerms: bool, nameTaken: bool, emailTaken: bool, e: RegError) {
    match e
    case BadUsername => badName
    case BadEmail => badEmail
    case LongEmail => longEmail
    case ConfirmMismatch => mismatch
    case WeakPassword => weak
    case TermsRequired => noTerms
    case UsernameTaken => nameTaken
    case EmailTaken => emailTaken
    case TokenMismatch => false
    case InvalidRequest => false
    case TooManyAttempts => false
  }

  lemma FailureListed(badName: bool, badEmail: bool, longEmail: bool, mismatch: bool,
                      weak: bool, noTerms: bool, nameTaken: bool, emailTaken: bool, e: RegError)
    ensures e in Failures(badName, badEmail, longEmail, mismatch, weak, noTerms, nameTaken, emailTaken)
      <==> Flagged(badName, badEmail, longEmail, mismatch, weak, noTerms, nameTaken, emailTaken, e)
  {
    FailureMembers(badName, badEmail, longEmail, mismatch, weak, noTerms, nameTaken, emailTaken);
  }

  /** The condition under which the check behind message `e` fails. */
  predicate CheckFails(f: Form, users: seq<UserRecord>, isEmail: string -> bool, e: RegError) {
    Flagged(!MatchesNamePattern(f.username), !isEmail(f.email), Utf8Len(f.email) > 190,
            f.password != f.confirmPassword, !MeetsPasswordPolicy(f.password), !f.acceptedTerms,
            UsernameInUse(users, f.username), EmailInUse(users, f.email), e)
  }

  /** A message is listed exactly when its check fails; the gate messages
      never are. */
  lemma FieldErrorListed(f: Form, users: seq<UserRecord>, isEmail: string -> bool, e: RegError)
    ensures e in FieldErrors(f, users, isEmail) <==> CheckFails(f, users, isEmail, e)
  {
    FailureListed(!MatchesNamePattern(f.username), !isEmail(f.email), Utf8Len(f.email) > 190,
                  f.password != f.confirmPassword, !MeetsPasswordPolicy(f.password), !f.acceptedTerms,
                  UsernameInUse(users, f.username), EmailInUse(users, f.email), e);
  }

  /** The form is accepted exactly when every check passes; for the trimmed
      name that is the plain 4-32 character rule. */
  lemma FormAccepted(post: Payload, users: seq<UserRecord>, isEmail: string -> bool)
    ensures var f := ReadForm(post);
      FieldErrors(f, users, isEmail) == [] <==>
        && ValidAccountName(f.username)
        && isEmail(f.email) && Utf8Len(f.email) <= 190
        && f.password == f.confirmPassword && MeetsPasswordPolicy(f.password)
        && f.acceptedTerms
        && !UsernameInUse(users, f.username) && !EmailInUse(users, f.email)
  {
    FieldsAccepted(ReadForm(post), users, isEmail);
  }

  lemma FieldsAccepted(f: Form, users: seq<UserRecord>, isEmail: string -> bool)
    requires IsTrimmed(f.username)
    ensures FieldErrors(f, users, isEmail) == [] <==>
        && ValidAccountName(f.username)
        && isEmail(f.email) && Utf8Len(f.email) <= 190
        && f.password == f.confirmPassword && MeetsPasswordPolicy(f.password)
        && f.acceptedTerms
        && !UsernameInUse(users, f.username) && !EmailInUse(users, f.email)
  {
    NamePatternOnTrimmed(f.username);
    var badName, badEmail, longEmail := !MatchesNamePattern(f.username), !isEmail(f.email), Utf8Len(f.email) > 190;
    var mismatch, weak, noTerms := f.password != f.confirmPassword, !MeetsPasswordPolicy(f.password), !f.acceptedTerms;
    var nameTaken, emailTaken := UsernameInUse(users, f.username), EmailInUse(users, f.email);
    assert FieldErrors(f, users, isEmail)
        == Failures(badName, badEmail, longEmail, mismatch, weak, noTerms, nameTaken, emailTaken);
    FailureEmpty(badName, badEmail, longEmail, mismatch, weak, noTerms, nameTaken, emailTaken);
  }

  /** The gates come first and in order: the method, the token, the action,
      then the rate limit; the fields are only checked behind all four. */
  lemma GatesFirst(requestMethod: string, post: Payload, csrfValid: bool, events: seq<AuthEvent>,
                   users: seq<UserRecord>, limits: Limits, ipAddress: string, now: int,
                   isEmail: string -> bool)
    ensures var route := RouteOf(requestMethod, post, csrfValid, events, users, limits, ipAddress, now, isEmail);
      && (route.NotPosted? <==> requestMethod != "POST")
      && (route.BadToken? <==> requestMethod == "POST" && !csrfValid)
      && (route.BadAction? <==> requestMethod == "POST" && csrfValid && Field(post, "action", "") != "create")
      && (route.Checked? <==>
            && requestMethod == "POST" && csrfValid && Field(post, "action", "") == "create"
            && !ExceedsRateLimit(KeepRecent(events, now, 30), "register", ipAddress,
                                 MaxAttempts(limits), IntervalSeconds(limits), now))
  {
  }

  /** Every refusal page is sent with status 422, the token and action
      refusals included; only a registration without errors gets 200. */
  lemma RefusalStatus(route: Route)
    ensures route.NotPosted? <==> ReplyTo(route).Redirect?
    ensures ReplyTo(route).Page? ==>
      (ReplyTo(route).status == 200 <==> route.Checked? && route.errors == [])
    ensures route.BadToken? ==> ReplyTo(route) == Page(422, [TokenMismatch])
  {
  }

  /** A new account is a standard one, and its verification token is 64
      hex digits from which the 32 random bytes can be read back. */
  lemma NewAccountShape(f: Form, hash: string, randomBytes: seq<Byte>)
    requires |randomBytes| == 32
    ensures var u := NewAccount(f, hash, randomBytes);
      && u.accessLevel == "standard" && u.username == f.username && u.email == f.email
      && u.passwordHash == hash
      && |u.verificationToken| == 64
      && (forall i :: 0 <= i < 64 ==> IsHexDigit(u.verificationToken[i]))
      && Hex2Bin(u.verificationToken) == randomBytes
  {
    Bin2HexRoundTrip(randomBytes);
  }

  /** A logged attempt counts toward the next rate-limit check. */
  lemma LoggedAttemptCounts(events: seq<AuthEvent>, ipAddress: string, now: int, intervalSeconds: int)
    requires intervalSeconds >= 0
    ensures CountSince(events + [AuthEvent("register", ipAddress, now)], "register", ipAddress, now - intervalSeconds)
         == CountSince(events, "register", ipAddress, now - intervalSeconds) + 1
  {
    var s := events + [AuthEvent("register", ipAddress, now)];
    assert s[..|s| - 1] == events;
  }

  /** The purge of events older than 30 days only removes events that the
      rate limit would not count, as long as its window is 30 days or less. */
  lemma {:induction false} PurgeKeepsRateCount(events: seq<AuthEvent>, action: string, ipAddress: string,
                                              now: int, intervalSeconds: int)
    requires intervalSeconds <= 30 * SecondsPerDay
    ensures CountSince(KeepRecent(events, now, 30), action, ipAddress, now - intervalSeconds)
         == CountSince(events, action, ipAddress, now - intervalSeconds)
  {
    if events != [] {
      var init := events[..|events| - 1];
      var last := events[|events| - 1];
      var threshold := now - intervalSeconds;
      assert events == init + [last];
      KeepRecentAppend(init, last, now);
      PurgeKeepsRateCount(init, action, ipAddress, now, intervalSeconds);
      var kept := KeepRecent(init, now, 30);
      if last.createdAt >= now - 30 * SecondsPerDay {
        CountSinceAppend(kept, last, action, ipAddress, threshold);
      } else {
        assert !Matches(last, action, ipAddress, threshold);
        assert kept + [] == kept;
      }
    }
  }

  /** Counting a sequence with one more event at its end. */
  lemma CountSinceAppend(events: seq<AuthEvent>, e: AuthEvent, action: string, ipAddress: string, threshold: int)
    ensures CountSince(events + [e], action, ipAddress, threshold)
         == CountSince(events, action, ipAddress, threshold) + (if Matches(e, action, ipAddress, threshold) then 1 else 0)
  {
    assert (events + [e])[..|events|] == events;
  }

  /** Purging a sequence with one more event at its end. */
  lemma {:induction false} KeepRecentAppend(events: seq<AuthEvent>, e: AuthEvent, now: int)
    ensures KeepRecent(events + [e], now, 30)
         == KeepRecent(events, now, 30) + (if e.createdAt >= now - 30 * SecondsPerDay then [e] else [])
  {
    if events == [] {
      assert events + [e] == [e];
      assert [e][1..] == [];
    } else {
      assert (events + [e])[0] == events[0];
      assert (events + [e])[1..] == events[1..] + [e];
      KeepRecentAppend(events[1..], e, now);
    }
  }
}

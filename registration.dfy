/** newuserpost.php: account registration. The auth_events table is a
    sequence of events with their time in seconds, so that the rate limit and
    the purge of includes/security.php can be stated over it; the
    user_account table is a sequence of rows. validateCsrfToken,
    FILTER_VALIDATE_EMAIL, password_hash, random_bytes, the client's address
    and the clock are parameters. */
module Registration {
  import opened Strings
  import opened Php
  import opened Passwords

  /** A row of auth_events; `createdAt` counts seconds. */
  datatype AuthEvent = AuthEvent(action: string, ipAddress: string, createdAt: int)

  /** The columns of user_account the script fills; the others keep their
      defaults. */
  datatype UserRecord = UserRecord(accessLevel: string, username: string, email: string,
                                   passwordHash: string, verificationToken: string)

  /** The registration settings of includes/config.php, when set. */
  datatype Limits = Limits(maxAttempts: Option<int>, intervalSeconds: Option<int>)

  datatype RegError =
    | TokenMismatch | InvalidRequest | TooManyAttempts
    | BadUsername | BadEmail | LongEmail | ConfirmMismatch | WeakPassword | TermsRequired
    | UsernameTaken | EmailTaken

  function Message(e: RegError): string {
    match e
    case TokenMismatch => "Security token mismatch. Please refresh the page and try again."
    case InvalidRequest => "Invalid registration request."
    case TooManyAttempts => "Too many registration attempts detected. Please try again later or contact an administrator."
    case BadUsername => "Account names must be 4-32 characters and can only include letters, numbers, underscores, or hyphens."
    case BadEmail => "Please provide a valid email address."
    case LongEmail => "Email addresses must be 190 characters or fewer."
    case ConfirmMismatch => "Password confirmation does not match."
    case WeakPassword => "Passwords must be at least 12 characters long and include upper- and lower-case letters, a number, and a symbol."
    case TermsRequired => "You must accept the community code of conduct before creating an account."
    case UsernameTaken => "That account name is already in use."
    case EmailTaken => "An account with that email address already exists."
  }

  /** A redirect, or the status page with its messages. renderResponse sets
      the status last, so the 400 set before it for a bad token or action
      becomes 422. */
  datatype Response = Redirect(location: string) | Page(status: int, errors: seq<RegError>)

  function Render(errors: seq<RegError>): (r: Response)
    ensures r.Page? && r.errors == errors
    ensures r.status == 200 <==> errors == []
    ensures r.status == 200 || r.status == 422
  {
    Page(if errors == [] then 200 else 422, errors)
  }

  // ---------------------------------------------------------------------
  // The security log (includes/security.php)

  const SecondsPerDay := 86400

  /** purgeOldSecurityEvents: drop the events older than the retention
      period, which is at least one day. */
  function KeepRecent(events: seq<AuthEvent>, now: int, retentionDays: int): (r: seq<AuthEvent>)
    ensures |r| <= |events|
    ensures forall e :: e in r <==>
      e in events && e.createdAt >= now - (if retentionDays < 1 then 1 else retentionDays) * SecondsPerDay
  {
    if events == [] then []
    else
      var rest := KeepRecent(events[1..], now, retentionDays);
      assert forall e :: e in events <==> e == events[0] || e in events[1..];
      if events[0].createdAt >= now - (if retentionDays < 1 then 1 else retentionDays) * SecondsPerDay
      then [events[0]] + rest
      else rest
  }

  /** The events of one action from one address at or after `threshold`. */
  function CountSince(events: seq<AuthEvent>, action: string, ipAddress: string, threshold: int): (n: nat)
    ensures n <= |events|
  {
    if events == [] then 0
    else
      var e := events[|events| - 1];
      CountSince(events[..|events| - 1], action, ipAddress, threshold)
      + (if Matches(e, action, ipAddress, threshold) then 1 else 0)
  }

  /** The event is one of `action` from `ipAddress` at or after `threshold`. */
  predicate Matches(e: AuthEvent, action: string, ipAddress: string, threshold: int) {
    e.action == action && e.ipAddress == ipAddress && e.createdAt >= threshold
  }

  /** hasExceededRateLimit. */
  predicate ExceedsRateLimit(events: seq<AuthEvent>, action: string, ipAddress: string,
                             maxAttempts: int, intervalSeconds: int, now: int) {
    CountSince(events, action, ipAddress, now - intervalSeconds) >= maxAttempts
  }

  // ---------------------------------------------------------------------
  // The request

  function MaxAttempts(limits: Limits): (n: int)
    ensures n >= 1
    ensures limits.maxAttempts.None? ==> n == 5
    ensures limits.maxAttempts.Some? && limits.maxAttempts.value >= 1 ==> n == limits.maxAttempts.value
  {
    var n := if limits.maxAttempts.Some? then limits.maxAttempts.value else 5;
    if n < 1 then 1 else n
  }

  function IntervalSeconds(limits: Limits): (n: int)
    ensures n >= 60
    ensures limits.intervalSeconds.None? ==> n == 3600
    ensures limits.intervalSeconds.Some? && limits.intervalSeconds.value >= 60 ==> n == limits.intervalSeconds.value
  {
    var n := if limits.intervalSeconds.Some? then limits.intervalSeconds.value else 3600;
    if n < 60 then 60 else n
  }

  predicate IsNameChar(c: char) {
    IsAlnum(c) || c == '_' || c == '-'
  }

  predicate AllNameChars(s: string) {
    forall i :: 0 <= i < |s| ==> IsNameChar(s[i])
  }

  /** ^[A-Za-z0-9_-]{4,32}$ as PCRE reads it: the class holds ASCII only, so
      bytes and characters agree, and '$' also matches before a final line
      feed. */
  predicate MatchesNamePattern(s: string) {
    exists n :: 4 <= n <= 32 && n <= |s| && AllNameChars(s[..n]) && (s == s[..n] || s == s[..n] + "\n")
  }

  /** The account name rule the script applies. */
  predicate ValidAccountName(s: string) {
    4 <= |s| <= 32 && AllNameChars(s)
  }

  /** The fields of the form, trimmed where the script trims them. */
  datatype Form = Form(username: string, email: string, password: string, confirmPassword: string,
                       acceptedTerms: bool)

  function ReadForm(post: Payload): (f: Form)
    ensures IsTrimmed(f.username) && IsTrimmed(f.email)
  {
    Form(Trim(Field(post, "useraccountname", "")), Trim(Field(post, "email", "")),
         Field(post, "realpassword", ""), Field(post, "confirmpassword", ""),
         Field(post, "terms", "") == "yes")
  }

  predicate UsernameInUse(users: seq<UserRecord>, username: string) {
    exists i :: 0 <= i < |users| && users[i].username == username
  }

  predicate EmailInUse(users: seq<UserRecord>, email: string) {
    exists i :: 0 <= i < |users| && users[i].email == email
  }

  /** One check: its message is appended when it fails. */
  function Append(errors: seq<RegError>, failed: bool, e: RegError): seq<RegError> {
    if failed then errors + [e] else errors
  }

  /** The messages of the eight field checks that failed, in the script's
      order. */
  function Failures(badName: bool, badEmail: bool, longEmail: bool, mismatch: bool,
                    weak: bool, noTerms: bool, nameTaken: bool, emailTaken: bool): seq<RegError> {
    var r1 := Append([], badName, BadUsername);
    var r2 := Append(r1, badEmail, BadEmail);
    var r3 := Append(r2, longEmail, LongEmail);
    var r4 := Append(r3, mismatch, ConfirmMismatch);
    var r5 := Append(r4, weak, WeakPassword);
    var r6 := Append(r5, noTerms, TermsRequired);
    var r7 := Append(r6, nameTaken, UsernameTaken);
    Append(r7, emailTaken, EmailTaken)
  }

  /** The eight field checks. */
  function FieldErrors(f: Form, users: seq<UserRecord>, isEmail: string -> bool): seq<RegError> {
    Failures(!MatchesNamePattern(f.username), !isEmail(f.email), Utf8Len(f.email) > 190,
             f.password != f.confirmPassword, !MeetsPasswordPolicy(f.password), !f.acceptedTerms,
             UsernameInUse(users, f.username), EmailInUse(users, f.email))
  }

  /** The request's route through the gates. */
  datatype Route = NotPosted | BadToken | BadAction | RateLimited | Checked(errors: seq<RegError>)

  function RouteOf(requestMethod: string, post: Payload, csrfValid: bool, events: seq<AuthEvent>,
                   users: seq<UserRecord>, limits: Limits, ipAddress: string, now: int,
                   isEmail: string -> bool): Route {
    if requestMethod != "POST" then NotPosted
    else if !csrfValid then BadToken
    else if Field(post, "action", "") != "create" then BadAction
    else if ExceedsRateLimit(KeepRecent(events, now, 30), "register", ipAddress,
                             MaxAttempts(limits), IntervalSeconds(limits), now) then RateLimited
    else Checked(FieldErrors(ReadForm(post), users, isEmail))
  }

  function ReplyTo(route: Route): Response {
    match route
    case NotPosted => Redirect("addnewuser.php")
    case BadToken => Render([TokenMismatch])
    case BadAction => Render([InvalidRequest])
    case RateLimited => Render([TooManyAttempts])
    case Checked(errors) => Render(errors)
  }

  /** The account a successful registration stores. */
  function NewAccount(f: Form, hash: string, randomBytes: seq<Byte>): UserRecord {
    UserRecord("standard", f.username, f.email, hash, Bin2Hex(randomBytes))
  }

  /** The tables the script touches. */
  class RegistrationDesk {
    var users: seq<UserRecord>
    var events: seq<AuthEvent>

    constructor(users0: seq<UserRecord>, events0: seq<AuthEvent>)
      ensures users == users0 && events == events0
    {
      users := users0;
      events := events0;
    }

    method Register(requestMethod: string, post: Payload, csrfValid: bool, limits: Limits,
                    ipAddress: string, now: int, isEmail: string -> bool, hash: string,
                    randomBytes: seq<Byte>)
      returns (r: Response)
      modifies this
      ensures var route := RouteOf(requestMethod, post, csrfValid, old(events), old(users), limits,
                                   ipAddress, now, isEmail);
        && r == ReplyTo(route)
        && (route.NotPosted? || route.BadToken? || route.BadAction? ==>
              users == old(users) && events == old(events))
        && (route.RateLimited? ==> users == old(users) && events == KeepRecent(old(events), now, 30))
        && (route.Checked? ==>
              events == KeepRecent(old(events), now, 30) + [AuthEvent("register", ipAddress, now)])
        && (route.Checked? && route.errors != [] ==> users == old(users))
        && (route.Checked? && route.errors == [] ==>
              users == old(users) + [NewAccount(ReadForm(post), hash, randomBytes)])
    {
      ghost var route := RouteOf(requestMethod, post, csrfValid, events, users, limits, ipAddress, now, isEmail);
      if requestMethod != "POST" {
        assert route == NotPosted;
        return Redirect("addnewuser.php");
      }
      if !csrfValid {
        assert route == BadToken;
        return Render([TokenMismatch]);
      }
      var action := Field(post, "action", "");
      if action != "create" {
        assert route == BadAction;
        return Render([InvalidRequest]);
      }
      events := KeepRecent(events, now, 30);
      var maxAttempts := MaxAttempts(limits);
      var intervalSeconds := IntervalSeconds(limits);
      if ExceedsRateLimit(events, "register", ipAddress, maxAttempts, intervalSeconds, now) {
        assert route == RateLimited;
        return Render([TooManyAttempts]);
      }
      var form := ReadForm(post);
      var errors := CheckFields(form, users, isEmail);
      assert route == Checked(errors);
      if errors != [] {
        events := events + [AuthEvent("register", ipAddress, now)];
        return Render(errors);
      }
      var verificationToken := Bin2Hex(randomBytes);
      users := users + [UserRecord("standard", form.username, form.email, hash, verificationToken)];
      events := events + [AuthEvent("register", ipAddress, now)];
      return Render([]);
    }
  }

  /** The field checks in the script's order. */
  method CheckFields(f: Form, users: seq<UserRecord>, isEmail: string -> bool) returns (errors: seq<RegError>)
    ensures errors == FieldErrors(f, users, isEmail)
  {
    errors := [];
    var badName := !MatchesNamePattern(f.username);
    if badName {
      errors := errors + [BadUsername];
    }
    assert errors == Append([], badName, BadUsername);
    ghost var r1 := errors;
    var badEmail := !isEmail(f.email);
    if badEmail {
      errors := errors + [BadEmail];
    }
    assert errors == Append(r1, badEmail, BadEmail);
    ghost var r2 := errors;
    var longEmail := Utf8Len(f.email) > 190;
    if longEmail {
      errors := errors + [LongEmail];
    }
    assert errors == Append(r2, longEmail, LongEmail);
    ghost var r3 := errors;
    var mismatch := f.password != f.confirmPassword;
    if mismatch {
      errors := errors + [ConfirmMismatch];
    }
    assert errors == Append(r3, mismatch, ConfirmMismatch);
    ghost var r4 := errors;
    var weak := !MeetsPasswordPolicy(f.password);
    if weak {
      errors := errors + [WeakPassword];
    }
    assert errors == Append(r4, weak, WeakPassword);
    ghost var r5 := errors;
    var noTerms := !f.acceptedTerms;
    if noTerms {
      errors := errors + [TermsRequired];
    }
    assert errors == Append(r5, noTerms, TermsRequired);
    ghost var r6 := errors;
    var nameTaken := UsernameInUse(users, f.username);
    if nameTaken {
      errors := errors + [UsernameTaken];
    }
    assert errors == Append(r6, nameTaken, UsernameTaken);
    ghost var r7 := errors;
    var emailTaken := EmailInUse(users, f.email);
    if emailTaken {
      errors := errors + [EmailTaken];
    }
    assert errors == Append(r7, emailTaken, EmailTaken);
  }
}

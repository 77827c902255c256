/** post_changepassword.php: the password reset form's handler. The
    user_account table is reduced to the column it changes, a map from
    username to password hash, and the security log to the list of event
    names. findUserByUsername matches the name exactly; password_hash, whose
    salt is random, is the parameter `hash`; validateCsrfToken is the
    parameter `csrfValid`. */
module ChangePassword {
  import opened Strings
  import opened Php
  import opened Passwords

  /** The messages the status page can list. */
  datatype ResetError = SecurityFailed | NoAccount | WeakPassword | AccountNotFound | OwnPasswordOnly

  /** What the script sends back: a redirect or the status page with the
      messages it lists. */
  datatype Response = Redirect(location: string) | Page(status: int, errors: seq<ResetError>)

  /** The session values the script reads. */
  datatype Session = Session(accessLevel: Option<string>, username: Option<string>)

  function Message(e: ResetError): string {
    match e
    case SecurityFailed => "Security validation failed. Please try again."
    case NoAccount => "A valid account must be selected."
    case WeakPassword => "Passwords must be at least 12 characters and include upper- and lower-case letters, a number, and a symbol."
    case AccountNotFound => "The selected account could not be found."
    case OwnPasswordOnly => "You can only change your own password."
  }

  /** renderPasswordResponse. */
  function Render(errors: seq<ResetError>): (r: Response)
    ensures r.Page? && r.errors == errors
    ensures r.status == 200 <==> errors == []
    ensures r.status == 200 || r.status == 422
  {
    Page(if errors == [] then 200 else 422, errors)
  }

  predicate IsSuperAdmin(session: Session) {
    SameIgnoringCase(OrElse(session.accessLevel, ""), "superadmin")
  }

  /** The form's username, trimmed. */
  function Username(post: Payload): string {
    Trim(Field(post, "username", ""))
  }

  /** The new password, taken as sent. */
  function NewPassword(post: Payload): string {
    Field(post, "realpassword", "")
  }

  /** The account may be changed by this session: a super admin changes any
      account, anyone else only the one whose name matches theirs ignoring
      case. */
  predicate MayChange(session: Session, username: string) {
    IsSuperAdmin(session) || SameIgnoringCase(OrElse(session.username, ""), username)
  }

  /** The messages of the failed checks, in the order the script makes them. */
  function ErrorList(blank: bool, weak: bool, missing: bool, foreign: bool): (r: seq<ResetError>)
    ensures NoAccount in r <==> blank
    ensures WeakPassword in r <==> weak
    ensures AccountNotFound in r <==> missing
    ensures OwnPasswordOnly in r <==> foreign
    ensures SecurityFailed !in r
    ensures r == [] <==> !blank && !weak && !missing && !foreign
  {
    (if blank then [NoAccount] else [])
    + (if weak then [WeakPassword] else [])
    + (if missing then [AccountNotFound] else [])
    + (if foreign then [OwnPasswordOnly] else [])
  }

  /** The reason a reset is refused. */
  function ResetErrors(post: Payload, accounts: set<string>, session: Session): seq<ResetError> {
    CheckErrors(Username(post), NewPassword(post), accounts, session)
  }

  /** The messages for a trimmed username and a new password. */
  function CheckErrors(username: string, newPassword: string, accounts: set<string>,
                       session: Session): seq<ResetError> {
    var found := username != "" && username in accounts;
    ErrorList(username == "", !MeetsPasswordPolicy(newPassword), !found,
              found && !MayChange(session, username))
  }

  /** The response to one request. */
  function Reply(requestMethod: string, post: Payload, csrfValid: bool, accounts: set<string>,
                 session: Session): Response {
    if requestMethod != "POST" then Redirect("changepassword.php")
    else if !csrfValid then Render([SecurityFailed])
    else Render(ResetErrors(post, accounts, session))
  }

  /** The script's checks, each appending its message when it fails. */
  method CollectErrors(username: string, newPassword: string, accounts: set<string>, session: Session)
    returns (errors: seq<ResetError>)
    ensures errors == CheckErrors(username, newPassword, accounts, session)
  {
    errors := [];
    var blank := username == "";
    if blank {
      errors := errors + [NoAccount];
    }
    ghost var e1 := if blank then [NoAccount] else [];
    assert errors == e1;
    var weak := !MeetsPasswordPolicy(newPassword);
    if weak {
      errors := errors + [WeakPassword];
    }
    ghost var e2 := e1 + (if weak then [WeakPassword] else []);
    assert errors == e2;
    var user: Option<string> := if username != "" && username in accounts then Some(username) else None;
    if user.None? {
      errors := errors + [AccountNotFound];
    }
    ghost var e3 := e2 + (if user.None? then [AccountNotFound] else []);
    assert errors == e3;
    var isSuperAdmin := SameIgnoringCase(OrElse(session.accessLevel, ""), "superadmin");
    var foreign := user.Some? && !isSuperAdmin && !SameIgnoringCase(OrElse(session.username, ""), user.value);
    if foreign {
      errors := errors + [OwnPasswordOnly];
    }
    assert errors == e3 + (if foreign then [OwnPasswordOnly] else []);
    assert errors == ErrorList(blank, weak, user.None?, foreign);
  }

  /** The password hashes and the security log. */
  class PasswordStore {
    var hashes: map<string, string>
    var events: seq<string>

    constructor(hashes0: map<string, string>)
      ensures hashes == hashes0 && events == []
    {
      hashes := hashes0;
      events := [];
    }

    method HandleRequest(requestMethod: string, post: Payload, csrfValid: bool, session: Session, hash: string)
      returns (r: Response)
      modifies this
      ensures r == Reply(requestMethod, post, csrfValid, old(hashes).Keys, session)
      ensures r == Page(200, []) ==>
        hashes == old(hashes)[Username(post) := hash] && events == old(events) + ["password_reset"]
      ensures r != Page(200, []) ==> hashes == old(hashes) && events == old(events)
    {
      if requestMethod != "POST" {
        return Redirect("changepassword.php");
      }
      if !csrfValid {
        return Render([SecurityFailed]);
      }
      r := Reset(Username(post), NewPassword(post), session, hash);
    }

    /** The checks and, when they all pass, the update and its log entry. */
    method Reset(username: string, newPassword: string, session: Session, hash: string) returns (r: Response)
      modifies this
      ensures r == Render(CheckErrors(username, newPassword, old(hashes).Keys, session))
      ensures r == Page(200, []) ==>
        hashes == old(hashes)[username := hash] && events == old(events) + ["password_reset"]
      ensures r != Page(200, []) ==> hashes == old(hashes) && events == old(events)
    {
      var errors := CollectErrors(username, newPassword, hashes.Keys, session);
      if errors != [] {
        return Render(errors);
      }
      hashes := hashes[username := hash];
      events := events + ["password_reset"];
      return Render([]);
    }
  }

  // ---------------------------------------------------------------------
  // Properties

  /** A reset goes through exactly when the name is given, the password
      meets the policy, the account exists and the session may change it. */
  lemma ResetAllowed(post: Payload, accounts: set<string>, session: Session)
    ensures ResetErrors(post, accounts, session) == [] <==>
      && Username(post) != ""
      && MeetsPasswordPolicy(NewPassword(post))
      && Username(post) in accounts
      && MayChange(session, Username(post))
  {
  }

  /** Each message appears exactly when its check fails. */
  lemma ErrorMeanings(post: Payload, accounts: set<string>, session: Session)
    ensures var errors := ResetErrors(post, accounts, session);
      && (NoAccount in errors <==> Username(post) == "")
      && (WeakPassword in errors <==> !MeetsPasswordPolicy(NewPassword(post)))
      && (AccountNotFound in errors <==> Username(post) == "" || Username(post) !in accounts)
      && (OwnPasswordOnly in errors <==>
            Username(post) != "" && Username(post) in accounts && !MayChange(session, Username(post)))
  {
    var u := Username(post);
    var found := u != "" && u in accounts;
    var errors := ErrorList(u == "", !MeetsPasswordPolicy(NewPassword(post)), !found, found && !MayChange(session, u));
    assert ResetErrors(post, accounts, session) == errors;
  }

  /** A blank username is reported twice: as missing and as not found. */
  lemma BlankUsernameReportedTwice(post: Payload, accounts: set<string>, session: Session)
    requires Username(post) == ""
    ensures ResetErrors(post, accounts, session)[0] == NoAccount
    ensures AccountNotFound in ResetErrors(post, accounts, session)
    ensures |ResetErrors(post, accounts, session)| >= 2
  {
    var r := ErrorList(true, !MeetsPasswordPolicy(NewPassword(post)), true, false);
    assert ResetErrors(post, accounts, session) == r;
    assert r[0] == NoAccount;
  }

  /** Whoever is not a super admin only resets their own account. */
  lemma OnlyOwnAccount(requestMethod: string, post: Payload, csrfValid: bool, accounts: set<string>,
                       session: Session)
    requires !IsSuperAdmin(session)
    requires Reply(requestMethod, post, csrfValid, accounts, session) == Page(200, [])
    ensures SameIgnoringCase(OrElse(session.username, ""), Username(post))
    ensures Username(post) in accounts
  {
    ResetAllowed(post, accounts, session);
  }

  /** A bad token is answered before any field is looked at. */
  lemma TokenCheckedFirst(post: Payload, accounts: set<string>, session: Session)
    ensures Reply("POST", post, false, accounts, session) == Page(422, [SecurityFailed])
  {
  }
}

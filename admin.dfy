/** The POST handler of admin.php: the CSRF gate, the action switch and its
    guards, the flash messages and the session's access level. The database
    helpers of includes/admin_functions.php are the `writes` the console
    issues; whether the database reports success is the parameter `dbOk`;
    findUserById is the map `users`; FILTER_VALIDATE_IP is `isIp`; the
    actor's id and whether the actor is a super admin come from the session. */
module Admin {
  import opened Strings
  import opened Php

  /** The columns of a user_account row the console reads. */
  datatype UserRow = UserRow(username: Option<string>, accessLevel: Option<string>)

  /** A change the console asks the database to make. */
  datatype Write =
    | SetAccessLevel(userId: int, level: string)
    | SetVerified(userId: int, verified: bool)
    | AddBan(ipAddress: string, reason: string)
    | RemoveBan(banId: int)
    | PurgeEvents(retentionDays: int)

  datatype Context = Context(currentUserId: int, isSuperAdmin: bool, users: map<int, UserRow>,
                             isIp: string -> bool, dbOk: bool)

  /** What one action produces: its message, the write it issued, the
      security event it logged and the access level it put in the session. */
  datatype Effect = Effect(message: Notice, write: Option<Write>, event: Option<string>,
                           sessionLevel: Option<string>)

  const TokenExpired := "Security token expired. Refresh the console and try again."
  const AccountMissing := "The selected account could not be located."
  const SuperAdminTarget := "Only a super admin can modify another super admin."
  const LevelNotPermitted := "The requested access level is not permitted."
  const SuperAdminPromotion := "Only a super admin can promote another super admin."
  const LevelUpdateFailed := "The access level update failed."
  const VerificationFailed := "Unable to update the verification status."
  const InvalidAddress := "Provide a valid IPv4 or IPv6 address to ban."
  const BanAddFailed := "Unable to add the ban. The network might already be listed."
  const InvalidBan := "Select a valid ban entry to remove."
  const BanRemoved := "The network ban has been removed."
  const BanRemoveFailed := "Unable to remove the selected network ban."
  const PurgeFailed := "Unable to purge security events."
  const UnknownAction := "Unknown administrative action requested."

  function Refuse(message: string): (e: Effect)
    ensures e.message.kind == Error && e.write.None? && e.event.None? && e.sessionLevel.None?
  {
    Effect(Notice(Error, message), None, None, None)
  }

  /** The effect logs a security event exactly when it issued a write and
      the database accepted it, and an event goes with a success message. */
  predicate LogsAcceptedWrites(e: Effect, dbOk: bool) {
    && (e.event.Some? <==> e.write.Some? && dbOk)
    && (e.event.Some? <==> e.message.kind == Success)
  }

  /** An action that issued `write`: on success its message and security
      event, on failure its error message and no event. */
  function Commit(write: Write, dbOk: bool, success: string, event: string, failure: string,
                  sessionLevel: Option<string>): (e: Effect)
    ensures LogsAcceptedWrites(e, dbOk)
    ensures e.write == Some(write)
    ensures e.sessionLevel.Some? ==> dbOk && e.sessionLevel == sessionLevel
  {
    if dbOk then Effect(Notice(Success, success), Some(write), Some(event), sessionLevel)
    else Effect(Notice(Error, failure), Some(write), None, None)
  }

  /** `$targetId > 0 ? findUserById(...) : null`. */
  function FindTarget(ctx: Context, id: int): Option<UserRow> {
    if id > 0 && id in ctx.users then Some(ctx.users[id]) else None
  }

  function NameOf(u: UserRow): string {
    OrElse(u.username, "unknown")
  }

  function AllowedLevels(isSuperAdmin: bool): seq<string> {
    if isSuperAdmin then ["standard", "moderator", "admin", "superadmin"]
    else ["standard", "moderator", "admin"]
  }

  function TargetId(post: Payload): int {
    PhpInt(Field(post, "user_id", "0"))
  }

  function RequestedLevel(post: Payload): string {
    Lower(Trim(Field(post, "new_level", "")))
  }

  /** case 'update_access_level', on the posted user id and level. */
  function UpdateAccessLevel(post: Payload, ctx: Context): Effect {
    ChangeAccessLevel(TargetId(post), RequestedLevel(post), ctx)
  }

  /** The guards of the access-level update and its write. */
  function ChangeAccessLevel(targetId: int, newLevel: string, ctx: Context): (e: Effect)
    ensures LogsAcceptedWrites(e, ctx.dbOk)
    ensures e.sessionLevel.Some? <==> e.write.Some? && ctx.dbOk && targetId == ctx.currentUserId
    ensures e.sessionLevel.Some? ==> e.write == Some(SetAccessLevel(ctx.currentUserId, e.sessionLevel.value))
    ensures e.write.Some? ==> e.write.value.SetAccessLevel?
  {
    match FindTarget(ctx, targetId)
    case None => Refuse(AccountMissing)
    case Some(target) =>
      if !ctx.isSuperAdmin && SameIgnoringCase(OrElse(target.accessLevel, ""), "superadmin") then
        Refuse(SuperAdminTarget)
      else if newLevel !in AllowedLevels(ctx.isSuperAdmin) then Refuse(LevelNotPermitted)
      else if !ctx.isSuperAdmin && newLevel == "superadmin" then Refuse(SuperAdminPromotion)
      else
        Commit(SetAccessLevel(targetId, newLevel), ctx.dbOk,
               "Access level for " + NameOf(target) + " updated to " + Upper(newLevel) + ".",
               "admin_update_access", LevelUpdateFailed,
               if targetId == ctx.currentUserId then Some(newLevel) else None)
  }

  /** case 'toggle_verification'. */
  function ToggleVerification(post: Payload, ctx: Context): (e: Effect)
    ensures LogsAcceptedWrites(e, ctx.dbOk) && e.sessionLevel.None?
    ensures e.write.Some? ==> e.write.value.SetVerified?
  {
    var targetId := TargetId(post);
    var shouldVerify := Field(post, "desired_state", "verified") == "verified";
    match FindTarget(ctx, targetId)
    case None => Refuse(AccountMissing)
    case Some(target) =>
      var text := if shouldVerify then "Email verification marked complete for " + NameOf(target) + "."
                  else "Verification reset for " + NameOf(target) + ". A new token has been generated.";
      Commit(SetVerified(targetId, shouldVerify), ctx.dbOk, text, "admin_toggle_verification",
             VerificationFailed, None)
  }

  /** case 'add_network_ban'. */
  function AddNetworkBan(post: Payload, ctx: Context): (e: Effect)
    ensures LogsAcceptedWrites(e, ctx.dbOk) && e.sessionLevel.None?
    ensures e.write.Some? ==> e.write.value.AddBan?
  {
    var ipAddress := Trim(Field(post, "ip_address", ""));
    var reason := Trim(Field(post, "reason", ""));
    if ipAddress == "" || !ctx.isIp(ipAddress) then Refuse(InvalidAddress)
    else
      Commit(AddBan(ipAddress, reason), ctx.dbOk, "Network " + ipAddress + " has been banned.",
             "admin_add_ban", BanAddFailed, None)
  }

  /** case 'remove_network_ban'. */
  function RemoveNetworkBan(post: Payload, ctx: Context): (e: Effect)
    ensures LogsAcceptedWrites(e, ctx.dbOk) && e.sessionLevel.None?
    ensures e.write.Some? ==> e.write.value.RemoveBan?
  {
    var banId := PhpInt(Field(post, "ban_id", "0"));
    if banId <= 0 then Refuse(InvalidBan)
    else Commit(RemoveBan(banId), ctx.dbOk, BanRemoved, "admin_remove_ban", BanRemoveFailed, None)
  }

  /** The retention period: 30 days unless given, within [1, 365]. */
  function RetentionDays(post: Payload): int {
    var days := if "retention_days" in post then PhpInt(post["retention_days"]) else 30;
    if days < 1 then 1 else if days > 365 then 365 else days
  }

  /** case 'purge_security_events'; a failing purge is one that throws. */
  function PurgeSecurityEvents(post: Payload, ctx: Context): (e: Effect)
    ensures LogsAcceptedWrites(e, ctx.dbOk) && e.sessionLevel.None?
    ensures e.write.Some? ==> e.write.value.PurgeEvents?
  {
    var days := RetentionDays(post);
    Commit(PurgeEvents(days), ctx.dbOk,
           "Security logs older than " + IntToDecimal(days) + " days have been purged.",
           "admin_purge_security_events", PurgeFailed, None)
  }

  /** The action switch. */
  function Dispatch(post: Payload, ctx: Context): Effect {
    var action := Field(post, "action", "");
    if action == "update_access_level" then UpdateAccessLevel(post, ctx)
    else if action == "toggle_verification" then ToggleVerification(post, ctx)
    else if action == "add_network_ban" then AddNetworkBan(post, ctx)
    else if action == "remove_network_ban" then RemoveNetworkBan(post, ctx)
    else if action == "purge_security_events" then PurgeSecurityEvents(post, ctx)
    else Refuse(UnknownAction)
  }

  function OptionSeq<T>(o: Option<T>): seq<T> {
    match o case Some(x) => [x] case None => []
  }

  /** The session values and the database side effects the page touches. */
  class AdminConsole {
    var flash: Option<seq<Notice>>      // $_SESSION['admin_flash']
    var accessLevel: Option<string>     // $_SESSION['accesslevel']
    var writes: seq<Write>
    var events: seq<string>

    constructor(flash0: Option<seq<Notice>>, level0: Option<string>)
      ensures flash == flash0 && accessLevel == level0 && writes == [] && events == []
    {
      flash := flash0;
      accessLevel := level0;
      writes := [];
      events := [];
    }

    /** One request: take the pending flash for display, then, for a POST,
        check the token, run the action, store its messages as the new flash
        and redirect back to the console. */
    method HandleRequest(requestMethod: string, post: Payload, csrfValid: bool, ctx: Context)
      returns (shown: seq<Notice>, redirect: bool)
      modifies this
      ensures shown == (if old(flash).Some? then old(flash).value else [])
      ensures requestMethod != "POST" ==>
        && flash == None && !redirect
        && writes == old(writes) && events == old(events) && accessLevel == old(accessLevel)
      ensures requestMethod == "POST" && !csrfValid ==>
        && flash == Some([Notice(Error, TokenExpired)]) && redirect
        && writes == old(writes) && events == old(events) && accessLevel == old(accessLevel)
      ensures requestMethod == "POST" && csrfValid ==>
        var e := Dispatch(post, ctx);
        && flash == Some([e.message]) && redirect
        && writes == old(writes) + OptionSeq(e.write)
        && events == old(events) + OptionSeq(e.event)
        && accessLevel == (if e.sessionLevel.Some? then e.sessionLevel else old(accessLevel))
    {
      shown := match flash case Some(f) => f case None => [];
      flash := None;
      if requestMethod != "POST" {
        return shown, false;
      }
      if !csrfValid {
        flash := Some([Notice(Error, TokenExpired)]);
        return shown, true;
      }
      var e := Dispatch(post, ctx);
      if e.write.Some? {
        writes := writes + [e.write.value];
      }
      if e.event.Some? {
        events := events + [e.event.value];
      }
      if e.sessionLevel.Some? {
        accessLevel := e.sessionLevel;
      }
      flash := Some([e.message]);
      return shown, true;
    }
  }
}

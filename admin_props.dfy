/** What the admin console's guards guarantee about the writes it issues. */
module AdminProperties {
  import opened Strings
  import opened Php
  import opened Admin

  predicate TargetIsSuperAdmin(u: UserRow) {
    SameIgnoringCase(OrElse(u.accessLevel, ""), "superadmin")
  }

  /** An access-level write is issued exactly when the target exists, is not
      a super admin unless the actor is one, and the requested level is on the
      actor's list; it carries the normalised level. */
  lemma AccessLevelGuards(targetId: int, newLevel: string, ctx: Context)
    ensures var e := ChangeAccessLevel(targetId, newLevel, ctx);
      && (e.write.Some? <==>
            && FindTarget(ctx, targetId).Some?
            && (ctx.isSuperAdmin || !TargetIsSuperAdmin(FindTarget(ctx, targetId).value))
            && newLevel in AllowedLevels(ctx.isSuperAdmin))
      && (e.write.Some? ==> e.write.value == SetAccessLevel(targetId, newLevel))
  {
  }

  /** Only a super admin hands out the super admin level or changes the
      level of a super admin. */
  lemma NeverGrantsSuperadmin(post: Payload, ctx: Context)
    requires !ctx.isSuperAdmin
    ensures var e := Dispatch(post, ctx);
      && (e.write.Some? && e.write.value.SetAccessLevel? ==>
            && e.write.value.level != "superadmin"
            && e.write.value.userId in ctx.users
            && !TargetIsSuperAdmin(ctx.users[e.write.value.userId]))
  {
    DispatchCases(post, ctx);
    AccessLevelGuards(TargetId(post), RequestedLevel(post), ctx);
  }

  /** The second super admin check comes after the allowed-level check, which
      already refuses "superadmin" to anyone else, so it never decides: an
      update that issues no write was refused by one of the three earlier
      checks. */
  lemma PromotionGuardUnreachable(targetId: int, newLevel: string, ctx: Context)
    ensures var e := ChangeAccessLevel(targetId, newLevel, ctx);
      e.write.None? ==>
        e == Refuse(AccountMissing) || e == Refuse(SuperAdminTarget) || e == Refuse(LevelNotPermitted)
  {
  }

  /** The action switch runs the action named by the form, and any other
      name is refused. */
  lemma DispatchCases(post: Payload, ctx: Context)
    ensures var action := Field(post, "action", ""); var e := Dispatch(post, ctx);
      && (action == "update_access_level" ==> e == UpdateAccessLevel(post, ctx))
      && (action != "update_access_level" ==>
            || e == ToggleVerification(post, ctx) || e == AddNetworkBan(post, ctx)
            || e == RemoveNetworkBan(post, ctx) || e == PurgeSecurityEvents(post, ctx)
            || e == Refuse(UnknownAction))
  {
  }

  /** The session's own access level follows an update exactly when the
      update succeeded and its target is the signed-in user. */
  lemma SessionFollowsOwnUpdate(post: Payload, ctx: Context)
    ensures var e := Dispatch(post, ctx);
      && (e.sessionLevel.Some? <==>
            && Field(post, "action", "") == "update_access_level"
            && e.write.Some? && ctx.dbOk && TargetId(post) == ctx.currentUserId)
      && (e.sessionLevel.Some? ==> e.write == Some(SetAccessLevel(ctx.currentUserId, e.sessionLevel.value)))
  {
    DispatchCases(post, ctx);
  }

  /** A verification change needs an existing target; the account is marked
      verified unless another desired state is posted. */
  lemma VerificationRequest(post: Payload, ctx: Context)
    ensures var e := ToggleVerification(post, ctx);
      && (e.write.Some? <==> FindTarget(ctx, TargetId(post)).Some?)
      && (e.write.Some? ==>
            e.write.value == SetVerified(TargetId(post),
                                         "desired_state" !in post || post["desired_state"] == "verified"))
  {
  }

  /** A ban is only added for a non-empty address the IP filter accepts, and
      only a positive ban id is removed. */
  lemma BanGuards(post: Payload, ctx: Context)
    ensures var e := AddNetworkBan(post, ctx);
      e.write.Some? <==> Trim(Field(post, "ip_address", "")) != "" && ctx.isIp(Trim(Field(post, "ip_address", "")))
    ensures var e := RemoveNetworkBan(post, ctx);
      e.write.Some? <==> PhpInt(Field(post, "ban_id", "0")) > 0
    ensures var e := RemoveNetworkBan(post, ctx);
      e.write.Some? ==> e.write.value.RemoveBan? && e.write.value.banId > 0
  {
    var banId := PhpInt(Field(post, "ban_id", "0"));
    if banId <= 0 {
      assert RemoveNetworkBan(post, ctx) == Refuse(InvalidBan);
    } else {
      assert RemoveNetworkBan(post, ctx)
          == Commit(RemoveBan(banId), ctx.dbOk, BanRemoved, "admin_remove_ban", BanRemoveFailed, None);
    }
  }

  /** The purge keeps between 1 and 365 days of logs, 30 unless asked
      otherwise, and keeps exactly the requested number when it is in range. */
  lemma RetentionBounds(post: Payload)
    ensures 1 <= RetentionDays(post) <= 365
    ensures "retention_days" !in post ==> RetentionDays(post) == 30
    ensures "retention_days" in post && 1 <= PhpInt(post["retention_days"]) <= 365 ==>
      RetentionDays(post) == PhpInt(post["retention_days"])
  {
  }

  /** The success message states the stored number of days. */
  lemma PurgeMessageStatesDays(post: Payload, ctx: Context)
    requires ctx.dbOk
    ensures var e := PurgeSecurityEvents(post, ctx);
      && e.write == Some(PurgeEvents(RetentionDays(post)))
      && e.message.message == "Security logs older than " + IntToDecimal(RetentionDays(post)) + " days have been purged."
  {
  }

  /** Every action logs a security event exactly when it issued a write and
      the database accepted it, and an event goes with a success message. */
  lemma EventIffAcceptedWrite(post: Payload, ctx: Context)
    ensures var e := Dispatch(post, ctx);
      && (e.event.Some? <==> e.write.Some? && ctx.dbOk)
      && (e.event.Some? <==> e.message.kind == Success)
  {
    DispatchCases(post, ctx);
  }

  /** The write an action issues is of that action's own kind; an unknown
      action issues none and reports an error. */
  lemma WriteMatchesAction(post: Payload, ctx: Context)
    ensures var e := Dispatch(post, ctx);
      var action := Field(post, "action", "");
      && (e.write.Some? && e.write.value.SetAccessLevel? ==> action == "update_access_level")
      && (e.write.Some? && e.write.value.SetVerified? ==> action == "toggle_verification")
      && (e.write.Some? && e.write.value.AddBan? ==> action == "add_network_ban")
      && (e.write.Some? && e.write.value.RemoveBan? ==> action == "remove_network_ban")
      && (e.write.Some? && e.write.value.PurgeEvents? ==> action == "purge_security_events")
      && (action !in ["update_access_level", "toggle_verification", "add_network_ban",
                      "remove_network_ban", "purge_security_events"] ==>
            e == Effect(Notice(Error, UnknownAction), None, None, None))
  {
    DispatchCases(post, ctx);
  }

  /** After a token failure the console has issued nothing. */
  method TokenFailureChangesNothing(console: AdminConsole, post: Payload, ctx: Context)
    modifies console
    ensures console.writes == old(console.writes) && console.events == old(console.events)
    ensures console.flash == Some([Notice(Error, TokenExpired)])
  {
    var shown, redirect := console.HandleRequest("POST", post, false, ctx);
  }
}

/** What the profile handler's checks guarantee about the values it stores
    and the avatar files it keeps. */
module ProfileProperties {
  import opened Strings
  import opened Php
  import opened Profile

  // ---------------------------------------------------------------------
  // The Discord handle, read without backtracking

  function DropAt(s: string): string {
    if s != [] && s[0] == '@' then s[1..] else s
  }

  predicate HasDiscriminator(t: string) {
    |t| >= 5 && IsDiscriminator(t[|t| - 5..])
  }

  function HandleName(t: string): string {
    if HasDiscriminator(t) then t[..|t| - 5] else t
  }

  /** An optional '@', a name of 2 to 32 handle characters, and an optional
      "#" with four digits. */
  predicate IsDiscordHandle(s: string) {
    var name := HandleName(DropAt(s));
    2 <= |name| <= 32 && AllHandleChars(name)
  }

  lemma MatchIsHandle(s: string, p: int, n: int, k: int)
    requires DiscordMatchAt(s, p, n, k)
    requires s == [] || s[|s| - 1] != '\n'
    ensures IsDiscordHandle(s)
  {
    assert |s| == p + n + k;
    assert DropAt(s) == s[p..];
    var t := s[p..];
    if k == 5 {
      assert t[n..] == s[p + n..p + n + 5];
      HandleNameWithTag(t, n);
      assert t[..n] == s[p..p + n];
    } else {
      assert t == s[p..p + n];
      HandleNameWithoutTag(t);
    }
  }

  lemma HandleNameWithTag(t: string, n: nat)
    requires |t| == n + 5 && IsDiscriminator(t[n..])
    ensures HandleName(t) == t[..n]
  {
    assert t[|t| - 5..] == t[n..];
  }

  lemma HandleNameWithoutTag(t: string)
    requires t != [] && AllHandleChars(t)
    ensures HandleName(t) == t
  {
    if |t| >= 5 {
      assert IsHandleChar(t[|t| - 5]);
    }
  }

  /** The way the pattern matches a handle. */
  lemma HandleMatch(s: string) returns (p: int, n: int, k: int)
    requires IsDiscordHandle(s)
    ensures 0 <= p <= 1 && 2 <= n <= 32 && 0 <= k <= 5 && p + n + k == |s|
    ensures DiscordMatchAt(s, p, n, k)
  {
    p := if s != [] && s[0] == '@' then 1 else 0;
    var t := DropAt(s);
    assert t == s[p..];
    k := if HasDiscriminator(t) then 5 else 0;
    var name := HandleName(t);
    n := |name|;
    assert name == s[p..p + n];
    if k == 5 {
      assert |t| == |s| - p && n == |t| - 5;
      assert t[|t| - 5..] == s[p + n..];
      assert s[p + n..] == s[p + n..p + n + 5];
    }
  }

  /** On a text without a final line feed, which the trimmed handle is, the
      pattern accepts exactly the handles. */
  lemma DiscordPatternIff(s: string)
    requires s == [] || s[|s| - 1] != '\n'
    ensures MatchesDiscordPattern(s) <==> IsDiscordHandle(s)
  {
    if MatchesDiscordPattern(s) {
      var p, n, k :| 0 <= p <= 1 && 2 <= n <= 32 && 0 <= k <= 5 && DiscordMatchAt(s, p, n, k);
      MatchIsHandle(s, p, n, k);
    }
    if IsDiscordHandle(s) {
      var p, n, k := HandleMatch(s);
    }
  }

  /** PCRE's '$' also lets a final line feed through after a handle. */
  lemma DiscordPatternFinalNewline(s: string)
    requires IsDiscordHandle(s)
    ensures MatchesDiscordPattern(s + "\n")
  {
    var p, n, k := HandleMatch(s);
    var s' := s + "\n";
    assert s'[p..p + n] == s[p..p + n];
    assert k == 5 ==> s'[p + n..p + n + 5] == s[p + n..p + n + 5];
    assert p == 1 ==> s'[0] == s[0];
    assert DiscordMatchAt(s', p, n, k);
  }

  // ---------------------------------------------------------------------
  // The field checks

  /** The display-name rule: between 3 and 60 bytes; the empty name needs no
      check of its own. */
  lemma DisplayNameRule(name: string)
    ensures BadDisplayNameCheck(name) <==> !(3 <= Utf8Len(name) <= 60)
  {
    if name == "" {
      assert Utf8Len(name) == 0;
    }
  }

  /** The four choice checks: each message is listed exactly when its rule
      fails, after the messages already there. */
  lemma ChoiceMeanings(e0: seq<ProfileError>, d: ProfileData)
    ensures var r := ChoiceErrors(e0, d);
      && |e0| <= |r| && r[..|e0|] == e0
      && (forall x :: x in r ==> x in e0 || x in [BadDisplayName, BadFaction, BadActivity, BadTimezone])
      && (BadDisplayName in r <==> BadDisplayName in e0 || !(3 <= Utf8Len(d.displayName) <= 60))
      && (BadFaction in r <==> BadFaction in e0 || d.faction !in Factions)
      && (BadActivity in r <==> BadActivity in e0 || d.activity !in Activities)
      && (BadTimezone in r <==> BadTimezone in e0 || d.timezone !in Timezones)
  {
    DisplayNameRule(d.displayName);
    var r1 := Append(e0, BadDisplayNameCheck(d.displayName), BadDisplayName);
    var r2 := Append(r1, d.faction !in Factions, BadFaction);
    var r3 := Append(r2, d.activity !in Activities, BadActivity);
    var r := Append(r3, d.timezone !in Timezones, BadTimezone);
    assert r == ChoiceErrors(e0, d);
    assert r[..|e0|] == e0 by {
      assert r1[..|e0|] == e0;
      assert r2[..|e0|] == e0;
      assert r3[..|e0|] == e0;
    }
  }

  /** The Discord, avatar URL and biography checks, likewise. */
  lemma LinkMeanings(e0: seq<ProfileError>, d: ProfileData, isUrl: string -> bool)
    ensures var r := LinkErrors(e0, d, isUrl);
      && |e0| <= |r| && r[..|e0|] == e0
      && (forall x :: x in r ==> x in e0 || x in [BadDiscord, BadAvatarUrl, LongBiography])
      && (BadDiscord in r <==> BadDiscord in e0 || (d.discordHandle != "" && !MatchesDiscordPattern(d.discordHandle)))
      && (BadAvatarUrl in r <==>
            || BadAvatarUrl in e0
            || (d.avatarUrl != "" && !StartsWith(d.avatarUrl, AvatarPrefix)
                && !(isUrl(d.avatarUrl) && HasHttpScheme(d.avatarUrl))))
      && (LongBiography in r <==> LongBiography in e0 || Utf8Len(d.biography) > 700)
  {
    var r1 := Append(e0, d.discordHandle != "" && !MatchesDiscordPattern(d.discordHandle), BadDiscord);
    var r2 := Append(r1, BadAvatarUrlCheck(d.avatarUrl, isUrl), BadAvatarUrl);
    var r := Append(r2, Utf8Len(d.biography) > 700, LongBiography);
    assert r == LinkErrors(e0, d, isUrl);
    assert r[..|e0|] == e0 by {
      assert r1[..|e0|] == e0;
      assert r2[..|e0|] == e0;
    }
  }

  /** The values a profile may be stored with. */
  predicate Storable(d: ProfileData, isUrl: string -> bool) {
    && 3 <= Utf8Len(d.displayName) <= 60
    && d.faction in Factions && d.activity in Activities && d.timezone in Timezones
    && (d.discordHandle == "" || MatchesDiscordPattern(d.discordHandle))
    && (d.avatarUrl == "" || StartsWith(d.avatarUrl, AvatarPrefix)
        || (isUrl(d.avatarUrl) && HasHttpScheme(d.avatarUrl)))
    && Utf8Len(d.biography) <= 700
  }

  /** The field checks add nothing exactly when the values are storable. */
  lemma FieldErrorsEmpty(e0: seq<ProfileError>, d: ProfileData, isUrl: string -> bool)
    ensures FieldErrors(e0, d, isUrl) == [] <==> e0 == [] && Storable(d, isUrl)
  {
    var c := ChoiceErrors(e0, d);
    ChoiceMeanings(e0, d);
    LinkMeanings(c, d, isUrl);
    if FieldErrors(e0, d, isUrl) == [] {
      assert c == [];
    }
  }

  // ---------------------------------------------------------------------
  // The upload

  /** Each MIME type has its own extension, and the extension gives the type
      back. */
  lemma ExtensionRoundTrip(mime: string)
    ensures Extension(mime).Some? ==> MimeOf(Extension(mime).value) == mime
  {
  }

  /** The stored name: "avatar_", the user id in decimal, "_", twelve hex
      digits of the six random bytes and the extension; the id and the bytes
      can be read back from it. */
  lemma AvatarNameParts(userId: int, bytes: seq<Byte>, ext: string)
    requires |bytes| == 6
    ensures var d := IntToDecimal(userId); var h := Bin2Hex(bytes);
      && AvatarFileName(userId, bytes, ext) == "avatar_" + d + "_" + h + "." + ext
      && PhpInt(d) == userId
      && |h| == 12 && (forall i :: 0 <= i < |h| ==> IsHexDigit(h[i]))
      && Hex2Bin(h) == bytes
  {
    IntCastOfDecimal(userId);
    Bin2HexRoundTrip(bytes);
  }

  /** Which message a sent file gets, in the script's order. */
  lemma UploadRejections(u: Upload, env: Env, userId: int, previous: string, dirExists: bool,
                         files: set<string>)
    ensures var o := AcceptUpload(u, env, userId, previous, dirExists, files);
      var tmp := OrElse(u.tmpName, "");
      && (o.error == Some(UploadFailed) <==> OrInt(u.error, UploadOk) != UploadOk)
      && (o.error == Some(AvatarTooLarge) <==>
            OrInt(u.error, UploadOk) == UploadOk && OrInt(u.size, 0) > 2097152)
      && (o.error == Some(BadImageType) ==> Extension(env.mimeType(tmp)).None?)
      && (o.error == Some(StorageUnavailable) ==> !dirExists && !env.mkdirOk && !o.dirExists)
  {
  }

  /** A saved avatar passed every upload check and is stored under its
      generated name. */
  lemma SavedAvatar(u: Upload, env: Env, userId: int, previous: string, dirExists: bool,
                    files: set<string>)
    ensures var o := AcceptUpload(u, env, userId, previous, dirExists, files);
      var tmp := OrElse(u.tmpName, "");
      o.avatarUrl.Some? ==>
        && OrInt(u.error, UploadOk) == UploadOk && OrInt(u.size, 0) <= MaxAvatarBytes
        && env.isUploadedFile(tmp) && Extension(env.mimeType(tmp)).Some?
        && env.randomBytes.Some? && env.moveOk && o.dirExists
        && o.avatarUrl.value == AvatarPrefix + AvatarFileName(userId, env.randomBytes.value,
                                                              Extension(env.mimeType(tmp)).value)
  {
  }

  /** The upload step adds at most the saved file and removes at most the
      avatar it replaces, and only when it saved one. */
  lemma UploadFiles(u: Upload, env: Env, userId: int, previous: string, dirExists: bool,
                    files: set<string>)
    ensures var o := AcceptUpload(u, env, userId, previous, dirExists, files);
      && files - o.files <= {previous}
      && (o.avatarUrl.None? ==> o.files == files)
      && (o.avatarUrl.Some? ==> o.files - files <= {o.avatarUrl.value})
      && (o.avatarUrl.Some? && o.avatarUrl.value != previous ==> o.avatarUrl.value in o.files)
      && (o.avatarUrl.Some? && env.unlinkOk && StartsWith(previous, AvatarPrefix) ==> previous !in o.files)
  {
  }

  // ---------------------------------------------------------------------
  // The whole submission

  /** The values a submission would store: the posted values trimmed, the
      saved avatar in place of the posted URL, and the biography without its
      tags. */
  lemma SubmittedValues(post: Payload, upload: Option<Upload>, env: Env, userId: int, previous: string,
                        dirExists: bool, files: set<string>)
    ensures var s := Evaluate(post, upload, env, userId, previous, dirExists, files);
      && s.data.displayName == Trim(Field(post, "display_name", ""))
      && s.data.faction == Field(post, "faction", "Independent")
      && s.data.activity == Field(post, "favorite_activity", "Explorer")
      && s.data.timezone == Field(post, "timezone", "UTC")
      && s.data.discordHandle == Trim(Field(post, "discord_handle", ""))
      && s.data.avatarUrl == (if s.upload.avatarUrl.Some? then s.upload.avatarUrl.value
                              else Trim(Field(post, "avatar_url", "")))
      && s.data.biography == CleanBiography(Trim(Field(post, "biography", "")), env.stripTags)
      && (!UploadPresent(upload) ==>
            s.upload.error.None? && s.upload.avatarUrl.None? && s.upload.dirExists == dirExists
            && s.upload.files == files)
  {
  }

  /** The later checks leave any other message where it was. */
  lemma LinkChecksKeep(c: seq<ProfileError>, d: ProfileData, isUrl: string -> bool, x: ProfileError)
    requires !x.BadDiscord? && !x.BadAvatarUrl? && !x.LongBiography?
    ensures x in LinkErrors(c, d, isUrl) <==> x in c
  {
    var r1 := Append(c, d.discordHandle != "" && !MatchesDiscordPattern(d.discordHandle), BadDiscord);
    var r2 := Append(r1, BadAvatarUrlCheck(d.avatarUrl, isUrl), BadAvatarUrl);
    assert x in r1 <==> x in c;
    assert x in r2 <==> x in r1;
  }

  /** The choice checks keep the messages already there in front. */
  lemma ChoicePrefix(e0: seq<ProfileError>, d: ProfileData)
    ensures |e0| <= |ChoiceErrors(e0, d)| && ChoiceErrors(e0, d)[..|e0|] == e0
  {
    var r1 := Append(e0, BadDisplayNameCheck(d.displayName), BadDisplayName);
    var r2 := Append(r1, d.faction !in Factions, BadFaction);
    var r3 := Append(r2, d.activity !in Activities, BadActivity);
    var r := Append(r3, d.timezone !in Timezones, BadTimezone);
    assert r1[..|e0|] == e0;
    assert r2[..|e0|] == e0;
    assert r3[..|e0|] == e0;
    assert r[..|e0|] == e0;
  }

  /** The choice checks add no other message. */
  lemma ChoiceChecksKeep(e0: seq<ProfileError>, d: ProfileData, x: ProfileError)
    requires !x.BadDisplayName? && !x.BadFaction? && !x.BadActivity? && !x.BadTimezone?
    ensures x in ChoiceErrors(e0, d) <==> x in e0
  {
    var r1 := Append(e0, BadDisplayNameCheck(d.displayName), BadDisplayName);
    var r2 := Append(r1, d.faction !in Factions, BadFaction);
    var r3 := Append(r2, d.activity !in Activities, BadActivity);
    assert x in r1 <==> x in e0;
    assert x in r2 <==> x in r1;
    assert x in r3 <==> x in r2;
  }

  /** After messages of the upload alone, the four choice messages are listed
      exactly when their rules fail. */
  lemma ChoiceMessages(e0: seq<ProfileError>, d: ProfileData, isUrl: string -> bool)
    requires forall x :: x in e0 ==> IsUploadError(x)
    ensures var r := FieldErrors(e0, d, isUrl);
      && (BadDisplayName in r <==> !(3 <= Utf8Len(d.displayName) <= 60))
      && (BadFaction in r <==> d.faction !in Factions)
      && (BadActivity in r <==> d.activity !in Activities)
      && (BadTimezone in r <==> d.timezone !in Timezones)
  {
    var c := ChoiceErrors(e0, d);
    ChoiceMeanings(e0, d);
    assert BadDisplayName !in e0 && BadFaction !in e0 && BadActivity !in e0 && BadTimezone !in e0;
    LinkChecksKeep(c, d, isUrl, BadDisplayName);
    LinkChecksKeep(c, d, isUrl, BadFaction);
    LinkChecksKeep(c, d, isUrl, BadActivity);
    LinkChecksKeep(c, d, isUrl, BadTimezone);
  }

  /** After messages of the upload alone, the three link messages are listed
      exactly when their rules fail, and the upload's messages stay in
      front. */
  lemma LinkMessages(e0: seq<ProfileError>, d: ProfileData, isUrl: string -> bool)
    requires forall x :: x in e0 ==> IsUploadError(x)
    ensures var r := FieldErrors(e0, d, isUrl);
      && |e0| <= |r| && r[..|e0|] == e0
      && (BadDiscord in r <==> d.discordHandle != "" && !MatchesDiscordPattern(d.discordHandle))
      && (BadAvatarUrl in r <==> BadAvatarUrlCheck(d.avatarUrl, isUrl))
      && (LongBiography in r <==> Utf8Len(d.biography) > 700)
  {
    var c := ChoiceErrors(e0, d);
    ChoicePrefix(e0, d);
    ChoiceChecksKeep(e0, d, BadDiscord);
    ChoiceChecksKeep(e0, d, BadAvatarUrl);
    ChoiceChecksKeep(e0, d, LongBiography);
    var discord := d.discordHandle != "" && !MatchesDiscordPattern(d.discordHandle);
    assert FieldErrors(e0, d, isUrl) == LinkErrors(c, d, isUrl);
    AppendThree(c, discord, BadAvatarUrlCheck(d.avatarUrl, isUrl), Utf8Len(d.biography) > 700);
    assert FieldErrors(e0, d, isUrl)[..|e0|] == c[..|e0|];
  }

  /** Three appended link messages: each is listed exactly when its flag is
      set, after the messages already there. */
  lemma AppendThree(c: seq<ProfileError>, discord: bool, url: bool, long: bool)
    requires BadDiscord !in c && BadAvatarUrl !in c && LongBiography !in c
    ensures var r := Append(Append(Append(c, discord, BadDiscord), url, BadAvatarUrl), long, LongBiography);
      && |c| <= |r| && r[..|c|] == c
      && (BadDiscord in r <==> discord) && (BadAvatarUrl in r <==> url) && (LongBiography in r <==> long)
  {
    var r1 := Append(c, discord, BadDiscord);
    var r2 := Append(r1, url, BadAvatarUrl);
    var r := Append(r2, long, LongBiography);
    assert r1[..|c|] == c;
    assert r2[..|c|] == c;
    assert r[..|c|] == c;
  }

  /** A submission is accepted exactly when no upload check failed and the
      values it would store are storable; its saved avatar never fails the
      URL check. */
  lemma AcceptedIffStorable(f: ProfileData, o: UploadOutcome, isUrl: string -> bool,
                            stripTags: string -> string)
    requires o.error.Some? ==> IsUploadError(o.error.value)
    ensures var s := Conclude(f, o, isUrl, stripTags);
      && (s.errors == [] <==> o.error.None? && Storable(s.data, isUrl))
      && (o.avatarUrl.Some? && StartsWith(o.avatarUrl.value, AvatarPrefix) ==> BadAvatarUrl !in s.errors)
  {
    var s := Conclude(f, o, isUrl, stripTags);
    var e0 := OptionSeq(o.error);
    assert s.errors == FieldErrors(e0, s.data, isUrl);
    assert e0 == [] <==> o.error.None?;
    FieldErrorsEmpty(e0, s.data, isUrl);
    LinkMessages(e0, s.data, isUrl);
  }

  /** The upload's message, when there is one, comes first, and each field
      message is listed exactly when its rule fails on the stored value. */
  lemma SubmissionMessages(f: ProfileData, o: UploadOutcome, isUrl: string -> bool,
                           stripTags: string -> string)
    requires o.error.Some? ==> IsUploadError(o.error.value)
    ensures var s := Conclude(f, o, isUrl, stripTags); var d := s.data;
      && (o.error.Some? ==> |s.errors| > 0 && s.errors[0] == o.error.value)
      && (BadDisplayName in s.errors <==> !(3 <= Utf8Len(d.displayName) <= 60))
      && (BadFaction in s.errors <==> d.faction !in Factions)
      && (BadActivity in s.errors <==> d.activity !in Activities)
      && (BadTimezone in s.errors <==> d.timezone !in Timezones)
      && (BadDiscord in s.errors <==> d.discordHandle != "" && !MatchesDiscordPattern(d.discordHandle))
      && (LongBiography in s.errors <==> Utf8Len(d.biography) > 700)
  {
    var s := Conclude(f, o, isUrl, stripTags);
    var e0 := OptionSeq(o.error);
    assert s.errors == FieldErrors(e0, s.data, isUrl);
    ChoiceMessages(e0, s.data, isUrl);
    LinkMessages(e0, s.data, isUrl);
    if o.error.Some? {
      assert s.errors[0] == s.errors[..|e0|][0];
    }
  }

  /** With the handler's trimmed handle, the Discord message means the handle
      is not empty and not a handle. */
  lemma TrimmedDiscordRule(post: Payload)
    ensures var h := Trim(Field(post, "discord_handle", ""));
      (h != "" && !MatchesDiscordPattern(h)) <==> h != "" && !IsDiscordHandle(h)
  {
    var h := Trim(Field(post, "discord_handle", ""));
    assert h == [] || !IsTrimChar(h[|h| - 1]);
    DiscordPatternIff(h);
  }

  /** A form that leaves out the faction, activity or timezone gets the
      default, which is on its list. */
  lemma DefaultsOnTheirLists(post: Payload)
    ensures "faction" !in post ==> ReadForm(post).faction in Factions
    ensures "favorite_activity" !in post ==> ReadForm(post).activity in Activities
    ensures "timezone" !in post ==> ReadForm(post).timezone in Timezones
  {
    assert Factions[2] == "Independent" && Activities[5] == "Explorer" && Timezones[0] == "UTC";
  }

  // ---------------------------------------------------------------------
  // The avatar a rejected submission deletes

  /** As written, a saved upload deletes the previous avatar file before the
      other fields are checked, so a submission whose display name is then
      refused leaves the stored profile pointing at a deleted file. */
  lemma RejectedSubmissionRemovesAvatar(f: ProfileData, u: Upload, env: Env, userId: int,
                                        previous: string, dirExists: bool, files: set<string>)
    requires AcceptUpload(u, env, userId, previous, dirExists, files).avatarUrl.Some?
    requires env.unlinkOk && StartsWith(previous, AvatarPrefix) && previous in files
    requires BadDisplayNameCheck(f.displayName)
    ensures var o := AcceptUpload(u, env, userId, previous, dirExists, files);
      var s := Conclude(f, o, env.isUrl, env.stripTags);
      s.errors != [] && previous !in s.upload.files
  {
    var o := AcceptUpload(u, env, userId, previous, dirExists, files);
    var s := Conclude(f, o, env.isUrl, env.stripTags);
    SubmissionMessages(f, o, env.isUrl, env.stripTags);
    DisplayNameRule(f.displayName);
    assert BadDisplayName in s.errors;
    UploadFiles(u, env, userId, previous, dirExists, files);
  }

  /** The files after a saved upload when the replaced avatar is deleted
      only once the profile naming the new one is stored. */
  function CorrectedFiles(files: set<string>, url: string, previous: string, unlinkOk: bool,
                          stored: bool): set<string> {
    var moved := files + {url};
    if stored && unlinkOk && url != previous then moved - ReplacedAvatar(previous, moved) else moved
  }

  /** With the deletion deferred, a refused submission deletes no file, and
      a stored one keeps the file its profile now names and loses at most the
      previous avatar. */
  lemma CorrectedFilesKeepAvatars(files: set<string>, url: string, previous: string, unlinkOk: bool,
                                  stored: bool)
    ensures var after := CorrectedFiles(files, url, previous, unlinkOk, stored);
      && (!stored ==> files <= after)
      && url in after
      && files - after <= {previous}
      && (stored && unlinkOk && url != previous && StartsWith(previous, AvatarPrefix) && previous in files ==>
            previous !in after)
  {
  }
}

/** profile.php: the POST handler of the profile form, with its avatar
    upload. The user_account row is an `Account`; the files under the site's
    images/avatars directory are a set of site paths ("/images/avatars/...").
    validateCsrfToken, is_uploaded_file, finfo's MIME detection, mkdir,
    random_bytes, move_uploaded_file, unlink, FILTER_VALIDATE_URL and
    strip_tags are parameters (`Env`). */
module Profile {
  import opened Strings
  import opened Php

  const Factions: seq<string> := [
    "Galactic Empire", "Rebel Alliance", "Independent", "Smuggler Coalition",
    "Mandalorian Clans", "Galactic Civilian Corps"]

  const Activities: seq<string> := [
    "Pilot", "Crafter", "Bounty Hunter", "Entertainer", "Guild Quartermaster", "Explorer"]

  const Timezones: seq<string> := [
    "UTC", "America/New_York", "America/Chicago", "America/Denver", "America/Los_Angeles",
    "Europe/London", "Europe/Paris", "Europe/Berlin", "Europe/Moscow", "Asia/Tokyo",
    "Asia/Singapore", "Australia/Sydney"]

  datatype ProfileError =
    | SessionExpired
    | UploadFailed | AvatarTooLarge | UnexpectedUpload | BadImageType | StorageUnavailable
    | SaveFailed | ProcessingFailed
    | BadDisplayName | BadFaction | BadActivity | BadTimezone | BadDiscord | BadAvatarUrl
    | LongBiography

  function Message(e: ProfileError): string {
    match e
    case SessionExpired => "Session expired. Please resubmit the form."
    case UploadFailed => "We could not upload your avatar. Please try again."
    case AvatarTooLarge => "Avatar files must be 2MB or smaller."
    case UnexpectedUpload => "Unexpected upload error occurred. Please retry."
    case BadImageType => "Please upload a JPG, PNG, GIF, or WEBP image."
    case StorageUnavailable => "Unable to prepare storage for avatars. Please contact an administrator."
    case SaveFailed => "We could not save your avatar. Please try again."
    case ProcessingFailed => "We could not process your avatar upload. Please try again."
    case BadDisplayName => "Display name must be between 3 and 60 characters."
    case BadFaction => "Please choose a valid faction alignment."
    case BadActivity => "Select a playstyle that best represents you."
    case BadTimezone => "Please choose a supported timezone."
    case BadDiscord => "Discord handle should include 2-32 characters and may end with #1234."
    case BadAvatarUrl => "Avatar URL must be a valid http or https address."
    case LongBiography => "Biography cannot exceed 700 characters."
  }

  /** The columns of a user_account row the page reads and updates; NULL is None. */
  datatype Account = Account(username: Option<string>, displayName: Option<string>,
                             faction: Option<string>, activity: Option<string>,
                             timezone: Option<string>, discordHandle: Option<string>,
                             avatarUrl: Option<string>, biography: Option<string>)

  /** The seven values updateUserProfile stores. */
  datatype ProfileData = ProfileData(displayName: string, timezone: string, faction: string,
                                     activity: string, discordHandle: string, avatarUrl: string,
                                     biography: string)

  /** The row after updateUserProfile. */
  function Stored(a: Account, d: ProfileData): (r: Account)
    ensures r.username == a.username
    ensures r.displayName == Some(d.displayName) && r.timezone == Some(d.timezone)
    ensures r.faction == Some(d.faction) && r.activity == Some(d.activity)
    ensures r.discordHandle == Some(d.discordHandle) && r.avatarUrl == Some(d.avatarUrl)
    ensures r.biography == Some(d.biography)
  {
    Account(a.username, Some(d.displayName), Some(d.faction), Some(d.activity), Some(d.timezone),
            Some(d.discordHandle), Some(d.avatarUrl), Some(d.biography))
  }

  /** The avatar URL the account had when the page was loaded. */
  function PreviousAvatar(a: Account): string {
    Trim(OrElse(a.avatarUrl, ""))
  }

  /** The form's values, trimmed where the script trims them; the biography
      still has its tags. */
  function ReadForm(post: Payload): ProfileData {
    ProfileData(Trim(Field(post, "display_name", "")), Field(post, "timezone", "UTC"),
                Field(post, "faction", "Independent"), Field(post, "favorite_activity", "Explorer"),
                Trim(Field(post, "discord_handle", "")), Trim(Field(post, "avatar_url", "")),
                Trim(Field(post, "biography", "")))
  }

  // ---------------------------------------------------------------------
  // The avatar upload

  /** An entry of $_FILES; any of its keys may be missing. */
  datatype Upload = Upload(error: Option<int>, size: Option<int>, tmpName: Option<string>)

  const UploadOk := 0      // UPLOAD_ERR_OK
  const NoFile := 4        // UPLOAD_ERR_NO_FILE
  const MaxAvatarBytes := 2 * 1024 * 1024
  const AvatarPrefix := "/images/avatars/"

  /** What the page learns from outside: the token check, PHP's upload and
      file functions, random_bytes (None when it throws), the URL filter and
      strip_tags. `mkdirOk` says the avatars directory exists after mkdir,
      whoever made it. */
  datatype Env = Env(isUploadedFile: string -> bool, mimeType: string -> string, mkdirOk: bool,
                     randomBytes: Option<seq<Byte>>, moveOk: bool, unlinkOk: bool,
                     isUrl: string -> bool, stripTags: string -> string)

  /** The messages only the upload step produces. */
  predicate IsUploadError(e: ProfileError) {
    e.UploadFailed? || e.AvatarTooLarge? || e.UnexpectedUpload? || e.BadImageType?
    || e.StorageUnavailable? || e.SaveFailed? || e.ProcessingFailed?
  }

  function OrInt(v: Option<int>, default: int): int {
    match v
    case Some(n) => n
    case None => default
  }

  /** A file was sent: the entry exists and its error code, taken as
      UPLOAD_ERR_NO_FILE when missing, is not UPLOAD_ERR_NO_FILE. */
  predicate UploadPresent(u: Option<Upload>) {
    u.Some? && OrInt(u.value.error, NoFile) != NoFile
  }

  /** The accepted MIME types and the extension each is stored under. */
  function Extension(mime: string): (ext: Option<string>)
    ensures ext.Some? <==> mime in ["image/jpeg", "image/png", "image/gif", "image/webp"]
    ensures ext.Some? ==> ext.value in ["jpg", "png", "gif", "webp"]
  {
    if mime == "image/jpeg" then Some("jpg")
    else if mime == "image/png" then Some("png")
    else if mime == "image/gif" then Some("gif")
    else if mime == "image/webp" then Some("webp")
    else None
  }

  /** The MIME type an extension was chosen for. */
  function MimeOf(ext: string): string {
    if ext == "jpg" then "image/jpeg" else "image/" + ext
  }

  /** sprintf('avatar_%d_%s.%s', ...), with bin2hex of the random bytes. */
  function AvatarFileName(userId: int, bytes: seq<Byte>, ext: string): string {
    "avatar_" + IntToDecimal(userId) + "_" + Bin2Hex(bytes) + "." + ext
  }

  /** The previous avatar, when it is a file of the site that exists. */
  function ReplacedAvatar(previous: string, files: set<string>): (r: set<string>)
    ensures r <= {previous}
    ensures r == {previous} <==> StartsWith(previous, AvatarPrefix) && previous in files
  {
    if previous != "" && StartsWith(previous, AvatarPrefix) && previous in files then {previous} else {}
  }

  /** The result of the upload step: its message, if any, the new avatar's
      URL once the file is saved, and the avatars directory and files after
      it. */
  datatype UploadOutcome = UploadOutcome(error: Option<ProfileError>, avatarUrl: Option<string>,
                                         dirExists: bool, files: set<string>)

  function Refused(e: ProfileError, dirExists: bool, files: set<string>): UploadOutcome {
    UploadOutcome(Some(e), None, dirExists, files)
  }

  /** The checks on a sent file, from the upload error to move_uploaded_file,
      and the removal of the avatar it replaces. */
  function AcceptUpload(u: Upload, env: Env, userId: int, previous: string, dirExists: bool,
                        files: set<string>): (o: UploadOutcome)
    ensures o.error.Some? <==> o.avatarUrl.None?
    ensures o.error.Some? ==> IsUploadError(o.error.value) && o.files == files
    ensures dirExists ==> o.dirExists
  {
    var tmp := OrElse(u.tmpName, "");
    if OrInt(u.error, UploadOk) != UploadOk then Refused(UploadFailed, dirExists, files)
    else if OrInt(u.size, 0) > MaxAvatarBytes then Refused(AvatarTooLarge, dirExists, files)
    else if !env.isUploadedFile(tmp) then Refused(UnexpectedUpload, dirExists, files)
    else
      match Extension(env.mimeType(tmp))
      case None => Refused(BadImageType, dirExists, files)
      case Some(ext) =>
        if !dirExists && !env.mkdirOk then Refused(StorageUnavailable, false, files)
        else
          match env.randomBytes
          case None => Refused(ProcessingFailed, true, files)
          case Some(bytes) =>
            if !env.moveOk then Refused(SaveFailed, true, files)
            else
              var url := AvatarPrefix + AvatarFileName(userId, bytes, ext);
              var moved := files + {url};
              UploadOutcome(None, Some(url), true,
                            if env.unlinkOk then moved - ReplacedAvatar(previous, moved) else moved)
  }

  // ---------------------------------------------------------------------
  // The field checks

  predicate IsHandleChar(c: char) {
    IsAlnum(c) || c == '_' || c == '.' || c == '-'
  }

  predicate AllHandleChars(s: string) {
    forall i :: 0 <= i < |s| ==> IsHandleChar(s[i])
  }

  /** `#` and four digits. */
  predicate IsDiscriminator(s: string) {
    |s| == 5 && s[0] == '#' && AllDigits(s[1..])
  }

  /** One way ^@?[A-Za-z0-9_.\-]{2,32}(#\d{4})?$ matches: `p` leading '@',
      `n` handle characters, `k` characters of discriminator, then the end
      or a final line feed, which PCRE's '$' also accepts. */
  predicate DiscordMatchAt(s: string, p: int, n: int, k: int) {
    && 0 <= p <= 1 && 2 <= n <= 32 && (k == 0 || k == 5) && p + n + k <= |s|
    && (p == 1 ==> s[0] == '@')
    && AllHandleChars(s[p..p + n])
    && (k == 5 ==> IsDiscriminator(s[p + n..p + n + 5]))
    && (|s| == p + n + k || (|s| == p + n + k + 1 && s[|s| - 1] == '\n'))
  }

  predicate MatchesDiscordPattern(s: string) {
    exists p, n, k | 0 <= p <= 1 && 2 <= n <= 32 && 0 <= k <= 5 :: DiscordMatchAt(s, p, n, k)
  }

  /** /^https?:\/\//i */
  predicate HasHttpScheme(s: string) {
    StartsWith(Lower(s), "http://") || StartsWith(Lower(s), "https://")
  }

  /** The biography as stored: tags stripped unless it is empty. */
  function CleanBiography(biography: string, stripTags: string -> string): string {
    if biography == "" then "" else stripTags(biography)
  }

  /** One check: its message is appended when it fails. */
  function Append(errors: seq<ProfileError>, failed: bool, e: ProfileError): seq<ProfileError> {
    if failed then errors + [e] else errors
  }

  predicate BadDisplayNameCheck(name: string) {
    name == "" || Utf8Len(name) < 3 || Utf8Len(name) > 60
  }

  predicate BadAvatarUrlCheck(url: string, isUrl: string -> bool) {
    url != "" && !StartsWith(url, AvatarPrefix) && (!isUrl(url) || !HasHttpScheme(url))
  }

  /** The checks on the chosen values, in the script's order, appending
      the message of each that fails to `errors`. */
  function ChoiceErrors(errors: seq<ProfileError>, d: ProfileData): seq<ProfileError> {
    var r1 := Append(errors, BadDisplayNameCheck(d.displayName), BadDisplayName);
    var r2 := Append(r1, d.faction !in Factions, BadFaction);
    var r3 := Append(r2, d.activity !in Activities, BadActivity);
    Append(r3, d.timezone !in Timezones, BadTimezone)
  }

  /** The checks on the Discord handle, the avatar URL and the biography, in
      the script's order. */
  function LinkErrors(errors: seq<ProfileError>, d: ProfileData, isUrl: string -> bool): seq<ProfileError> {
    var r1 := Append(errors, d.discordHandle != "" && !MatchesDiscordPattern(d.discordHandle), BadDiscord);
    var r2 := Append(r1, BadAvatarUrlCheck(d.avatarUrl, isUrl), BadAvatarUrl);
    Append(r2, Utf8Len(d.biography) > 700, LongBiography)
  }

  /** The seven field checks on the values the profile would store, appended
      to `errors`. */
  function FieldErrors(errors: seq<ProfileError>, d: ProfileData, isUrl: string -> bool): seq<ProfileError> {
    LinkErrors(ChoiceErrors(errors, d), d, isUrl)
  }

  // ---------------------------------------------------------------------
  // The request

  /** What one submission computes: the messages, the values to store and
      the upload step's outcome. */
  datatype Submission = Submission(errors: seq<ProfileError>, data: ProfileData, upload: UploadOutcome)

  function Evaluate(post: Payload, upload: Option<Upload>, env: Env, userId: int, previous: string,
                    dirExists: bool, files: set<string>): Submission {
    Conclude(ReadForm(post), UploadStep(upload, env, userId, previous, dirExists, files), env.isUrl, env.stripTags)
  }

  /** The upload step, when a file was sent. */
  function UploadStep(upload: Option<Upload>, env: Env, userId: int, previous: string,
                      dirExists: bool, files: set<string>): UploadOutcome {
    if UploadPresent(upload) then AcceptUpload(upload.value, env, userId, previous, dirExists, files)
    else UploadOutcome(None, None, dirExists, files)
  }

  /** The form's values after the upload step: the saved avatar replaces the
      posted URL, and the biography loses its tags; then the field checks. */
  function Conclude(f: ProfileData, o: UploadOutcome, isUrl: string -> bool,
                    stripTags: string -> string): Submission {
    var d := f.(avatarUrl := if o.avatarUrl.Some? then o.avatarUrl.value else f.avatarUrl,
                biography := CleanBiography(f.biography, stripTags));
    Submission(FieldErrors(OptionSeq(o.error), d, isUrl), d, o)
  }

  function OptionSeq<T>(o: Option<T>): seq<T> {
    match o case Some(x) => [x] case None => []
  }

  /** What the page answers: a logout for a vanished account, or the form
      with its messages and whether the profile was saved. */
  datatype Reply = LoggedOut | Page(errors: seq<ProfileError>, success: bool)

  /** One check's `if`: its message is appended when it failed. */
  method AppendIf(errors0: seq<ProfileError>, failed: bool, e: ProfileError) returns (errors: seq<ProfileError>)
    ensures errors == Append(errors0, failed, e)
  {
    errors := errors0;
    if failed {
      errors := errors + [e];
    }
  }

  /** The field checks, appending to the messages of the upload step; the
      biography is stripped of its tags on the way. */
  method CheckFields(errors0: seq<ProfileError>, d: ProfileData, isUrl: string -> bool,
                     stripTags: string -> string)
    returns (errors: seq<ProfileError>, biography: string)
    ensures biography == CleanBiography(d.biography, stripTags)
    ensures errors == FieldErrors(errors0, d.(biography := biography), isUrl)
  {
    errors := CheckChoices(errors0, d);
    errors, biography := CheckLinks(errors, d, isUrl, stripTags);
  }

  /** The display name, faction, activity and timezone checks. */
  method CheckChoices(errors0: seq<ProfileError>, d: ProfileData) returns (errors: seq<ProfileError>)
    ensures errors == ChoiceErrors(errors0, d)
  {
    var badName := d.displayName == "" || Utf8Len(d.displayName) < 3 || Utf8Len(d.displayName) > 60;
    errors := AppendIf(errors0, badName, BadDisplayName);
    errors := AppendIf(errors, d.faction !in Factions, BadFaction);
    errors := AppendIf(errors, d.activity !in Activities, BadActivity);
    errors := AppendIf(errors, d.timezone !in Timezones, BadTimezone);
  }

  /** The Discord handle, avatar URL and biography checks. */
  method CheckLinks(errors0: seq<ProfileError>, d: ProfileData, isUrl: string -> bool,
                    stripTags: string -> string)
    returns (errors: seq<ProfileError>, biography: string)
    ensures biography == CleanBiography(d.biography, stripTags)
    ensures errors == LinkErrors(errors0, d.(biography := biography), isUrl)
  {
    errors := AppendIf(errors0, d.discordHandle != "" && !MatchesDiscordPattern(d.discordHandle), BadDiscord);
    var badUrl := false;
    if d.avatarUrl != "" {
      var isLocal := StartsWith(d.avatarUrl, AvatarPrefix);
      if !isLocal {
        badUrl := !isUrl(d.avatarUrl) || !HasHttpScheme(d.avatarUrl);
      }
    }
    assert badUrl == BadAvatarUrlCheck(d.avatarUrl, isUrl);
    errors := AppendIf(errors, badUrl, BadAvatarUrl);
    biography := d.biography;
    var longBio := false;
    if biography != "" {
      biography := stripTags(biography);
      longBio := Utf8Len(biography) > 700;
    }
    assert longBio == (Utf8Len(biography) > 700);
    errors := AppendIf(errors, longBio, LongBiography);
  }

  /** The account table, the avatar files and the avatars directory. */
  class ProfileSite {
    var accounts: map<int, Account>
    var files: set<string>
    var avatarDirExists: bool

    constructor(accounts0: map<int, Account>, files0: set<string>, dirExists0: bool)
      ensures accounts == accounts0 && files == files0 && avatarDirExists == dirExists0
    {
      accounts := accounts0;
      files := files0;
      avatarDirExists := dirExists0;
    }

    /** The upload step on a sent file. */
    method StoreAvatar(u: Upload, env: Env, userId: int, previous: string)
      returns (error: Option<ProfileError>, url: Option<string>)
      modifies this
      ensures var o := AcceptUpload(u, env, userId, previous, old(avatarDirExists), old(files));
        && error == o.error && url == o.avatarUrl
        && files == o.files && avatarDirExists == o.dirExists
      ensures accounts == old(accounts)
    {
      var tmp := OrElse(u.tmpName, "");
      if OrInt(u.error, UploadOk) != UploadOk {
        return Some(UploadFailed), None;
      }
      if OrInt(u.size, 0) > MaxAvatarBytes {
        return Some(AvatarTooLarge), None;
      }
      if !env.isUploadedFile(tmp) {
        return Some(UnexpectedUpload), None;
      }
      var mime := env.mimeType(tmp);
      var ext := Extension(mime);
      if ext.None? {
        return Some(BadImageType), None;
      }
      if !avatarDirExists {
        if !env.mkdirOk {
          return Some(StorageUnavailable), None;
        }
        avatarDirExists := true;
      }
      if env.randomBytes.None? {
        return Some(ProcessingFailed), None;
      }
      var fileName := AvatarFileName(userId, env.randomBytes.value, ext.value);
      if !env.moveOk {
        return Some(SaveFailed), None;
      }
      var destination := AvatarPrefix + fileName;
      files := files + {destination};
      if previous != "" && StartsWith(previous, AvatarPrefix) {
        if previous in files && env.unlinkOk {
          files := files - {previous};
        }
      }
      return None, Some(destination);
    }

    /** One request to the page by the signed-in user `userId`. */
    method HandleRequest(requestMethod: string, post: Payload, csrfValid: bool, upload: Option<Upload>,
                         env: Env, userId: Option<int>)
      returns (r: Reply)
      modifies this
      ensures userId.None? || userId.value !in old(accounts) ==>
        r == LoggedOut && accounts == old(accounts) && files == old(files)
        && avatarDirExists == old(avatarDirExists)
      ensures userId.Some? && userId.value in old(accounts) && (requestMethod != "POST" || !csrfValid) ==>
        && r == Page(if requestMethod != "POST" then [] else [SessionExpired], false)
        && accounts == old(accounts) && files == old(files) && avatarDirExists == old(avatarDirExists)
      ensures userId.Some? && userId.value in old(accounts) && requestMethod == "POST" && csrfValid ==>
        var id := userId.value;
        var s := Evaluate(post, upload, env, id, PreviousAvatar(old(accounts)[id]),
                          old(avatarDirExists), old(files));
        && r == Page(s.errors, s.errors == [])
        && files == s.upload.files && avatarDirExists == s.upload.dirExists
        && accounts == (if s.errors == [] then old(accounts)[id := Stored(old(accounts)[id], s.data)]
                        else old(accounts))
    {
      if userId.None? || userId.value !in accounts {
        return LoggedOut;
      }
      var id := userId.value;
      if requestMethod != "POST" {
        return Page([], false);
      }
      if !csrfValid {
        return Page([SessionExpired], false);
      }
      var previous := Trim(OrElse(accounts[id].avatarUrl, ""));
      var form := ReadForm(post);
      r := Submit(form, previous, upload, env, id, accounts[id]);
    }

    /** A POST with a valid token from the owner of `account`, on the form's
        values and the account's previous avatar URL: the upload step, the
        field checks and, when nothing failed, the update. */
    method Submit(form: ProfileData, previous: string, upload: Option<Upload>, env: Env, id: int,
                  account: Account)
      returns (r: Reply)
      modifies this
      ensures var s := Conclude(form, UploadStep(upload, env, id, previous, old(avatarDirExists), old(files)),
                                env.isUrl, env.stripTags);
        && r == Page(s.errors, s.errors == [])
        && files == s.upload.files && avatarDirExists == s.upload.dirExists
        && accounts == (if s.errors == [] then old(accounts)[id := Stored(account, s.data)] else old(accounts))
    {
      var errors, avatarUrl, o := UploadIfSent(upload, env, id, previous, form.avatarUrl);
      r := Finish(id, account, form, o, errors, avatarUrl, env.isUrl, env.stripTags);
    }

    /** The upload step when a file was sent: its message, if any, and the
        avatar URL the checks then see. */
    method UploadIfSent(upload: Option<Upload>, env: Env, id: int, previous: string, postedUrl: string)
      returns (errors: seq<ProfileError>, avatarUrl: string, ghost o: UploadOutcome)
      modifies this
      ensures o == UploadStep(upload, env, id, previous, old(avatarDirExists), old(files))
      ensures && errors == OptionSeq(o.error)
        && avatarUrl == (if o.avatarUrl.Some? then o.avatarUrl.value else postedUrl)
        && files == o.files && avatarDirExists == o.dirExists
      ensures accounts == old(accounts)
    {
      o := UploadStep(upload, env, id, previous, avatarDirExists, files);
      errors := [];
      avatarUrl := postedUrl;
      if UploadPresent(upload) {
        var error, url := StoreAvatar(upload.value, env, id, previous);
        if error.Some? {
          errors := errors + [error.value];
        }
        if url.Some? {
          avatarUrl := url.value;
        }
      }
    }

    /** The field checks after the upload step `o`, and the update when no
        check failed. */
    method Finish(id: int, account: Account, form: ProfileData, ghost o: UploadOutcome,
                  errors0: seq<ProfileError>, avatarUrl: string, isUrl: string -> bool,
                  stripTags: string -> string)
      returns (r: Reply)
      requires errors0 == OptionSeq(o.error)
      requires avatarUrl == if o.avatarUrl.Some? then o.avatarUrl.value else form.avatarUrl
      modifies this
      ensures var s := Conclude(form, o, isUrl, stripTags);
        && r == Page(s.errors, s.errors == [])
        && files == old(files) && avatarDirExists == old(avatarDirExists)
        && accounts == (if s.errors == [] then old(accounts)[id := Stored(account, s.data)] else old(accounts))
    {
      var errors, biography := CheckFields(errors0, form.(avatarUrl := avatarUrl), isUrl, stripTags);
      if errors == [] {
        var data := ProfileData(form.displayName, form.timezone, form.faction, form.activity,
                                form.discordHandle, avatarUrl, biography);
        accounts := accounts[id := Stored(account, data)];
        return Page([], true);
      }
      return Page(errors, false);
    }
  }
}

# SWG+ account site: a verified model of its mail client, validators and guards

This project models the server-side core of the SWG+ community site (a PHP
application) in Dafny and proves properties of that model.

- **Mail client** (`includes/mailer.php`):
  - sendEmail, which validates the sender and chooses between the SMTP relay and PHP `mail()`;
  - the message builder: it normalises line endings, dot-stuffs the body, sanitises headers, formats and extracts addresses, derives the client name and assembles the header block;
  - the SMTP session of `sendEmailViaSmtp`, run over a scripted socket.
- **Configuration** (`includes/config.php`):
  - `env_str`, with the environment passed in as a map;
  - `norm_enc` and the `base_url` trimming, and the shape of the settings array.
- **Marketplace** (`includes/market_functions.php`):
  - the category list;
  - the `createMarketListing` checks and its insert gate;
  - the limit clamps and query choice of the listing fetchers.
- **Friends** (`includes/friend_functions.php`):
  - the `user_friendships` table, as a class with a map field;
  - sending and answering requests, and the three listing queries.
- **Admin console** (`admin.php`):
  - the POST dispatcher and its guards, above all the access-level update;
  - the flash messages and the session's own access level.
- **Password change** (`post_changepassword.php`): the request checks and the rule on who may change whose password.
- **Registration** (`newuserpost.php`):
  - the gates (method, token, action, rate limit);
  - the eight field checks and the record a successful registration stores.
- **Profile page** (`profile.php`): the avatar upload rules, the field validators and the conditional profile update.

## How things are modelled

- **Values.** Strings are `seq<char>`.
  - Form text is a sequence of Unicode characters; its byte length (`strlen`) is its UTF-8 length (`Php.Utf8Len`).
  - The SMTP socket carries bytes: each character of a line written or read stands for one byte, so `Smtp.IsFinalLine` tests the fourth byte of a reply line, as PHP does.
  - PHP's `trim`, `strtolower`, `strtoupper` and `strcasecmp` work on ASCII, as PHP's do.
  - `(int)` of a string is written out as `Strings.PhpInt`. It reads PHP's whole leading numeric string: leading whitespace, a sign, digits, a fraction and an exponent, then truncates toward zero. So "1e2" is 100 and "2.9" is 2.
  - `%d` formatting is written out as `Php.IntToDecimal`.
- **The SMTP socket.**
  - `Smtp.Socket` is a class holding:
    - the queue of scripted server lines;
    - how many writes still succeed;
    - whether the TLS upgrade works;
    - the transcript of what happened;
    - a `closed` flag.
  - Each primitive (`fwrite`, `fgets`, `stream_socket_enable_crypto`, `fclose`) is a method. Its contract is a function on the socket's value (`Smtp.Wire`).
  - `Smtp.SendEmailViaSmtp` runs the session on a socket step by step. It is proved equal to the pure `Smtp.Session`, which runs the fixed plan of stages.
  - The transcript properties are proved about `Smtp.Session`.
- **The database.** It appears in two forms.
  - Tables the code changes are fields of classes: `Friends.FriendStore`, `ChangePassword.PasswordStore`, `Registration.RegistrationDesk` and `Profile.ProfileSite`.
  - The admin console issues writes through helper functions whose bodies are not part of this model. So `Admin.AdminConsole` keeps a log of the writes issued and the events logged.
- **Library calls become parameters.** This covers:
  - `filter_var`, `finfo`, `strip_tags` and `password_hash`;
  - `random_bytes`, `gmdate`, `mb_encode_mimeheader` and `base64_encode`;
  - `mail()`, the CSRF check, and whether a query succeeds.

## Model

| member | source | states |
|---|---|---|
| Config.EnvStr | includes/config.php:4 | an unset or empty variable gives the default; any other value is returned unchanged |
| Config.EnvStrNeverEmptyUnlessDefault | includes/config.php:4 | an empty result can only be the default's, and a present default always gives a value |
| Config.NormEnc | includes/config.php:6 | the result is always "tls", "ssl" or "none"; it is "ssl" or "none" exactly when the lower-cased, trimmed label is, and "tls" otherwise |
| Config.NormEncIdempotent | includes/config.php:6 | normalising a normalised label changes nothing |
| Config.NormEncIgnoresCaseAndSpace | includes/config.php:6 | case and surrounding whitespace do not change the result |
| Config.NormEncOfNormalised | includes/config.php:6 | two labels with the same lower-cased, trimmed form normalise alike |
| Config.NormEncSpacedUpper | includes/config.php:6 | " SSL " normalises to "ssl" |
| Config.NormEncDefaults | includes/config.php:6 | "starttls", "" and null all become "tls" |
| Config.BaseUrl | includes/config.php:10 | base_url never ends with '/', and it is the configured URL with only a trailing run of slashes removed |
| Config.LoadConfigShape | includes/config.php:8-35 | every mail and SMTP setting is present; the encryption is one of the three labels; without SWG_SMTP_PASSWORD the password is empty |
| Mailer.SendEmail | includes/mailer.php:47-73 | the method's routing and result are those of `Mailer.SendEmailSpec`, whose properties the lemmas below state |
| Mailer.InvalidSenderRejected | includes/mailer.php:49-55 | an empty sender, or one whose extracted address fails validation, is refused before any transport, and the call returns false |
| Mailer.Routing | includes/mailer.php:57-72 | the relay is used exactly when the sender is valid and host, username and password are all non-empty in PHP's `empty` sense; otherwise mail() decides; a relay run returns true exactly when it delivered |
| Mailer.ZeroPasswordUsesMailFunction | includes/mailer.php:57-72 | a password "0" counts as empty, so mail() is used |
| Mailer.BlankHostFailsInRelay | includes/mailer.php:57-66 | a host of blanks passes sendEmail's `empty` test, but sendEmailViaSmtp trims it and fails for missing settings before connecting |
| Mailer.RelayChosen | includes/mailer.php:57-66 | with the relay chosen, sendEmail reports what sendEmailViaSmtp did; without a host that is a failure with an empty transcript |
| Mailer.EncryptionThroughConfig | includes/mailer.php:104-119 | norm_enc followed by the relabelling: "ssl" and "none" keep their meaning in any case and spacing; every other label means STARTTLS |
| Mailer.EncryptionOfLabel | includes/mailer.php:104-119 | a stored label is relabelled as itself |
| Mailer.DefaultConfigNeedsPassword | includes/mailer.php:57-66 | with the shipped configuration, the relay is never used while SWG_SMTP_PASSWORD is unset |
| MailBody.SplitLines | includes/mailer.php:314-319 | every text splits into at least one line, and no line holds a CR or LF |
| MailBody.NormalizeIsJoinOfLines | includes/mailer.php:314-319 | normalizeEmailBody is exactly "split at CRLF, lone CR and lone LF, then join with CRLF" |
| MailBody.NormalizedIsCrLfText | includes/mailer.php:314-319 | after normalisation every CR is followed by LF and every LF is preceded by CR |
| MailBody.NormalizeKeepsLines | includes/mailer.php:314-319 | normalisation keeps the text's lines |
| MailBody.NormalizeIdempotent | includes/mailer.php:314-319 | normalising twice is normalising once |
| MailBody.NormalizeSingleLine | includes/mailer.php:314-319 | text without CR or LF is unchanged |
| MailBody.NormalizeCanonical | includes/mailer.php:314-319 | text that already uses CRLF only is unchanged |
| MailBody.SplitJoin | includes/mailer.php:314-319 | splitting undoes joining, for lines without CR or LF |
| MailBody.CrLfTextIsJoin | includes/mailer.php:314-319 | a CRLF-only text is the CRLF join of its lines |
| MailBody.DotStuffLine | includes/mailer.php:307-309 | stuffing a line followed by CRLF escapes that line and continues, as at the start of a text |
| MailBody.StuffJoin | includes/mailer.php:307-309 | dot-stuffing a CRLF-joined body escapes each line on its own and touches nothing else |
| MailBody.EscapedLineNotTerminator | includes/mailer.php:307-309 | no escaped line is the lone "." that ends DATA |
| MailBody.StuffedBody | includes/mailer.php:307-309 | the stuffed body's lines are the body's lines with a leading '.' doubled; unstuffing gives the normalised body back; no line is "." |
| MailHeaders.SanitizeHeaderValue | includes/mailer.php:321-325 | the result holds no CR or LF and has no outer whitespace; a clean value comes back unchanged |
| MailHeaders.FirstOpen | includes/mailer.php:346-352 | finds the leftmost position where a match of `<([^>]+)>` starts, and says so when there is none |
| MailHeaders.GroupAt | includes/mailer.php:346-352 | the captured group is non-empty; it runs from after the '<' to the first '>' |
| MailHeaders.ExtractWithoutMatch | includes/mailer.php:346-352 | without an angle-bracket match, extractEmailAddress is trim |
| MailHeaders.ExtractLeftmostMatch | includes/mailer.php:346-352 | with a match, the result is the trimmed group of the leftmost one |
| MailHeaders.ExtractIdempotent | includes/mailer.php:346-352 | extracting an extracted address changes nothing |
| MailHeaders.ExtractBracketed | includes/mailer.php:346-352 | for "name <addr>" where the name has no '<', the result is addr (so "Han Solo <han@example.com>" gives "han@example.com") |
| MailHeaders.CleanDisplayName | includes/mailer.php:329-331 | the cleaned name holds no '"', CR or LF, and is trimmed |
| MailHeaders.FormatAddress | includes/mailer.php:327-344 | an empty cleaned name gives the bare extracted address; otherwise the result is `"name" <addr>` |
| MailHeaders.FormatThenExtract | includes/mailer.php:327-352 | extracting from a formatted address gives the address back, when the shown name has no '<' and the address is non-empty without '>' |
| MailHeaders.DefaultClientNameMeaning | includes/mailer.php:271-278 | the client name is the text after the first '@' of the extracted address, or "localhost" when there is no '@' |
| MailHeaders.HeaderList | includes/mailer.php:296-305 | the eight headers come in the fixed order, with the given From, To, Subject, Date and Message-ID and the three fixed MIME values |
| MailHeaders.SubjectIsSanitized | includes/mailer.php:285-291 | the Subject is the sanitised subject: encoded when the encoder succeeds, otherwise without CR or LF and trimmed; a clean subject is kept as is |
| MailHeaders.MessageIdRule | includes/mailer.php:293-294 | the Message-ID domain is the client name when set, otherwise the domain of the from address, otherwise "localhost" |
| MailHeaders.MessageBodyLayout | includes/mailer.php:280-312 | the message is the CRLF-joined header lines, a blank line, then the stuffed body; that body unstuffs to the normalised body and holds no "." line |
| Smtp.Socket.constructor | includes/mailer.php:145-159 | a connected socket whose transcript starts with the opened connection |
| Smtp.Socket.Write | includes/mailer.php:354-361 | fwrite succeeds while the write budget lasts and records the data in the transcript; otherwise nothing changes |
| Smtp.Socket.GetLine | includes/mailer.php:389-406 | fgets returns the next scripted line, or false when there is none, and records the line |
| Smtp.Socket.EnableCrypto | includes/mailer.php:199-203 | the TLS upgrade succeeds exactly when the peer offers it, and records it |
| Smtp.Socket.Close | includes/mailer.php:161-167 | fclose records the close and marks the socket closed |
| Smtp.ReadResponse | includes/mailer.php:389-406 | the loop returns the reply and the socket state of the reading function |
| SmtpProperties.ReplyEndsMeaning | includes/mailer.php:389-406 | a reply is the first n lines exactly when all but the last continue (4th character not a space) and the last ends it (short, or a space after the code), unless input ran out |
| SmtpProperties.ReadReplyShape | includes/mailer.php:389-406 | reading a reply consumes exactly its lines, returns their concatenation and records each line |
| SmtpProperties.CodeShape | includes/mailer.php:371 | a reply code of at least 100 comes from a reply whose first and third characters are digits: either three leading digits, read as their value, or a digit, an exponent mark and a digit, read as the first scaled by that power of ten ("1e2" gives 100); a code that is not a multiple of 100 comes from three leading digits |
| Smtp.ExpectCodes | includes/mailer.php:363-387 | the method returns the failure and the socket state of the expect step |
| SmtpProperties.ExpectMeaning | includes/mailer.php:363-387 | an empty reply fails; otherwise the step succeeds exactly when the reply's code is in the set, and, when every expected code is at least 100 and not a multiple of 100, success means the reply starts with three digits whose value is in the set |
| Smtp.Command | includes/mailer.php:354-361 | writes the command and CRLF, then expects a reply; a failed write fails the step without reading |
| Smtp.EffectiveEncryption | includes/mailer.php:114-119 | implicit SSL exactly for "ssl", plain exactly for "none", STARTTLS for everything else |
| Smtp.PerformNext | includes/mailer.php:169-258 | one stage on the socket: a failure ends the plan there, otherwise the rest of the plan continues from the new state |
| Smtp.Handshake | includes/mailer.php:170-212 | banner, EHLO with HELO fallback and, for STARTTLS, the upgrade and the second greeting, as the plan prescribes |
| Smtp.Transaction | includes/mailer.php:214-258 | AUTH LOGIN, MAIL FROM, RCPT TO, DATA, the message and its acceptance, as the plan prescribes |
| Smtp.Authenticate | includes/mailer.php:214-226 | the three AUTH LOGIN steps with codes 334, 334 and 235 |
| Smtp.SendMail | includes/mailer.php:228-258 | MAIL FROM (250), RCPT TO (250/251), DATA (354), the message with CRLF.CRLF, and the commit (250) |
| Smtp.SendEmailViaSmtp | includes/mailer.php:98-269 | the step-by-step session has exactly the outcome and transcript of the pure `Smtp.Session` |
| Smtp.RunPlanAppend | includes/mailer.php:169-258 | running two plans in turn is running their concatenation; the second starts only if the first succeeded |
| SmtpProperties.SessionGates | includes/mailer.php:107-110 | a missing setting fails without connecting, and a refused connection fails with an empty transcript |
| SmtpProperties.TransportIff | includes/mailer.php:129-132 | the connection uses implicit TLS exactly for the 'ssl' encryption |
| SmtpProperties.SessionOpensAndClosesOnce | includes/mailer.php:145-263 | a connected session opens first, over implicit TLS exactly for 'ssl', and closes exactly once, last, on success and on every failure |
| SmtpProperties.SessionHeloOnlyAfterRejectedEhlo | includes/mailer.php:176-181 | every HELO comes right after the EHLO of the same round and that EHLO's rejected reply |
| SmtpProperties.SessionOrder | includes/mailer.php:169-263 | the commands (HELO aside) are a prefix of the fixed order, followed by QUIT exactly when the socket still takes writes after the stages, on a failed run as after a delivery; a delivery sent all of them |
| SmtpProperties.StartTlsOnlyWhenConfigured | includes/mailer.php:184-212 | STARTTLS is sent only in STARTTLS mode, and a delivery in that mode sent it and greeted again |
| SmtpProperties.DeliveredOnlyAfterCommit | includes/mailer.php:246-263 | a delivery is reported only after the message went out and the next line read was a reply starting with 250, whatever QUIT got |
| SmtpProperties.ConcludeEnds | includes/mailer.php:161-167 | after the stages, the transcript gains the QUIT command and its reply exactly when the socket still takes writes, no other command, then the one close |
| SmtpProperties.StagesRun | includes/mailer.php:169-258 | the stages extend the transcript, keep every HELO guarded and send a prefix of the fixed order, all of it when nothing failed |
| SmtpProperties.PlanOrder | includes/mailer.php:169-258 | the plan's commands are, HELO aside, banner-EHLO-[STARTTLS-EHLO]-AUTH-user-pass-MAIL-RCPT-DATA-body |
| Market.MarketCategories | includes/market_functions.php:7-20 | nine categories with distinct, non-empty keys and non-empty labels |
| Market.CategoryKeys | includes/market_functions.php:7-20 | the keys of the category list, in order |
| Market.PriceMatchesMeaning | includes/market_functions.php:48 | the left-to-right matcher accepts exactly digits, optionally followed by '.' and one or two digits |
| Market.PriceExamplesAccepted | includes/market_functions.php:48 | "5000" and "499.99" are prices |
| Market.PriceExamplesRejected | includes/market_functions.php:48 | "", "-5", ".5", "5." and "5.123" are not |
| Market.CheckDraft | includes/market_functions.php:32-54 | no error exactly when every check passes; a reported error's check fails and every earlier check passes |
| Market.CreateGate | includes/market_functions.php:32-75 | the first failing check is reported with nothing inserted; the insert happens only when every check passes, and carries the seller and the normalised fields; publication needs an executed insert with affected rows |
| Market.ReadDraftDefaults | includes/market_functions.php:24-29 | a missing price reads as "0" and a missing currency as the 7-letter "CREDITS" |
| Market.CreateListingDefaults | includes/market_functions.php:26-54 | both defaults pass their checks |
| Market.LongTitleRejected | includes/market_functions.php:32-34 | a title over 120 characters is refused even when the insert would succeed |
| Market.ClampLimit | includes/market_functions.php:80 | the limit lies in [1, most], equals the request when that is in range, and is 1 or most at the extremes |
| Market.ActiveQueryChoice | includes/market_functions.php:80-119 | the query filters by text exactly when the trimmed search is non-empty and by category exactly when the key is known; the pattern is %term%, the limit lies in [1, 100] |
| Market.UnknownCategoryIgnored | includes/market_functions.php:81-84 | an unknown category is dropped rather than refused |
| Market.KnownCategoryNormalises | includes/market_functions.php:81-84 | category keys are matched after lower-casing and trimming |
| Market.SellerListingsLimit | includes/market_functions.php:160 | the seller limit lies in [1, 50] and equals the request when that is in range |
| Friends.FirstNamed | includes/friend_functions.php:9-26 | the first account whose name equals the given one ignoring case; none exactly when no account matches |
| Friends.FindUserIdByUsername | includes/friend_functions.php:9-26 | the name is trimmed; a blank name finds nobody; otherwise an account is found exactly when some name matches ignoring case |
| Friends.FirstLink | includes/friend_functions.php:28-39 | the lowest row id linking the two users in either direction; none exactly when no row links them |
| Friends.FindExistingFriendship | includes/friend_functions.php:28-39 | a row between the two users in either direction, found exactly when one exists |
| Friends.FriendStore.constructor | includes/friend_functions.php:77-81 | an empty table whose counter starts at 1 |
| Friends.FriendStore.SendFriendRequest | includes/friend_functions.php:41-82 | the table and the message after the call are those of the pure `Friends.Send`, and the ids stay below the counter |
| Friends.FriendStore.SendToTarget | includes/friend_functions.php:45-81 | the same, once the target's id is known |
| Friends.FriendStore.RespondToFriendRequest | includes/friend_functions.php:84-119 | the table and the message after the call are those of the pure `Friends.Respond` |
| FriendProperties.SendRefusals | includes/friend_functions.php:43-51 | an unknown or blank target and the requester as target are refused with an error, and the table is unchanged |
| FriendProperties.SendLinkStands | includes/friend_functions.php:53-67 | an accepted or pending row answers with information and changes nothing; the pending message says who is waiting |
| FriendProperties.SendReusesRow | includes/friend_functions.php:69-74 | a row with any other status becomes a pending request from the requester to the target, its response time is cleared, and no row is added |
| FriendProperties.SendAddsRow | includes/friend_functions.php:77-81 | without a row between the two, exactly one pending row is added under the next id |
| FriendProperties.NewRowAdded | includes/friend_functions.php:77-81 | the same, once the target's id is known |
| FriendProperties.SendKeepsOnePerPair | includes/friend_functions.php:41-82 | sending never gives a pair of users a second row |
| FriendProperties.SendToKeepsOnePerPair | includes/friend_functions.php:45-81 | the same, once the target's id is known |
| FriendProperties.RespondRefusals | includes/friend_functions.php:92-102 | a missing row, a caller who is not the addressee, and a non-pending row are refused in that order, with the table unchanged |
| FriendProperties.RespondDecides | includes/friend_functions.php:104-118 | "accept" accepts and any other answer declines; either way the response time is set and nothing else changes |
| FriendProperties.RespondKeepsOnePerPair | includes/friend_functions.php:84-119 | responding keeps one row per pair |
| FriendProperties.SentRequestListed | includes/friend_functions.php:137-167 | a request that was sent, new or reused, is incoming for the target and outgoing for the requester |
| FriendProperties.FoundHasAccount | includes/friend_functions.php:9-26 | a user found by name has an account |
| FriendProperties.AcceptMakesFriends | includes/friend_functions.php:106-135 | accepting takes the request out of the incoming list and makes each party the other's friend |
| FriendProperties.DeclineEndsRequest | includes/friend_functions.php:114-167 | declining takes the request off both pending lists without making friends |
| Admin.Refuse | admin.php:40-42 | a refusal is an error message with no write, no event and no session change |
| Admin.Commit | admin.php:64-85 | an issued write logs its event and reports success exactly when the database accepts it |
| Admin.ChangeAccessLevel | admin.php:35-86 | events follow accepted writes; the session level changes exactly when the write succeeded on the signed-in user, and then to the written level |
| Admin.ToggleVerification | admin.php:88-115 | the only write is a verification change, and the session is untouched |
| Admin.AddNetworkBan | admin.php:117-137 | the only write is a ban, and the session is untouched |
| Strings.PhpIntOfInteger | admin.php:36 | a run of digits that no point, exponent mark or further digit follows is read as its decimal value |
| Strings.PhpIntTruncatesFraction | admin.php:140 | digits, a point and fraction digits are read as the whole part: the fraction is cut off |
| Strings.PhpIntOfExponent | admin.php:161 | digits, 'e' or 'E' and exponent digits are read as the mantissa scaled by that power of ten |
| Strings.ScaledUp | admin.php:161 | scaling by a non-negative exponent multiplies by that power of ten |
| Strings.PhpIntReadsExponent | admin.php:161 | "1e2", which the number field may send, is read as 100 |
| Strings.PhpIntReadsFraction | admin.php:89 | "2.9" is read as 2 |
| Php.IntCastOfDecimal | profile.php:117 | (int) of what %d prints is the number printed |
| Admin.RemoveNetworkBan | admin.php:139-158 | the only write is a ban removal, and the session is untouched |
| Admin.PurgeSecurityEvents | admin.php:160-176 | the only write is a purge; an event goes with an accepted write only |
| Admin.AdminConsole.HandleRequest | admin.php:16-189 | each request shows the pending flash. A GET changes nothing. A bad token stores one error and redirects with nothing written. A valid POST runs its action, stores the action's message, appends its write and event and updates the session level as the action says |
| AdminProperties.AccessLevelGuards | admin.php:36-62 | a level write happens exactly when the target exists, is not a super admin unless the actor is one, and the normalised level is on the actor's list |
| AdminProperties.NeverGrantsSuperadmin | admin.php:45-62 | for a non-super-admin, no level write grants "superadmin" or touches a super admin's account |
| AdminProperties.PromotionGuardUnreachable | admin.php:50-62 | the second super admin check never decides: every refusal comes from one of the three earlier checks |
| AdminProperties.DispatchCases | admin.php:34-180 | the switch runs the action the form names; any other name is refused |
| AdminProperties.SessionFollowsOwnUpdate | admin.php:64-67 | the session level follows an update exactly when it succeeded on the signed-in user's own account |
| AdminProperties.VerificationRequest | admin.php:88-99 | a verification write needs an existing target; it verifies exactly when desired_state is missing or "verified" |
| AdminProperties.BanGuards | admin.php:117-147 | bans are added only for a non-empty address the IP filter accepts; only a positive ban id is removed |
| AdminProperties.RetentionBounds | admin.php:161-162 | retention lies in [1, 365], is 30 by default, and is the request when that is in range |
| AdminProperties.PurgeMessageStatesDays | admin.php:164-172 | a purge removes events older than the stored number of days, and its message states that number |
| AdminProperties.EventIffAcceptedWrite | admin.php:34-181 | every action logs an event exactly when it issued a write the database accepted, and exactly when it reports success |
| AdminProperties.WriteMatchesAction | admin.php:34-180 | each write is of its action's kind; an unknown action writes nothing and reports an error |
| AdminProperties.TokenFailureChangesNothing | admin.php:20-27 | after a token failure no write or event has been added, and the flash holds the one error |
| Passwords.FirstLine | post_changepassword.php:30 | the part of the text before the first line feed; the policy's look-aheads cannot see past it |
| Passwords.PolicyOnOneLine | post_changepassword.php:30 | for a one-line password the pattern means: at least 12 bytes, with a lower-case letter, an upper-case letter, a digit and a symbol |
| Passwords.FinalLineFeedCountsAsSymbol | newuserpost.php:66 | a final line feed satisfies the symbol requirement, so a one-line password without a symbol is accepted when a line feed follows it |
| Passwords.InnerLineFeedRejected | newuserpost.php:66 | a line feed anywhere but at the end makes the pattern fail |
| Passwords.ExampleWithoutSymbolRefused | post_changepassword.php:30 | "Abcdefghijk1" is refused |
| Passwords.ExampleWithLineFeedAccepted | newuserpost.php:66 | "Abcdefghijk1" followed by a line feed is accepted |
| Passwords.ShortAsciiRejected | post_changepassword.php:30 | an ASCII password under 12 characters is refused |
| ChangePassword.Render | post_changepassword.php:62-64 | the status page lists the errors, with status 200 exactly when there are none and 422 otherwise |
| ChangePassword.ErrorList | post_changepassword.php:26-44 | each message is listed exactly when its check failed, and the list is empty exactly when none failed |
| ChangePassword.CollectErrors | post_changepassword.php:24-44 | the checks, run one after another, collect the messages of `ChangePassword.CheckErrors` |
| ChangePassword.PasswordStore.HandleRequest | post_changepassword.php:12-59 | the response is the specified one. A clean POST sets exactly that user's hash and logs one "password_reset"; any other request changes nothing |
| ChangePassword.PasswordStore.Reset | post_changepassword.php:22-59 | the checks and, when all pass, the one update and its log entry |
| ChangePassword.ResetAllowed | post_changepassword.php:26-49 | a reset goes through exactly when the name is given, the password meets the policy, the account exists and the session may change it |
| ChangePassword.ErrorMeanings | post_changepassword.php:26-44 | each message appears exactly when its own check fails |
| ChangePassword.BlankUsernameReportedTwice | post_changepassword.php:26-38 | a blank name is reported both as missing and as not found |
| ChangePassword.OnlyOwnAccount | post_changepassword.php:40-44 | a successful reset by someone who is not a super admin was for their own account, compared ignoring case |
| ChangePassword.TokenCheckedFirst | post_changepassword.php:17-20 | a bad token is answered with its one message before any field is looked at |
| Registration.Render | newuserpost.php:118-120 | the page lists the errors, with status 200 exactly when there are none and 422 otherwise |
| Registration.KeepRecent | newuserpost.php:31 | the purge keeps exactly the events within the retention period (at least one day) |
| Registration.CountSince | newuserpost.php:36 | the rate-limit count never exceeds the number of events |
| Registration.MaxAttempts | newuserpost.php:33 | at least 1, 5 when unset, and the configured value when that is at least 1 |
| Registration.IntervalSeconds | newuserpost.php:34 | at least 60, 3600 when unset, and the configured value when that is at least 60 |
| Registration.ReadForm | newuserpost.php:42-46 | the name and email are trimmed |
| Registration.RegistrationDesk.Register | newuserpost.php:11-96 | the response follows the route. The first three gates change nothing. A rate-limited request purges old events but logs none. A checked request logs one "register" event, and it inserts the new account exactly when no check failed |
| Registration.CheckFields | newuserpost.php:48-80 | the eight checks collect the messages of `Registration.FieldErrors` |
| RegistrationProperties.NamePatternOnTrimmed | newuserpost.php:42-52 | on the trimmed name, the pattern is exactly the 4-32 character rule over letters, digits, '_' and '-' |
| RegistrationProperties.NamePatternTakesFinalLineFeed | newuserpost.php:50 | without the trim, the pattern would accept a name followed by a line feed |
| RegistrationProperties.FailureMembers | newuserpost.php:50-80 | the messages of exactly the failed checks are listed |
| RegistrationProperties.FailureEmpty | newuserpost.php:50-82 | no message is listed exactly when every check passes |
| RegistrationProperties.FailureListed | newuserpost.php:50-80 | a message is listed exactly when its check failed |
| RegistrationProperties.FieldErrorListed | newuserpost.php:50-80 | a message is listed exactly when its check fails on the form; the gate messages never are |
| RegistrationProperties.FormAccepted | newuserpost.php:42-82 | the form is accepted exactly when all of these hold: the name rule, a valid email of at most 190 bytes, the matching password meeting the policy, accepted terms, and a name and email not in use |
| RegistrationProperties.FieldsAccepted | newuserpost.php:50-82 | the same, for any form with a trimmed name |
| RegistrationProperties.GatesFirst | newuserpost.php:11-40 | the method, token, action and rate-limit gates come first and in that order; the fields are only checked behind all four |
| RegistrationProperties.RefusalStatus | newuserpost.php:118-120 | only a non-POST redirects; every page is 422 except an error-free registration; a bad token yields its one message |
| RegistrationProperties.NewAccountShape | newuserpost.php:88-94 | the new account is "standard", with the given name, email and hash, and a 64-hex-digit token that decodes to the 32 random bytes |
| RegistrationProperties.LoggedAttemptCounts | newuserpost.php:82-96 | a logged attempt counts toward the next rate-limit check |
| RegistrationProperties.PurgeKeepsRateCount | newuserpost.php:31-36 | the 30-day purge never lowers the rate-limit count for a window of 30 days or less |
| Profile.Stored | profile.php:176-188 | the updated row keeps the username and holds the seven submitted values |
| Profile.Extension | profile.php:89-103 | an extension exists exactly for the four image types, and it is one of jpg, png, gif, webp |
| ProfileProperties.ExtensionRoundTrip | profile.php:89-94 | each accepted type has its own extension, which gives the type back |
| Profile.ReplacedAvatar | profile.php:121-126 | the only file the upload can remove is the previous avatar |
| Profile.AcceptUpload | profile.php:82-138 | an upload either fails with one of the upload messages and leaves the files alone, or saves an avatar; an existing directory stays |
| Profile.AppendIf | profile.php:140-174 | one check's `if` appends its message exactly when the check failed |
| Profile.CheckFields | profile.php:140-174 | the seven checks collect the messages of `Profile.FieldErrors` and strip the biography's tags |
| Profile.CheckChoices | profile.php:140-154 | the display name, faction, activity and timezone checks |
| Profile.CheckLinks | profile.php:156-174 | the Discord, avatar URL and biography checks, with the tags stripped |
| Profile.ProfileSite.StoreAvatar | profile.php:82-138 | the upload step changes the files and directory as `Profile.AcceptUpload` says, and leaves the accounts alone |
| Profile.ProfileSite.HandleRequest | profile.php:12-191 | a vanished account logs out. A GET or a bad token changes nothing. A valid POST runs the upload step, reports the messages and stores the profile exactly when there are none |
| Profile.ProfileSite.Submit | profile.php:70-191 | the upload step, the field checks and the conditional update, for a valid POST |
| Profile.ProfileSite.UploadIfSent | profile.php:78-138 | the upload step runs only when a file was sent; a saved avatar's URL replaces the posted one |
| Profile.ProfileSite.Finish | profile.php:140-191 | the field checks after the upload step, and the update exactly when no message was raised |
| ProfileProperties.DiscordPatternIff | profile.php:156 | on text without a final line feed, the pattern accepts exactly an optional '@', 2-32 handle characters and an optional "#" with four digits |
| ProfileProperties.DiscordPatternFinalNewline | profile.php:156 | '$' also lets a final line feed through after a handle |
| ProfileProperties.TrimmedDiscordRule | profile.php:156-158 | with the trimmed handle, the message means the handle is non-empty and not a handle |
| ProfileProperties.DisplayNameRule | profile.php:140-142 | the display name is refused exactly when its length is not between 3 and 60 bytes |
| ProfileProperties.ChoiceMeanings | profile.php:140-154 | each choice message is added exactly when its rule fails, after the messages already there |
| ProfileProperties.LinkMeanings | profile.php:156-174 | each link message is added exactly when its rule fails, after the messages already there |
| ProfileProperties.FieldErrorsEmpty | profile.php:140-176 | the field checks add nothing exactly when the values are storable |
| ProfileProperties.ChoiceMessages | profile.php:140-154 | after upload messages alone, each choice message is listed exactly when its rule fails |
| ProfileProperties.LinkMessages | profile.php:156-174 | after upload messages alone, each link message is listed exactly when its rule fails, and the upload's messages stay in front |
| ProfileProperties.AvatarNameParts | profile.php:115-117 | the stored name is avatar_, the decimal id, _, twelve hex digits and the extension; the id and the random bytes can be read back |
| ProfileProperties.UploadRejections | profile.php:82-108 | the message a sent file gets, in the script's order: upload error, size over 2 MB, type, storage |
| ProfileProperties.SavedAvatar | profile.php:82-130 | a saved avatar passed every check and is stored under its generated name below /images/avatars/ |
| ProfileProperties.UploadFiles | profile.php:113-130 | the upload step removes at most the previous avatar |
| ProfileProperties.SubmittedValues | profile.php:70-76 | the values to store are the posted ones, trimmed and with their defaults; a saved avatar replaces the posted URL; the biography loses its tags; without a file nothing changes on disk |
| ProfileProperties.AcceptedIffStorable | profile.php:82-176 | a submission is accepted exactly when no upload check failed and the values are storable; a saved avatar never fails the URL check |
| ProfileProperties.SubmissionMessages | profile.php:82-174 | an upload message comes first, and each field message is listed exactly when its rule fails on the stored value |
| ProfileProperties.DefaultsOnTheirLists | profile.php:71-73 | a missing faction, activity or timezone gets its default, which is on its list |
| ProfileProperties.RejectedSubmissionRemovesAvatar | profile.php:120-176 | as written, a saved upload deletes the previous avatar even when the submission is then refused |
| ProfileProperties.CorrectedFilesKeepAvatars | profile.php:120-191 | with the deletion deferred until the profile is stored, a refused submission deletes nothing, and a stored one keeps its avatar |

## Left out

- **Sockets, TLS and time.**
  - The socket is a script of server lines and a write budget. Timeouts, `stream_context_create` options and certificate checks are not modelled.
  - The TLS handshake is one operation that succeeds or fails.
- **Library calls.** RFC 2047 header encoding (`mb_encode_mimeheader`), base64 and the `gmdate` date text become parameters, and so do the random Message-ID bytes. The `/u` replacement in normalizeEmailBody is taken to succeed, which assumes valid UTF-8 input.
- **mail() and diagnostics.**
  - `sendEmailWithMailFunction`, which wraps PHP `mail()`, appears only as the boolean it returns.
  - The debug helpers and the `$GLOBALS['MAILER_LAST_ERROR']` side channel (includes/mailer.php:20-38) are not modelled; `Smtp.Failure` names the failures the side channel would report.
  - Exceptions inside the session (includes/mailer.php:264-268) are not modelled, because the modelled primitives do not throw.
- **Configuration.** `env_int` relies on `is_numeric`, so the SMTP port is passed in already parsed.
- **Marketplace functions outside the checks.**
  - The price is converted to a float at includes/market_functions.php:57; that conversion is floating point and is not modelled.
  - The SQL of the fetchers and their row-collecting loops are not modelled; only the limit and the query choice are.
  - `fetchUserListings`, `closeMarketListing` and `summarizeMarketplace` are plain SQL and are not modelled.
- **Database lookups.**
  - `findUserById`, `findUserByUsername` and `findUserByEmail` are exact lookups in the model. So `LIMIT 1` becomes the first match, and the database's case-insensitive collation is not modelled: `ChangePassword` updates the entry under the trimmed posted name.
  - Friends.FindUserIdByUsername compares names with `Strings.SameIgnoringCase`, which folds only ASCII letters; the `LOWER` of its SQL also folds non-ASCII letters, so names differing only in those are told apart here.
  - A failing insert in newuserpost.php is not modelled.
  - Admin actions issue their writes through functions in includes/admin_functions.php; that file is not part of this model. The model records each write and takes whether it succeeded as the parameter `dbOk`.
- **Logging and sessions.**
  - `logSecurityEvent` appends one event to the log. Its throwing and the swallowing of that in admin.php are not modelled.
  - The session, the CSRF token and the IP address come in as parameters. So do `requireAccessLevel` and `requireAuthenticatedUser`.
  - The security checks of includes/security.php are modelled only as far as the registration rate limit needs them: the purge with its default of 30 days, and the count.
- **Time.** Timestamps are whole seconds (`int`), and "now" is a parameter.
- **Rendering.**
  - The HTML of every page, and the GET-only parts of admin.php and profile.php, produce no state and are not modelled.
  - The verification email newuserpost.php sends after registering (lines 98-115) is not modelled.
  - A token or action refusal in newuserpost.php sets status 400, which renderResponse then overwrites with 422. The model returns the final 422.
- **Profile page.**
  - The form's initial values (profile.php:58-63) are not modelled, except the previous avatar URL.
  - Paths are compared as text, without normalisation. So an `avatar_url` such as "/images/avatars/../../includes/config.php" passes the prefix test at profile.php:161 and is stored; on the next upload, the unlink at profile.php:123-127 is issued for that path. The model's file set is keyed by the path as written and does not resolve "..", so it cannot show that this unlink deletes a file outside the avatars directory.
  - The session refresh after the update is not modelled.
  - Of the upload step's calls, only `random_bytes` can throw in the model, reported as "could not process"; `finfo` returning nothing becomes the empty MIME type.
- **Integers.** PHP integers are 64-bit; the model's are unbounded, and overflow on `(int)` casts of huge numbers is not modelled.
- Strings.PhpInt: a numeric string with a fraction or an exponent goes through a double in PHP. The model computes the exact value and truncates it, so double rounding is not modelled ("2.9999999999999999" reads 2 here and 3 in PHP), and neither is the saturation of values beyond 64 bits.
- ProfileProperties.CorrectedFilesKeepAvatars: the corrected file handling is stated and proved about the set of files only. `Profile.ProfileSite` keeps the code's order as written, so the rest of the model describes the page as it behaves.

## Findings

| source | as written | input that shows it | evidently intended | confidence | as-written member | corrected member |
|---|---|---|---|---|---|---|
| profile.php:120-128 with 140-191 | a saved upload unlinks the previous avatar file before the field checks run, and the update is skipped when a check fails | a valid image upload, an old avatar under /images/avatars/, and a display name of 2 bytes. The upload is saved and the old file deleted, the name is refused, and the stored profile still names the deleted file | delete the previous avatar only once the profile naming the new one has been stored | not executed | ProfileProperties.RejectedSubmissionRemovesAvatar | ProfileProperties.CorrectedFilesKeepAvatars |

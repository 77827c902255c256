/** sendEmail of includes/mailer.php: check the sender, then send through the
    SMTP relay when it is configured and through PHP's mail() otherwise.
    FILTER_VALIDATE_EMAIL is the parameter `isEmail`; the result of mail() is
    the parameter `mailResult`. */
module Mailer {
  import opened Strings
  import opened MailHeaders
  import opened Smtp
  import SmtpProperties
  import Config

  /** The parts of the site configuration sendEmail reads. */
  datatype MailConfig = MailConfig(mailFrom: Option<string>, mailFromName: Option<string>,
                                   siteName: Option<string>, smtp: SmtpSettings)

  /** Which way the message went. */
  datatype Route =
    | InvalidFrom                                         // rejected before any transport
    | ViaSmtp(outcome: Outcome, transcript: seq<Event>)   // sendEmailViaSmtp ran
    | ViaMailFunction                                     // mail() was used

  datatype SendResult = SendResult(ok: bool, route: Route)

  /** PHP empty() of a configuration string: missing, "" or "0". */
  predicate PhpEmpty(v: Option<string>) {
    v.None? || v.value == "" || v.value == "0"
  }

  /** The relay is used when host, username and password are all non-empty. */
  predicate SmtpConfigured(s: SmtpSettings) {
    !PhpEmpty(s.host) && !PhpEmpty(s.username) && !PhpEmpty(s.password)
  }

  function FromEmail(c: MailConfig): string {
    Trim(OrElse(c.mailFrom, ""))
  }

  /** mail_from_name, or the site name when it is missing. */
  function FromName(c: MailConfig): string {
    Trim(match c.mailFromName case Some(n) => n case None => OrElse(c.siteName, ""))
  }

  predicate ValidFrom(c: MailConfig, isEmail: string -> bool) {
    FromEmail(c) != "" && isEmail(ExtractEmailAddress(FromEmail(c)))
  }

  /** sendEmail as a value. */
  function SendEmailSpec(c: MailConfig, toEmail: string, subject: string, body: string, toName: Option<string>,
                         isEmail: string -> bool, mailResult: bool, server: Server, env: MessageEnv): SendResult
  {
    if !ValidFrom(c, isEmail) then SendResult(false, InvalidFrom)
    else if SmtpConfigured(c.smtp) then
      var r := Session(c.smtp, Mail(FromEmail(c), FromName(c), toEmail, subject, body, toName), server, env);
      SendResult(r.outcome == Delivered, ViaSmtp(r.outcome, r.transcript))
    else SendResult(mailResult, ViaMailFunction)
  }

  method SendEmail(c: MailConfig, toEmail: string, subject: string, body: string, toName: Option<string>,
                   isEmail: string -> bool, mailResult: bool, server: Server, env: MessageEnv)
    returns (ok: bool, route: Route)
    ensures SendResult(ok, route) == SendEmailSpec(c, toEmail, subject, body, toName, isEmail, mailResult, server, env)
  {
    var fromEmail := Trim(OrElse(c.mailFrom, ""));
    var fromName := Trim(match c.mailFromName case Some(n) => n case None => OrElse(c.siteName, ""));
    if fromEmail == "" || !isEmail(ExtractEmailAddress(fromEmail)) {
      return false, InvalidFrom;
    }
    var smtp := c.smtp;
    if !PhpEmpty(smtp.host) && !PhpEmpty(smtp.username) && !PhpEmpty(smtp.password) {
      var outcome, transcript := SendEmailViaSmtp(smtp, Mail(fromEmail, fromName, toEmail, subject, body, toName), server, env);
      return outcome == Delivered, ViaSmtp(outcome, transcript);
    }
    return mailResult, ViaMailFunction;
  }

  /** An empty or invalid sender fails before any transport is touched. */
  lemma InvalidSenderRejected(c: MailConfig, toEmail: string, subject: string, body: string, toName: Option<string>,
                              isEmail: string -> bool, mailResult: bool, server: Server, env: MessageEnv)
    ensures var r := SendEmailSpec(c, toEmail, subject, body, toName, isEmail, mailResult, server, env);
      (FromEmail(c) == "" || !isEmail(ExtractEmailAddress(FromEmail(c)))) <==> r.route == InvalidFrom
    ensures var r := SendEmailSpec(c, toEmail, subject, body, toName, isEmail, mailResult, server, env);
      r.route == InvalidFrom ==> !r.ok
  {
  }

  /** The relay is used exactly when the sender is valid and host, username and
      password are non-empty in PHP's sense; otherwise mail() decides. */
  lemma Routing(c: MailConfig, toEmail: string, subject: string, body: string, toName: Option<string>,
                isEmail: string -> bool, mailResult: bool, server: Server, env: MessageEnv)
    ensures var r := SendEmailSpec(c, toEmail, subject, body, toName, isEmail, mailResult, server, env);
      && (r.route.ViaSmtp? <==> ValidFrom(c, isEmail) && SmtpConfigured(c.smtp))
      && (r.route == ViaMailFunction <==> ValidFrom(c, isEmail) && !SmtpConfigured(c.smtp))
      && (r.route == ViaMailFunction ==> r.ok == mailResult)
      && (r.route.ViaSmtp? ==> (r.ok <==> r.route.outcome == Delivered))
  {
  }

  /** A password of "0" counts as empty, so such a configuration never
      reaches the relay. */
  lemma ZeroPasswordUsesMailFunction(c: MailConfig, toEmail: string, subject: string, body: string,
                                     toName: Option<string>, isEmail: string -> bool, mailResult: bool,
                                     server: Server, env: MessageEnv)
    requires ValidFrom(c, isEmail) && c.smtp.password == Some("0")
    ensures SendEmailSpec(c, toEmail, subject, body, toName, isEmail, mailResult, server, env)
         == SendResult(mailResult, ViaMailFunction)
  {
  }

  /** A host of blanks is not empty for sendEmail, so the relay is chosen, and
      sendEmailViaSmtp, which trims the host, then fails for missing settings
      without connecting. */
  lemma BlankHostFailsInRelay(c: MailConfig, toEmail: string, subject: string, body: string,
                              toName: Option<string>, isEmail: string -> bool, mailResult: bool,
                              server: Server, env: MessageEnv)
    requires ValidFrom(c, isEmail) && c.smtp.host == Some(" ")
    requires !PhpEmpty(c.smtp.username) && !PhpEmpty(c.smtp.password)
    ensures SendEmailSpec(c, toEmail, subject, body, toName, isEmail, mailResult, server, env)
         == SendResult(false, ViaSmtp(Failed(MissingSettings), []))
  {
    BlankTrimsToEmpty();
    var r := RelayChosen(c, toEmail, subject, body, toName, isEmail, mailResult, server, env);
  }

  /** With a valid sender and the relay configured, sendEmail reports what
      sendEmailViaSmtp did, which without a host is a failure for missing
      settings with nothing sent. */
  lemma RelayChosen(c: MailConfig, toEmail: string, subject: string, body: string,
                    toName: Option<string>, isEmail: string -> bool, mailResult: bool,
                    server: Server, env: MessageEnv) returns (r: SessionResult)
    requires ValidFrom(c, isEmail) && SmtpConfigured(c.smtp)
    ensures var res := SendEmailSpec(c, toEmail, subject, body, toName, isEmail, mailResult, server, env);
      res.ok == (r.outcome == Delivered) && res.route == ViaSmtp(r.outcome, r.transcript)
    ensures HostOf(c.smtp) == "" ==> r.outcome == Failed(MissingSettings) && r.transcript == []
  {
    r := Session(c.smtp, Mail(FromEmail(c), FromName(c), toEmail, subject, body, toName), server, env);
  }

  lemma BlankTrimsToEmpty()
    ensures Trim(" ") == ""
  {
    assert TrimLeft(" ") == TrimLeft(" "[1..]);
    assert " "[1..] == "";
  }

  /** The configuration's norm_enc followed by sendEmailViaSmtp's relabelling:
      "ssl" and "none" (in any case, between blanks) keep their meaning, every
      other label is STARTTLS. */
  lemma EncryptionThroughConfig(v: Option<string>, s: SmtpSettings)
    requires s.encryption == Some(Config.NormEnc(v))
    ensures var given := Lower(Trim(OrElse(v, "")));
      && (EncryptionOf(s) == ImplicitSsl <==> given == "ssl")
      && (EncryptionOf(s) == Plain <==> given == "none")
      && (EncryptionOf(s) == StartTlsMode <==> given != "ssl" && given != "none")
  {
    EncryptionOfLabel(s, Config.NormEnc(v));
  }

  /** A stored label passes through sendEmailViaSmtp's normalisation unchanged. */
  lemma EncryptionOfLabel(s: SmtpSettings, normal: string)
    requires s.encryption == Some(normal) && Config.IsEncLabel(normal)
    ensures EncryptionOf(s) == EffectiveEncryption(normal)
  {
    Config.LabelIsNormal(normal);
    assert OrElse(s.encryption, "starttls") == normal;
  }

  /** With the shipped configuration, the relay is only used once
      SWG_SMTP_PASSWORD is set. */
  lemma DefaultConfigNeedsPassword(env: Config.Env, port: int, toEmail: string, subject: string, body: string,
                                   toName: Option<string>, isEmail: string -> bool, mailResult: bool,
                                   server: Server, menv: MessageEnv)
    requires "SWG_SMTP_PASSWORD" !in env
    ensures var cfg := Config.LoadConfig(env, port);
      var c := MailConfig(cfg.mailFrom, cfg.mailFromName, Some(cfg.siteName), cfg.smtp);
      !SendEmailSpec(c, toEmail, subject, body, toName, isEmail, mailResult, server, menv).route.ViaSmtp?
  {
    Config.LoadConfigShape(env, port);
  }
}

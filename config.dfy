/** includes/config.php: the environment lookups, the encryption label
    normaliser and the settings array the mailer reads. The process
    environment is a map from variable names to values; a name outside the
    map is an unset variable (getenv returns false). */
module Config {
  import opened Strings
  import Smtp

  type Env = map<string, string>

  /** env_str: the default when the variable is unset or empty, otherwise its value. */
  function EnvStr(env: Env, k: string, d: Option<string>): (r: Option<string>)
    ensures k !in env ==> r == d
    ensures k in env && env[k] == "" ==> r == d
    ensures k in env && env[k] != "" ==> r == Some(env[k])
  {
    if k !in env || env[k] == "" then d else Some(env[k])
  }

  /** A set variable never yields an empty value: an empty result is the default's. */
  lemma EnvStrNeverEmptyUnlessDefault(env: Env, k: string, d: Option<string>)
    ensures EnvStr(env, k, d) == Some("") ==> d == Some("")
    ensures d.Some? ==> EnvStr(env, k, d).Some?
  {
  }

  /** The labels norm_enc keeps. */
  predicate IsEncLabel(v: string) {
    v == "tls" || v == "ssl" || v == "none"
  }

  /** norm_enc: lower-case and trim the label ((string)null is ""); keep
      "tls", "ssl" and "none", map everything else to "tls". */
  function NormEnc(v: Option<string>): (r: string)
    ensures IsEncLabel(r)
    ensures r == "ssl" <==> Lower(Trim(OrElse(v, ""))) == "ssl"
    ensures r == "none" <==> Lower(Trim(OrElse(v, ""))) == "none"
    ensures r == "tls" <==> !(Lower(Trim(OrElse(v, ""))) in {"ssl", "none"})
  {
    var lowered := Lower(Trim(OrElse(v, "")));
    if IsEncLabel(lowered) then lowered else "tls"
  }

  /** The three labels are already trimmed and lower-case. */
  lemma LabelIsNormal(r: string)
    requires IsEncLabel(r)
    ensures Lower(Trim(r)) == r
  {
    assert IsTrimmed(r);
    forall i | 0 <= i < |r| ensures LowerChar(r[i]) == r[i] {
    }
  }

  /** The three labels are fixed points, so normalising twice is normalising once. */
  lemma NormEncIdempotent(v: Option<string>)
    ensures NormEnc(Some(NormEnc(v))) == NormEnc(v)
  {
    LabelIsNormal(NormEnc(v));
  }

  /** Case and surrounding whitespace do not matter. */
  lemma NormEncIgnoresCaseAndSpace(s: string)
    ensures NormEnc(Some(s)) == NormEnc(Some(Lower(Trim(s))))
  {
    LowerTrimIdempotent(s);
    NormEncOfNormalised(Some(s), Some(Lower(Trim(s))));
  }

  /** norm_enc only looks at the lower-cased, trimmed label. */
  lemma NormEncOfNormalised(a: Option<string>, b: Option<string>)
    requires Lower(Trim(OrElse(a, ""))) == Lower(Trim(OrElse(b, "")))
    ensures NormEnc(a) == NormEnc(b)
  {
  }

  /** One blank on each side of a trimmed text is what trim removes. */
  lemma TrimPadded(a: string)
    requires a != [] && IsTrimmed(a)
    ensures Trim([' '] + a + [' ']) == a
  {
    var s := [' '] + a + [' '];
    assert s[1..] == a + [' '];
    assert TrimLeft(s) == TrimLeft(a + [' ']);
    assert TrimLeft(a + [' ']) == a + [' '];
    assert (a + [' '])[..|a|] == a;
    assert TrimRight(a + [' ']) == TrimRight(a);
  }

  lemma TrimSpacedSsl()
    ensures Trim(" SSL ") == "SSL"
  {
    assert " SSL " == [' '] + "SSL" + [' '];
    TrimPadded("SSL");
  }

  lemma LowerSsl()
    ensures Lower("SSL") == "ssl"
  {
    var l := Lower("SSL");
    assert l[0] == 's' && l[1] == 's' && l[2] == 'l';
  }

  /** An upper-case label between blanks is the label. */
  lemma NormEncSpacedUpper()
    ensures NormEnc(Some(" SSL ")) == "ssl"
  {
    TrimSpacedSsl();
    LowerSsl();
  }

  /** Labels outside the three, the empty one and a missing one all mean "tls". */
  lemma NormEncDefaults()
    ensures NormEnc(Some("starttls")) == "tls"
    ensures NormEnc(Some("")) == "tls"
    ensures NormEnc(None) == "tls"
  {
    assert IsTrimmed("starttls");
    NotLabelBySize(Lower(Trim("starttls")));
    NotLabelBySize(Lower(Trim("")));
  }

  lemma NotLabelBySize(s: string)
    requires |s| != 3 && |s| != 4
    ensures !IsEncLabel(s)
  {
    assert |"tls"| == |"ssl"| == 3 && |"none"| == 4;
  }

  /** The settings the site reads. Whole numbers (env_int) are passed in
      already parsed, because is_numeric is not part of this model. */
  datatype AppConfig = AppConfig(siteName: string, baseUrl: string, mailFrom: Option<string>,
                                 mailFromName: Option<string>, smtp: Smtp.SmtpSettings)

  const DefaultBaseUrl := "https://www.swgplus.com"

  /** base_url: the configured URL with its trailing slashes removed. */
  function BaseUrl(env: Env): (r: string)
    ensures r == [] || r[|r| - 1] != '/'
    ensures var u := OrElse(EnvStr(env, "SWG_BASE_URL", Some(DefaultBaseUrl)), "");
      |r| <= |u| && r == u[..|r|] && forall i :: |r| <= i < |u| ==> u[i] == '/'
  {
    RTrimChar(OrElse(EnvStr(env, "SWG_BASE_URL", Some(DefaultBaseUrl)), ""), '/')
  }

  /** The settings array of includes/config.php. */
  function LoadConfig(env: Env, smtpPort: int): AppConfig {
    AppConfig(
      "SWG Plus",
      BaseUrl(env),
      EnvStr(env, "SWG_MAIL_FROM", Some("noreply@swgplus.com")),
      EnvStr(env, "SWG_MAIL_FROM_NAME", Some("SWG Plus Security Team")),
      Smtp.SmtpSettings(
        EnvStr(env, "SWG_SMTP_HOST", Some("websmtp.simply.com")),
        Some(smtpPort),
        EnvStr(env, "SWG_SMTP_USERNAME", Some("noreply@swgplus.com")),
        EnvStr(env, "SWG_SMTP_PASSWORD", Some("")),
        Some(NormEnc(EnvStr(env, "SWG_SMTP_ENCRYPTION", Some("tls")))),
        EnvStr(env, "SWG_SMTP_CLIENT_NAME", Some("swgplus.com"))))
  }

  /** Every configured value is present, the encryption is one of the three
      labels, and without SWG_SMTP_PASSWORD the password is empty. */
  lemma LoadConfigShape(env: Env, smtpPort: int)
    ensures var c := LoadConfig(env, smtpPort);
      && c.mailFrom.Some? && c.mailFromName.Some? && c.smtp.host.Some? && c.smtp.username.Some?
      && c.smtp.password.Some? && c.smtp.encryption.Some? && IsEncLabel(c.smtp.encryption.value)
      && ("SWG_SMTP_PASSWORD" !in env ==> c.smtp.password == Some(""))
  {
  }
}

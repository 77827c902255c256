/** The header side of includes/mailer.php: sanitizeHeaderValue, the address
    helpers extractEmailAddress / formatAddress / deriveDefaultClientName, and
    buildSmtpMessage, which puts headers, a blank line and the dot-stuffed body
    together.

    mb_encode_mimeheader (RFC 2047 encoded words) is a library routine; it
    enters as the parameter `encode`, which may give None (PHP's false, or the
    function being unavailable), in which case the text is used as it is. The
    random Message-ID part and the gmdate() timestamp are parameters too. */
module MailHeaders {
  import opened Strings
  import opened MailBody

  /** The RFC 2047 encoder, left abstract. */
  type Encoder = string -> Option<string>

  function EncodedOr(encode: Encoder, s: string): string {
    match encode(s)
    case Some(e) => e
    case None => s
  }

  // ---------------------------------------------------------------------------
  // sanitizeHeaderValue

  /** CR and LF become spaces, then the value is trimmed: header injection is
      impossible and there is no outer whitespace. */
  function SanitizeHeaderValue(value: string): (r: string)
    ensures '\r' !in r && '\n' !in r
    ensures IsTrimmed(r)
    ensures LineFree(value) && IsTrimmed(value) ==> r == value
  {
    var spaced := ReplaceChars(value, {'\r', '\n'}, ' ');
    SpacedIsLineFree(value);
    TrimKeepsOut(spaced, '\r');
    TrimKeepsOut(spaced, '\n');
    if LineFree(value) then
      SpacingLineFree(value);
      Trim(spaced)
    else Trim(spaced)
  }

  /** Replacing CR and LF by spaces leaves neither. */
  lemma SpacedIsLineFree(value: string)
    ensures LineFree(ReplaceChars(value, {'\r', '\n'}, ' '))
  {
    var spaced := ReplaceChars(value, {'\r', '\n'}, ' ');
    forall i | 0 <= i < |spaced| ensures spaced[i] != '\r' && spaced[i] != '\n' {
    }
  }

  /** A text without CR or LF has nothing to replace. */
  lemma SpacingLineFree(value: string)
    requires LineFree(value)
    ensures ReplaceChars(value, {'\r', '\n'}, ' ') == value
  {
    var spaced := ReplaceChars(value, {'\r', '\n'}, ' ');
    forall i | 0 <= i < |value| ensures spaced[i] == value[i] {
      assert value[i] in value;
    }
  }

  // ---------------------------------------------------------------------------
  // extractEmailAddress: preg_match('/<([^>]+)>/') and trim

  /** A match of <([^>]+)> can start at i: a '<', at least one character that is
      not '>', and a '>' somewhere after it. */
  predicate OpensAt(s: string, i: int) {
    0 <= i && i + 1 < |s| && s[i] == '<' && s[i + 1] != '>' && '>' in s[i + 1..]
  }

  /** The leftmost position at or after i where a match starts (the regex
      engine tries start positions from left to right). */
  function FirstOpen(s: string, i: nat): (r: Option<nat>)
    requires i <= |s|
    ensures r.None? ==> forall k :: i <= k < |s| ==> !OpensAt(s, k)
    ensures r.Some? ==> (i <= r.value < |s| && OpensAt(s, r.value)
      && forall k :: i <= k < r.value ==> !OpensAt(s, k))
    decreases |s| - i
  {
    if i == |s| then None
    else if OpensAt(s, i) then Some(i)
    else FirstOpen(s, i + 1)
  }

  /** The captured group of a match starting at k: the greedy [^>]+ runs up to
      the first '>' after the '<'. */
  function GroupAt(s: string, k: nat): (g: string)
    requires OpensAt(s, k)
    ensures g != [] && '>' !in g
    ensures k + 1 + |g| < |s| && g == s[k + 1..k + 1 + |g|] && s[k + 1 + |g|] == '>'
  {
    var j := IndexOf(s[k + 1..], '>').value;
    assert j != 0;
    assert s[k + 1..][..j] == s[k + 1..k + 1 + j];
    s[k + 1..k + 1 + j]
  }

  function AngleGroup(s: string): (r: Option<string>)
    ensures r.Some? ==> r.value != [] && '>' !in r.value
  {
    match FirstOpen(s, 0)
    case Some(k) => Some(GroupAt(s, k))
    case None => None
  }

  /** extractEmailAddress: the trimmed group of the first <...>, otherwise the trimmed value. */
  function ExtractEmailAddress(value: string): string
  {
    match AngleGroup(value)
    case Some(g) => Trim(g)
    case None => Trim(value)
  }

  /** Without a match of <([^>]+)>, extractEmailAddress is trim. */
  lemma ExtractWithoutMatch(value: string)
    requires forall i :: 0 <= i < |value| ==> !OpensAt(value, i)
    ensures ExtractEmailAddress(value) == Trim(value)
  {
  }

  /** With a match, extractEmailAddress is the trimmed group of the leftmost
      one, which runs from its '<' to the first '>' after it. */
  lemma ExtractLeftmostMatch(value: string, k: nat, g: string)
    requires OpensAt(value, k) && forall m :: 0 <= m < k ==> !OpensAt(value, m)
    requires k + 1 + |g| < |value| && g == value[k + 1..k + 1 + |g|] && value[k + 1 + |g|] == '>' && '>' !in g
    ensures ExtractEmailAddress(value) == Trim(g)
  {
    assert FirstOpen(value, 0) == Some(k);
    GroupIsFirstClose(value, k, g);
  }

  /** The group of a match is the text up to the first '>' after its '<'. */
  lemma GroupIsFirstClose(s: string, k: nat, g: string)
    requires OpensAt(s, k)
    requires k + 1 + |g| < |s| && g == s[k + 1..k + 1 + |g|] && s[k + 1 + |g|] == '>' && '>' !in g
    ensures GroupAt(s, k) == g
  {
    var h := GroupAt(s, k);
    assert |h| == |g|;
  }

  /** A match start inside a slice is a match start in the whole string. */
  lemma OpensInSlice(s: string, a: nat, b: nat, i: nat)
    requires a <= b <= |s|
    requires OpensAt(s[a..b], i)
    ensures OpensAt(s, a + i)
  {
    var t := s[a..b];
    var m := IndexOf(t[i + 1..], '>').value;
    assert s[a + i + 1..][m] == t[i + 1..][m];
  }

  lemma NoGroupInSlice(s: string, a: nat, b: nat)
    requires a <= b <= |s|
    requires forall i :: 0 <= i < |s| ==> !OpensAt(s, i)
    ensures forall i :: 0 <= i < b - a ==> !OpensAt(s[a..b], i)
  {
    forall i | 0 <= i < b - a ensures OpensAt(s[a..b], i) ==> OpensAt(s, a + i) {
      if OpensAt(s[a..b], i) {
        OpensInSlice(s, a, b, i);
      }
    }
  }

  /** A match start needs a '>' in the string. */
  lemma CloserIn(s: string, k: nat)
    requires OpensAt(s, k)
    ensures '>' in s
  {
    var m := IndexOf(s[k + 1..], '>').value;
    assert s[k + 1 + m] == '>';
  }

  lemma NoGroupWithoutClose(s: string)
    requires '>' !in s
    ensures AngleGroup(s).None?
  {
    forall k | 0 <= k < |s| ensures OpensAt(s, k) ==> '>' in s {
      if OpensAt(s, k) {
        CloserIn(s, k);
      }
    }
  }

  /** extractEmailAddress is idempotent. */
  lemma ExtractIdempotent(value: string)
    ensures ExtractEmailAddress(ExtractEmailAddress(value)) == ExtractEmailAddress(value)
  {
    match AngleGroup(value)
    case Some(g) => IdempotentOnGroup(g);
    case None => IdempotentWithoutGroup(value);
  }

  /** A trimmed group has no '>', so nothing in it matches again. */
  lemma IdempotentOnGroup(g: string)
    requires '>' !in g
    ensures AngleGroup(Trim(g)).None? && ExtractEmailAddress(Trim(g)) == Trim(g)
  {
    TrimKeepsOut(g, '>');
    NoGroupWithoutClose(Trim(g));
    TrimIdempotent(g);
  }

  /** A trimmed text without a match has none after trimming either. */
  lemma IdempotentWithoutGroup(value: string)
    requires AngleGroup(value).None?
    ensures AngleGroup(Trim(value)).None? && ExtractEmailAddress(Trim(value)) == Trim(value)
  {
    var r := Trim(value);
    var off := TrimIsSlice(value);
    NoGroupOfSlice(value, off, r);
    TrimIdempotent(value);
  }

  /** A slice of a text without a match has no match either. */
  lemma NoGroupOfSlice(s: string, a: nat, t: string)
    requires a + |t| <= |s| && t == s[a..a + |t|] && AngleGroup(s).None?
    ensures AngleGroup(t).None?
  {
    NoGroupInSlice(s, a, a + |t|);
    assert forall i :: 0 <= i < |t| ==> !OpensAt(t, i);
    assert FirstOpen(t, 0).None?;
  }

  lemma TrimKeepsOut(s: string, c: char)
    requires c !in s
    ensures c !in Trim(s)
  {
  }

  // ---------------------------------------------------------------------------
  // formatAddress

  /** The display name as formatAddress cleans it: '"', CR and LF removed, then trimmed. */
  function CleanDisplayName(name: Option<string>): (r: string)
    ensures '"' !in r && '\r' !in r && '\n' !in r
    ensures IsTrimmed(r)
  {
    match name
    case None => ""
    case Some(n) =>
      var stripped := RemoveChars(n, {'"', '\r', '\n'});
      TrimKeepsOut(stripped, '"');
      TrimKeepsOut(stripped, '\r');
      TrimKeepsOut(stripped, '\n');
      Trim(stripped)
  }

  /** The name any header shows: the cleaned name, RFC 2047-encoded when the encoder succeeds. */
  function ShownName(encode: Encoder, name: Option<string>): string {
    EncodedOr(encode, CleanDisplayName(name))
  }

  /** formatAddress: the bare address when the cleaned name is empty, otherwise "name" <addr>. */
  function FormatAddress(encode: Encoder, name: Option<string>, email: string): (r: string)
    ensures CleanDisplayName(name) == "" ==> r == ExtractEmailAddress(email)
    ensures CleanDisplayName(name) != "" ==>
      r == "\"" + ShownName(encode, name) + "\" <" + ExtractEmailAddress(email) + ">"
  {
    var address := ExtractEmailAddress(email);
    var cleaned := CleanDisplayName(name);
    if cleaned == "" then address
    else "\"" + EncodedOr(encode, cleaned) + "\" <" + address + ">"
  }

  /** Positions holding no '<' cannot start a match, so the scan passes over them. */
  lemma {:induction false} FirstOpenSkip(s: string, i: nat, p: nat)
    requires i <= p <= |s|
    requires forall m :: i <= m < p ==> s[m] != '<'
    ensures FirstOpen(s, i) == FirstOpen(s, p)
    decreases p - i
  {
    if i < p {
      FirstOpenSkip(s, i + 1, p);
    }
  }

  /** An address in angle brackets after a text whose only '<' is the opening
      bracket is what extractEmailAddress finds. */
  lemma ExtractBracketed(opening: string, addr: string)
    requires opening != [] && opening[|opening| - 1] == '<'
    requires forall m :: 0 <= m < |opening| - 1 ==> opening[m] != '<'
    requires addr != [] && '>' !in addr && IsTrimmed(addr)
    ensures ExtractEmailAddress(opening + addr + ">") == addr
  {
    var f := opening + addr + ">";
    var p := |opening| - 1;
    assert f[p + 1..] == addr + ">";
    assert addr[0] in addr;
    assert (addr + ">")[|addr|] == '>';
    assert OpensAt(f, p);
    FirstOpenSkip(f, 0, p);
    IndexOfAfter(addr, '>', []);
    assert addr + ">" == addr + ['>'] + [];
    assert GroupAt(f, p) == addr;
  }

  /** Extracting from a formatted address gives the address back. For a shown
      name with no '<' and an address that is non-empty with no '>'. */
  lemma FormatThenExtract(encode: Encoder, name: Option<string>, email: string)
    requires CleanDisplayName(name) != "" ==>
      '<' !in ShownName(encode, name) && ExtractEmailAddress(email) != "" && '>' !in ExtractEmailAddress(email)
    ensures ExtractEmailAddress(FormatAddress(encode, name, email)) == ExtractEmailAddress(email)
  {
    var addr := ExtractEmailAddress(email);
    if CleanDisplayName(name) == "" {
      ExtractIdempotent(email);
    } else {
      var shown := ShownName(encode, name);
      QuotedOpening(shown);
      assert Trim(addr) == addr;
      ExtractBracketed("\"" + shown + "\" <", addr);
    }
  }

  /** The opening of "name" <addr> holds its only '<' at the end. */
  lemma QuotedOpening(shown: string)
    requires '<' !in shown
    ensures var opening := "\"" + shown + "\" <";
      opening[|opening| - 1] == '<' && forall m :: 0 <= m < |opening| - 1 ==> opening[m] != '<'
  {
    var opening := "\"" + shown + "\" <";
    forall m | 0 <= m < |opening| - 1 ensures opening[m] != '<' {
      if 1 <= m <= |shown| {
        assert opening[m] == shown[m - 1];
        assert shown[m - 1] in shown;
      }
    }
  }

  // ---------------------------------------------------------------------------
  // deriveDefaultClientName

  /** The text after the first '@' of the extracted address, else "localhost". */
  function DeriveDefaultClientName(fromEmail: string): string
  {
    var address := ExtractEmailAddress(fromEmail);
    match IndexOf(address, '@')
    case Some(k) => address[k + 1..]
    case None => "localhost"
  }

  lemma DefaultClientNameMeaning(fromEmail: string, local: string, domain: string)
    ensures '@' !in ExtractEmailAddress(fromEmail) ==> DeriveDefaultClientName(fromEmail) == "localhost"
    ensures ExtractEmailAddress(fromEmail) == local + "@" + domain && '@' !in local ==>
      DeriveDefaultClientName(fromEmail) == domain
  {
    var a := ExtractEmailAddress(fromEmail);
    if a == local + "@" + domain && '@' !in local {
      IndexOfAfter(local, '@', domain);
      assert a[|local| + 1..] == domain;
    }
  }

  // ---------------------------------------------------------------------------
  // buildSmtpMessage

  datatype Header = Header(name: string, value: string)

  function RenderHeader(h: Header): string {
    h.name + ": " + h.value
  }

  function RenderHeaders(hs: seq<Header>): (r: seq<string>)
    ensures |r| == |hs|
  {
    seq(|hs|, i requires 0 <= i < |hs| => RenderHeader(hs[i]))
  }

  const HeaderNames: seq<string> := ["From", "To", "Subject", "Date", "Message-ID",
    "MIME-Version", "Content-Type", "Content-Transfer-Encoding"]

  /** The Message-ID domain: the client name if non-empty, otherwise derived from the from address. */
  function MessageIdDomain(clientName: string, fromEmail: string): string {
    if clientName != "" then clientName else DeriveDefaultClientName(fromEmail)
  }

  /** The header list of buildSmtpMessage. `date` is the gmdate('D, d M Y H:i:s')
      text and `idHex` the hex form of the 16 random bytes. */
  function MessageHeaders(encode: Encoder, fromEmail: string, fromName: string, toEmail: string,
                          toName: Option<string>, subject: string, clientName: string,
                          date: string, idHex: string): seq<Header>
  {
    HeaderList(FormatAddress(encode, Some(fromName), fromEmail), FormatAddress(encode, toName, toEmail),
               EncodedOr(encode, SanitizeHeaderValue(subject)), date + " +0000",
               "<" + idHex + "@" + MessageIdDomain(clientName, fromEmail) + ">")
  }

  /** The eight headers, in this order, with the given values of the five that vary. */
  function HeaderList(from: string, to: string, subject: string, date: string, messageId: string): (hs: seq<Header>)
    ensures |hs| == |HeaderNames| && forall i :: 0 <= i < |hs| ==> hs[i].name == HeaderNames[i]
    ensures hs[0].value == from && hs[1].value == to && hs[2].value == subject
    ensures hs[3].value == date && hs[4].value == messageId
    ensures hs[5].value == "1.0" && hs[6].value == "text/plain; charset=UTF-8" && hs[7].value == "8bit"
  {
    [ Header("From", from), Header("To", to), Header("Subject", subject), Header("Date", date),
      Header("Message-ID", messageId), Header("MIME-Version", "1.0"),
      Header("Content-Type", "text/plain; charset=UTF-8"), Header("Content-Transfer-Encoding", "8bit") ]
  }

  /** buildSmtpMessage: the header lines joined by CRLF, a blank line, the dot-stuffed normalised body. */
  function BuildSmtpMessage(encode: Encoder, fromEmail: string, fromName: string, toEmail: string,
                            toName: Option<string>, subject: string, body: string, clientName: string,
                            date: string, idHex: string): string
  {
    var headers := MessageHeaders(encode, fromEmail, fromName, toEmail, toName, subject, clientName, date, idHex);
    JoinCrLf(RenderHeaders(headers)) + CRLF + CRLF + DotStuff(NormalizeEmailBody(body))
  }

  /** The Subject header is the sanitised subject (no CR or LF, trimmed), as
      the encoder returns it when it succeeds, and as it is otherwise. */
  lemma SubjectIsSanitized(encode: Encoder, fromEmail: string, fromName: string, toEmail: string,
                           toName: Option<string>, subject: string, clientName: string, date: string, idHex: string)
    ensures var hs := MessageHeaders(encode, fromEmail, fromName, toEmail, toName, subject, clientName, date, idHex);
      var clean := SanitizeHeaderValue(subject);
      && (encode(clean).None? ==> LineFree(hs[2].value) && IsTrimmed(hs[2].value))
      && (encode(clean).Some? ==> hs[2].value == encode(clean).value)
      && (LineFree(subject) && IsTrimmed(subject) && encode(subject).None? ==> hs[2].value == subject)
  {
    var clean := SanitizeHeaderValue(subject);
    if LineFree(subject) && IsTrimmed(subject) {
      assert clean == subject;
    }
  }

  /** The Message-ID domain is the client name when one is configured, the
      domain of the from address otherwise, and "localhost" without an '@'. */
  lemma MessageIdRule(encode: Encoder, fromEmail: string, fromName: string, toEmail: string,
                      toName: Option<string>, subject: string, clientName: string, date: string, idHex: string,
                      local: string, domain: string)
    ensures var hs := MessageHeaders(encode, fromEmail, fromName, toEmail, toName, subject, clientName, date, idHex);
      && (clientName != "" ==> hs[4].value == "<" + idHex + "@" + clientName + ">")
      && (clientName == "" && '@' !in ExtractEmailAddress(fromEmail) ==> hs[4].value == "<" + idHex + "@" + "localhost" + ">")
      && (clientName == "" && ExtractEmailAddress(fromEmail) == local + "@" + domain && '@' !in local ==>
            hs[4].value == "<" + idHex + "@" + domain + ">")
  {
    DefaultClientNameMeaning(fromEmail, local, domain);
  }

  /** After the header block and an empty line comes a body whose lines are the
      input's lines with a leading '.' doubled, none of them the lone "."
      terminator, and which unstuffs back to the normalised body. */
  lemma MessageBodyLayout(encode: Encoder, fromEmail: string, fromName: string, toEmail: string,
                          toName: Option<string>, subject: string, body: string, clientName: string,
                          date: string, idHex: string)
    ensures var hs := MessageHeaders(encode, fromEmail, fromName, toEmail, toName, subject, clientName, date, idHex);
      var m := BuildSmtpMessage(encode, fromEmail, fromName, toEmail, toName, subject, body, clientName, date, idHex);
      var head := JoinCrLf(RenderHeaders(hs));
      && |head| + 4 <= |m|
      && m[..|head| + 4] == head + CRLF + CRLF
      && var st := m[|head| + 4..];
      && SplitLines(st) == EscapeLines(SplitLines(body))
      && JoinCrLf(UnescapeLines(SplitLines(st))) == NormalizeEmailBody(body)
      && (forall i :: 0 <= i < |SplitLines(st)| ==> SplitLines(st)[i] != ".")
  {
    var hs := MessageHeaders(encode, fromEmail, fromName, toEmail, toName, subject, clientName, date, idHex);
    var head := JoinCrLf(RenderHeaders(hs));
    var st := DotStuff(NormalizeEmailBody(body));
    var m := BuildSmtpMessage(encode, fromEmail, fromName, toEmail, toName, subject, body, clientName, date, idHex);
    assert m == (head + CRLF + CRLF) + st;
    assert m[|head| + 4..] == st;
    StuffedBody(body);
    NormalizeKeepsLines(body);
  }
}

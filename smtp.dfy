/** The SMTP client of includes/mailer.php: smtpReadResponse, smtpExpectCodes,
    smtpCommand and sendEmailViaSmtp.

    The socket carries bytes: each `char` of a line written or read stands for
    one byte, so the fourth character of a reply line is its fourth byte.

    The socket is a class over a scripted server: the reply lines fgets would
    return, the number of writes that succeed before the connection breaks,
    and whether the TLS upgrade succeeds. Every write, line read, TLS upgrade
    and close is appended to a transcript. Each socket operation requires the
    socket to be open, so the verifier checks that the session never touches a
    closed socket and closes it at most once.

    The pure functions below (ReadReply, ExpectStep, CommandStep, the stage
    interpreter RunPlan and Session) specify the imperative methods; the
    methods are proved to produce exactly the outcome and transcript of
    Session, and the properties of the session are lemmas about Session. */
module Smtp {
  import opened Strings
  import opened MailBody
  import opened MailHeaders

  /** The step names used in the source's error messages ("banner", "ehlo-1", ...). */
  datatype Tag = Banner | Ehlo(round: nat) | Helo(round: nat) | StartTls | AuthLogin | AuthUser | AuthPass
               | MailFrom | RcptTo | DataCmd | Body | DataCommit | Quit

  datatype Transport = Tcp | ImplicitTls

  datatype Event =
    | Opened(transport: Transport, host: string, port: int)
    | Sent(tag: Tag, data: string)
    | Line(text: string)
    | Secured
    | Shut

  /** What the last-error side channel reports when the session fails. */
  datatype Failure =
    | MissingSettings
    | ConnectFailed
    | WriteFailed(tag: Tag)
    | EmptyReply(tag: Tag)
    | UnexpectedCode(tag: Tag, code: int)
    | TlsFailed
    | BodyWriteFailed

  datatype Outcome = Delivered | Failed(failure: Failure)

  /** The scripted peer: whether the connection is accepted, the lines it
      sends, how many writes succeed, and whether TLS negotiation works. */
  datatype Server = Server(accepts: bool, replies: seq<string>, writeBudget: nat, tlsAvailable: bool)

  /** The socket's state as a value. */
  datatype Wire = Wire(replies: seq<string>, writeBudget: nat, tlsAvailable: bool, log: seq<Event>, closed: bool)

  // ---------------------------------------------------------------------------
  // Socket primitives on values

  predicate CanWrite(w: Wire) { w.writeBudget > 0 }

  /** fwrite: appends to the transcript while the connection holds, else changes nothing. */
  function AfterWrite(w: Wire, tag: Tag, data: string): Wire {
    if CanWrite(w) then w.(writeBudget := w.writeBudget - 1, log := w.log + [Sent(tag, data)]) else w
  }

  /** fgets: the next scripted line, or None (PHP false) when there is none. */
  function NextLine(w: Wire): Option<string> {
    if w.replies == [] then None else Some(w.replies[0])
  }

  function AfterRead(w: Wire): Wire {
    if w.replies == [] then w else w.(replies := w.replies[1..], log := w.log + [Line(w.replies[0])])
  }

  function CloseWire(w: Wire): Wire {
    w.(closed := true, log := w.log + [Shut])
  }

  class Socket {
    var replies: seq<string>
    var writeBudget: nat
    var tlsAvailable: bool
    var log: seq<Event>
    var closed: bool

    function View(): Wire
      reads this
    {
      Wire(replies, writeBudget, tlsAvailable, log, closed)
    }

    /** stream_socket_client succeeded: an open socket whose transcript starts with the connection. */
    constructor (server: Server, first: Event)
      ensures View() == Wire(server.replies, server.writeBudget, server.tlsAvailable, [first], false)
    {
      replies := server.replies;
      writeBudget := server.writeBudget;
      tlsAvailable := server.tlsAvailable;
      log := [first];
      closed := false;
    }

    /** fwrite; `tag` labels the write in the transcript. */
    method Write(tag: Tag, data: string) returns (ok: bool)
      requires !closed
      modifies this
      ensures ok == CanWrite(old(View()))
      ensures View() == AfterWrite(old(View()), tag, data)
    {
      ok := writeBudget > 0;
      if ok {
        writeBudget := writeBudget - 1;
        log := log + [Sent(tag, data)];
      }
    }

    /** fgets */
    method GetLine() returns (line: Option<string>)
      requires !closed
      modifies this
      ensures line == NextLine(old(View()))
      ensures View() == AfterRead(old(View()))
    {
      if replies == [] {
        line := None;
      } else {
        line := Some(replies[0]);
        log := log + [Line(replies[0])];
        replies := replies[1..];
      }
    }

    /** stream_socket_enable_crypto */
    method EnableCrypto() returns (ok: bool)
      requires !closed
      modifies this
      ensures ok == old(tlsAvailable)
      ensures View() == (if ok then old(View()).(log := old(log) + [Secured]) else old(View()))
    {
      ok := tlsAvailable;
      if ok {
        log := log + [Secured];
      }
    }

    /** fclose */
    method Close()
      requires !closed
      modifies this
      ensures View() == CloseWire(old(View()))
    {
      closed := true;
      log := log + [Shut];
    }
  }

  // ---------------------------------------------------------------------------
  // smtpReadResponse

  /** A reply ends with a line shorter than four bytes or one whose fourth
      byte is a space; any other line is a continuation line. */
  predicate IsFinalLine(l: string) {
    |l| < 4 || l[3] == ' '
  }

  /** The reply smtpReadResponse assembles and the socket state after it. */
  function ReadReply(w: Wire): (string, Wire)
    decreases |w.replies|
  {
    if w.replies == [] then ("", w)
    else
      var l := w.replies[0];
      if IsFinalLine(l) then (l, AfterRead(w))
      else
        var rest := ReadReply(AfterRead(w));
        (l + rest.0, rest.1)
  }

  /** smtpReadResponse: read lines and append them until EOF, a short line or a
      line with a space after the code. */
  method ReadResponse(sock: Socket) returns (response: string)
    requires !sock.closed
    modifies sock
    ensures !sock.closed
    ensures (response, sock.View()) == ReadReply(old(sock.View()))
  {
    ghost var total := ReadReply(sock.View());
    response := "";
    assert response + total.0 == total.0;
    while true
      invariant !sock.closed
      invariant total == (response + ReadReply(sock.View()).0, ReadReply(sock.View()).1)
      decreases |sock.replies|
    {
      ghost var before := sock.View();
      var line := sock.GetLine();
      if line.None? {
        assert response + "" == response;
        return;
      }
      var l := line.value;
      assert ReadReply(before) == (if IsFinalLine(l) then (l, sock.View()) else (l + ReadReply(sock.View()).0, ReadReply(sock.View()).1));
      response := response + l;
      if |l| < 4 {
        return;
      }
      if l[3] == ' ' {
        return;
      }
      assert total.0 == response + ReadReply(sock.View()).0;
    }
  }

  // ---------------------------------------------------------------------------
  // PHP's (int) cast of the first three characters of a reply

  function ReplyCode(response: string): int {
    PhpInt(if |response| <= 3 then response else response[..3])
  }

  // ---------------------------------------------------------------------------
  // smtpExpectCodes and smtpCommand

  datatype Step = Step(failure: Option<Failure>, wire: Wire)

  /** smtpExpectCodes: read a reply; fail on an empty one, otherwise succeed
      exactly when its code is expected. */
  function ExpectStep(w: Wire, codes: set<int>, tag: Tag): Step {
    var (response, w1) := ReadReply(w);
    if response == "" then Step(Some(EmptyReply(tag)), w1)
    else if ReplyCode(response) in codes then Step(None, w1)
    else Step(Some(UnexpectedCode(tag, ReplyCode(response))), w1)
  }

  /** smtpCommand: write the command and CRLF, then expect a reply. */
  function CommandStep(w: Wire, tag: Tag, command: string, codes: set<int>): Step {
    if !CanWrite(w) then Step(Some(WriteFailed(tag)), w)
    else ExpectStep(AfterWrite(w, tag, command + CRLF), codes, tag)
  }

  method ExpectCodes(sock: Socket, codes: set<int>, tag: Tag) returns (failure: Option<Failure>)
    requires !sock.closed
    modifies sock
    ensures !sock.closed
    ensures Step(failure, sock.View()) == ExpectStep(old(sock.View()), codes, tag)
  {
    var response := ReadResponse(sock);
    if response == "" {
      return Some(EmptyReply(tag));
    }
    var code := ReplyCode(response);
    if code !in codes {
      return Some(UnexpectedCode(tag, code));
    }
    return None;
  }

  method Command(sock: Socket, tag: Tag, command: string, codes: set<int>) returns (failure: Option<Failure>)
    requires !sock.closed
    modifies sock
    ensures !sock.closed
    ensures Step(failure, sock.View()) == CommandStep(old(sock.View()), tag, command, codes)
  {
    var ok := sock.Write(tag, command + CRLF);
    if !ok {
      return Some(WriteFailed(tag));
    }
    failure := ExpectCodes(sock, codes, tag);
  }

  // ---------------------------------------------------------------------------
  // The session as a plan of stages

  datatype Stage =
    | Await(tag: Tag, codes: set<int>)              // a reply without a command (banner, data commit)
    | Ask(tag: Tag, command: string, codes: set<int>)
    | Hello(round: nat, clientName: string)         // EHLO, and HELO when EHLO fails
    | Upgrade                                       // the TLS upgrade after STARTTLS
    | Payload(data: string)                         // the message and the terminating CRLF.CRLF

  function GreetStep(w: Wire, round: nat, clientName: string): Step {
    var ehlo := CommandStep(w, Ehlo(round), "EHLO " + clientName, {250});
    if ehlo.failure.None? then ehlo
    else CommandStep(ehlo.wire, Helo(round), "HELO " + clientName, {250})
  }

  function SecureStep(w: Wire): Step {
    if w.tlsAvailable then Step(None, w.(log := w.log + [Secured])) else Step(Some(TlsFailed), w)
  }

  function PayloadStep(w: Wire, data: string): Step {
    if CanWrite(w) then Step(None, AfterWrite(w, Body, data)) else Step(Some(BodyWriteFailed), w)
  }

  function RunStage(st: Stage, w: Wire): Step {
    match st
    case Await(tag, codes) => ExpectStep(w, codes, tag)
    case Ask(tag, command, codes) => CommandStep(w, tag, command, codes)
    case Hello(round, name) => GreetStep(w, round, name)
    case Upgrade => SecureStep(w)
    case Payload(data) => PayloadStep(w, data)
  }

  /** Run the stages in order; the first failure stops the run. */
  function RunPlan(plan: seq<Stage>, w: Wire): Step
  {
    if plan == [] then Step(None, w)
    else
      var r := RunStage(plan[0], w);
      if r.failure.Some? then r else RunPlan(plan[1..], r.wire)
  }

  datatype Encryption = StartTlsMode | ImplicitSsl | Plain

  /** The relabelling of sendEmailViaSmtp: 'tls' and every unknown label mean STARTTLS. */
  function EffectiveEncryption(name: string): (e: Encryption)
    ensures (e == ImplicitSsl) <==> name == "ssl"
    ensures (e == Plain) <==> name == "none"
  {
    if name == "ssl" then ImplicitSsl
    else if name == "none" then Plain
    else StartTlsMode
  }

  /** Everything the stages need besides the wire. */
  datatype Envelope = Envelope(encryption: Encryption, clientName: string, user64: string, pass64: string,
                               fromAddress: string, toAddress: string, message: string)

  /** The opening of sendEmailViaSmtp: banner, greeting, and for STARTTLS the
      upgrade and the second greeting. */
  function HandshakePlan(e: Envelope): seq<Stage> {
    [Await(Banner, {220})]
      + ([Hello(1, e.clientName)]
      + (if e.encryption == StartTlsMode
           then [Ask(StartTls, "STARTTLS", {220})] + ([Upgrade] + [Hello(2, e.clientName)])
           else []))
  }

  /** The mail transaction: AUTH LOGIN, envelope, DATA and the message. */
  function TransactionPlan(e: Envelope): seq<Stage> {
    AuthPlan(e) + MailPlan(e)
  }

  /** AUTH LOGIN with the two base64 credentials. */
  function AuthPlan(e: Envelope): seq<Stage> {
    [Ask(AuthLogin, "AUTH LOGIN", {334})]
      + ([Ask(AuthUser, e.user64, {334})]
      + [Ask(AuthPass, e.pass64, {235})])
  }

  /** The envelope, the message and its acceptance. */
  function MailPlan(e: Envelope): seq<Stage> {
    [Ask(MailFrom, "MAIL FROM:<" + e.fromAddress + ">", {250})]
      + ([Ask(RcptTo, "RCPT TO:<" + e.toAddress + ">", {250, 251})]
      + ([Ask(DataCmd, "DATA", {354})]
      + ([Payload(e.message + "\r\n.\r\n")]
      + [Await(DataCommit, {250})])))
  }

  /** The fixed order of sendEmailViaSmtp. */
  function Plan(e: Envelope): seq<Stage> {
    HandshakePlan(e) + TransactionPlan(e)
  }

  /** Running two plans one after the other is running their concatenation:
      the second starts only when the first succeeded. */
  lemma {:induction false} RunPlanAppend(p: seq<Stage>, q: seq<Stage>, w: Wire)
    ensures RunPlan(p + q, w) == (var r := RunPlan(p, w); if r.failure.Some? then r else RunPlan(q, r.wire))
  {
    if p == [] {
      assert p + q == q;
    } else {
      assert (p + q)[0] == p[0];
      assert (p + q)[1..] == p[1..] + q;
      var r := RunStage(p[0], w);
      if r.failure.None? {
        RunPlanAppend(p[1..], q, r.wire);
      }
    }
  }

  /** The cleanup closure: QUIT (its write may fail), read whatever comes, close. */
  function CleanupWire(w: Wire): Wire {
    CloseWire(ReadReply(AfterWrite(w, Quit, "QUIT\r\n")).1)
  }

  /** The success path: QUIT through smtpCommand with its outcome ignored, then fclose. */
  function FinishWire(w: Wire): Wire {
    CloseWire(CommandStep(w, Quit, "QUIT", {221}).wire)
  }

  /** The smtp part of the configuration, each entry possibly absent. */
  datatype SmtpSettings = SmtpSettings(host: Option<string>, port: Option<int>, username: Option<string>,
                                       password: Option<string>, encryption: Option<string>,
                                       clientName: Option<string>)

  /** The library calls the message needs: RFC 2047 encoding, base64, the
      date text and the hex of the random Message-ID bytes. */
  datatype MessageEnv = MessageEnv(encode: Encoder, base64: string -> string, date: string, idHex: string)

  /** The request: sender, recipient and content as sendEmail passes them on. */
  datatype Mail = Mail(fromEmail: string, fromName: string, toEmail: string, subject: string, body: string,
                       toName: Option<string>)

  function HostOf(s: SmtpSettings): string { Trim(OrElse(s.host, "")) }
  function PortOf(s: SmtpSettings): int { match s.port case Some(p) => p case None => 587 }
  function UserOf(s: SmtpSettings): string { Trim(OrElse(s.username, "")) }
  function PasswordOf(s: SmtpSettings): string { OrElse(s.password, "") }
  function EncryptionOf(s: SmtpSettings): Encryption { EffectiveEncryption(Lower(Trim(OrElse(s.encryption, "starttls")))) }

  /** The greeting name: the configured one, otherwise derived from the from address. */
  function ClientNameOf(s: SmtpSettings, fromEmail: string): string {
    var configured := Trim(OrElse(s.clientName, ""));
    if configured == "" then DeriveDefaultClientName(fromEmail) else configured
  }

  predicate SettingsComplete(s: SmtpSettings) {
    HostOf(s) != "" && PortOf(s) > 0 && UserOf(s) != "" && PasswordOf(s) != ""
  }

  function EnvelopeOf(s: SmtpSettings, m: Mail, env: MessageEnv): Envelope {
    var clientName := ClientNameOf(s, m.fromEmail);
    Envelope(EncryptionOf(s), clientName, env.base64(UserOf(s)), env.base64(PasswordOf(s)),
             ExtractEmailAddress(m.fromEmail), ExtractEmailAddress(m.toEmail),
             BuildSmtpMessage(env.encode, m.fromEmail, m.fromName, m.toEmail, m.toName, m.subject, m.body,
                              clientName, env.date, env.idHex))
  }

  function TransportOf(e: Encryption): Transport {
    if e == ImplicitSsl then ImplicitTls else Tcp
  }

  function OpenWire(s: SmtpSettings, server: Server): Wire {
    Wire(server.replies, server.writeBudget, server.tlsAvailable,
         [Opened(TransportOf(EncryptionOf(s)), HostOf(s), PortOf(s))], false)
  }

  datatype SessionResult = SessionResult(outcome: Outcome, transcript: seq<Event>)

  /** sendEmailViaSmtp as a value: the outcome and the socket transcript. */
  function Session(s: SmtpSettings, m: Mail, server: Server, env: MessageEnv): SessionResult {
    if !SettingsComplete(s) then SessionResult(Failed(MissingSettings), [])
    else if !server.accepts then SessionResult(Failed(ConnectFailed), [])
    else
      var r := RunPlan(Plan(EnvelopeOf(s, m, env)), OpenWire(s, server));
      if r.failure.Some? then SessionResult(Failed(r.failure.value), CleanupWire(r.wire).log)
      else SessionResult(Delivered, FinishWire(r.wire).log)
  }

  // ---------------------------------------------------------------------------
  // The imperative session

  method Greet(sock: Socket, round: nat, clientName: string) returns (failure: Option<Failure>)
    requires !sock.closed
    modifies sock
    ensures !sock.closed
    ensures Step(failure, sock.View()) == GreetStep(old(sock.View()), round, clientName)
  {
    failure := Command(sock, Ehlo(round), "EHLO " + clientName, {250});
    if failure.Some? {
      failure := Command(sock, Helo(round), "HELO " + clientName, {250});
    }
  }

  method Secure(sock: Socket) returns (failure: Option<Failure>)
    requires !sock.closed
    modifies sock
    ensures !sock.closed
    ensures Step(failure, sock.View()) == SecureStep(old(sock.View()))
  {
    var ok := sock.EnableCrypto();
    failure := if ok then None else Some(TlsFailed);
  }

  method WritePayload(sock: Socket, data: string) returns (failure: Option<Failure>)
    requires !sock.closed
    modifies sock
    ensures !sock.closed
    ensures Step(failure, sock.View()) == PayloadStep(old(sock.View()), data)
  {
    var ok := sock.Write(Body, data);
    failure := if ok then None else Some(BodyWriteFailed);
  }

  method Cleanup(sock: Socket)
    requires !sock.closed
    modifies sock
    ensures sock.View() == CleanupWire(old(sock.View()))
  {
    var _ := sock.Write(Quit, "QUIT\r\n");
    var _ := ReadResponse(sock);
    sock.Close();
  }

  /** One stage on the socket. */
  method Perform(sock: Socket, st: Stage) returns (failure: Option<Failure>)
    requires !sock.closed
    modifies sock
    ensures !sock.closed
    ensures Step(failure, sock.View()) == RunStage(st, old(sock.View()))
  {
    match st
    case Await(tag, codes) => failure := ExpectCodes(sock, codes, tag);
    case Ask(tag, command, codes) => failure := Command(sock, tag, command, codes);
    case Hello(round, name) => failure := Greet(sock, round, name);
    case Upgrade => failure := Secure(sock);
    case Payload(data) => failure := WritePayload(sock, data);
  }

  /** A stage that has run on wire w with result r: if it failed, the plan
      from it on ends there; otherwise the rest of the plan continues. */
  lemma StageDone(rest: seq<Stage>, st: Stage, w: Wire, r: Step)
    requires rest != [] && rest[0] == st && RunStage(st, w) == r
    ensures r.failure.Some? ==> RunPlan(rest, w) == r
    ensures r.failure.None? ==> RunPlan(rest, w) == RunPlan(rest[1..], r.wire)
  {
  }

  /** The next stage of a plan on the socket: a failure ends the plan there,
      otherwise the rest of the plan continues from the new state. */
  method PerformNext(sock: Socket, st: Stage, ghost rest: seq<Stage>) returns (failure: Option<Failure>)
    requires !sock.closed && rest != [] && rest[0] == st
    modifies sock
    ensures !sock.closed
    ensures failure.Some? ==> Step(failure, sock.View()) == RunPlan(rest, old(sock.View()))
    ensures failure.None? ==> RunPlan(rest, old(sock.View())) == RunPlan(rest[1..], sock.View())
  {
    ghost var w := sock.View();
    failure := Perform(sock, st);
    StageDone(rest, st, w, Step(failure, sock.View()));
  }

  /** Banner, EHLO/HELO and, for STARTTLS, the upgrade with the second greeting. */
  method Handshake(sock: Socket, e: Envelope) returns (failure: Option<Failure>)
    requires !sock.closed
    modifies sock
    ensures !sock.closed
    ensures Step(failure, sock.View()) == RunPlan(HandshakePlan(e), old(sock.View()))
  {
    ghost var rest := HandshakePlan(e);

    failure := PerformNext(sock, Await(Banner, {220}), rest);
    if failure.Some? { return; }
    rest := rest[1..];

    failure := PerformNext(sock, Hello(1, e.clientName), rest);
    if failure.Some? { return; }
    rest := rest[1..];

    if e.encryption == StartTlsMode {
      failure := PerformNext(sock, Ask(StartTls, "STARTTLS", {220}), rest);
      if failure.Some? { return; }
      rest := rest[1..];

      failure := PerformNext(sock, Upgrade, rest);
      if failure.Some? { return; }
      rest := rest[1..];

      failure := PerformNext(sock, Hello(2, e.clientName), rest);
      if failure.Some? { return; }
      rest := rest[1..];
    }
    assert rest == [];
  }

  /** AUTH LOGIN, MAIL FROM, RCPT TO, DATA, the message, and its acceptance. */
  method Transaction(sock: Socket, e: Envelope) returns (failure: Option<Failure>)
    requires !sock.closed
    modifies sock
    ensures !sock.closed
    ensures Step(failure, sock.View()) == RunPlan(TransactionPlan(e), old(sock.View()))
  {
    ghost var w0 := sock.View();
    RunPlanAppend(AuthPlan(e), MailPlan(e), w0);
    failure := Authenticate(sock, e);
    if failure.Some? { return; }
    failure := SendMail(sock, e);
  }

  method Authenticate(sock: Socket, e: Envelope) returns (failure: Option<Failure>)
    requires !sock.closed
    modifies sock
    ensures !sock.closed
    ensures Step(failure, sock.View()) == RunPlan(AuthPlan(e), old(sock.View()))
  {
    ghost var rest := AuthPlan(e);

    failure := PerformNext(sock, Ask(AuthLogin, "AUTH LOGIN", {334}), rest);
    if failure.Some? { return; }
    rest := rest[1..];

    failure := PerformNext(sock, Ask(AuthUser, e.user64, {334}), rest);
    if failure.Some? { return; }
    rest := rest[1..];

    failure := PerformNext(sock, Ask(AuthPass, e.pass64, {235}), rest);
    if failure.Some? { return; }
    rest := rest[1..];
    assert rest == [];
  }

  method SendMail(sock: Socket, e: Envelope) returns (failure: Option<Failure>)
    requires !sock.closed
    modifies sock
    ensures !sock.closed
    ensures Step(failure, sock.View()) == RunPlan(MailPlan(e), old(sock.View()))
  {
    ghost var rest := MailPlan(e);

    failure := PerformNext(sock, Ask(MailFrom, "MAIL FROM:<" + e.fromAddress + ">", {250}), rest);
    if failure.Some? { return; }
    rest := rest[1..];

    failure := PerformNext(sock, Ask(RcptTo, "RCPT TO:<" + e.toAddress + ">", {250, 251}), rest);
    if failure.Some? { return; }
    rest := rest[1..];

    failure := PerformNext(sock, Ask(DataCmd, "DATA", {354}), rest);
    if failure.Some? { return; }
    rest := rest[1..];

    failure := PerformNext(sock, Payload(e.message + "\r\n.\r\n"), rest);
    if failure.Some? { return; }
    rest := rest[1..];

    failure := PerformNext(sock, Await(DataCommit, {250}), rest);
    if failure.Some? { return; }
    rest := rest[1..];
    assert rest == [];
  }

  /** sendEmailViaSmtp: the settings check, the connection, then the stages in
      the fixed order; the first failure runs the cleanup and returns false. */
  method SendEmailViaSmtp(s: SmtpSettings, m: Mail, server: Server, env: MessageEnv) returns (outcome: Outcome, transcript: seq<Event>)
    ensures SessionResult(outcome, transcript) == Session(s, m, server, env)
  {
    var host := HostOf(s);
    var port := PortOf(s);
    var username := UserOf(s);
    var password := PasswordOf(s);
    var encryption := EncryptionOf(s);
    if host == "" || port <= 0 || username == "" || password == "" {
      return Failed(MissingSettings), [];
    }
    var transport := if encryption == ImplicitSsl then ImplicitTls else Tcp;
    if !server.accepts {
      return Failed(ConnectFailed), [];
    }
    var sock := new Socket(server, Opened(transport, host, port));
    var e := EnvelopeOf(s, m, env);
    ghost var w0 := sock.View();
    RunPlanAppend(HandshakePlan(e), TransactionPlan(e), w0);

    var failure := Handshake(sock, e);
    if failure.Some? {
      Cleanup(sock);
      return Failed(failure.value), sock.log;
    }
    failure := Transaction(sock, e);
    if failure.Some? {
      Cleanup(sock);
      return Failed(failure.value), sock.log;
    }
    var _ := Command(sock, Quit, "QUIT", {221});
    sock.Close();
    return Delivered, sock.log;
  }
}

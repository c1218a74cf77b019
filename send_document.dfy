// The Express document-mailing route (server/routes/send-document.ts): input checks, the
// early answer for an empty recipient list, the store check, the subject and attachment name,
// and the choice between the SMTP server and the Resend service.

module SendDocument {
  import opened Wrappers
  import opened Text
  import opened Http
  import opened ServerEnv

  /** `req.body || {}`: three text fields, and `recipients` when it is an array (kept verbatim). */
  datatype DocumentBody = DocumentBody(
    processId: Option<string>,
    documentType: Option<string>,
    htmlContent: Option<string>,
    recipients: Option<seq<string>>)

  /** What the store answered; only the employee's name is used. */
  datatype DocFetch = QueryFailed(message: string) | Fetched(employeeName: Option<string>)

  /** The service that carries the mail; `port` is `None` when `SMTP_PORT` is not a number. */
  datatype Transport =
    | Smtp(host: string, port: Option<nat>, secure: bool, user: string, sender: string)
    | Resend(sender: string)

  datatype DocumentMail = DocumentMail(via: Transport, to: seq<string>, subject: string, filename: string, attachment: string)

  datatype DocumentOutcome = DocumentOutcome(response: Response, mail: Option<DocumentMail>)

  const MissingFieldsMessage := "process_id, document_type e html_content são obrigatórios"
  const NoRecipientsMessage := "Documento gerado, mas nenhum destinatário foi fornecido."
  const MissingStoreMessage := "SUPABASE_URL/SUPABASE_SERVICE_ROLE_KEY ausentes no servidor"
  const LookupFailedMessage := "Erro ao buscar dados do processo"
  const MissingTransportMessage := "RESEND_API_KEY ausente (ou configure SMTP_*)"
  const SmtpSentMessage := "Documento enviado com sucesso via SMTP!"
  const ResendSentMessage := "Documento enviado com sucesso!"
  const DefaultDocumentName := "Documento Disciplinar"
  const DefaultEmployee := "Funcionário"
  const DefaultSender := "onboarding@resend.dev"
  const DefaultPort := 587
  const SecurePort := 465

  /** `documentTypeNames[t] || "Documento Disciplinar"`. */
  function DisplayName(t: string): (r: string)
    ensures t == "advertencia" ==> r == "Advertência Disciplinar"
    ensures t == "suspensao" ==> r == "Suspensão Disciplinar"
    ensures t == "justa_causa" ==> r == "Aviso de Dispensa por Justa Causa"
    ensures t != "advertencia" && t != "suspensao" && t != "justa_causa" ==> r == DefaultDocumentName
  {
    if t == "advertencia" then "Advertência Disciplinar"
    else if t == "suspensao" then "Suspensão Disciplinar"
    else if t == "justa_causa" then "Aviso de Dispensa por Justa Causa"
    else DefaultDocumentName
  }

  /** `${name} - ${employee || "Funcionário"}`. */
  function DocumentSubject(name: string, employee: Option<string>): string {
    name + " - " + OrElse(employee, DefaultEmployee)
  }

  /** `${name.replace(/\s+/g, "_")}.html`. */
  function Filename(name: string): string {
    CollapseWhitespace(name, "_") + ".html"
  }

  /** The attachment name holds no whitespace and ends in `.html`. */
  lemma FilenameShape(name: string)
    ensures forall c :: c in Filename(name) ==> !IsWhitespace(c)
    ensures |Filename(name)| >= 5 && Filename(name)[|Filename(name)| - 5..] == ".html"
  {
    CollapseWhitespaceLeavesNone(name, "_");
  }

  /** A name of words separated by single spaces gives those words joined by "_". */
  lemma FilenameOfWords(words: seq<string>)
    requires forall k :: 0 <= k < |words| ==> IsWord(words[k])
    ensures Filename(Join(words, " ")) == Join(words, "_") + ".html"
  {
    CollapseWhitespaceJoin(words, "_");
  }

  const WarningWords := ["Advertência", "Disciplinar"]
  const SuspensionWords := ["Suspensão", "Disciplinar"]
  const DismissalWords := ["Aviso", "de", "Dispensa", "por", "Justa", "Causa"]
  const DefaultWords := ["Documento", "Disciplinar"]

  lemma TwoWordNames()
    ensures IsWord(WarningWords[0]) && IsWord(SuspensionWords[0]) && IsWord(DefaultWords[0]) && IsWord("Disciplinar")
  {
  }

  lemma WarningJoined()
    ensures Join(WarningWords, " ") == "Advertência Disciplinar" && Join(WarningWords, "_") == "Advertência_Disciplinar"
  {
  }

  lemma SuspensionJoined()
    ensures Join(SuspensionWords, " ") == "Suspensão Disciplinar" && Join(SuspensionWords, "_") == "Suspensão_Disciplinar"
  {
  }

  lemma DefaultJoined()
    ensures Join(DefaultWords, " ") == DefaultDocumentName && Join(DefaultWords, "_") == "Documento_Disciplinar"
  {
  }

  lemma DismissalWordsAreWords()
    ensures forall k :: 0 <= k < |DismissalWords| ==> IsWord(DismissalWords[k])
  {
    assert IsWord(DismissalWords[0]) && IsWord(DismissalWords[1]) && IsWord(DismissalWords[2]);
    assert IsWord(DismissalWords[3]) && IsWord(DismissalWords[4]) && IsWord(DismissalWords[5]);
  }

  lemma DismissalJoinedBySpaces()
    ensures Join(DismissalWords, " ") == "Aviso de Dispensa por Justa Causa"
  {
  }

  lemma DismissalJoinedByUnderscores()
    ensures Join(DismissalWords, "_") == "Aviso_de_Dispensa_por_Justa_Causa"
  {
  }

  /** The warning's attachment name. */
  lemma WarningFilename(t: string)
    requires t == "advertencia"
    ensures Filename(DisplayName(t)) == "Advertência_Disciplinar.html"
  {
    TwoWordNames();
    WarningJoined();
    FilenameOfWords(WarningWords);
  }

  /** The suspension's attachment name. */
  lemma SuspensionFilename(t: string)
    requires t == "suspensao"
    ensures Filename(DisplayName(t)) == "Suspensão_Disciplinar.html"
  {
    TwoWordNames();
    SuspensionJoined();
    FilenameOfWords(SuspensionWords);
  }

  /** The dismissal notice's attachment name: each of the five spaces becomes "_". */
  lemma DismissalFilename(t: string)
    requires t == "justa_causa"
    ensures Filename(DisplayName(t)) == "Aviso_de_Dispensa_por_Justa_Causa.html"
  {
    DismissalWordsAreWords();
    DismissalJoinedBySpaces();
    DismissalJoinedByUnderscores();
    FilenameOfWords(DismissalWords);
  }

  lemma DefaultNameFilename(name: string)
    requires name == Join(DefaultWords, " ")
    ensures Filename(name) == Join(DefaultWords, "_") + ".html"
  {
    TwoWordNames();
    FilenameOfWords(DefaultWords);
  }

  /** Any other document type's attachment name. */
  lemma DefaultFilename(t: string)
    requires t != "advertencia" && t != "suspensao" && t != "justa_causa"
    ensures Filename(DisplayName(t)) == "Documento_Disciplinar.html"
  {
    DefaultJoined();
    DefaultNameFilename(DisplayName(t));
  }

  // ------------------------------------------------------------------ ports

  /** The value of a string of decimal digits, `None` for anything else. */
  function Decimal(s: string): (r: Option<nat>)
    ensures r.Some? ==> s != []
  {
    if s == [] || !('0' <= s[|s| - 1] <= '9') then None
    else if |s| == 1 then Some(s[0] as int - '0' as int)
    else match Decimal(s[..|s| - 1])
      case None => None
      case Some(v) => Some(10 * v + (s[|s| - 1] as int - '0' as int))
  }

  /** Reading back the decimal text of a number gives the number. */
  lemma {:induction false} DecimalRoundTrip(n: nat)
    ensures Decimal(NatToString(n)) == Some(n)
  {
    var s := NatToString(n);
    if n >= 10 {
      DecimalRoundTrip(n / 10);
      assert s[..|s| - 1] == NatToString(n / 10);
    }
  }

  /** `Number(sanitizeEnv(SMTP_PORT) || 587)`. */
  function SmtpPort(env: Env): (r: Option<nat>)
    ensures SanitizeEnv(EnvGet(env, "SMTP_PORT")).None? ==> r == Some(DefaultPort)
    ensures SanitizeEnv(EnvGet(env, "SMTP_PORT")).Some? ==> r == Decimal(SanitizeEnv(EnvGet(env, "SMTP_PORT")).value)
  {
    match SanitizeEnv(EnvGet(env, "SMTP_PORT"))
    case None => Some(DefaultPort)
    case Some(t) => Decimal(t)
  }

  /** A port variable that cleans to the decimal text of a number gives that number. */
  lemma PortOfDecimalText(env: Env, n: nat)
    requires SanitizeEnv(EnvGet(env, "SMTP_PORT")) == Some(NatToString(n))
    ensures SmtpPort(env) == Some(n)
  {
    DecimalRoundTrip(n);
  }

  /** A deployment that sets `SMTP_PORT=465` gets an implicit-TLS connection. */
  lemma PortFromVariable(env: Env)
    requires "SMTP_PORT" in env && env["SMTP_PORT"] == "465"
    ensures SmtpPort(env) == Some(SecurePort)
  {
    TrimOfTrimmed("465");
    assert StripQuotes("465") == "465";
    DecimalRoundTrip(465);
    assert NatToString(465) == "465";
  }

  /** The transport: SMTP when host, user, password and sender are all set; otherwise Resend if its key is. */
  function ChooseTransport(env: Env): (r: Option<Transport>)
    ensures r.Some? && r.value.Smtp? <==>
              && SanitizeEnv(EnvGet(env, "SMTP_HOST")).Some? && SanitizeEnv(EnvGet(env, "SMTP_USER")).Some?
              && SanitizeEnv(EnvGet(env, "SMTP_PASS")).Some? && SanitizeEnv(EnvGet(env, "SMTP_FROM")).Some?
    ensures r.Some? && r.value.Smtp? ==>
              && r.value.host == SanitizeEnv(EnvGet(env, "SMTP_HOST")).value
              && r.value.user == SanitizeEnv(EnvGet(env, "SMTP_USER")).value
              && r.value.sender == SanitizeEnv(EnvGet(env, "SMTP_FROM")).value
              && r.value.port == SmtpPort(env)
    ensures r.Some? && r.value.Smtp? ==> (r.value.secure <==> r.value.port == Some(SecurePort))
    ensures r.Some? && r.value.Smtp? && SanitizeEnv(EnvGet(env, "SMTP_PORT")).None? ==> r.value.port == Some(DefaultPort)
    ensures r.None? <==> (!(r.Some? && r.value.Smtp?) && SanitizeEnv(EnvGet(env, "RESEND_API_KEY")).None?)
    ensures r.Some? && r.value.Resend? ==>
              r.value.sender == (match SanitizeEnv(EnvGet(env, "RESEND_FROM")) case Some(f) => f case None => DefaultSender)
  {
    var host := SanitizeEnv(EnvGet(env, "SMTP_HOST"));
    var user := SanitizeEnv(EnvGet(env, "SMTP_USER"));
    var pass := SanitizeEnv(EnvGet(env, "SMTP_PASS"));
    var from := SanitizeEnv(EnvGet(env, "SMTP_FROM"));
    if host.Some? && user.Some? && pass.Some? && from.Some? then
      var port := SmtpPort(env);
      Some(Smtp(host.value, port, port == Some(SecurePort), user.value, from.value))
    else if SanitizeEnv(EnvGet(env, "RESEND_API_KEY")).None? then None
    else
      var sender := SanitizeEnv(EnvGet(env, "RESEND_FROM"));
      Some(Resend(if sender.Some? then sender.value else DefaultSender))
  }

  // ------------------------------------------------------------ the handler

  function Field(x: Option<string>): string {
    Trim(OrElse(x, ""))
  }

  /** `sendDocument`, with the store's answer and the mail service's refusal message as parameters. */
  function HandleDocument(verb: Option<string>, body: DocumentBody, env: Env, fetch: DocFetch, sendError: Option<string>): (out: DocumentOutcome)
    ensures !IsPost(verb) ==> out == DocumentOutcome(MethodNotAllowed, None)
    ensures IsPost(verb) && (Field(body.processId) == "" || Field(body.documentType) == "" || Field(body.htmlContent) == "") ==>
              out == DocumentOutcome(Response(400, JsonError(MissingFieldsMessage)), None)
    ensures IsPost(verb) && Field(body.processId) != "" && Field(body.documentType) != "" && Field(body.htmlContent) != ""
            && body.recipients.GetOr([]) == [] ==>
              out == DocumentOutcome(Response(200, JsonMessage(NoRecipientsMessage)), None)
    ensures out.mail.Some? ==>
              && IsPost(verb) && Field(body.processId) != "" && Field(body.documentType) != "" && Field(body.htmlContent) != ""
              && ServerStoreUrl(env).Some? && ServerServiceKey(env).Some? && fetch.Fetched?
              && ChooseTransport(env) == Some(out.mail.value.via)
              && out.mail.value.to == body.recipients.value && out.mail.value.to != []
              && out.mail.value.subject == DocumentSubject(DisplayName(Field(body.documentType)), fetch.employeeName)
              && out.mail.value.filename == Filename(DisplayName(Field(body.documentType)))
              && out.mail.value.attachment == Field(body.htmlContent)
    ensures out.mail.Some? && sendError.None? ==>
              out.response == Response(200, JsonMessage(if out.mail.value.via.Smtp? then SmtpSentMessage else ResendSentMessage))
    ensures out.mail.Some? && sendError.Some? ==> out.response == Response(500, JsonError(sendError.value))
    ensures out.mail.Some? <==>
              && IsPost(verb) && Field(body.processId) != "" && Field(body.documentType) != "" && Field(body.htmlContent) != ""
              && body.recipients.GetOr([]) != []
              && ServerStoreUrl(env).Some? && ServerServiceKey(env).Some? && fetch.Fetched? && ChooseTransport(env).Some?
    ensures IsPost(verb) && Field(body.processId) != "" && Field(body.documentType) != "" && Field(body.htmlContent) != ""
            && body.recipients.GetOr([]) != [] && (ServerStoreUrl(env).None? || ServerServiceKey(env).None?) ==>
              out == DocumentOutcome(Response(500, JsonError(MissingStoreMessage)), None)
    ensures IsPost(verb) && Field(body.processId) != "" && Field(body.documentType) != "" && Field(body.htmlContent) != ""
            && body.recipients.GetOr([]) != [] && ServerStoreUrl(env).Some? && ServerServiceKey(env).Some? && fetch.QueryFailed? ==>
              out == DocumentOutcome(Response(500, JsonError(LookupFailedMessage)), None)
    ensures IsPost(verb) && Field(body.processId) != "" && Field(body.documentType) != "" && Field(body.htmlContent) != ""
            && body.recipients.GetOr([]) != [] && ServerStoreUrl(env).Some? && ServerServiceKey(env).Some? && fetch.Fetched?
            && ChooseTransport(env).None? ==>
              out == DocumentOutcome(Response(500, JsonError(MissingTransportMessage)), None)
    ensures out.mail.None? ==> out.response.status != 200 || out.response == Response(200, JsonMessage(NoRecipientsMessage))
  {
    if !IsPost(verb) then DocumentOutcome(MethodNotAllowed, None)
    else
      var processId, docType, html := Field(body.processId), Field(body.documentType), Field(body.htmlContent);
      var recipients := body.recipients.GetOr([]);
      if processId == "" || docType == "" || html == "" then
        DocumentOutcome(Response(400, JsonError(MissingFieldsMessage)), None)
      else if |recipients| == 0 then DocumentOutcome(Response(200, JsonMessage(NoRecipientsMessage)), None)
      else if ServerStoreUrl(env).None? || ServerServiceKey(env).None? then
        DocumentOutcome(Response(500, JsonError(MissingStoreMessage)), None)
      else
        match fetch
        case QueryFailed(_) => DocumentOutcome(Response(500, JsonError(LookupFailedMessage)), None)
        case Fetched(employee) =>
          var name := DisplayName(docType);
          match ChooseTransport(env)
          case None => DocumentOutcome(Response(500, JsonError(MissingTransportMessage)), None)
          case Some(via) =>
            var mail := DocumentMail(via, recipients, DocumentSubject(name, employee), Filename(name), html);
            match sendError
            case Some(e) => DocumentOutcome(Response(500, JsonError(e)), Some(mail))
            case None => DocumentOutcome(Response(200, JsonMessage(if via.Smtp? then SmtpSentMessage else ResendSentMessage)), Some(mail))
  }

  /** An empty recipient list is answered before any setting is read: the environment plays no part. */
  lemma EmptyListBeforeSettings(verb: Option<string>, body: DocumentBody, env1: Env, env2: Env, fetch: DocFetch, sendError: Option<string>)
    requires body.recipients.GetOr([]) == []
    ensures HandleDocument(verb, body, env1, fetch, sendError) == HandleDocument(verb, body, env2, fetch, sendError)
  {
  }
}

// The Express report route (server/routes/send-report.ts): method, id and configuration
// checks in order, the process lookup, the recipients, and the mail request.

module SendReport {
  import opened Wrappers
  import opened Text
  import opened Http
  import opened ServerEnv
  import opened ReportMail

  /** `req.body || {}`: the fields read, each absent when missing. */
  datatype ReportBody = ReportBody(processId: Option<string>, id: Option<string>, recipients: RecipientField)

  /** The answer, and the mail handed to the mail service when one was. */
  datatype ReportOutcome = ReportOutcome(response: Response, mail: Option<Mail>)

  const ResendKeyVar := "RESEND_API_KEY"
  const MissingIdMessage := "process_id obrigatório"
  const MissingResendMessage := "RESEND_API_KEY ausente (configure no ambiente da Vercel)"
  const MissingStoreMessage := "SUPABASE_URL/SUPABASE_SERVICE_ROLE_KEY ausentes no servidor"

  /** `String(body.process_id || body.id || '').trim()`. */
  function ProcessId(body: ReportBody): string {
    Trim(OrElse(body.processId, OrElse(body.id, "")))
  }

  /** `(recipients || []).filter(Boolean).map(trim).filter(nonEmpty)`, a non-array counting as `[]`. */
  function BodyRecipients(f: RecipientField): seq<string> {
    match f
    case NoList => []
    case List(items) => TrimmedNonBlank(items)
  }

  /** The guards that precede the process lookup, in order. */
  function Precheck(verb: Option<string>, body: ReportBody, env: Env): (r: Option<Response>)
    ensures !IsPost(verb) ==> r == Some(MethodNotAllowed)
    ensures IsPost(verb) && ProcessId(body) == "" ==> r == Some(Response(400, JsonError(MissingIdMessage)))
    ensures IsPost(verb) && ProcessId(body) != "" && SanitizeEnv(EnvGet(env, ResendKeyVar)).None? ==>
              r == Some(Response(500, JsonError(MissingResendMessage)))
    ensures IsPost(verb) && ProcessId(body) != "" && SanitizeEnv(EnvGet(env, ResendKeyVar)).Some?
            && (ServerStoreUrl(env).None? || ServerServiceKey(env).None?) ==>
              r == Some(Response(500, JsonError(MissingStoreMessage)))
    ensures r.None? <==> IsPost(verb) && ProcessId(body) != "" && SanitizeEnv(EnvGet(env, ResendKeyVar)).Some?
                         && ServerStoreUrl(env).Some? && ServerServiceKey(env).Some?
  {
    if !IsPost(verb) then Some(MethodNotAllowed)
    else if ProcessId(body) == "" then Some(Response(400, JsonError(MissingIdMessage)))
    else if SanitizeEnv(EnvGet(env, ResendKeyVar)).None? then Some(Response(500, JsonError(MissingResendMessage)))
    else if ServerStoreUrl(env).None? || ServerServiceKey(env).None? then Some(Response(500, JsonError(MissingStoreMessage)))
    else None
  }

  /**
   * `sendProcessReport`, with the store's answer and the mail service's refusal (`sendError`,
   * already reduced to its message) as parameters.
   */
  function HandleReport(verb: Option<string>, body: ReportBody, env: Env, fetch: ReportFetch, sendError: Option<string>): (out: ReportOutcome)
    ensures Precheck(verb, body, env).Some? ==> out == ReportOutcome(Precheck(verb, body, env).value, None)
    ensures Precheck(verb, body, env).None? && fetch.QueryFailed? ==>
              out == ReportOutcome(Response(500, JsonError(fetch.message)), None)
    ensures out.mail.Some? <==>
              Precheck(verb, body, env).None? && fetch.Fetched? && Resolve(BodyRecipients(body.recipients), fetch.row) != []
    ensures Precheck(verb, body, env).None? && fetch.Fetched? && out.mail.None? ==>
              out.response == Response(200, JsonMessage(NoRecipientsMessage))
    ensures out.mail.Some? ==>
              && out.mail.value == Mail(Resolve(BodyRecipients(body.recipients), fetch.row), Subject(fetch.row))
              && out.response == (if sendError.Some? then Response(500, JsonError(sendError.value))
                                  else Response(200, JsonMessage(SentMessage)))
  {
    match Precheck(verb, body, env)
    case Some(refusal) => ReportOutcome(refusal, None)
    case None =>
      match fetch
      case QueryFailed(m) => ReportOutcome(Response(500, JsonError(m)), None)
      case Fetched(row) =>
        var to := Resolve(BodyRecipients(body.recipients), row);
        if |to| == 0 then ReportOutcome(Response(200, JsonMessage(NoRecipientsMessage)), None)
        else
          var mail := Mail(to, Subject(row));
          match sendError
          case Some(e) => ReportOutcome(Response(500, JsonError(e)), Some(mail))
          case None => ReportOutcome(Response(200, JsonMessage(SentMessage)), Some(mail))
  }

  /** A mail always goes to at least one clean address. */
  lemma MailRecipientsClean(verb: Option<string>, body: ReportBody, env: Env, fetch: ReportFetch, sendError: Option<string>)
    ensures var out := HandleReport(verb, body, env, fetch, sendError);
      out.mail.Some? ==> out.mail.value.to != [] && forall s :: s in out.mail.value.to ==> s != "" && Trim(s) == s
  {
  }

  /** A body list with one usable address replaces the stored columns completely. */
  lemma BodyListOverridesColumns(items: seq<Option<string>>, row: ReportRow, i: int)
    requires 0 <= i < |items| && items[i].Some? && !IsBlank(items[i].value)
    ensures Resolve(BodyRecipients(List(items)), row) == TrimmedNonBlank(items)
  {
    TrimmedNonBlankMembers(items, Trim(items[i].value));
  }
}

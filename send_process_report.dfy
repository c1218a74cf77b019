// The report edge function (supabase/functions/send-process-report/index.ts): the mail-key and
// store checks, all before the process lookup, the recipients, and the mail request.

module ProcessReportFunction {
  import opened Wrappers
  import opened Text
  import opened Http
  import opened EdgeConfig
  import opened ReportMail

  /** The request body: unreadable JSON, or the two fields read. */
  datatype EdgeRequest = Unreadable(error: string) | EdgeBody(processId: Option<string>, recipients: RecipientField)

  datatype EdgeOutcome = EdgeOutcome(response: Response, mail: Option<Mail>)

  const ResendKeyVar := "RESEND_API_KEY"
  const ResendKeyPrefix := "re_"
  const MissingKeyMessage := "RESEND_API_KEY não configurada"
  const ConfigMessage := "SUPABASE_URL ou SUPABASE_SERVICE_ROLE_KEY ausentes"
  const BadKeyMessage := "RESEND_API_KEY inválida: esperado formato que inicia com \"re_\" (Resend API key)."

  /** `(RESEND_API_KEY ?? '').trim()`. */
  function ResendKey(env: Env): string {
    Trim(EnvGet(env, ResendKeyVar).GetOr(""))
  }

  // ------------------------------------------------ the recipient pipeline

  /** `filter(Boolean)`. */
  function Truthies(xs: seq<Option<string>>): (r: seq<string>)
    ensures forall s :: s in r ==> s != ""
  {
    if xs == [] then []
    else if Truthy(xs[0]) then [xs[0].value] + Truthies(xs[1..])
    else Truthies(xs[1..])
  }

  /** `map(r => (r || '').trim())`. */
  function TrimEach(xs: seq<string>): (r: seq<string>)
    ensures |r| == |xs| && forall i :: 0 <= i < |xs| ==> r[i] == Trim(xs[i])
  {
    if xs == [] then [] else [Trim(xs[0])] + TrimEach(xs[1..])
  }

  /** `filter(r => r.length > 0)`. */
  function NonEmpty(xs: seq<string>): (r: seq<string>)
    ensures forall s :: s in r ==> s in xs && s != ""
  {
    if xs == [] then []
    else if xs[0] != "" then [xs[0]] + NonEmpty(xs[1..])
    else NonEmpty(xs[1..])
  }

  /** The body list: used only when `recipients` is an array. */
  function BodyRecipients(f: RecipientField): seq<string> {
    match f
    case NoList => []
    case List(items) => NonEmpty(TrimEach(Truthies(items)))
  }

  /** The three stages together keep the trimmed non-blank entries, in order. */
  lemma {:induction false} PipelineIsCleaning(xs: seq<Option<string>>)
    ensures NonEmpty(TrimEach(Truthies(xs))) == TrimmedNonBlank(xs)
  {
    if xs != [] {
      PipelineIsCleaning(xs[1..]);
      if Truthy(xs[0]) {
        var t := Truthies(xs[1..]);
        assert Truthies(xs) == [xs[0].value] + t;
        assert TrimEach([xs[0].value] + t) == [Trim(xs[0].value)] + TrimEach(t) by {
          assert ([xs[0].value] + t)[1..] == t;
        }
        assert ([Trim(xs[0].value)] + TrimEach(t))[1..] == TrimEach(t);
      } else if xs[0].Some? {
        assert xs[0].value == "";
        assert IsBlank(xs[0].value);
      }
    }
  }

  // ------------------------------------------------------------ the handler

  /** The checks made before the lookup, in order. */
  function Precheck(req: EdgeRequest, env: Env): (r: Option<Response>)
    ensures req.Unreadable? ==> r == Some(Response(500, JsonError(req.error)))
    ensures req.EdgeBody? && ResendKey(env) == "" ==> r == Some(Response(500, JsonError(MissingKeyMessage)))
    ensures req.EdgeBody? && ResendKey(env) != "" && !StartsWith(ResendKey(env), ResendKeyPrefix) ==>
              r == Some(Response(500, JsonError(BadKeyMessage)))
    ensures req.EdgeBody? && StartsWith(ResendKey(env), ResendKeyPrefix) && ResendKey(env) != "" && !Configured(env) ==>
              r == Some(Response(500, JsonError(ConfigMessage)))
    ensures r.None? <==> req.EdgeBody? && ResendKey(env) != "" && StartsWith(ResendKey(env), ResendKeyPrefix) && Configured(env)
  {
    if req.Unreadable? then Some(Response(500, JsonError(req.error)))
    else if ResendKey(env) == "" then Some(Response(500, JsonError(MissingKeyMessage)))
    else if !StartsWith(ResendKey(env), ResendKeyPrefix) then Some(Response(500, JsonError(BadKeyMessage)))
    else if !Configured(env) then Some(Response(500, JsonError(ConfigMessage)))
    else None
  }

  /** The handler, with the store's answer and the mail service's refusal message as parameters. */
  function HandleEdgeReport(req: EdgeRequest, env: Env, fetch: ReportFetch, sendError: Option<string>): (out: EdgeOutcome)
    ensures Precheck(req, env).Some? ==> out == EdgeOutcome(Precheck(req, env).value, None)
    ensures Precheck(req, env).None? && fetch.QueryFailed? ==>
              out == EdgeOutcome(Response(500, JsonError(fetch.message)), None)
    ensures out.mail.Some? <==>
              Precheck(req, env).None? && fetch.Fetched? && Resolve(BodyRecipients(req.recipients), fetch.row) != []
    ensures Precheck(req, env).None? && fetch.Fetched? && out.mail.None? ==>
              out.response == Response(200, JsonMessage(NoRecipientsMessage))
    ensures out.mail.Some? ==>
              && out.mail.value == Mail(Resolve(BodyRecipients(req.recipients), fetch.row), Subject(fetch.row))
              && out.response == (if sendError.Some? then Response(500, JsonError(sendError.value))
                                  else Response(200, JsonMessage(SentMessage)))
  {
    match Precheck(req, env)
    case Some(refusal) => EdgeOutcome(refusal, None)
    case None =>
      match fetch
      case QueryFailed(m) => EdgeOutcome(Response(500, JsonError(m)), None)
      case Fetched(row) =>
        var to := Resolve(BodyRecipients(req.recipients), row);
        if |to| == 0 then EdgeOutcome(Response(200, JsonMessage(NoRecipientsMessage)), None)
        else
          var mail := Mail(to, Subject(row));
          match sendError
          case Some(e) => EdgeOutcome(Response(500, JsonError(e)), Some(mail))
          case None => EdgeOutcome(Response(200, JsonMessage(SentMessage)), Some(mail))
  }

  /** A key that is set but lacks the `re_` prefix stops the function whatever the store would say. */
  lemma ForeignKeyRefused(id: Option<string>, list: RecipientField, env: Env, fetch: ReportFetch, sendError: Option<string>)
    requires ResendKeyVar in env && Trim(env[ResendKeyVar]) != "" && !StartsWith(Trim(env[ResendKeyVar]), ResendKeyPrefix)
    ensures HandleEdgeReport(EdgeBody(id, list), env, fetch, sendError) == EdgeOutcome(Response(500, JsonError(BadKeyMessage)), None)
  {
    assert ResendKey(env) == Trim(env[ResendKeyVar]);
  }
}

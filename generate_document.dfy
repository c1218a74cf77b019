// The disciplinary document generator (supabase/edge_functions/generate-document/index.ts):
// the request checks, the values taken from the process record with their defaults, and the
// page filled from the warning, suspension or just-cause template. Every answer, failures
// included, is an HTML page with status 200.

module GenerateDocument {
  import opened Wrappers
  import opened Text
  import opened Http
  import opened Template
  import opened NumberWords
  import opened EdgeConfig

  /** The three documents of the `templates` table. */
  datatype DocType = Advertencia | Suspensao | JustaCausaDoc

  function DocTypeName(t: DocType): string {
    match t
    case Advertencia => "advertencia"
    case Suspensao => "suspensao"
    case JustaCausaDoc => "justa_causa"
  }

  /** `templates[document_type]`: a template exists for exactly the three names. */
  function ParseDocType(s: string): (r: Option<DocType>)
    ensures r.Some? ==> DocTypeName(r.value) == s
    ensures r.None? ==> forall t: DocType :: DocTypeName(t) != s
  {
    if s == "advertencia" then Some(Advertencia)
    else if s == "suspensao" then Some(Suspensao)
    else if s == "justa_causa" then Some(JustaCausaDoc)
    else None
  }

  /** The request body: unreadable JSON, or the two fields (absent when missing). */
  datatype DocRequest =
    | Unreadable(error: string)
    | DocBody(processId: Option<string>, documentType: Option<string>)

  /**
   * The columns of the `processes` row read here, with the employee and misconduct-type joins.
   * An occurrence date is given as its formatted day, and is absent when the column is empty.
   */
  datatype ProcessRow = ProcessRow(
    employeeName: Option<string>,
    employeeCargo: Option<string>,
    employeeSetor: Option<string>,
    misconductName: Option<string>,
    tipoDesvio: Option<string>,
    descricao: Option<string>,
    description: Option<string>,
    classificacao: Option<string>,
    resolucao: Option<string>,
    resolution: Option<string>,
    suspensionDays: Option<int>,
    occurrenceStart: Option<string>,
    occurrenceEnd: Option<string>,
    cltAlinea: Option<string>,
    signatureName: Option<string>)

  /** What the store answered to the single-row query. */
  datatype Fetch = QueryFailed(message: string) | NoRow | Fetched(row: ProcessRow)

  /** Today's formatted date, and the formatted date a number of days from today. */
  datatype Clock = Clock(today: string, afterDays: int -> string)

  const InvalidRequestMessage := "process_id e document_type válidos são obrigatórios"
  const ConfigMessage := "SUPABASE_URL ou SUPABASE_SERVICE_ROLE_KEY ausentes"
  const NotFoundPrefix := "Processo não encontrado: "
  const NoDataMessage := "Dados do processo não encontrados"
  const NotAvailable := "N/A"
  const DefaultClt := "Conforme disposições do contrato de trabalho e legislação vigente"
  const DefaultSignature := "Setor Jurídico"

  const PageHead := "<html><body><h1>Error</h1><p>"
  const PageTail := "</p></body></html>"
  const ErrorHeading := "<h1>Error</h1>"

  /** The error page around a message. */
  function ErrorPage(msg: string): (r: string)
    ensures |r| == |PageHead| + |msg| + |PageTail|
  {
    PageHead + msg + PageTail
  }

  /** The message shown by an error page, when the page has the error page's frame. */
  function ErrorMessage(page: string): Option<string> {
    if |page| >= |PageHead| + |PageTail| && page[..|PageHead|] == PageHead && page[|page| - |PageTail|..] == PageTail
    then Some(page[|PageHead|..|page| - |PageTail|])
    else None
  }

  /** Every error page carries the `Error` heading, and its message can be read back. */
  lemma ErrorPageRoundTrip(msg: string)
    ensures Contains(ErrorPage(msg), ErrorHeading)
    ensures ErrorMessage(ErrorPage(msg)) == Some(msg)
  {
    var page := ErrorPage(msg);
    assert page[..|PageHead|] == PageHead;
    assert page[|page| - |PageTail|..] == PageTail;
    assert page[|PageHead|..|page| - |PageTail|] == msg;
    assert page[12..26] == PageHead[12..26];
    assert PageHead[12..26] == ErrorHeading;
    ContainsAt(page, ErrorHeading, 12);
  }

  /** `diasSuspensao > 0 && inicioOcorrencia ? format(addDays(dataAtual, dias)) : 'N/A'`. */
  function ReturnDate(days: int, start: Option<string>, clock: Clock): string {
    if days > 0 && start.Some? then clock.afterDays(days) else NotAvailable
  }

  /** `periodoOcorrenciaStr`: both dates, the start alone, or "N/A". */
  function Period(start: Option<string>, end: Option<string>): string {
    match (start, end)
    case (Some(s), Some(e)) => s + " a " + e
    case (Some(s), None) => s
    case (None, _) => NotAvailable
  }

  /** The `templateData` object, one field per placeholder. */
  datatype DocData = DocData(
    nomeColaborador: string,
    cargoColaborador: string,
    setorColaborador: string,
    periodoOcorrencia: string,
    dataDaOcorrencia: string,
    tipoDesvioNome: string,
    descricaoDesvio: string,
    classificacaoDesvio: string,
    resolucaoFinal: string,
    diasSuspensaoNumero: string,
    diasSuspensaoExtenso: Option<string>,
    dataRetornoSuspensao: string,
    cltAlinea: string,
    dataAtual: string,
    nomeAssinatura: string)

  /** The suspension length, `suspension_days ?? 0`. */
  function Days(p: ProcessRow): int {
    p.suspensionDays.GetOr(0)
  }

  /** The values computed from a process row. */
  function BuildData(p: ProcessRow, clock: Clock): DocData {
    DocData(
      OrElse(p.employeeName, NotAvailable),
      OrElse(p.employeeCargo, NotAvailable),
      OrElse(p.employeeSetor, NotAvailable),
      Period(p.occurrenceStart, p.occurrenceEnd),
      p.occurrenceStart.GetOr(NotAvailable),
      OrElse(p.misconductName, OrElse(p.tipoDesvio, NotAvailable)),
      OrElse(p.descricao, OrElse(p.description, "")),
      OrElse(p.classificacao, NotAvailable),
      OrElse(p.resolucao, OrElse(p.resolution, "")),
      IntToString(Days(p)),
      Extenso(Days(p)),
      ReturnDate(Days(p), p.occurrenceStart, clock),
      OrElse(p.cltAlinea, DefaultClt),
      clock.today,
      OrElse(p.signatureName, DefaultSignature))
  }

  /** `Object.entries(templateData)`, in declaration order. */
  function Entries(d: DocData): (r: seq<Entry>)
    ensures |r| == 15
  {
    [Entry("nome_colaborador", Some(d.nomeColaborador)),
     Entry("cargo_colaborador", Some(d.cargoColaborador)),
     Entry("setor_colaborador", Some(d.setorColaborador)),
     Entry("periodo_ocorrencia", Some(d.periodoOcorrencia)),
     Entry("data_da_ocorrencia", Some(d.dataDaOcorrencia)),
     Entry("tipo_desvio_nome", Some(d.tipoDesvioNome)),
     Entry("descricao_desvio", Some(d.descricaoDesvio)),
     Entry("classificacao_desvio", Some(d.classificacaoDesvio)),
     Entry("resolucao_final", Some(d.resolucaoFinal)),
     Entry("dias_suspensao_numero", Some(d.diasSuspensaoNumero)),
     Entry("dias_suspensao_extenso", d.diasSuspensaoExtenso),
     Entry("data_retorno_suspensao", Some(d.dataRetornoSuspensao)),
     Entry("clt_alinea", Some(d.cltAlinea)),
     Entry("data_atual", Some(d.dataAtual)),
     Entry("nome_assinatura", Some(d.nomeAssinatura))]
  }

  /** The request carries a process id and the name of one of the three templates. */
  predicate ValidRequest(process: Option<string>, docType: Option<string>) {
    Truthy(process) && docType.Some? && ParseDocType(docType.value).Some?
  }

  /** The handler, with the store's answer and the clock as parameters. */
  function Generate(req: DocRequest, env: Env, templates: DocType -> string, fetch: Fetch, clock: Clock): (r: Response)
    ensures r.status == 200 && r.body.Html?
    ensures req.Unreadable? ==> r.body.html == ErrorPage(req.error)
    ensures req.DocBody? && !ValidRequest(req.processId, req.documentType) ==> r.body.html == ErrorPage(InvalidRequestMessage)
    ensures req.DocBody? && ValidRequest(req.processId, req.documentType) && !Configured(env) ==>
              r.body.html == ErrorPage(ConfigMessage)
    ensures req.DocBody? && ValidRequest(req.processId, req.documentType) && Configured(env) ==>
              match fetch
              case QueryFailed(m) => r.body.html == ErrorPage(NotFoundPrefix + m)
              case NoRow => r.body.html == ErrorPage(NoDataMessage)
              case Fetched(p) =>
                r.body.html == FillSpec(templates(ParseDocType(req.documentType.value).value), Entries(BuildData(p, clock)))
  {
    match req
    case Unreadable(e) => Response(200, Html(ErrorPage(e)))
    case DocBody(process, docType) =>
      if !ValidRequest(process, docType) then Response(200, Html(ErrorPage(InvalidRequestMessage)))
      else if !Configured(env) then Response(200, Html(ErrorPage(ConfigMessage)))
      else
        match fetch
        case QueryFailed(m) => Response(200, Html(ErrorPage(NotFoundPrefix + m)))
        case NoRow => Response(200, Html(ErrorPage(NoDataMessage)))
        case Fetched(p) =>
          var t := ParseDocType(docType.value).value;
          Response(200, Html(FillSpec(templates(t), Entries(BuildData(p, clock)))))
  }

  /** Whatever went wrong, the page is an error page with a readable message. */
  lemma FailuresAreErrorPages(req: DocRequest, env: Env, templates: DocType -> string, fetch: Fetch, clock: Clock)
    requires req.Unreadable? || !ValidRequest(req.processId, req.documentType) || !Configured(env) || !fetch.Fetched?
    ensures Contains(Generate(req, env, templates, fetch, clock).body.html, ErrorHeading)
    ensures ErrorMessage(Generate(req, env, templates, fetch, clock).body.html).Some?
  {
    var r := Generate(req, env, templates, fetch, clock);
    if req.Unreadable? {
      ErrorPageRoundTrip(req.error);
    } else if !ValidRequest(req.processId, req.documentType) {
      ErrorPageRoundTrip(InvalidRequestMessage);
    } else if !Configured(env) {
      ErrorPageRoundTrip(ConfigMessage);
    } else if fetch.QueryFailed? {
      ErrorPageRoundTrip(NotFoundPrefix + fetch.message);
    } else {
      ErrorPageRoundTrip(NoDataMessage);
    }
  }

  /**
   * The defaults: a missing employee field, classification or date reads "N/A"; the period is
   * the occurrence date, followed by " a " and the end date when there is one.
   */
  lemma DocDataDefaults(p: ProcessRow, clock: Clock)
    ensures var d := BuildData(p, clock);
      && (Truthy(p.employeeName) <==> d.nomeColaborador == p.employeeName.GetOr(""))
      && (!Truthy(p.employeeName) ==> d.nomeColaborador == NotAvailable)
      && (!Truthy(p.employeeCargo) ==> d.cargoColaborador == NotAvailable)
      && (!Truthy(p.employeeSetor) ==> d.setorColaborador == NotAvailable)
      && (!Truthy(p.classificacao) ==> d.classificacaoDesvio == NotAvailable)
      && (p.occurrenceStart.None? ==>
            d.periodoOcorrencia == NotAvailable && d.dataDaOcorrencia == NotAvailable
            && d.dataRetornoSuspensao == NotAvailable)
      && (p.occurrenceStart.Some? && p.occurrenceEnd.None? ==> d.periodoOcorrencia == d.dataDaOcorrencia)
      && (p.occurrenceStart.Some? && p.occurrenceEnd.Some? ==>
            d.periodoOcorrencia == d.dataDaOcorrencia + " a " + p.occurrenceEnd.value)
      && (!Truthy(p.cltAlinea) ==> d.cltAlinea == DefaultClt)
      && (!Truthy(p.signatureName) ==> d.nomeAssinatura == DefaultSignature)
      && d.dataAtual == clock.today
  {
  }

  /**
   * The misconduct name prefers the joined type's name, then the row's own `tipo_desvio`;
   * the description and the resolution fall back to their English-named columns.
   */
  lemma DocDataFallbacks(p: ProcessRow, clock: Clock)
    ensures var d := BuildData(p, clock);
      && (Truthy(p.misconductName) ==> d.tipoDesvioNome == p.misconductName.value)
      && (!Truthy(p.misconductName) && Truthy(p.tipoDesvio) ==> d.tipoDesvioNome == p.tipoDesvio.value)
      && (!Truthy(p.misconductName) && !Truthy(p.tipoDesvio) ==> d.tipoDesvioNome == NotAvailable)
      && (!Truthy(p.descricao) ==> d.descricaoDesvio == OrElse(p.description, ""))
      && (!Truthy(p.resolucao) ==> d.resolucaoFinal == OrElse(p.resolution, ""))
  {
  }

  /**
   * The return date is counted from today, not from the occurrence: two rows that differ only
   * in their (present) start dates get the same return date; without a positive length it reads "N/A".
   */
  lemma ReturnDateFromToday(p: ProcessRow, q: ProcessRow, clock: Clock)
    requires Days(p) == Days(q) && p.occurrenceStart.Some? && q.occurrenceStart.Some?
    ensures BuildData(p, clock).dataRetornoSuspensao == BuildData(q, clock).dataRetornoSuspensao
    ensures Days(p) > 0 ==> BuildData(p, clock).dataRetornoSuspensao == clock.afterDays(Days(p))
    ensures Days(p) <= 0 ==> BuildData(p, clock).dataRetornoSuspensao == NotAvailable
  {
  }

  /**
   * The suspension length in words: below 1000 it is the spelled-out words; a missing length
   * reads "0" and "zero"; a negative length has no words (its placeholder becomes "").
   */
  lemma SuspensionInWords(p: ProcessRow, clock: Clock)
    ensures var d := BuildData(p, clock);
      && (0 <= Days(p) < 1000 ==> d.diasSuspensaoExtenso == Some(Join(SpellAll(Words(Days(p))), " ")))
      && (p.suspensionDays.None? ==> d.diasSuspensaoNumero == "0" && d.diasSuspensaoExtenso == Some("zero"))
      && (Days(p) < 0 ==> ValueText(Entries(d)[10]) == "")
  {
    if 0 <= Days(p) < 1000 {
      ExtensoSpellsWords(Days(p));
    }
  }

  /** Every value the page may receive is free of `{{`. */
  predicate ValuesSafe(d: DocData) {
    forall i :: 0 <= i < |Entries(d)| ==> BraceSafe(ValueText(Entries(d)[i]))
  }

  lemma EntriesKeys(d: DocData)
    ensures forall i :: 0 <= i < |Entries(d)| ==> KeyChars(Entries(d)[i].key)
  {
    EmployeeKeys();
    OccurrenceKeys();
    OutcomeKeys();
  }

  /** The placeholder names hold no braces, five at a time. */
  lemma EmployeeKeys()
    ensures KeyChars("nome_colaborador") && KeyChars("cargo_colaborador") && KeyChars("setor_colaborador")
    ensures KeyChars("periodo_ocorrencia") && KeyChars("data_da_ocorrencia")
  {
  }

  lemma OccurrenceKeys()
    ensures KeyChars("tipo_desvio_nome") && KeyChars("descricao_desvio") && KeyChars("classificacao_desvio")
    ensures KeyChars("resolucao_final") && KeyChars("dias_suspensao_numero")
  {
  }

  lemma OutcomeKeys()
    ensures KeyChars("dias_suspensao_extenso") && KeyChars("data_retorno_suspensao") && KeyChars("clt_alinea")
    ensures KeyChars("data_atual") && KeyChars("nome_assinatura")
  {
  }

  /**
   * The generated page, for a template made of brace-safe text and placeholders: each
   * placeholder named by `templateData` shows its value (every occurrence of it), the other
   * placeholders stay as they are.
   */
  lemma GeneratedPage(ps: seq<Piece>, d: DocData)
    requires WellFormed(ps) && ValuesSafe(d)
    ensures FillSpec(Render(ps), Entries(d)) == Render(Instantiate(ps, Entries(d)))
  {
    EntriesKeys(d);
    FillRendered(ps, Entries(d));
  }
}

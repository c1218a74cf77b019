// The inquiry opening-term generator (supabase/edge_functions/generate-sindicancia-doc/index.ts):
// request checks answered as JSON errors, the committee and witness tables, the president's name,
// and the term page filled from the stored inquiry.

module GenerateInquiryDoc {
  import opened Wrappers
  import opened Text
  import opened Http
  import opened Template
  import opened EdgeConfig

  /** A `comissao_membros` row as read: every column may be null. */
  datatype MemberRow = MemberRow(nome: Option<string>, cargo: Option<string>, funcao: Option<string>, oab: Option<string>)

  /** A `sindicancia_testemunhas` row as read. */
  datatype WitnessRow = WitnessRow(nome: Option<string>, cpf: Option<string>)

  /** The `sindicancias` row with its two joined lists (a null list reads as empty). */
  datatype InquiryRow = InquiryRow(
    numero: Option<string>,
    nomeInstituidor: Option<string>,
    cpfInstituidor: Option<string>,
    members: seq<MemberRow>,
    witnesses: seq<WitnessRow>)

  datatype InquiryRequest = Unreadable(error: string) | InquiryBody(processId: Option<string>)

  /** What the store answered to the single-row query. */
  datatype InquiryFetch = QueryFailed(message: string) | NoRow | Fetched(row: InquiryRow)

  const MissingIdMessage := "process_id é obrigatório"
  const ConfigMessage := "SUPABASE_URL ou SUPABASE_SERVICE_ROLE_KEY ausentes"
  const NotFoundMessage := "Sindicância não encontrada para este processo"
  const PresidentRole := "Presidente"
  const NotAvailable := "N/A"
  const NoOab := "—"

  const RowOpen := "<tr>"
  const CellOpen := "\n          <td>"
  const CellClose := "</td>"
  const RowClose := "\n        </tr>"

  // ------------------------------------------------------------------ tables

  /** The cells of a row, each on its own indented line. */
  function Cells(cells: seq<string>): string {
    if cells == [] then "" else CellOpen + cells[0] + CellClose + Cells(cells[1..])
  }

  /** One `<tr>` of the template literal. */
  function TableRow(cells: seq<string>): string {
    RowOpen + Cells(cells) + RowClose
  }

  /** A committee member's cells: a missing OAB number shows a dash, any other missing column nothing. */
  function MemberCells(m: MemberRow): (r: seq<string>)
    ensures |r| == 4
    ensures r[3] == NoOab <==> !Truthy(m.oab) || m.oab.value == NoOab
    ensures forall i :: 0 <= i < 3 ==> (r[i] == "" <==> !Truthy([m.nome, m.cargo, m.funcao][i]))
  {
    [OrElse(m.nome, ""), OrElse(m.cargo, ""), OrElse(m.funcao, ""), OrElse(m.oab, NoOab)]
  }

  function WitnessCells(w: WitnessRow): (r: seq<string>)
    ensures |r| == 2
    ensures (r[0] == "" <==> !Truthy(w.nome)) && (r[1] == "" <==> !Truthy(w.cpf))
  {
    [OrElse(w.nome, ""), OrElse(w.cpf, "")]
  }

  /** `membros.map(row).join('')`. */
  function MembersTable(ms: seq<MemberRow>): string {
    if ms == [] then "" else TableRow(MemberCells(ms[0])) + MembersTable(ms[1..])
  }

  /** `testemunhas.map(row).join('')`. */
  function WitnessesTable(ws: seq<WitnessRow>): string {
    if ws == [] then "" else TableRow(WitnessCells(ws[0])) + WitnessesTable(ws[1..])
  }

  /** The rows follow the stored order: the table of two lists is the first's rows, then the second's. */
  lemma {:induction false} MembersTableConcat(a: seq<MemberRow>, b: seq<MemberRow>)
    ensures MembersTable(a + b) == MembersTable(a) + MembersTable(b)
  {
    if a == [] {
      assert a + b == b;
    } else {
      assert (a + b)[1..] == a[1..] + b;
      MembersTableConcat(a[1..], b);
      assert (a + b)[0] == a[0];
    }
  }

  lemma {:induction false} WitnessesTableConcat(a: seq<WitnessRow>, b: seq<WitnessRow>)
    ensures WitnessesTable(a + b) == WitnessesTable(a) + WitnessesTable(b)
  {
    if a == [] {
      assert a + b == b;
    } else {
      assert (a + b)[1..] == a[1..] + b;
      WitnessesTableConcat(a[1..], b);
      assert (a + b)[0] == a[0];
    }
  }

  // --------------------------------------------------------------- president

  /** `membros.find(m => m.funcao_comissao === 'Presidente')`, as a position. */
  function FindPresident(ms: seq<MemberRow>): (r: Option<nat>)
    ensures r.Some? ==> r.value < |ms| && ms[r.value].funcao == Some(PresidentRole)
    ensures r.Some? ==> forall j :: 0 <= j < r.value ==> ms[j].funcao != Some(PresidentRole)
    ensures r.None? ==> forall j :: 0 <= j < |ms| ==> ms[j].funcao != Some(PresidentRole)
  {
    if ms == [] then None
    else if ms[0].funcao == Some(PresidentRole) then Some(0)
    else match FindPresident(ms[1..])
      case None => None
      case Some(k) => Some(k + 1)
  }

  /** `presidente?.nome || membros[0]?.nome || 'N/A'`. */
  function PresidentName(ms: seq<MemberRow>): (r: string)
    ensures r == NotAvailable || exists i :: 0 <= i < |ms| && ms[i].nome == Some(r) && r != ""
  {
    var p := FindPresident(ms);
    if p.Some? && Truthy(ms[p.value].nome) then ms[p.value].nome.value
    else if |ms| > 0 && Truthy(ms[0].nome) then ms[0].nome.value
    else NotAvailable
  }

  /** The first member listed as president gives the name, when it has one. */
  lemma PresidentFirst(ms: seq<MemberRow>, i: int)
    requires 0 <= i < |ms| && ms[i].funcao == Some(PresidentRole) && Truthy(ms[i].nome)
    requires forall j :: 0 <= j < i ==> ms[j].funcao != Some(PresidentRole)
    ensures PresidentName(ms) == ms[i].nome.value
  {
    assert FindPresident(ms) == Some(i);
  }

  /**
   * When there is no president, or the first one listed has no name, the first member's name
   * stands in (even if a later president has one), and "N/A" without that either.
   */
  lemma PresidentFallback(ms: seq<MemberRow>)
    requires FindPresident(ms).None? || !Truthy(ms[FindPresident(ms).value].nome)
    ensures |ms| > 0 && Truthy(ms[0].nome) ==> PresidentName(ms) == ms[0].nome.value
    ensures (|ms| == 0 || !Truthy(ms[0].nome)) ==> PresidentName(ms) == NotAvailable
  {
  }

  // ------------------------------------------------------------- the handler

  /** The `templateData` object of the term. */
  datatype InquiryData = InquiryData(
    numeroSindicancia: string,
    nomeInstituidor: string,
    cpfInstituidor: string,
    presidenteNome: string,
    dataAtual: string,
    membrosTable: string,
    testemunhasTable: string)

  function BuildData(row: InquiryRow, today: string): InquiryData {
    InquiryData(
      OrElse(row.numero, ""),
      OrElse(row.nomeInstituidor, ""),
      OrElse(row.cpfInstituidor, ""),
      PresidentName(row.members),
      today,
      MembersTable(row.members),
      WitnessesTable(row.witnesses))
  }

  /** `Object.entries(templateData)`, in declaration order. */
  function Entries(d: InquiryData): (r: seq<Entry>)
    ensures |r| == 7
  {
    [Entry("numero_sindicancia", Some(d.numeroSindicancia)),
     Entry("nome_instituidor", Some(d.nomeInstituidor)),
     Entry("cpf_instituidor", Some(d.cpfInstituidor)),
     Entry("presidente_nome", Some(d.presidenteNome)),
     Entry("data_atual", Some(d.dataAtual)),
     Entry("membros_table", Some(d.membrosTable)),
     Entry("testemunhas_table", Some(d.testemunhasTable))]
  }

  /** The handler, with the term template, the store's answer and today's formatted date as parameters. */
  function GenerateInquiry(req: InquiryRequest, env: Env, termo: string, fetch: InquiryFetch, today: string): (r: Response)
    ensures r.status == 200 <==> r.body.Html?
    ensures r.status != 200 ==> r.body.JsonError?
    ensures req.Unreadable? ==> r == Response(500, JsonError(req.error))
    ensures req.InquiryBody? && !Truthy(req.processId) ==> r == Response(400, JsonError(MissingIdMessage))
    ensures req.InquiryBody? && Truthy(req.processId) && !Configured(env) ==> r == Response(500, JsonError(ConfigMessage))
    ensures req.InquiryBody? && Truthy(req.processId) && Configured(env) && !fetch.Fetched? ==>
              r == Response(404, JsonError(NotFoundMessage))
    ensures req.InquiryBody? && Truthy(req.processId) && Configured(env) && fetch.Fetched? ==>
              r == Response(200, Html(FillSpec(termo, Entries(BuildData(fetch.row, today)))))
  {
    match req
    case Unreadable(e) => Response(500, JsonError(e))
    case InquiryBody(process) =>
      if !Truthy(process) then Response(400, JsonError(MissingIdMessage))
      else if !Configured(env) then Response(500, JsonError(ConfigMessage))
      else if !fetch.Fetched? then Response(404, JsonError(NotFoundMessage))
      else Response(200, Html(FillSpec(termo, Entries(BuildData(fetch.row, today)))))
  }

  // ------------------------------------------------------- the filled term

  lemma {:induction false} BraceSafeConcat(a: string, b: string)
    requires BraceSafe(a) && BraceSafe(b)
    ensures BraceSafe(a + b)
  {
    var s := a + b;
    forall i | 0 <= i < |s| && s[i] == '{' ensures i + 1 < |s| && s[i + 1] != '{' {
      if i < |a| {
        assert s[i] == a[i];
        assert s[i + 1] == a[i + 1];
      } else {
        assert s[i] == b[i - |a|];
        assert s[i + 1] == b[i + 1 - |a|];
      }
    }
  }

  lemma FrameSafe()
    ensures BraceSafe(RowOpen) && BraceSafe(CellOpen) && BraceSafe(CellClose) && BraceSafe(RowClose)
  {
  }

  /** Cells that start no `{{` make rows that start none. */
  lemma {:induction false} CellsSafe(cells: seq<string>)
    requires forall i :: 0 <= i < |cells| ==> BraceSafe(cells[i])
    ensures BraceSafe(Cells(cells))
  {
    if cells != [] {
      FrameSafe();
      CellsSafe(cells[1..]);
      BraceSafeConcat(CellOpen, cells[0]);
      BraceSafeConcat(CellOpen + cells[0], CellClose);
      BraceSafeConcat(CellOpen + cells[0] + CellClose, Cells(cells[1..]));
    }
  }

  lemma RowSafe(cells: seq<string>)
    requires forall i :: 0 <= i < |cells| ==> BraceSafe(cells[i])
    ensures BraceSafe(TableRow(cells))
  {
    FrameSafe();
    CellsSafe(cells);
    BraceSafeConcat(RowOpen, Cells(cells));
    BraceSafeConcat(RowOpen + Cells(cells), RowClose);
  }

  /** The stored text of an inquiry never starts a `{{`. */
  predicate RowSafeText(row: InquiryRow) {
    && (forall i :: 0 <= i < |row.members| ==> forall j :: 0 <= j < 4 ==> BraceSafe(MemberCells(row.members[i])[j]))
    && (forall i :: 0 <= i < |row.witnesses| ==> forall j :: 0 <= j < 2 ==> BraceSafe(WitnessCells(row.witnesses[i])[j]))
    && BraceSafe(OrElse(row.numero, "")) && BraceSafe(OrElse(row.nomeInstituidor, ""))
    && BraceSafe(OrElse(row.cpfInstituidor, ""))
  }

  lemma {:induction false} MembersTableSafe(ms: seq<MemberRow>)
    requires forall i :: 0 <= i < |ms| ==> forall j :: 0 <= j < 4 ==> BraceSafe(MemberCells(ms[i])[j])
    ensures BraceSafe(MembersTable(ms))
  {
    if ms != [] {
      MembersTableSafe(ms[1..]);
      RowSafe(MemberCells(ms[0]));
      BraceSafeConcat(TableRow(MemberCells(ms[0])), MembersTable(ms[1..]));
    }
  }

  lemma {:induction false} WitnessesTableSafe(ws: seq<WitnessRow>)
    requires forall i :: 0 <= i < |ws| ==> forall j :: 0 <= j < 2 ==> BraceSafe(WitnessCells(ws[i])[j])
    ensures BraceSafe(WitnessesTable(ws))
  {
    if ws != [] {
      WitnessesTableSafe(ws[1..]);
      RowSafe(WitnessCells(ws[0]));
      BraceSafeConcat(TableRow(WitnessCells(ws[0])), WitnessesTable(ws[1..]));
    }
  }

  lemma EntriesKeys(d: InquiryData)
    ensures forall i :: 0 <= i < |Entries(d)| ==> KeyChars(Entries(d)[i].key)
  {
    HeaderKeys();
    TableKeys();
  }

  lemma HeaderKeys()
    ensures KeyChars("numero_sindicancia") && KeyChars("nome_instituidor") && KeyChars("cpf_instituidor")
    ensures KeyChars("presidente_nome")
  {
  }

  lemma TableKeys()
    ensures KeyChars("data_atual") && KeyChars("membros_table") && KeyChars("testemunhas_table")
  {
  }

  /**
   * The generated term, for a template of brace-safe text and placeholders and stored text that
   * starts no `{{`: every placeholder of the seven keys shows its value (each repetition too).
   */
  lemma InquiryPage(ps: seq<Piece>, row: InquiryRow, today: string)
    requires WellFormed(ps) && RowSafeText(row) && BraceSafe(today)
    ensures FillSpec(Render(ps), Entries(BuildData(row, today))) == Render(Instantiate(ps, Entries(BuildData(row, today))))
  {
    var d := BuildData(row, today);
    MembersTableSafe(row.members);
    WitnessesTableSafe(row.witnesses);
    var p := PresidentName(row.members);
    if p != NotAvailable {
      var i :| 0 <= i < |row.members| && row.members[i].nome == Some(p) && p != "";
      assert MemberCells(row.members[i])[0] == p;
    }
    EntriesKeys(d);
    FillRendered(ps, Entries(d));
  }
}

/**
 * Rules of the client data layer (client/lib/api.ts): the classification and status
 * normalisers, the employee-history filter, the legal-opinion extraction from a stored
 * resolution, and the occurrence-number gate of `updateProcess`.
 */
module Api {
  import opened Wrappers
  import opened Text

  // ------------------------------------------------------------ classification

  const Leve := "Leve"
  const Media := "Média"
  const Grave := "Grave"
  const Gravissima := "Gravíssima"

  /** The text the normalisers search: underscores as spaces, trimmed, accents dropped, lower case. */
  function Searchable(raw: Option<string>, default: string): string {
    Fold(Trim(ReplaceChar(raw.GetOr(default), '_', ' ')))
  }

  /** `normalizeClassificacao`: the four severity tiers, "gravissima" tested before "grave". */
  function NormalizeClassificacao(raw: Option<string>): (r: string)
    ensures r == Leve || r == Media || r == Grave || r == Gravissima
  {
    var base := Searchable(raw, "Leve");
    if Contains(base, "gravissima") then Gravissima
    else if Contains(base, "grave") then Grave
    else if Contains(base, "media") then Media
    else Leve
  }

  /** Which tier a searchable text selects, stated as an if-and-only-if for each tier. */
  lemma ClassificacaoTiers(raw: Option<string>)
    ensures var base := Searchable(raw, "Leve");
      && (NormalizeClassificacao(raw) == Gravissima <==> Contains(base, "gravissima"))
      && (NormalizeClassificacao(raw) == Grave <==> !Contains(base, "gravissima") && Contains(base, "grave"))
      && (NormalizeClassificacao(raw) == Media <==>
            !Contains(base, "gravissima") && !Contains(base, "grave") && Contains(base, "media"))
  {
  }

  /** For a string with no underscore and no surrounding whitespace, the searchable text is its fold. */
  lemma SearchableOfClean(s: string, default: string, folded: string)
    requires '_' !in s
    requires s == [] || (!IsWhitespace(s[0]) && !IsWhitespace(s[|s| - 1]))
    requires Fold(s) == folded
    ensures Searchable(Some(s), default) == folded
  {
    ReplaceCharAbsent(s, '_', ' ');
    TrimOfTrimmed(s);
  }

  // The fold and the searchable text of each label, one literal per lemma.
  lemma FoldLeve() ensures Fold(Leve) == "leve"
  {
    assert forall i :: 0 <= i < |Leve| ==> !IsCombiningMark(Leve[i]);
    StripMarksNone(Leve);
  }

  lemma FoldMedia() ensures Fold(Media) == "media"
  {
    assert forall i :: 0 <= i < |Media| ==> !IsCombiningMark(Media[i]);
    StripMarksNone(Media);
  }

  lemma FoldGrave() ensures Fold(Grave) == "grave"
  {
    assert forall i :: 0 <= i < |Grave| ==> !IsCombiningMark(Grave[i]);
    StripMarksNone(Grave);
  }

  lemma FoldGravissima() ensures Fold(Gravissima) == "gravissima"
  {
    assert forall i :: 0 <= i < |Gravissima| ==> !IsCombiningMark(Gravissima[i]);
    StripMarksNone(Gravissima);
  }

  lemma SearchableLeve()
    ensures Searchable(Some(Leve), "Leve") == "leve"
    ensures Searchable(None, "Leve") == "leve"
  {
    FoldLeve();
    SearchableOfClean(Leve, "Leve", "leve");
  }

  lemma SearchableMedia() ensures Searchable(Some(Media), "Leve") == "media"
  {
    FoldMedia();
    SearchableOfClean(Media, "Leve", "media");
  }

  lemma SearchableGrave() ensures Searchable(Some(Grave), "Leve") == "grave"
  {
    FoldGrave();
    SearchableOfClean(Grave, "Leve", "grave");
  }

  lemma SearchableGravissima() ensures Searchable(Some(Gravissima), "Leve") == "gravissima"
  {
    FoldGravissima();
    SearchableOfClean(Gravissima, "Leve", "gravissima");
  }

  // Which keywords each folded label text contains.
  lemma KeywordsOfLeve()
    ensures !Contains("leve", "gravissima") && !Contains("leve", "grave") && !Contains("leve", "media")
  {
  }

  lemma KeywordsOfMedia()
    ensures !Contains("media", "gravissima") && !Contains("media", "grave") && Contains("media", "media")
  {
    NotContainsMissingChar("media", "gravissima", 'g');
    NotContainsMissingChar("media", "grave", 'g');
    ContainsAt("media", "media", 0);
  }

  lemma KeywordsOfGrave()
    ensures !Contains("grave", "gravissima") && Contains("grave", "grave")
  {
    ContainsAt("grave", "grave", 0);
  }

  lemma KeywordsOfGravissima()
    ensures Contains("gravissima", "gravissima")
  {
    ContainsAt("gravissima", "gravissima", 0);
  }

  // The tier chosen for each folded label text.
  lemma TierOfLeve(raw: Option<string>)
    requires Searchable(raw, "Leve") == "leve"
    ensures NormalizeClassificacao(raw) == Leve
  {
    KeywordsOfLeve();
    ClassificacaoTiers(raw);
  }

  lemma TierOfMedia(raw: Option<string>)
    requires Searchable(raw, "Leve") == "media"
    ensures NormalizeClassificacao(raw) == Media
  {
    KeywordsOfMedia();
    ClassificacaoTiers(raw);
  }

  lemma TierOfGrave(raw: Option<string>)
    requires Searchable(raw, "Leve") == "grave"
    ensures NormalizeClassificacao(raw) == Grave
  {
    KeywordsOfGrave();
    ClassificacaoTiers(raw);
  }

  lemma TierOfGravissima(raw: Option<string>)
    requires Searchable(raw, "Leve") == "gravissima"
    ensures NormalizeClassificacao(raw) == Gravissima
  {
    KeywordsOfGravissima();
    ClassificacaoTiers(raw);
  }

  /** A missing classification is the lightest tier. */
  lemma ClassificacaoMissingIsLeve()
    ensures NormalizeClassificacao(None) == Leve
  {
    SearchableLeve();
    TierOfLeve(None);
  }

  /** Each of the four labels is a fixed point of the normaliser. */
  lemma ClassificacaoLabelsAreFixed()
    ensures NormalizeClassificacao(Some(Leve)) == Leve
    ensures NormalizeClassificacao(Some(Media)) == Media
    ensures NormalizeClassificacao(Some(Grave)) == Grave
    ensures NormalizeClassificacao(Some(Gravissima)) == Gravissima
  {
    SearchableLeve();
    TierOfLeve(Some(Leve));
    SearchableMedia();
    TierOfMedia(Some(Media));
    SearchableGrave();
    TierOfGrave(Some(Grave));
    SearchableGravissima();
    TierOfGravissima(Some(Gravissima));
  }

  /** Normalising an already normalised classification changes nothing. */
  lemma ClassificacaoIdempotent(raw: Option<string>)
    ensures NormalizeClassificacao(Some(NormalizeClassificacao(raw))) == NormalizeClassificacao(raw)
  {
    ClassificacaoLabelsAreFixed();
  }

  /** Upper case without accents still reaches the heaviest tier, not "Grave". */
  lemma ClassificacaoUpperCase()
    ensures NormalizeClassificacao(Some("GRAVISSIMA")) == Gravissima
  {
    var g := "GRAVISSIMA";
    assert forall i :: 0 <= i < |g| ==> !IsCombiningMark(g[i]);
    StripMarksNone(g);
    SearchableOfClean(g, "Leve", "gravissima");
    TierOfGravissima(Some(g));
  }

  /** Without its accent, and capitalised, the middle tier is still recognised. */
  lemma ClassificacaoWithoutAccent()
    ensures NormalizeClassificacao(Some("Media")) == Media
  {
    var m := "Media";
    assert forall i :: 0 <= i < |m| ==> !IsCombiningMark(m[i]);
    StripMarksNone(m);
    SearchableOfClean(m, "Leve", "media");
    TierOfMedia(Some(m));
  }

  // -------------------------------------------------------------------- status

  const Sindicancia := "Sindicância"
  const AguardandoAssinatura := "Aguardando Assinatura"
  const Finalizado := "Finalizado"

  /** The stored status with underscores as spaces, trimmed (what `normalizeStatus` falls back to). */
  function StatusDisplay(raw: Option<string>): string {
    Trim(ReplaceChar(raw.GetOr("Em_Analise"), '_', ' '))
  }

  /** `normalizeStatus`: keyword containment, else the cleaned original. */
  function NormalizeStatus(raw: Option<string>): (r: string)
  {
    var v := StatusDisplay(raw);
    var base := Fold(v);
    if Contains(base, "analise") then Sindicancia
    else if Contains(base, "sindic") then Sindicancia
    else if Contains(base, "assinatura") then AguardandoAssinatura
    else if Contains(base, "final") then Finalizado
    else v
  }

  /** The mapping, case by case: keywords in priority order, then the cleaned original. */
  lemma StatusCases(raw: Option<string>)
    ensures var base := Searchable(raw, "Em_Analise");
      && (Contains(base, "analise") || Contains(base, "sindic") ==> NormalizeStatus(raw) == Sindicancia)
      && ((!Contains(base, "analise") && !Contains(base, "sindic") && Contains(base, "assinatura"))
            ==> NormalizeStatus(raw) == AguardandoAssinatura)
      && ((!Contains(base, "analise") && !Contains(base, "sindic") && !Contains(base, "assinatura")
            && Contains(base, "final")) ==> NormalizeStatus(raw) == Finalizado)
      && ((!Contains(base, "analise") && !Contains(base, "sindic") && !Contains(base, "assinatura")
            && !Contains(base, "final")) ==> NormalizeStatus(raw) == StatusDisplay(raw))
  {
  }

  /** The cleaned original has no underscore and no surrounding whitespace, so cleaning it again changes nothing. */
  lemma StatusDisplayIdempotent(raw: Option<string>)
    ensures '_' !in StatusDisplay(raw)
    ensures StatusDisplay(Some(StatusDisplay(raw))) == StatusDisplay(raw)
  {
    var replaced := ReplaceChar(raw.GetOr("Em_Analise"), '_', ' ');
    ReplaceCharRemoves(raw.GetOr("Em_Analise"), '_', ' ');
    TrimChars(replaced);
    var v := StatusDisplay(raw);
    ReplaceCharAbsent(v, '_', ' ');
    TrimIdempotent(replaced);
  }

  /** A label with no underscore and no surrounding whitespace is its own cleaned form. */
  lemma StatusDisplayOfClean(s: string)
    requires '_' !in s
    requires s == [] || (!IsWhitespace(s[0]) && !IsWhitespace(s[|s| - 1]))
    ensures StatusDisplay(Some(s)) == s
  {
    ReplaceCharAbsent(s, '_', ' ');
    TrimOfTrimmed(s);
  }

  lemma StatusDisplayMissing() ensures StatusDisplay(None) == "Em Analise"
  {
    assert ReplaceChar("Em_Analise", '_', ' ') == "Em Analise";
    TrimOfTrimmed("Em Analise");
  }

  lemma FoldEmAnalise() ensures Fold("Em Analise") == "em analise"
  {
    var e := "Em Analise";
    assert forall i :: 0 <= i < |e| ==> !IsCombiningMark(e[i]);
    StripMarksNone(e);
  }

  lemma FoldSindicancia() ensures Fold(Sindicancia) == "sindicancia"
  {
    assert forall i :: 0 <= i < |Sindicancia| ==> !IsCombiningMark(Sindicancia[i]);
    StripMarksNone(Sindicancia);
  }

  lemma FoldAguardandoAssinatura() ensures Fold(AguardandoAssinatura) == "aguardando assinatura"
  {
    assert forall i :: 0 <= i < |AguardandoAssinatura| ==> !IsCombiningMark(AguardandoAssinatura[i]);
    StripMarksNone(AguardandoAssinatura);
  }

  lemma FoldFinalizado() ensures Fold(Finalizado) == "finalizado"
  {
    assert forall i :: 0 <= i < |Finalizado| ==> !IsCombiningMark(Finalizado[i]);
    StripMarksNone(Finalizado);
  }

  // Which keywords each folded status text contains.
  lemma KeywordsOfEmAnalise()
    ensures Contains("em analise", "analise")
  {
    ContainsAt("em analise", "analise", 3);
  }

  lemma KeywordsOfSindicancia()
    ensures !Contains("sindicancia", "analise") && Contains("sindicancia", "sindic")
  {
    NotContainsMissingChar("sindicancia", "analise", 'l');
    ContainsAt("sindicancia", "sindic", 0);
  }

  lemma KeywordsOfAguardandoAssinatura()
    ensures var a := "aguardando assinatura";
      !Contains(a, "analise") && !Contains(a, "sindic") && Contains(a, "assinatura")
  {
    var a := "aguardando assinatura";
    NotContainsMissingChar(a, "analise", 'l');
    NotContainsMissingChar(a, "sindic", 'c');
    AssinaturaInAguardando();
  }

  lemma AssinaturaInAguardando()
    ensures Contains("aguardando assinatura", "assinatura")
  {
    var a := "aguardando assinatura";
    assert a[11..21] == "assinatura";
    ContainsAt(a, "assinatura", 11);
  }

  lemma KeywordsOfFinalizado()
    ensures var f := "finalizado";
      !Contains(f, "analise") && !Contains(f, "sindic") && !Contains(f, "assinatura") && Contains(f, "final")
  {
    var f := "finalizado";
    NotContainsMissingChar(f, "analise", 's');
    NotContainsMissingChar(f, "sindic", 's');
    NotContainsMissingChar(f, "assinatura", 's');
    ContainsAt(f, "final", 0);
  }

  // The status shown for each folded text that matters.
  lemma StatusOfEmAnalise(raw: Option<string>)
    requires Fold(StatusDisplay(raw)) == "em analise"
    ensures NormalizeStatus(raw) == Sindicancia
  {
    KeywordsOfEmAnalise();
    StatusCases(raw);
  }

  lemma StatusOfSindicancia(raw: Option<string>)
    requires Fold(StatusDisplay(raw)) == "sindicancia"
    ensures NormalizeStatus(raw) == Sindicancia
  {
    KeywordsOfSindicancia();
    StatusCases(raw);
  }

  lemma StatusOfAguardandoAssinatura(raw: Option<string>)
    requires Fold(StatusDisplay(raw)) == "aguardando assinatura"
    ensures NormalizeStatus(raw) == AguardandoAssinatura
  {
    KeywordsOfAguardandoAssinatura();
    StatusCases(raw);
  }

  lemma StatusOfFinalizado(raw: Option<string>)
    requires Fold(StatusDisplay(raw)) == "finalizado"
    ensures NormalizeStatus(raw) == Finalizado
  {
    KeywordsOfFinalizado();
    StatusCases(raw);
  }

  /** A process with no stored status is shown as under inquiry. */
  lemma StatusMissingIsSindicancia()
    ensures NormalizeStatus(None) == Sindicancia
  {
    StatusDisplayMissing();
    FoldEmAnalise();
    StatusOfEmAnalise(None);
  }

  lemma SindicanciaIsFixed() ensures NormalizeStatus(Some(Sindicancia)) == Sindicancia
  {
    StatusDisplayOfClean(Sindicancia);
    FoldSindicancia();
    StatusOfSindicancia(Some(Sindicancia));
  }

  lemma AguardandoAssinaturaIsFixed() ensures NormalizeStatus(Some(AguardandoAssinatura)) == AguardandoAssinatura
  {
    StatusDisplayOfClean(AguardandoAssinatura);
    FoldAguardandoAssinatura();
    StatusOfAguardandoAssinatura(Some(AguardandoAssinatura));
  }

  lemma FinalizadoIsFixed() ensures NormalizeStatus(Some(Finalizado)) == Finalizado
  {
    StatusDisplayOfClean(Finalizado);
    FoldFinalizado();
    StatusOfFinalizado(Some(Finalizado));
  }

  /** Each of the three labels is a fixed point of the normaliser. */
  lemma StatusLabelsAreFixed()
    ensures NormalizeStatus(Some(Sindicancia)) == Sindicancia
    ensures NormalizeStatus(Some(AguardandoAssinatura)) == AguardandoAssinatura
    ensures NormalizeStatus(Some(Finalizado)) == Finalizado
  {
    SindicanciaIsFixed();
    AguardandoAssinaturaIsFixed();
    FinalizadoIsFixed();
  }

  /** Normalising an already normalised status changes nothing. */
  lemma StatusIdempotent(raw: Option<string>)
    ensures NormalizeStatus(Some(NormalizeStatus(raw))) == NormalizeStatus(raw)
  {
    var r := NormalizeStatus(raw);
    if r == Sindicancia {
      SindicanciaIsFixed();
    } else if r == AguardandoAssinatura {
      AguardandoAssinaturaIsFixed();
    } else if r == Finalizado {
      FinalizadoIsFixed();
    } else {
      StatusCases(raw);
      StatusDisplayIdempotent(raw);
      StatusCases(Some(r));
    }
  }

  // ------------------------------------------------------------ legal opinion

  const ParecerMarker := "Parecer:"

  /**
   * `legalOpinionSaved` of `fetchProcessById`: the trimmed text after the first "Parecer:" of the
   * stored resolution, up to the next one; "" when the marker is absent. (`?.trim() || ""` adds
   * nothing: the piece exists whenever the marker does, and "" stays "".)
   */
  function LegalOpinionSaved(resolucao: Option<string>): (r: string)
  {
    var text := resolucao.GetOr("");
    if Contains(text, ParecerMarker) then
      SecondPieceSpec(text, ParecerMarker);
      Trim(SecondPiece(text, ParecerMarker).value)
    else ""
  }

  /** The saved opinion is "" without the marker, is always trimmed, and never holds the marker. */
  lemma LegalOpinionShape(resolucao: Option<string>)
    ensures !Contains(resolucao.GetOr(""), ParecerMarker) ==> LegalOpinionSaved(resolucao) == ""
    ensures Trim(LegalOpinionSaved(resolucao)) == LegalOpinionSaved(resolucao)
    ensures !Contains(LegalOpinionSaved(resolucao), ParecerMarker)
  {
    var text := resolucao.GetOr("");
    if Contains(text, ParecerMarker) {
      TrimmedSecondPiece(text, ParecerMarker);
    }
  }

  /**
   * The opinion is the text between the first "Parecer:" and the second, trimmed: whatever
   * follows a second marker is dropped.
   */
  lemma LegalOpinionBetweenMarkers(a: string, b: string, c: string)
    requires forall i :: 0 <= i < |a| ==> !OccursAt(a + ParecerMarker + b + ParecerMarker + c, ParecerMarker, i)
    requires forall j :: 0 <= j < |b| ==> !OccursAt(b + ParecerMarker + c, ParecerMarker, j)
    ensures LegalOpinionSaved(Some(a + ParecerMarker + b + ParecerMarker + c)) == Trim(b)
  {
    var s := a + ParecerMarker + b + ParecerMarker + c;
    assert s[|a|..|a| + |ParecerMarker|] == ParecerMarker;
    assert OccursAt(s, ParecerMarker, |a|);
    SecondPieceBetween(a, ParecerMarker, b, c);
  }

  /** With a single "Parecer:", the opinion is everything after it, trimmed. */
  lemma LegalOpinionAfterOnlyMarker(a: string, b: string)
    requires forall i :: 0 <= i < |a| ==> !OccursAt(a + ParecerMarker + b, ParecerMarker, i)
    requires !Contains(b, ParecerMarker)
    ensures LegalOpinionSaved(Some(a + ParecerMarker + b)) == Trim(b)
  {
    var s := a + ParecerMarker + b;
    assert s[|a|..|a| + |ParecerMarker|] == ParecerMarker;
    assert OccursAt(s, ParecerMarker, |a|);
    SecondPieceLast(a, ParecerMarker, b);
  }

  // ---------------------------------------------------------- employee history

  /** The columns of an employee row that the history match reads. */
  datatype EmployeeRow = EmployeeRow(id: string, matricula: Option<string>)

  /** A process row's three possible references to its employee. */
  datatype ProcessRef = ProcessRef(employeeId: Option<string>, employeeMatricula: Option<string>, employee: Option<string>)

  /** `employee_id ?? employee_matricula ?? employee`. */
  function Reference(p: ProcessRef): (r: Option<string>)
    ensures p.employeeId.Some? ==> r == p.employeeId
    ensures r.Some? ==> r == p.employeeId || r == p.employeeMatricula || r == p.employee
  {
    if p.employeeId.Some? then p.employeeId
    else if p.employeeMatricula.Some? then p.employeeMatricula
    else p.employee
  }

  /** `prEmp === empId || (!!empMat && prEmp === empMat)`. */
  predicate BelongsTo(e: EmployeeRow, p: ProcessRef) {
    Reference(p) == Some(e.id) || (Truthy(e.matricula) && Reference(p) == e.matricula)
  }

  /** The employee's history: the processes that belong to it, in stored order. */
  function History(e: EmployeeRow, ps: seq<ProcessRef>): (r: seq<ProcessRef>)
    ensures |r| <= |ps|
    ensures forall p :: p in r <==> p in ps && BelongsTo(e, p)
  {
    if ps == [] then []
    else if BelongsTo(e, ps[0]) then [ps[0]] + History(e, ps[1..])
    else History(e, ps[1..])
  }

  /**
   * A process with no reference belongs to nobody, and an empty reference is never matched
   * through an (empty) registration number, only through an empty UUID.
   */
  lemma BelongsToNeedsReference(e: EmployeeRow, p: ProcessRef)
    ensures Reference(p).None? ==> !BelongsTo(e, p)
    ensures Reference(p) == Some("") ==> (BelongsTo(e, p) <==> e.id == "")
  {
  }

  /** `employee_id` wins: a process naming another employee's UUID is not matched by registration number. */
  lemma EmployeeIdTakesPrecedence(e: EmployeeRow, p: ProcessRef)
    requires p.employeeId.Some? && p.employeeId != Some(e.id) && p.employeeId != e.matricula
    ensures !BelongsTo(e, p)
  {
  }

  /** Filtering again changes nothing, and the histories of one list split it by owner. */
  lemma {:induction false} HistoryIdempotent(e: EmployeeRow, ps: seq<ProcessRef>)
    ensures History(e, History(e, ps)) == History(e, ps)
  {
    if ps != [] {
      HistoryIdempotent(e, ps[1..]);
      if BelongsTo(e, ps[0]) {
        assert ([ps[0]] + History(e, ps[1..]))[1..] == History(e, ps[1..]);
      }
    }
  }

  // ------------------------------------------------------------ updateProcess

  /** A patch value: a string, or an explicit `null`. */
  datatype Field = Str(text: string) | Null

  /** The fields of a process update, by column name; an absent key is `undefined`. */
  type Patch = map<string, Field>

  const StatusKey := "status"
  const OccurrenceKey := "si_occurrence_number"
  const CamelOccurrenceKey := "siOccurrenceNumber"
  const OccurrenceRequired := "Para finalizar, preencha o Número da Ocorrência no SI (si_occurrence_number)."

  /** The string held under `k`, or `None` for an absent key or `null` (what `??` skips). */
  function StrAt(p: Patch, k: string): (r: Option<string>)
    ensures r.Some? <==> k in p && p[k].Str?
  {
    if k in p && p[k].Str? then Some(p[k].text) else None
  }

  /** The status being written, underscores as spaces; absent when it is not a string. */
  function PatchStatus(p: Patch): Option<string> {
    match StrAt(p, StatusKey)
    case Some(st) => Some(ReplaceChar(st, '_', ' '))
    case None => None
  }

  /** `si_occurrence_number ?? siOccurrenceNumber ?? null`. */
  function Occurrence(p: Patch): Option<string> {
    if StrAt(p, OccurrenceKey).Some? then StrAt(p, OccurrenceKey) else StrAt(p, CamelOccurrenceKey)
  }

  /** The update finalises the process but carries no usable occurrence number. */
  predicate FinalizesWithoutOccurrence(p: Patch) {
    PatchStatus(p) == Some(Finalizado) && (Occurrence(p).None? || IsBlank(Occurrence(p).value))
  }

  /** The camel-case number is moved when it is truthy and the snake-case one is not. */
  predicate MovesCamelOccurrence(p: Patch) {
    Truthy(StrAt(p, CamelOccurrenceKey)) && !Truthy(StrAt(p, OccurrenceKey))
  }

  datatype UpdateOutcome =
    | Rejected(message: string)
    | StoreFailed(payload: Patch, error: string)
    | Updated(payload: Patch)

  /**
   * `updateProcess`: refuses a finalisation without an occurrence number, then copies the patch,
   * moves `siOccurrenceNumber` to `si_occurrence_number` when only the former is set, and hands
   * the payload to the store, whose answer (`storeError`) is a parameter.
   */
  method UpdateProcess(patch: Patch, storeError: Option<string>) returns (out: UpdateOutcome)
    ensures out.Rejected? <==> FinalizesWithoutOccurrence(patch)
    ensures out.Rejected? ==> out.message == OccurrenceRequired
    ensures !out.Rejected? ==> (out.StoreFailed? <==> storeError.Some?)
    ensures out.StoreFailed? ==> out.error == storeError.value
    ensures !out.Rejected? ==> forall k :: k != OccurrenceKey && k != CamelOccurrenceKey ==>
              (k in out.payload <==> k in patch) && (k in patch ==> out.payload[k] == patch[k])
    ensures !out.Rejected? && MovesCamelOccurrence(patch) ==>
              OccurrenceKey in out.payload && out.payload[OccurrenceKey] == patch[CamelOccurrenceKey]
              && CamelOccurrenceKey !in out.payload
    ensures !out.Rejected? && !MovesCamelOccurrence(patch) ==>
              (OccurrenceKey in out.payload <==> OccurrenceKey in patch)
              && (OccurrenceKey in patch ==> out.payload[OccurrenceKey] == patch[OccurrenceKey])
              && (CamelOccurrenceKey in out.payload <==> CamelOccurrenceKey in patch)
              && (CamelOccurrenceKey in patch ==> out.payload[CamelOccurrenceKey] == patch[CamelOccurrenceKey])
    ensures !out.Rejected? && PatchStatus(patch) == Some(Finalizado) ==>
              StrAt(out.payload, OccurrenceKey).Some? && !IsBlank(StrAt(out.payload, OccurrenceKey).value)
  {
    var normalizedStatus := PatchStatus(patch);
    if normalizedStatus == Some(Finalizado) {
      var occ := Occurrence(patch);
      if occ.None? || IsBlank(occ.value) {
        return Rejected(OccurrenceRequired);
      }
    }
    var payload := patch;
    if Truthy(StrAt(payload, CamelOccurrenceKey)) && !Truthy(StrAt(payload, OccurrenceKey)) {
      payload := payload[OccurrenceKey := payload[CamelOccurrenceKey]];
      payload := payload - {CamelOccurrenceKey};
    }
    if storeError.Some? {
      return StoreFailed(payload, storeError.value);
    }
    return Updated(payload);
  }
}

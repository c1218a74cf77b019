// The legal review page (client/pages/juridico/RevisaoProcessoJuridico.tsx): the decision form
// state, the guard chain that finalises a process, the resolution text it stores, and the
// "send the report now" recipient list.

module Review {
  import opened Wrappers
  import opened Text
  import opened Api

  const ArquivarProcesso := "Arquivar Processo"
  const AplicarMedida := "Aplicar Medida Disciplinar"
  const Arquivado := "Arquivado"
  const MedidaPrefix := "Medida disciplinar: "
  const JustaCausa := "Recomendação: Justa Causa Direta"
  const OpinionDash := " — "
  const OpinionSeparator := " — Parecer: "

  const ResolucaoKey := "resolucao"
  const Email1Key := "notification_email_1"
  const Email2Key := "notification_email_2"
  const Email3Key := "notification_email_3"

  /** The resolution phrase chosen by the decision; any other decision is a direct just-cause recommendation. */
  function ResolutionPhrase(decisao: string, medida: string): (r: string)
    ensures decisao == ArquivarProcesso ==> r == Arquivado
    ensures decisao == AplicarMedida ==> r == MedidaPrefix + medida
    ensures decisao != ArquivarProcesso && decisao != AplicarMedida ==> r == JustaCausa
  {
    if decisao == ArquivarProcesso then Arquivado
    else if decisao == AplicarMedida then MedidaPrefix + medida
    else JustaCausa
  }

  /** The stored `resolucao`: the phrase, followed by the opinion when one was written. */
  function ResolutionText(phrase: string, parecer: string): (r: string)
    ensures parecer == "" ==> r == phrase
    ensures parecer != "" ==> r == phrase + OpinionDash + ParecerMarker + [' '] + parecer
  {
    if parecer != "" then
      assert OpinionSeparator == OpinionDash + ParecerMarker + [' '];
      phrase + OpinionSeparator + parecer
    else phrase
  }

  /** A notification column as written: the trimmed address, or `null` when blank. */
  function EmailField(e: string): (r: Field)
    ensures r.Null? <==> IsBlank(e)
    ensures r.Str? ==> r.text == Trim(e) && r.text != ""
  {
    if Trim(e) != "" then Str(Trim(e)) else Null
  }

  /** The update written on finalisation. */
  function FinalPatch(phrase: string, parecer: string, numero: string, e1: string, e2: string, e3: string): Patch
  {
    map[StatusKey := Str(Finalizado),
        ResolucaoKey := Str(ResolutionText(phrase, parecer)),
        OccurrenceKey := Str(Trim(numero)),
        Email1Key := EmailField(e1),
        Email2Key := EmailField(e2),
        Email3Key := EmailField(e3)]
  }

  /** The finalisation writes exactly these six columns. */
  lemma FinalPatchKeys(phrase: string, parecer: string, numero: string, e1: string, e2: string, e3: string)
    ensures FinalPatch(phrase, parecer, numero, e1, e2, e3).Keys
            == {StatusKey, ResolucaoKey, OccurrenceKey, Email1Key, Email2Key, Email3Key}
  {
  }

  /** What the update gate reads from the finalisation patch: the status, and the trimmed number. */
  lemma FinalPatchShape(phrase: string, parecer: string, numero: string, e1: string, e2: string, e3: string)
    ensures var p := FinalPatch(phrase, parecer, numero, e1, e2, e3);
      && PatchStatus(p) == Some(Finalizado)
      && Occurrence(p) == Some(Trim(numero))
      && !MovesCamelOccurrence(p)
  {
    var p := FinalPatch(phrase, parecer, numero, e1, e2, e3);
    FinalPatchKeys(phrase, parecer, numero, e1, e2, e3);
    assert p[StatusKey] == Str(Finalizado);
    ReplaceCharAbsent(Finalizado, '_', ' ');
    assert p[OccurrenceKey] == Str(Trim(numero));
  }

  /** The stored resolution is the phrase with the opinion. */
  lemma FinalPatchResolution(phrase: string, parecer: string, numero: string, e1: string, e2: string, e3: string)
    ensures StrAt(FinalPatch(phrase, parecer, numero, e1, e2, e3), ResolucaoKey) == Some(ResolutionText(phrase, parecer))
  {
    var p := FinalPatch(phrase, parecer, numero, e1, e2, e3);
    assert p[ResolucaoKey] == Str(ResolutionText(phrase, parecer));
  }

  /** The update gate never refuses the finalisation patch of a form that passed the occurrence check. */
  lemma FinalPatchPassesGate(phrase: string, parecer: string, numero: string, e1: string, e2: string, e3: string)
    requires !IsBlank(numero)
    ensures !FinalizesWithoutOccurrence(FinalPatch(phrase, parecer, numero, e1, e2, e3))
  {
    FinalPatchShape(phrase, parecer, numero, e1, e2, e3);
    TrimIdempotent(numero);
  }

  /** Literal facts about the fixed phrases, one per lemma. */
  lemma ArquivadoHasNoMarker() ensures !Contains(Arquivado, ParecerMarker)
  {
    NotContainsMissingChar(Arquivado, ParecerMarker, 'P');
  }

  lemma JustaCausaHasNoMarker() ensures !Contains(JustaCausa, ParecerMarker)
  {
    NotContainsMissingChar(JustaCausa, ParecerMarker, 'P');
  }

  lemma MedidaPrefixLacksHead() ensures ParecerMarker[0] !in MedidaPrefix
  {
  }

  lemma OpinionDashOutsideMarker()
    ensures forall i :: 0 <= i < |OpinionDash| ==> OpinionDash[i] !in ParecerMarker
    ensures ' ' !in ParecerMarker
  {
  }

  /** The phrase never holds the opinion marker, as long as the measure does not. */
  lemma PhraseHasNoMarker(decisao: string, medida: string)
    requires !Contains(medida, ParecerMarker)
    ensures !Contains(ResolutionPhrase(decisao, medida), ParecerMarker)
  {
    if decisao == ArquivarProcesso {
      ArquivadoHasNoMarker();
    } else if decisao == AplicarMedida {
      MedidaPrefixLacksHead();
      NotContainsAfterHeadless(MedidaPrefix, medida, ParecerMarker);
    } else {
      JustaCausaHasNoMarker();
    }
  }

  /**
   * Round trip with the reading side: the opinion stored in `resolucao` is read back by the
   * `Parecer:` split as the trimmed opinion, provided neither the measure nor the opinion holds
   * the marker themselves.
   */
  lemma LegalOpinionRoundTrip(decisao: string, medida: string, parecer: string)
    requires !Contains(medida, ParecerMarker) && !Contains(parecer, ParecerMarker)
    ensures LegalOpinionSaved(Some(ResolutionText(ResolutionPhrase(decisao, medida), parecer))) == Trim(parecer)
  {
    var phrase := ResolutionPhrase(decisao, medida);
    PhraseHasNoMarker(decisao, medida);
    if parecer != "" {
      OpinionDashOutsideMarker();
      NotContainsCons(' ', parecer, ParecerMarker);
      SecondPieceAfter(phrase, OpinionDash, ParecerMarker, [' '] + parecer);
      var text := phrase + OpinionDash + ParecerMarker + ([' '] + parecer);
      assert ResolutionText(phrase, parecer) == text;
      SecondPieceSpec(text, ParecerMarker);
      TrimLeadingWhitespace(' ', parecer);
    }
  }

  /** An update that passed the gate without the camel-case key hands the patch over unchanged. */
  lemma SamePatch(payload: Patch, patch: Patch)
    requires forall k :: k != OccurrenceKey && k != CamelOccurrenceKey ==>
               (k in payload <==> k in patch) && (k in patch ==> payload[k] == patch[k])
    requires OccurrenceKey in payload <==> OccurrenceKey in patch
    requires OccurrenceKey in patch ==> payload[OccurrenceKey] == patch[OccurrenceKey]
    requires CamelOccurrenceKey in payload <==> CamelOccurrenceKey in patch
    requires CamelOccurrenceKey in patch ==> payload[CamelOccurrenceKey] == patch[CamelOccurrenceKey]
    ensures payload == patch
  {
    assert payload.Keys == patch.Keys;
  }

  /** Why finalisation stopped, or how it ended. */
  datatype FinalizeOutcome =
    | MissingDecision
    | MissingMeasure
    | MissingOccurrence
    | SaveFailed(error: string)
    | Finalized(payload: Patch, reportSent: bool)

  /** What the "send the report now" button did. */
  datatype ManualSendOutcome =
    | NoRecipients
    | Requested(recipients: seq<string>, resolucao: string)

  /** The decision form's state; every field starts out empty. */
  class ReviewForm {
    var parecer: string
    var decisao: string
    var medida: string
    var numeroOcorrencia: string
    var email1: string
    var email2: string
    var email3: string

    constructor ()
      ensures parecer == "" && decisao == "" && medida == "" && numeroOcorrencia == ""
      ensures email1 == "" && email2 == "" && email3 == ""
    {
      parecer, decisao, medida, numeroOcorrencia := "", "", "", "";
      email1, email2, email3 := "", "", "";
    }

    /** The decision checks that precede the occurrence check. */
    predicate DecisionComplete()
      reads this
    {
      decisao != "" && !(decisao == AplicarMedida && medida == "")
    }

    /**
     * `aoFinalizar`: the decision, then the measure, then the occurrence number are checked, each
     * stopping before any update; then the patch goes through the update gate, whose store answer
     * is `storeError`; a failed report request (`reportError`) only changes a notice.
     */
    method Finalize(storeError: Option<string>, reportError: Option<string>) returns (out: FinalizeOutcome)
      ensures out == MissingDecision <==> decisao == ""
      ensures out == MissingMeasure <==> decisao == AplicarMedida && medida == ""
      ensures out == MissingOccurrence <==> DecisionComplete() && IsBlank(numeroOcorrencia)
      ensures out.SaveFailed? <==> DecisionComplete() && !IsBlank(numeroOcorrencia) && storeError.Some?
      ensures out.SaveFailed? ==> out.error == storeError.value
      ensures out.Finalized? <==> DecisionComplete() && !IsBlank(numeroOcorrencia) && storeError.None?
      ensures out.Finalized? ==>
                out.payload == FinalPatch(ResolutionPhrase(decisao, medida), parecer, numeroOcorrencia, email1, email2, email3)
                && out.reportSent == reportError.None?
    {
      if decisao == "" {
        return MissingDecision;
      }
      if decisao == AplicarMedida && medida == "" {
        return MissingMeasure;
      }
      var phrase := ResolutionPhrase(decisao, medida);
      if numeroOcorrencia == "" || Trim(numeroOcorrencia) == "" {
        return MissingOccurrence;
      }
      var patch := FinalPatch(phrase, parecer, numeroOcorrencia, email1, email2, email3);
      FinalPatchPassesGate(phrase, parecer, numeroOcorrencia, email1, email2, email3);
      FinalPatchShape(phrase, parecer, numeroOcorrencia, email1, email2, email3);
      var saved := UpdateProcess(patch, storeError);
      if !saved.Updated? {
        return SaveFailed(saved.error);
      }
      SamePatch(saved.payload, patch);
      return Finalized(patch, reportError.None?);
    }

    /** The manual send's recipients: the trimmed, non-blank addresses among the three, in order. */
    function ManualRecipients(): (r: seq<string>)
      reads this
      ensures |r| <= 3
      ensures forall s :: s in r ==> s != "" && Trim(s) == s
    {
      TrimmedNonBlank([Some(email1), Some(email2), Some(email3)])
    }

    /** "Enviar Relatório Agora": no request without an address; otherwise one carrying the current resolution. */
    method SendNow() returns (out: ManualSendOutcome)
      ensures out.NoRecipients? <==> ManualRecipients() == []
      ensures out.Requested? ==> out.recipients == ManualRecipients()
      ensures out.Requested? ==> out.resolucao == ResolutionText(ResolutionPhrase(decisao, medida), parecer)
    {
      var recipients := ManualRecipients();
      if |recipients| == 0 {
        return NoRecipients;
      }
      var current := ResolutionPhrase(decisao, medida);
      return Requested(recipients, ResolutionText(current, parecer));
    }
  }
}

// How the pieces meet: the two report senders pick the same recipients, the report sent after
// finalisation goes to the addresses typed on the review page, and the opening term names the
// president the inquiry form saved.

module Workflow {
  import opened Wrappers
  import opened Text
  import opened Http
  import opened Api
  import Review
  import ReportMail
  import SendReport
  import ProcessReportFunction
  import InquiryForm
  import GenerateInquiryDoc

  // -------------------------------------------------- the two report senders

  /** Both senders clean a body list the same way. */
  lemma BodyRecipientsAgree(f: ReportMail.RecipientField)
    ensures SendReport.BodyRecipients(f) == ProcessReportFunction.BodyRecipients(f)
  {
    if f.List? {
      ProcessReportFunction.PipelineIsCleaning(f.items);
    }
  }

  /**
   * Once both senders have passed their own configuration checks, they answer the same request
   * alike: the same mail to the same recipients, and the same response.
   */
  lemma ReportSendersAgree(verb: Option<string>, id: Option<string>, list: ReportMail.RecipientField, env: Env,
                           fetch: ReportMail.ReportFetch, sendError: Option<string>)
    requires SendReport.Precheck(verb, SendReport.ReportBody(id, None, list), env).None?
    requires ProcessReportFunction.Precheck(ProcessReportFunction.EdgeBody(id, list), env).None?
    ensures var a := SendReport.HandleReport(verb, SendReport.ReportBody(id, None, list), env, fetch, sendError);
            var b := ProcessReportFunction.HandleEdgeReport(ProcessReportFunction.EdgeBody(id, list), env, fetch, sendError);
            a.response == b.response && a.mail == b.mail
  {
    BodyRecipientsAgree(list);
  }

  // ------------------------------------------ finalisation and its report

  /**
   * The process row the report reads right after the finalisation patch was stored: each
   * notification column is the stored text, or nothing for `null` or an absent key.
   */
  function RowAfter(p: Patch, employeeName: Option<string>): ReportMail.ReportRow {
    ReportMail.ReportRow(employeeName, StrAt(p, Review.Email1Key), StrAt(p, Review.Email2Key), StrAt(p, Review.Email3Key))
  }

  lemma EmailColumnIsCleaned(e: string)
    ensures (match Review.EmailField(e) case Str(t) => Some(t) case Null => None) == Cleaned(Some(e))
  {
  }

  /**
   * The report requested right after finalisation carries no list, so it goes to the stored
   * columns; those are exactly the addresses the "send now" button of the same form would use.
   */
  lemma AutoReportMatchesManualSend(form: Review.ReviewForm, employeeName: Option<string>)
    ensures var p := Review.FinalPatch(Review.ResolutionPhrase(form.decisao, form.medida), form.parecer,
                                       form.numeroOcorrencia, form.email1, form.email2, form.email3);
            ReportMail.Resolve(SendReport.BodyRecipients(ReportMail.NoList), RowAfter(p, employeeName)) == form.ManualRecipients()
  {
    var e1, e2, e3 := form.email1, form.email2, form.email3;
    var phrase := Review.ResolutionPhrase(form.decisao, form.medida);
    var p := Review.FinalPatch(phrase, form.parecer, form.numeroOcorrencia, e1, e2, e3);
    Review.FinalPatchKeys(phrase, form.parecer, form.numeroOcorrencia, e1, e2, e3);
    assert p[Review.Email1Key] == Review.EmailField(e1);
    assert p[Review.Email2Key] == Review.EmailField(e2);
    assert p[Review.Email3Key] == Review.EmailField(e3);
    EmailColumnIsCleaned(e1);
    EmailColumnIsCleaned(e2);
    EmailColumnIsCleaned(e3);
    var row := RowAfter(p, employeeName);
    TrimmedNonBlankOfCleaned([Some(e1), Some(e2), Some(e3)], [row.email1, row.email2, row.email3]);
  }

  /** The list the "send now" button sends is used as it is, whatever the stored columns hold. */
  lemma ManualListUsedAsIs(recipients: seq<string>, row: ReportMail.ReportRow)
    requires recipients != [] && forall s :: s in recipients ==> s != "" && Trim(s) == s
    ensures ReportMail.Resolve(SendReport.BodyRecipients(ReportMail.List(seq(|recipients|, i requires 0 <= i < |recipients| => Some(recipients[i])))), row)
            == recipients
  {
    ReportMail.CleanListStable(recipients);
  }

  // ------------------------------------------- the saved roster and the term

  /** A saved committee member as the term generator reads it. */
  function StoredMember(s: InquiryForm.SavedMember): GenerateInquiryDoc.MemberRow {
    GenerateInquiryDoc.MemberRow(Some(s.nome), Some(s.cargo), Some(InquiryForm.RoleName(s.funcao)), s.oab)
  }

  function StoredRoster(ss: seq<InquiryForm.SavedMember>): (r: seq<GenerateInquiryDoc.MemberRow>)
    ensures |r| == |ss|
  {
    if ss == [] then [] else [StoredMember(ss[0])] + StoredRoster(ss[1..])
  }

  /** Only the president's role is stored under the name the generator looks for. */
  lemma PresidentRoleName(role: InquiryForm.Role)
    ensures InquiryForm.RoleName(role) == GenerateInquiryDoc.PresidentRole <==> role == InquiryForm.Presidente
  {
  }

  /** The saved rows list the roster's first president first among their presidents, with its trimmed name. */
  lemma {:induction false} SavedPresidentRow(ms: seq<InquiryForm.Member>)
    requires InquiryForm.RoleFilled(ms, InquiryForm.Presidente)
    ensures var rows := StoredRoster(InquiryForm.MembersToSave(ms));
            var p := GenerateInquiryDoc.FindPresident(rows);
            var k := InquiryForm.FirstWithRole(ms, InquiryForm.Presidente).value;
            p.Some? && rows[p.value].nome == Some(Trim(ms[k].nome))
  {
    var k := InquiryForm.FirstWithRole(ms, InquiryForm.Presidente).value;
    var rest := InquiryForm.MembersToSave(ms[1..]);
    PresidentRoleName(ms[0].funcao);
    if k == 0 {
      assert InquiryForm.MemberFilled(ms[0]);
      assert InquiryForm.MembersToSave(ms) == [InquiryForm.SaveMember(ms[0])] + rest;
    } else {
      assert InquiryForm.FirstWithRole(ms[1..], InquiryForm.Presidente) == Some(k - 1);
      assert ms[1..][k - 1] == ms[k];
      SavedPresidentRow(ms[1..]);
      var tail := StoredRoster(rest);
      if InquiryForm.MemberFilled(ms[0]) {
        var saved := [InquiryForm.SaveMember(ms[0])] + rest;
        assert InquiryForm.MembersToSave(ms) == saved;
        assert saved[1..] == rest;
        var rows := StoredRoster(saved);
        assert rows == [StoredMember(saved[0])] + tail;
        assert rows[1..] == tail;
        assert rows[0].funcao != Some(GenerateInquiryDoc.PresidentRole);
      } else {
        assert InquiryForm.MembersToSave(ms) == rest;
      }
    }
  }

  /** The opening term names the president whose name the inquiry form saved, trimmed. */
  lemma TermNamesSavedPresident(ms: seq<InquiryForm.Member>)
    requires InquiryForm.RoleFilled(ms, InquiryForm.Presidente)
    ensures GenerateInquiryDoc.PresidentName(StoredRoster(InquiryForm.MembersToSave(ms)))
            == Trim(ms[InquiryForm.FirstWithRole(ms, InquiryForm.Presidente).value].nome)
  {
    SavedPresidentRow(ms);
  }
}

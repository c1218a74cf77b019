// What the two report senders share (server/routes/send-report.ts and
// supabase/functions/send-process-report/index.ts): the process columns they read, the rule
// choosing the recipients, the subject line, and the fixed answers.

module ReportMail {
  import opened Wrappers
  import opened Text

  /** `recipients` in the request body: not an array, or an array whose falsy entries are `None`. */
  datatype RecipientField = NoList | List(items: seq<Option<string>>)

  /** The process row's columns the report reads (the employee name comes from the join). */
  datatype ReportRow = ReportRow(employeeName: Option<string>, email1: Option<string>, email2: Option<string>, email3: Option<string>)

  /** What the store answered to the single-row query. */
  datatype ReportFetch = QueryFailed(message: string) | Fetched(row: ReportRow)

  /** The e-mail handed to the mail service. */
  datatype Mail = Mail(to: seq<string>, subject: string)

  const SubjectPrefix := "Processo Disciplinar Finalizado: "
  const NoRecipientsMessage := "Processo finalizado, mas nenhum e-mail de notificação foi fornecido."
  const SentMessage := "Relatório enviado com sucesso!"

  /** The stored addresses, `notification_email_1` to `_3`, cleaned in that order. */
  function RowRecipients(row: ReportRow): seq<string> {
    TrimmedNonBlank([row.email1, row.email2, row.email3])
  }

  /** `fromBody.length > 0 ? fromBody : fromRow`. */
  function Resolve(fromBody: seq<string>, row: ReportRow): (r: seq<string>)
    ensures fromBody != [] ==> r == fromBody
    ensures fromBody == [] ==> r == RowRecipients(row)
  {
    if |fromBody| > 0 then fromBody else RowRecipients(row)
  }

  /** Without a list in the body, an address goes out exactly when a stored column holds it. */
  lemma RowRecipientsMembers(row: ReportRow, s: string)
    ensures s in RowRecipients(row) <==>
              exists e :: e in [row.email1, row.email2, row.email3] && e.Some? && !IsBlank(e.value) && Trim(e.value) == s
  {
    var xs := [row.email1, row.email2, row.email3];
    TrimmedNonBlankMembers(xs, s);
    if s in RowRecipients(row) {
      var i :| 0 <= i < |xs| && xs[i].Some? && !IsBlank(xs[i].value) && Trim(xs[i].value) == s;
      assert xs[i] in xs;
    }
  }

  /** `Processo Disciplinar Finalizado: ${nome_completo ?? ''}`. */
  function Subject(row: ReportRow): (r: string)
    ensures |r| == |SubjectPrefix| + |row.employeeName.GetOr("")|
  {
    SubjectPrefix + row.employeeName.GetOr("")
  }

  /** The subject starts with the fixed words and the employee's name can be read back after them. */
  lemma SubjectShape(row: ReportRow)
    ensures Subject(row)[..|SubjectPrefix|] == SubjectPrefix
    ensures Subject(row)[|SubjectPrefix|..] == row.employeeName.GetOr("")
  {
  }

  /** A list that is already clean goes through the cleaning unchanged. */
  lemma {:induction false} CleanListStable(xs: seq<string>)
    requires forall s :: s in xs ==> s != "" && Trim(s) == s
    ensures TrimmedNonBlank(seq(|xs|, i requires 0 <= i < |xs| => Some(xs[i]))) == xs
  {
    var ys := seq(|xs|, i requires 0 <= i < |xs| => Some(xs[i]));
    if xs != [] {
      var tail := seq(|xs[1..]|, i requires 0 <= i < |xs[1..]| => Some(xs[1..][i]));
      assert ys[1..] == tail;
      assert xs[0] in xs;
      forall s | s in xs[1..] ensures s != "" && Trim(s) == s {
        assert s in xs;
      }
      CleanListStable(xs[1..]);
      assert !IsBlank(xs[0]);
      assert [xs[0]] + xs[1..] == xs;
    }
  }
}

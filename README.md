# Disciplinary process rules

A Dafny model of the rules of Sistema Disciplinar, a system for running workplace disciplinary
processes. A manager opens a process against an employee. The legal team reviews it, records an
opinion and a decision, and finalises it with an occurrence number from the company's incident
system. Finalising can notify up to three e-mail addresses. An inquiry (*sindicância*) names a
committee and witnesses and prints an opening term. Warnings, suspensions and just-cause
dismissals are generated as HTML documents from templates, and can be mailed to recipients.

Each source file becomes one module. A module that shares logic with another has its own shared
module.

| module | file | what it holds |
|---|---|---|
| `Text`, `Wrappers`, `Http` | `text.dfy`, `wrappers.dfy`, `http.dfy` | JavaScript's `trim`, `includes`, `split`, global `replace`, the falsy test and `||`; `Option`; responses and the environment |
| `Api` | `api.dfy` | the classification and status normalisers, the `Parecer:` extraction, the employee-history match and the `updateProcess` gate (`client/lib/api.ts`) |
| `Review` | `review.dfy` | the legal review page: the decision form as a class, its finalisation guard chain, the resolution text and patch, and the "send the report now" list |
| `InquiryForm` | `inquiry_form.dfy` | the inquiry form as a class over its member and witness lists: add, remove, update, `validar`, and the rows written on save |
| `Template` | `template.dfy` | `fillTemplate`, written out twice with the same text in the two document generators |
| `NumberWords` | `number_words.dfy` | `numeroParaExtenso`, Portuguese number words from 0 to 999, decimal digits from 1000 up |
| `EdgeConfig` | `edge_config.dfy` | the store settings both generators check (`??` fallback) |
| `GenerateDocument` | `generate_document.dfy` | the disciplinary document generator: request checks, template data and its defaults, error pages |
| `GenerateInquiryDoc` | `generate_inquiry_doc.dfy` | the inquiry term generator: JSON errors, committee and witness tables, the president's name |
| `ServerEnv` | `server_env.dfy` | `sanitizeEnv` (the same text in both Express routes), the POST test, the `||` store-URL fallback |
| `ReportMail` | `report_mail.dfy` | what the two report senders share: recipient resolution and the subject |
| `SendReport` | `send_report.dfy` | the Express report route |
| `ProcessReportFunction` | `send_process_report.dfy` | the report edge function |
| `SendDocument` | `send_document.dfy` | the Express document-mailing route: names, ports, SMTP or Resend |
| `Workflow` | `workflow.dfy` | how the parts meet: the two senders agree, the finalisation report reaches the typed addresses, the term names the saved president |

The model does no I/O. Anything that comes from outside is a parameter:
- the store's answer to a query (a `Fetch` datatype: failed, no row, or the row);
- the mail service's refusal message (`sendError`);
- the store's answers to the inquiry form's three inserts (`StoreAnswers`);
- the environment (a `map`);
- today's date and the date a number of days ahead, already formatted (`Clock`).

Every handler is a function from its inputs to the response and to the mail it would hand over.

## Model

| member | source | states |
|---|---|---|
| Api.NormalizeClassificacao | client/lib/api.ts:26-33 | the result is always one of "Leve", "Média", "Grave", "Gravíssima" |
| Api.ClassificacaoTiers | client/lib/api.ts:27-31 | for each tier, an iff over which keywords the folded text contains; "gravissima" is tested before "grave", so a gravíssima text is never "Grave" |
| Api.ClassificacaoMissingIsLeve | client/lib/api.ts:27 | a missing classification gives "Leve" |
| Api.ClassificacaoUpperCase | client/lib/api.ts:27-29 | "GRAVISSIMA" (upper case, no accent) gives "Gravíssima" |
| Api.ClassificacaoWithoutAccent | client/lib/api.ts:27-31 | "Media" gives "Média" |
| Api.ClassificacaoLabelsAreFixed | client/lib/api.ts:26-33 | each of the four labels maps to itself |
| Api.ClassificacaoIdempotent | client/lib/api.ts:26-33 | normalising a normalised classification changes nothing |
| Api.StatusCases | client/lib/api.ts:131-139 | "analise" or "sindic" gives "Sindicância", then "assinatura" gives "Aguardando Assinatura", then "final" gives "Finalizado"; otherwise the trimmed text with underscores as spaces |
| Api.StatusMissingIsSindicancia | client/lib/api.ts:132-134 | a missing status ("Em_Analise") gives "Sindicância" |
| Api.StatusDisplayIdempotent | client/lib/api.ts:132 | the cleaned text has no underscore, and cleaning it again changes nothing |
| Api.StatusLabelsAreFixed | client/lib/api.ts:131-139 | each of the three labels maps to itself |
| Api.StatusIdempotent | client/lib/api.ts:131-139 | normalising a normalised status changes nothing, including the fall-through case |
| Api.LegalOpinionShape | client/lib/api.ts:205-208 | the saved opinion is "" without "Parecer:", is always trimmed, and never contains the marker |
| Api.LegalOpinionBetweenMarkers | client/lib/api.ts:205-208 | with two markers, the opinion is the trimmed text between the first and the second; what follows the second is dropped |
| Api.LegalOpinionAfterOnlyMarker | client/lib/api.ts:205-208 | with a single marker, the opinion is the trimmed text after it |
| Api.Reference | client/lib/api.ts:61 | `employee_id` wins when present; the reference is always one of the three columns |
| Api.History | client/lib/api.ts:57-63 | a process is in the history iff it is in the list and belongs to the employee; the history is never longer than the list |
| Api.BelongsToNeedsReference | client/lib/api.ts:61-62 | a process with no reference belongs to no one; an empty reference matches only an empty UUID, never through a registration number |
| Api.EmployeeIdTakesPrecedence | client/lib/api.ts:61-62 | a process naming some other UUID in `employee_id` is not matched |
| Api.HistoryIdempotent | client/lib/api.ts:57-63 | filtering a history again changes nothing |
| Api.UpdateProcess | client/lib/api.ts:247-262 | the update is refused iff it finalises without a non-blank occurrence number (nullish fallback to the camel-case key); the camel-case number moves only when the snake-case one is not truthy; every other key passes unchanged; the store's error is reported |
| Review.ResolutionPhrase | client/pages/juridico/RevisaoProcessoJuridico.tsx:51-56 | "Arquivado", "Medida disciplinar: " + measure, or "Recomendação: Justa Causa Direta" for any other decision |
| Review.ResolutionText | client/pages/juridico/RevisaoProcessoJuridico.tsx:65 | the phrase alone without an opinion; otherwise the phrase, " — ", "Parecer:", a space and the opinion |
| Review.EmailField | client/pages/juridico/RevisaoProcessoJuridico.tsx:67-69 | `null` iff the address is blank; otherwise the trimmed, non-empty address |
| Review.FinalPatchKeys | client/pages/juridico/RevisaoProcessoJuridico.tsx:63-70 | the finalisation patch writes exactly six columns |
| Review.FinalPatchShape | client/pages/juridico/RevisaoProcessoJuridico.tsx:63-66 | the gate reads status "Finalizado" and the trimmed occurrence number from the patch, and moves no camel-case key |
| Review.FinalPatchResolution | client/pages/juridico/RevisaoProcessoJuridico.tsx:65 | the stored resolution is the phrase with the opinion |
| Review.FinalPatchPassesGate | client/pages/juridico/RevisaoProcessoJuridico.tsx:59-72 | the update gate never refuses a patch whose occurrence number passed the page's own check |
| Review.PhraseHasNoMarker | client/pages/juridico/RevisaoProcessoJuridico.tsx:51-56 | no resolution phrase contains "Parecer:", provided the measure does not |
| Review.LegalOpinionRoundTrip | client/pages/juridico/RevisaoProcessoJuridico.tsx:65 | the opinion stored in the resolution is read back by the `Parecer:` extraction as the trimmed opinion |
| Review.ReviewForm.constructor | client/pages/juridico/RevisaoProcessoJuridico.tsx:24-30 | every form field starts empty |
| Review.ReviewForm.Finalize | client/pages/juridico/RevisaoProcessoJuridico.tsx:41-92 | the decision, then the measure, then the occurrence number are checked in order, each iff its condition holds; a save writes the finalisation patch; a failed report request does not stop finalisation |
| Review.ReviewForm.ManualRecipients | client/pages/juridico/RevisaoProcessoJuridico.tsx:259-262 | at most three addresses, each trimmed and non-empty |
| Review.ReviewForm.SendNow | client/pages/juridico/RevisaoProcessoJuridico.tsx:258-287 | no request iff no address remains; otherwise the request carries those addresses and the current resolution text |
| InquiryForm.EditMember | client/components/FormInstauracaoSindicancia.tsx:82 | only the named field of the member changes |
| InquiryForm.SetWitnessField | client/components/FormInstauracaoSindicancia.tsx:100 | only the named field of the witness changes |
| InquiryForm.RemoveAt | client/components/FormInstauracaoSindicancia.tsx:73 | the entry at the index is dropped and the others keep their order; an index out of range changes nothing |
| InquiryForm.FirstWithRole | client/components/FormInstauracaoSindicancia.tsx:130 | the first member holding the role, or none when no member holds it |
| InquiryForm.SaveMember | client/components/FormInstauracaoSindicancia.tsx:178-184 | the row has the trimmed name and position, the same role, and `null` for a blank OAB number |
| InquiryForm.MembersToSave | client/components/FormInstauracaoSindicancia.tsx:176-184 | every row written has a non-empty name and position |
| InquiryForm.MembersToSaveKeeps | client/components/FormInstauracaoSindicancia.tsx:176 | every member with a name and a position has its row written |
| InquiryForm.WitnessesToSave | client/components/FormInstauracaoSindicancia.tsx:194-200 | every witness row written has a non-empty name and CPF |
| InquiryForm.WitnessesToSaveKeeps | client/components/FormInstauracaoSindicancia.tsx:194 | every complete witness has its trimmed row written |
| InquiryForm.SaveWitness | client/components/FormInstauracaoSindicancia.tsx:196-199 | the witness row holds the trimmed name and CPF |
| InquiryForm.MembersToSaveFrom | client/components/FormInstauracaoSindicancia.tsx:176-184 | every committee row written is the row of some filled member, so no other row is written |
| InquiryForm.MembersToSaveInOrder | client/components/FormInstauracaoSindicancia.tsx:176-184 | the rows follow the roster's order: two stretches of the roster give the first's rows then the second's; one member gives its row iff it is filled |
| InquiryForm.WitnessesToSaveFrom | client/components/FormInstauracaoSindicancia.tsx:194-200 | every witness row written is the row of some complete witness |
| InquiryForm.WitnessesToSaveInOrder | client/components/FormInstauracaoSindicancia.tsx:194-200 | the witness rows follow the list's order; one witness gives its row iff it is complete |
| InquiryForm.SavePlan | client/components/FormInstauracaoSindicancia.tsx:161-206 | the header insert first, then the committee insert iff it has rows, then the witness insert iff it has rows |
| InquiryForm.CompleteRosterInsertsCommittee | client/components/FormInstauracaoSindicancia.tsx:176-190 | a roster with a filled president always has committee rows, so a valid save inserts them |
| InquiryForm.Form.constructor | client/components/FormInstauracaoSindicancia.tsx:41-55 | empty header; three blank members as Presidente, Secretário I and Secretário II; one blank witness |
| InquiryForm.Form.AddMember | client/components/FormInstauracaoSindicancia.tsx:57-62 | one blank "Membro" is appended; nothing else changes |
| InquiryForm.Form.RemoveMember | client/components/FormInstauracaoSindicancia.tsx:64-74 | nothing changes at three members or fewer; otherwise exactly the indexed member goes; never fewer than three |
| InquiryForm.Form.UpdateMember | client/components/FormInstauracaoSindicancia.tsx:76-84 | only the named field of the indexed member changes |
| InquiryForm.Form.AddWitness | client/components/FormInstauracaoSindicancia.tsx:86-88 | one blank witness is appended; nothing else changes |
| InquiryForm.Form.RemoveWitness | client/components/FormInstauracaoSindicancia.tsx:90-92 | exactly the indexed witness goes, with no minimum |
| InquiryForm.Form.UpdateWitness | client/components/FormInstauracaoSindicancia.tsx:94-102 | only the named field of the indexed witness changes |
| InquiryForm.Form.FirstUnfilledRole | client/components/FormInstauracaoSindicancia.tsx:127-138 | the first mandatory role whose first holder is missing or lacks a name or position; none iff all three are filled |
| InquiryForm.Form.Validate | client/components/FormInstauracaoSindicancia.tsx:104-154 | passes iff the form is complete; each report holds iff every earlier check passed and its own failed: the number, the founder's name, the founder's CPF, then the first unfilled mandatory role, then the witnesses |
| InquiryForm.Form.Save | client/components/FormInstauracaoSindicancia.tsx:156-228 | nothing is attempted iff validation fails; otherwise the inserts attempted are a prefix of the plan, every one before the last was accepted, the save is refused with the last one's error iff the store refused it, and it succeeds iff the store accepts the whole plan; a refused committee insert leaves the header stored |
| InquiryForm.CompleteSavesMandatoryRoles | client/components/FormInstauracaoSindicancia.tsx:176-184 | a filled mandatory role has a written row with that role |
| InquiryForm.ConsistentWitnessesAllSaved | client/components/FormInstauracaoSindicancia.tsx:194-200 | when validation passed, every started witness is written |
| InquiryForm.InitialRosterIncomplete | client/components/FormInstauracaoSindicancia.tsx:46-50 | the starting roster fills no mandatory role |
| Template.Token | supabase/edge_functions/generate-document/index.ts:217 | the placeholder is the key with two braces on each side |
| Template.FillTemplate | supabase/edge_functions/generate-document/index.ts:214-221 | the loop gives the entries' global replacements applied one after another, in entry order |
| Template.FillRendered | supabase/edge_functions/generate-document/index.ts:214-221 | on a page of brace-safe text and placeholders, every placeholder with an entry shows that entry's value (or "") at each occurrence, and the others stay verbatim |
| Template.InstantiateNothing | supabase/edge_functions/generate-document/index.ts:216 | with no entries, every placeholder stays |
| Template.PrefixKeyLeavesLongerToken | supabase/edge_functions/generate-document/index.ts:217-218 | replacing one key's placeholder never alters the placeholder of a different key, even one it is a prefix of |
| Template.ReplaceRendered | supabase/edge_functions/generate-document/index.ts:218 | one replacement on a rendered page is the page with that key's placeholders replaced |
| NumberWords.Extenso | supabase/edge_functions/generate-document/index.ts:223-243 | there is a text iff the number is not negative; from 1000 up it is the number's decimal digits |
| NumberWords.Words | supabase/edge_functions/generate-document/index.ts:228-240 | the words of a number below 1000 are non-empty and all name table entries |
| NumberWords.WordsRoundTrip | supabase/edge_functions/generate-document/index.ts:228-240 | reading the words back, by an independent definition, gives the number |
| NumberWords.WordsInjective | supabase/edge_functions/generate-document/index.ts:228-240 | two numbers below 1000 with the same words are equal |
| NumberWords.ExtensoSpellsWords | supabase/edge_functions/generate-document/index.ts:228-241 | below 1000 the text is the words spelled and joined by single spaces |
| NumberWords.ExtensoZero | supabase/edge_functions/generate-document/index.ts:228 | 0 is "zero" |
| NumberWords.ExtensoThree | supabase/edge_functions/generate-document/index.ts:229 | 3 is "três" |
| NumberWords.ExtensoTwentyOne | supabase/edge_functions/generate-document/index.ts:231-234 | 21 is "vinte e um" |
| NumberWords.ExtensoHundred | supabase/edge_functions/generate-document/index.ts:236-240 | 100 is "cento" |
| NumberWords.ExtensoNegative | supabase/edge_functions/generate-document/index.ts:229 | a negative number has no text (`undefined`) |
| EdgeConfig.ConfiguredIff | supabase/edge_functions/generate-document/index.ts:267-270 | configured iff the key is non-empty and either `SUPABASE_URL` is non-empty, or it is unset and the fallback is non-empty |
| EdgeConfig.EmptyUrlHidesFallback | supabase/edge_functions/generate-document/index.ts:267 | a `SUPABASE_URL` set to "" hides the fallback |
| GenerateDocument.ParseDocType | supabase/edge_functions/generate-document/index.ts:208-212 | a template exists exactly for the three names |
| GenerateDocument.ErrorPageRoundTrip | supabase/edge_functions/generate-document/index.ts:260 | every error page holds the `<h1>Error</h1>` heading and its message reads back from the frame |
| GenerateDocument.Generate | supabase/edge_functions/generate-document/index.ts:256-366 | always status 200 with HTML; each check in order (unreadable body, request, settings, query failure, no row) gives its error page; otherwise the chosen template filled with the entries of the process row |
| GenerateDocument.FailuresAreErrorPages | supabase/edge_functions/generate-document/index.ts:259-304 | every failure page holds the error heading and a readable message |
| GenerateDocument.DocDataDefaults | supabase/edge_functions/generate-document/index.ts:312-352 | missing employee fields, classification and dates read "N/A"; the period is the date alone or "date a end"; the clause and signature defaults; today's date |
| GenerateDocument.DocDataFallbacks | supabase/edge_functions/generate-document/index.ts:328-345 | the type name prefers the joined name, then `tipo_desvio`, then "N/A"; description and resolution fall back to their English-named columns |
| GenerateDocument.ReturnDateFromToday | supabase/edge_functions/generate-document/index.ts:322-325 | the return date is today plus the days, whatever the occurrence date; "N/A" when the days are not positive |
| GenerateDocument.SuspensionInWords | supabase/edge_functions/generate-document/index.ts:322-347 | the days in words below 1000; missing days read "0" and "zero"; negative days leave the placeholder empty |
| GenerateDocument.EntriesKeys | supabase/edge_functions/generate-document/index.ts:336-352 | no placeholder name holds a brace |
| GenerateDocument.GeneratedPage | supabase/edge_functions/generate-document/index.ts:354 | the generated page is the template with each of the fifteen placeholders replaced by its value |
| GenerateInquiryDoc.MemberCells | supabase/edge_functions/generate-sindicancia-doc/index.ts:252-257 | four cells; a missing name, position or role is "", a missing OAB number "—" |
| GenerateInquiryDoc.WitnessCells | supabase/edge_functions/generate-sindicancia-doc/index.ts:264-267 | two cells, "" when missing |
| GenerateInquiryDoc.MembersTableConcat | supabase/edge_functions/generate-sindicancia-doc/index.ts:250-259 | one row per member in stored order: the table of two lists is the first's rows then the second's |
| GenerateInquiryDoc.WitnessesTableConcat | supabase/edge_functions/generate-sindicancia-doc/index.ts:262-269 | the same for witnesses |
| GenerateInquiryDoc.FindPresident | supabase/edge_functions/generate-sindicancia-doc/index.ts:272 | the first member whose role is "Presidente", or none |
| GenerateInquiryDoc.PresidentName | supabase/edge_functions/generate-sindicancia-doc/index.ts:273 | "N/A" or some member's non-empty name |
| GenerateInquiryDoc.PresidentFirst | supabase/edge_functions/generate-sindicancia-doc/index.ts:272-273 | the first president's name, when it has one |
| GenerateInquiryDoc.PresidentFallback | supabase/edge_functions/generate-sindicancia-doc/index.ts:272-273 | when there is no president, or the first one listed has no name (even if a later one has), the first member's name, else "N/A" |
| GenerateInquiryDoc.GenerateInquiry | supabase/edge_functions/generate-sindicancia-doc/index.ts:204-297 | 400 JSON without an id, 500 JSON without settings, 404 JSON without a row, in that order; HTML iff status 200, and then the filled term |
| GenerateInquiryDoc.EntriesKeys | supabase/edge_functions/generate-sindicancia-doc/index.ts:275-283 | no placeholder name holds a brace |
| GenerateInquiryDoc.InquiryPage | supabase/edge_functions/generate-sindicancia-doc/index.ts:275-285 | the term is the template with each of the seven placeholders replaced by its value at every occurrence |
| ServerEnv.SanitizeEnv | server/routes/send-report.ts:4-9 | absent iff unset, empty, or empty or "undefined"/"null" in any case after trimming and unquoting; otherwise that non-empty value |
| ServerEnv.StripQuotes | server/routes/send-report.ts:6 | the result is the text between an optional leading quote and an optional trailing quote (at most two characters shorter) |
| ServerEnv.StripQuotesRemovesOnlyQuotes | server/routes/send-report.ts:6 | only quotes are removed, only at the ends, and the text is the removed prefix, the result and the removed suffix; a text not starting or ending with a quote is kept |
| ServerEnv.StripQuotesWrapped | server/routes/send-report.ts:6 | one pair of quotes around a value is removed |
| ServerEnv.PlainValueKept | server/routes/send-report.ts:4-9 | a value with nothing to clean comes through unchanged |
| ServerEnv.QuotedValueUnwrapped | server/routes/send-report.ts:6 | a quoted value with a space before it comes through without the space and the quotes |
| ServerEnv.UndefinedDropped | server/routes/send-report.ts:7 | "undefined" counts as unset |
| ServerEnv.UpperNullDropped | server/routes/send-report.ts:7 | "NULL" counts as unset |
| ServerEnv.QuotedNullDropped | server/routes/send-report.ts:6-7 | "'null'" counts as unset |
| ServerEnv.EmptyUrlFallsBack | server/routes/send-report.ts:38 | an empty `SUPABASE_URL` gives way to the fallback variable |
| ReportMail.Resolve | server/routes/send-report.ts:64 | a non-empty body list is used as it is; otherwise the stored columns |
| ReportMail.RowRecipientsMembers | server/routes/send-report.ts:58-62 | an address is taken from the columns iff some column trims to it and is not blank |
| ReportMail.Subject | server/routes/send-report.ts:67 | the length is the prefix's plus the name's |
| ReportMail.SubjectShape | server/routes/send-report.ts:67 | the subject is the fixed prefix followed by the employee name, or "" |
| ReportMail.CleanListStable | server/routes/send-report.ts:57 | an already clean list goes through the cleaning unchanged |
| SendReport.Precheck | server/routes/send-report.ts:26-42 | 405, then 400 without an id, then 500 without the Resend key, then 500 without the store settings; none iff all pass |
| SendReport.HandleReport | server/routes/send-report.ts:24-101 | a failed check or query is answered before any mail; a mail goes out iff the resolved list is non-empty, with that list and the subject; otherwise 200 with the informational message |
| SendReport.MailRecipientsClean | server/routes/send-report.ts:57-65 | every mail has at least one address, each trimmed and non-empty |
| SendReport.BodyListOverridesColumns | server/routes/send-report.ts:57-64 | a body list with one usable address replaces the stored columns completely |
| ProcessReportFunction.Truthies | supabase/functions/send-process-report/index.ts:64 | the kept entries are non-empty |
| ProcessReportFunction.TrimEach | supabase/functions/send-process-report/index.ts:64 | each entry is trimmed, in place |
| ProcessReportFunction.NonEmpty | supabase/functions/send-process-report/index.ts:64 | kept entries are non-empty entries of the list |
| ProcessReportFunction.PipelineIsCleaning | supabase/functions/send-process-report/index.ts:63-65 | the three stages together keep the trimmed non-blank entries in order |
| ProcessReportFunction.Precheck | supabase/functions/send-process-report/index.ts:16-40 | an unreadable body, then a blank key, then a key without `re_`, then missing settings, each 500; all before the lookup |
| ProcessReportFunction.HandleEdgeReport | supabase/functions/send-process-report/index.ts:10-119 | a failed check or query is answered before any mail; a mail goes out iff the resolved list is non-empty; otherwise 200 with the informational message |
| ProcessReportFunction.ForeignKeyRefused | supabase/functions/send-process-report/index.ts:25-30 | a key without the prefix stops the function whatever the store holds |
| SendDocument.DisplayName | server/routes/send-document.ts:11-15 | the three fixed labels, else "Documento Disciplinar" |
| SendDocument.FilenameShape | server/routes/send-document.ts:130 | the attachment name holds no whitespace and ends in ".html" |
| SendDocument.FilenameOfWords | server/routes/send-document.ts:130 | a name of words separated by single spaces gives the words joined by "_", then ".html" |
| SendDocument.WarningFilename | server/routes/send-document.ts:130 | the warning is attached as "Advertência_Disciplinar.html" |
| SendDocument.SuspensionFilename | server/routes/send-document.ts:130 | the suspension is attached as "Suspensão_Disciplinar.html" |
| SendDocument.DismissalFilename | server/routes/send-document.ts:130 | the dismissal notice is attached as "Aviso_de_Dispensa_por_Justa_Causa.html" |
| SendDocument.DefaultFilename | server/routes/send-document.ts:130 | any other type is attached as "Documento_Disciplinar.html" |
| SendDocument.DecimalRoundTrip | server/routes/send-document.ts:38 | a port written in decimal digits reads back as that number |
| SendDocument.SmtpPort | server/routes/send-document.ts:38 | an unset port variable gives 587; a set one gives the number its decimal digits denote, or none |
| SendDocument.PortOfDecimalText | server/routes/send-document.ts:38 | a port variable holding the decimal text of a number gives that number |
| SendDocument.PortFromVariable | server/routes/send-document.ts:38 | `SMTP_PORT=465` gives port 465 |
| SendDocument.ChooseTransport | server/routes/send-document.ts:114-153 | SMTP iff host, user, password and sender are all set, with those cleaned values and the port variable's port, secure iff the port is 465; otherwise Resend with its sender or the default; none iff neither |
| SendDocument.HandleDocument | server/routes/send-document.ts:17-191 | 405, then 400 for an empty field, then 200 for an empty list before any setting is read, then 500 for missing store settings, a failed lookup or no transport; a mail goes out iff every check passes, and carries the list verbatim, the subject and the attachment name |
| SendDocument.EmptyListBeforeSettings | server/routes/send-document.ts:33-49 | with an empty list the environment plays no part |
| Workflow.BodyRecipientsAgree | supabase/functions/send-process-report/index.ts:63-65 | both senders clean a body list the same way |
| Workflow.ReportSendersAgree | server/routes/send-report.ts:55-97 | past their own checks, the two senders give the same answer and the same mail |
| Workflow.EmailColumnIsCleaned | client/pages/juridico/RevisaoProcessoJuridico.tsx:67-69 | a stored notification column is the entry cleaned |
| Workflow.AutoReportMatchesManualSend | client/pages/juridico/RevisaoProcessoJuridico.tsx:63-80 | the report sent after finalisation goes to exactly the addresses the "send now" button would use |
| Workflow.ManualListUsedAsIs | server/routes/send-report.ts:57-64 | the manual send's clean list reaches the mail unchanged |
| Workflow.PresidentRoleName | client/components/FormInstauracaoSindicancia.tsx:15 | only the president's role is stored as "Presidente" |
| Workflow.SavedPresidentRow | client/components/FormInstauracaoSindicancia.tsx:176-184 | the saved rows' first president is the roster's first president, with the trimmed name |
| Workflow.TermNamesSavedPresident | supabase/edge_functions/generate-sindicancia-doc/index.ts:272-273 | the term names the president the form saved |

## Left out

- User interface: rendering, toasts, navigation, the new window that shows the term, and setting the form fields one by one. The forms' fields are plain class fields.
- Database queries, inserts and updates, `fetch` calls, nodemailer and the Resend SDK. Their answers are parameters.
- `Deno.serve`, CORS headers, the `OPTIONS` answer and Express response plumbing. A response is a status and a body.
- The `details` field of JSON errors, and the `id`/`info` fields of success answers.
- Exceptions thrown inside a handler are not modelled, apart from an unreadable request body. An example is a non-string truthy recipient entry, whose `trim` throws.
- Request fields are strings or absent. `String(...)` of a number or object sent as `process_id` is not modelled.
- Of the `overrides` object that the "send now" button sends, the model keeps only `resolucao`, as the resolution text of `Review.ReviewForm.SendNow`'s request. The other four fields are left out. The report route ignores the whole object.
- The HTML bodies of the e-mails and of the templates. Templates are parameters; only their placeholders matter.
- Dates and their formatting (`Intl.DateTimeFormat`, `toLocaleDateString`, `addDays`). Dates are already-formatted strings, and "today" and "today plus n days" come from a `Clock` parameter. An unparseable stored date, which makes the formatter throw, is not modelled.
- The process-list fields built around the normalisers, such as the opening dates and `medidaAplicada`.
- Unicode NFD for characters outside Latin-1. Accent stripping covers the precomposed Latin-1 letters and drops the combining marks U+0300–U+036F. Lower-casing covers ASCII letters only.
- `$` patterns in replacement values, and regular-expression metacharacters in keys. Keys are the fixed identifiers of the two generators, so the placeholder is matched literally.
- A `document_type` naming an inherited property of a JavaScript object, such as `toString`. Such a name counts as unknown here.
- `getAccessToken`, `authHeaders` and the token waiter (promises and timers), `createFetchWithTimeout` (abort timers), and the admin permission wrappers (thin HTTP calls).
- NumberWords.Extenso: only whole numbers. A fractional `suspension_days` would index past the tables in JavaScript.
- SendDocument.SmtpPort: only a string of decimal digits is read as a number. `Number` also accepts a sign, hexadecimal, exponents and surrounding spaces; any other value gives `None`, standing for `NaN`.
- ServerEnv.IsPost: compares after ASCII lower-casing. JavaScript's `toUpperCase` also turns "ſ" (U+017F) into "S", so "poſt" would pass there.
- InquiryForm.Form.UpdateMember: requires an index inside the list. JavaScript would create a new entry past the end.
- InquiryForm.Form.UpdateWitness: requires an index inside the list, for the same reason.
- Workflow.TermNamesSavedPresident: assumes the generator's `comissao_membros` join returns the rows in the order they were inserted. The query asks for no order, so with two filled presidents the printed term may name either.
- InquiryForm.Form.Save: the link columns (`process_id` in the header, `sindicancia_id` taken from the stored header in each row) are not carried. The loading flag, the toasts and the "saved" flag that enables generating the term are left out.
- GenerateDocument.ErrorMessage reads the message from the error page's fixed frame. The form's `/<p>(.*?)<\/p>/` match agrees with it only for messages without a newline or `</p>`.

# time4jail client core in Dafny

This project models the client-side logic of the time4jail browser
application. The application is a client for people documenting stalking
and harassment: they record incidents, upload evidence, generate
cease-and-desist messages and assemble police reports. The remote backend
stores everything. The model covers the deterministic text the client
builds from the records the backend returns, and the small validators,
normalisers and form states around it:

- the evidence summary, the incident summary (with its word-frequency
  pattern analysis) and the police report that joins them;
- the four cease-and-desist templates, the incident reference that fills
  their optional slot, the `sms:` link and the Google search URL, both
  percent-encoded as `encodeURIComponent` does (section 19.2.6 of
  ECMA-262, 2023 edition; section 2.1 of RFC 3986; the `sms:` form of
  section 2.2 of RFC 5724);
- the upload size check, the incident search, the evidence-kind mapping,
  the victim/survivor form normalisation and its load-back, the error
  texts of the department form, the department selection of the report
  dialog, and the settings-tone mapping;
- the state each form keeps, as a class whose methods are the page's
  handlers.

Layout, one module per source file plus shared helpers:

| file | models |
|---|---|
| `backend.dfy` | the records of `backend.d.ts` |
| `datetime.dfy` | `formatTimestamp` / `formatDateShort` as caller-supplied functions |
| `evidence_summary.dfy` | `generateEvidenceSummary.ts` |
| `incident_summary.dfy`, `incident_keywords.dfy` | `incidentSummary.ts` (report and pattern analysis) |
| `summaries.dfy` | the `END OF REPORT` trailer both summaries close with |
| `police_report.dfy` | `policeReport.ts` |
| `message_generator.dfy` | `messageGenerator.ts` |
| `incident_text.dfy` | `incidentText.ts` |
| `sms_link.dfy`, `uri_encoding.dfy` | `smsLink.ts` and `encodeURIComponent` |
| `google_search.dfy` | `googleSearch.ts` |
| `files.dfy` | `files.ts` |
| `incidents_page.dfy`, `evidence_record_page.dfy`, `victim_survivor_info_page.dfy`, `police_departments_page.dfy`, `submit_police_report_dialog.dfy`, `message_generator_page.dfy` | the six workflow pages |
| `text.dfy`, `decimal.dfy`, `sorting.dfy`, `sequences.dfy`, `wrappers.dfy` | JavaScript string operations, `toString`/`BigInt`, stable `Array.prototype.sort`, filters, `Option` |

Each generator is a method that appends its pieces as the source does.
Each method is proved equal to a specification function
(`GenerateEvidenceSummary` to `Summary`, and so on), and the lemmas
state the report's properties about that function. Pure source functions
are Dafny functions. Page state is a class; its handlers take the outcome
of the backend call (`saved`, `uploaded`, `outcome`) as a parameter and
ensure the page's state afterwards.

- Keywords with equal counts are listed in `Object.entries` order:
  array-index keys first, in ascending numeric order, then the other keys
  in the order first seen.
- An incident description is never replaced by a placeholder, even
  when it is empty; only evidence descriptions are.

## Model

| member | source | states |
|---|---|---|
| `EvidenceSummary.TypeLabel` | src/frontend/src/utils/generateEvidenceSummary.ts:6-24 | the label is never empty; `other(s)` prints `s`, or "Other" when `s` is empty |
| `EvidenceSummary.UrgentTonesShareHeaders` | src/frontend/src/utils/generateEvidenceSummary.ts:26-37 | `urgent` and `urgent-feminine` share the header and the timeline heading; plain, formal and urgent headers differ |
| `EvidenceSummary.OverviewPlural` | src/frontend/src/utils/generateEvidenceSummary.ts:39-58 | the overview names the count followed by "item", and the next character is "s" exactly when the count is not 1 |
| `EvidenceSummary.ClosingPresent` | src/frontend/src/utils/generateEvidenceSummary.ts:72-86 | the closing text is empty exactly for the plain tone |
| `EvidenceSummary.ClosingSectionPresent` | src/frontend/src/utils/generateEvidenceSummary.ts:130-136 | the SUMMARY section is added exactly when the closing text is non-empty, and then contains it |
| `EvidenceSummary.TimelineUnderline` | src/frontend/src/utils/generateEvidenceSummary.ts:112-113 | the timeline heading is underlined by exactly as many `=` as it has characters |
| `EvidenceSummary.DescriptionShown` | src/frontend/src/utils/generateEvidenceSummary.ts:120-125 | a blank description prints the placeholder; otherwise it prints whole up to 300 characters (300 included), or its first 300 characters and "..." |
| `EvidenceSummary.ChronologicalSorted` | src/frontend/src/utils/generateEvidenceSummary.ts:96 | the timeline order is a permutation of the input in non-decreasing timestamp order |
| `EvidenceSummary.ChronologicalStable` | src/frontend/src/utils/generateEvidenceSummary.ts:96 | items with equal timestamps keep their input order |
| `EvidenceSummary.ChronologicalEnds` | src/frontend/src/utils/generateEvidenceSummary.ts:98-99 | the sorted copy keeps every item, and its first and last items carry the smallest and largest timestamp |
| `EvidenceSummary.Summary` | src/frontend/src/utils/generateEvidenceSummary.ts:92-94 | an empty list gives exactly "No evidence to summarize." for every tone |
| `EvidenceSummary.EmptyIffNothingToSummarize` | src/frontend/src/utils/generateEvidenceSummary.ts:92-140 | only the empty list gives the "nothing to summarize" text; every other summary ends with "END OF REPORT\n" |
| `EvidenceSummary.SummaryLayout` | src/frontend/src/utils/generateEvidenceSummary.ts:98-116 | the summary holds "Total Evidence Items: n" for n items, the date range from the earliest to the latest date, and each item's entry numbered by its sorted position from 1 |
| `EvidenceSummary.AppendEntry` | src/frontend/src/utils/generateEvidenceSummary.ts:116-127 | the `forEach` callback appends exactly the entry of one item |
| `EvidenceSummary.WriteHeading` | src/frontend/src/utils/generateEvidenceSummary.ts:102-113 | the appends before the timeline build the preamble |
| `EvidenceSummary.WriteTimeline` | src/frontend/src/utils/generateEvidenceSummary.ts:115-138 | the loop appends the numbered entries in order, then the closing section when there is one, then the trailer |
| `EvidenceSummary.WriteClosing` | src/frontend/src/utils/generateEvidenceSummary.ts:130-138 | the SUMMARY heading, rule and closing text are appended exactly when the tone has a closing text, and the trailer always |
| `EvidenceSummary.GenerateEvidenceSummary` | src/frontend/src/utils/generateEvidenceSummary.ts:88-141 | the generator returns the specified summary |
| `IncidentSummary.EvidenceTotalAppend` | src/frontend/src/utils/incidentSummary.ts:14 | the evidence total of a concatenation is the sum of the totals |
| `IncidentSummary.EvidenceTotalCounts` | src/frontend/src/utils/incidentSummary.ts:14 | every incident's file count is within the total, and the total is 0 exactly when no incident has files |
| `IncidentSummary.HeadingLines` | src/frontend/src/utils/incidentSummary.ts:16-26 | the heading opens with the title and holds the count, date range and evidence total lines |
| `IncidentSummary.EvidenceCountShown` | src/frontend/src/utils/incidentSummary.ts:34-36 | the "Evidence:" line is present exactly when the incident has files, and then states their number |
| `IncidentSummary.DescriptionShown` | src/frontend/src/utils/incidentSummary.ts:37 | a description prints whole up to 200 characters (200 included), or its first 200 characters and "..."; there is no placeholder |
| `IncidentSummary.ChronologicalSorted` | src/frontend/src/utils/incidentSummary.ts:9 | the timeline order is a permutation of the input in non-decreasing timestamp order |
| `IncidentSummary.ChronologicalStable` | src/frontend/src/utils/incidentSummary.ts:9 | incidents with equal timestamps keep their input order |
| `IncidentSummary.ChronologicalEnds` | src/frontend/src/utils/incidentSummary.ts:11-12 | the sorted copy keeps every incident, and its first and last incidents carry the smallest and largest timestamp |
| `IncidentSummary.PatternSectionPresent` | src/frontend/src/utils/incidentSummary.ts:57-65 | the PATTERN ANALYSIS section is added exactly when there are keywords, with a line for each |
| `IncidentSummary.Summary` | src/frontend/src/utils/incidentSummary.ts:5-7 | an empty list gives exactly "No incidents to summarize." |
| `IncidentSummary.EmptyIffNothingToSummarize` | src/frontend/src/utils/incidentSummary.ts:5-69 | only the empty list gives that text; every other summary ends with "END OF REPORT\n" |
| `IncidentSummary.SummaryOpens` | src/frontend/src/utils/incidentSummary.ts:16 | a non-empty summary opens with "INCIDENT SUMMARY REPORT\n" |
| `IncidentSummary.SummaryFirst` | src/frontend/src/utils/incidentSummary.ts:4-16 | the summary is never empty and opens with `N` for the empty list, with `I` otherwise |
| `IncidentSummary.SummaryLayout` | src/frontend/src/utils/incidentSummary.ts:9-39 | the summary holds the count, the date range from earliest to latest, the total of all evidence ids, and each incident's entry numbered by its sorted position |
| `IncidentSummary.SummaryPatterns` | src/frontend/src/utils/incidentSummary.ts:41-65 | the pattern section is there exactly when some counted title word occurs more than once, and lists every keyword |
| `IncidentSummary.AppendEntry` | src/frontend/src/utils/incidentSummary.ts:28-39 | the `forEach` callback appends exactly the entry of one incident |
| `IncidentSummary.WriteHeading` | src/frontend/src/utils/incidentSummary.ts:16-26 | the appends before the timeline build the heading |
| `IncidentSummary.WriteTimeline` | src/frontend/src/utils/incidentSummary.ts:28-39 | the loop appends the numbered entries in sorted order |
| `IncidentSummary.WritePatterns` | src/frontend/src/utils/incidentSummary.ts:57-65 | the appends of the pattern section, one line per keyword |
| `IncidentSummary.GenerateIncidentSummary` | src/frontend/src/utils/incidentSummary.ts:4-70 | the generator returns the specified summary |
| `IncidentKeywords.LowerTitles` | src/frontend/src/utils/incidentSummary.ts:42 | one lower-cased title per incident, in input order |
| `IncidentKeywords.CountedWordsMembers` | src/frontend/src/utils/incidentSummary.ts:44-49 | only pieces longer than three characters are counted, and every such piece of every title is |
| `IncidentKeywords.TallyCounts` | src/frontend/src/utils/incidentSummary.ts:43-50 | the object has a key for each counted word and no other; its value is the number of occurrences; each key appears once |
| `IncidentKeywords.TallyKeyOrder` | src/frontend/src/utils/incidentSummary.ts:47 | keys are created in first-seen order |
| `IncidentKeywords.EnumerationPermutes` | src/frontend/src/utils/incidentSummary.ts:52 | `Object.entries` lists every key once |
| `IncidentKeywords.EnumerationIndicesFirst` | src/frontend/src/utils/incidentSummary.ts:52 | array-index keys come first in ascending value; other keys keep creation order |
| `IncidentKeywords.Tally` | src/frontend/src/utils/incidentSummary.ts:43-50 | the word-count object has no more keys than there are counted words |
| `IncidentKeywords.EnumerationOrder` | src/frontend/src/utils/incidentSummary.ts:52 | `Object.entries` yields exactly as many entries as there are keys |
| `IncidentKeywords.TopKeywords` | src/frontend/src/utils/incidentSummary.ts:52-55 | `slice(0, 5)` keeps at most five keywords |
| `IncidentKeywords.TopKeywordsSound` | src/frontend/src/utils/incidentSummary.ts:52-55 | at most five keywords, each a counted word with its exact count, which is greater than 1 |
| `IncidentKeywords.TopKeywordsOrdered` | src/frontend/src/utils/incidentSummary.ts:54 | keywords are in non-increasing count order |
| `IncidentKeywords.TopKeywordsComplete` | src/frontend/src/utils/incidentSummary.ts:52-55 | a repeated word left out means five keywords are listed, each at least as frequent |
| `IncidentKeywords.TopKeywordsPresent` | src/frontend/src/utils/incidentSummary.ts:52-57 | some keyword is listed exactly when some counted word repeats |
| `IncidentKeywords.TopKeywordsDistinct` | src/frontend/src/utils/incidentSummary.ts:52-55 | no word is listed twice |
| `IncidentKeywords.RankedTies` | src/frontend/src/utils/incidentSummary.ts:54 | keywords with equal counts keep enumeration order |
| `IncidentKeywords.CountPieces` | src/frontend/src/utils/incidentSummary.ts:45-49 | the inner loop over one title's pieces counts exactly its pieces longer than three characters |
| `IncidentKeywords.CountTitleWords` | src/frontend/src/utils/incidentSummary.ts:44-50 | the nested loops build the word-count object of all counted words, title after title |
| `IncidentKeywords.ExampleIncidentWords` | src/frontend/src/utils/incidentSummary.ts:42-49 | the three example titles give the counted words in order, without "me" and "he" |
| `IncidentKeywords.ExampleKeywords` | src/frontend/src/utils/incidentSummary.ts:42-55 | the three example titles give exactly `[("stalker", 2), ("followed", 2)]` |
| `PoliceReport.ContactsShownExactly` | src/frontend/src/utils/policeReport.ts:19-27 | the Address, Phone and Website details are each printed exactly when non-empty |
| `PoliceReport.ShownContactLines` | src/frontend/src/utils/policeReport.ts:19-27 | the printed detail lines are the three conditional appends, in order |
| `PoliceReport.DepartmentHeaderLayout` | src/frontend/src/utils/policeReport.ts:14-32 | the header opens with "POLICE REPORT SUBMISSION\n", its rule and "TO: name", and closes with the generation line and the 60-`=` rule |
| `PoliceReport.DepartmentHeaderContacts` | src/frontend/src/utils/policeReport.ts:19-27 | every printed detail is a line of the header |
| `PoliceReport.ReportSections` | src/frontend/src/utils/policeReport.ts:36-40 | header first, then the incident summary, then the break, then the evidence summary in the given tone at the end |
| `PoliceReport.NoDepartment` | src/frontend/src/utils/policeReport.ts:11-40 | with no department the report is exactly incident summary + "\n" + 60 `=` + "\n\n" + evidence summary |
| `PoliceReport.TitleIffDepartment` | src/frontend/src/utils/policeReport.ts:14-17 | the report opens with the submission title exactly when a department is given |
| `PoliceReport.EmptyReport` | src/frontend/src/utils/policeReport.ts:11-40 | nothing recorded and no department joins the two "nothing to summarize" texts |
| `PoliceReport.Report` | src/frontend/src/utils/policeReport.ts:5-43 | the report opens with the department header (empty without a department) and ends with the evidence summary in the given tone |
| `PoliceReport.WriteDepartmentHeader` | src/frontend/src/utils/policeReport.ts:15-32 | the appends build the department header |
| `PoliceReport.WriteContacts` | src/frontend/src/utils/policeReport.ts:19-27 | the three `if`s append the printed detail lines |
| `PoliceReport.GeneratePoliceReport` | src/frontend/src/utils/policeReport.ts:5-43 | the generator returns the specified report |
| `MessageGenerator.Unfilled` | src/frontend/src/utils/messageGenerator.ts:11 | with no reference (absent or empty) the message is the template with its slot removed |
| `MessageGenerator.EmptyReference` | src/frontend/src/utils/messageGenerator.ts:11 | an empty reference gives the same message as no reference |
| `MessageGenerator.FillFrame` | src/frontend/src/utils/messageGenerator.ts:5-59 | every message opens with its template's first line and opening, and ends with its closing |
| `MessageGenerator.SlotAtFixedPosition` | src/frontend/src/utils/messageGenerator.ts:11 | with and without a reference the messages differ only by the filled slot, at a fixed position |
| `MessageGenerator.ReferenceVerbatim` | src/frontend/src/utils/messageGenerator.ts:11 | a non-empty reference occurs verbatim right after the slot's lead-in |
| `MessageGenerator.MessageQuotesReference` | src/frontend/src/utils/messageGenerator.ts:5-59 | for every tone a non-empty reference is contained in the message |
| `MessageGenerator.TonesDiffer` | src/frontend/src/utils/messageGenerator.ts:6-57 | two different tones never give the same message |
| `MessageGenerator.SevereHeadlineFirst` | src/frontend/src/utils/messageGenerator.ts:21 | `severe` opens with "CEASE AND DESIST - FINAL WARNING" |
| `MessageGenerator.VeryHarshHeadlineFirst` | src/frontend/src/utils/messageGenerator.ts:36 | `very harsh` opens with "FINAL NOTICE - CRIMINAL CHARGES PENDING" |
| `MessageGenerator.CalmUnreferenced` | src/frontend/src/utils/messageGenerator.ts:7-11 | without a reference the calm message contains no "Reference:" |
| `MessageGenerator.GenerateMessage` | src/frontend/src/utils/messageGenerator.ts:5-59 | the message of a tone opens with the first line of that tone's template and ends with its closing lines, with or without a reference |
| `IncidentText.ReferenceLayout` | src/frontend/src/utils/incidentText.ts:4-6 | the reference is "Incident Report " + number + " - " + title + " (" + time + ")" at fixed offsets |
| `IncidentText.ReferenceQuotes` | src/frontend/src/utils/incidentText.ts:5 | the report number and title appear verbatim |
| `IncidentText.ReferenceDependsOnThreeFields` | src/frontend/src/utils/incidentText.ts:5 | only the report number, title and timestamp matter |
| `IncidentText.ReferenceSeparates` | src/frontend/src/utils/incidentText.ts:5 | equal references with equal-length numbers and titles have equal number, title and time text |
| `IncidentText.FormatIncidentReference` | src/frontend/src/utils/incidentText.ts:4-6 | every reference opens with "Incident Report " and ends with ")" |
| `SmsLink.Separator` | src/frontend/src/utils/smsLink.ts:13 | both branches of the conditional give "?" |
| `SmsLink.LinkLayout` | src/frontend/src/utils/smsLink.ts:1-14 | the link is "sms:", the unencoded recipient, "?body=", then the encoded message, whatever its length |
| `SmsLink.ParseCreate` | src/frontend/src/utils/smsLink.ts:2-13 | for a recipient without `?`, recipient and message are read back from the link |
| `SmsLink.CreateInjective` | src/frontend/src/utils/smsLink.ts:13 | for recipients without `?`, equal links mean equal messages and equal recipients |
| `SmsLink.NoRecipient` | src/frontend/src/utils/smsLink.ts:6-13 | no phone and the empty phone both give "sms:?body=" + encoded message |
| `SmsLink.ExampleWithoutPhone` | src/frontend/src/utils/smsLink.ts:13 | "hello" gives "sms:?body=hello" |
| `SmsLink.ExampleWithPhone` | src/frontend/src/utils/smsLink.ts:13 | "hello" to "555" gives "sms:555?body=hello" |
| `SmsLink.CreateSmsLink` | src/frontend/src/utils/smsLink.ts:1-14 | every message gives a link, whatever its length; the link opens with "sms:" and ends with "?body=" and the encoded message |
| `UriEncoding.EncodeUriComponent` | src/frontend/src/utils/smsLink.ts:2 | the encoding holds only unreserved characters, `%` and hex digits, and leaves unreserved text unchanged |
| `UriEncoding.DecodeOfEncode` | src/frontend/src/utils/smsLink.ts:2 | decoding the encoding gives the text back |
| `UriEncoding.EncodeInjective` | src/frontend/src/utils/googleSearch.ts:3 | different texts have different encodings |
| `GoogleSearch.UrlCarriesTerms` | src/frontend/src/utils/googleSearch.ts:2-4 | the URL is the search prefix followed by the encoding of the joined terms |
| `GoogleSearch.KeptInputs` | src/frontend/src/utils/googleSearch.ts:2 | the kept inputs are city, state, query in that order, empty ones dropped |
| `GoogleSearch.TermsSplitIntoInputs` | src/frontend/src/utils/googleSearch.ts:2 | for inputs without whitespace, at least one non-empty, splitting the terms gives back exactly the non-empty inputs: no leading, trailing or double separators |
| `GoogleSearch.EmptyInputsSkipped` | src/frontend/src/utils/googleSearch.ts:2-4 | an empty input adds no separator, wherever it is; all three empty give just the search prefix, ending in "q=" |
| `GoogleSearch.AllInputs` | src/frontend/src/utils/googleSearch.ts:2 | three non-empty inputs are joined by single spaces |
| `GoogleSearch.BlankInputKept` | src/frontend/src/utils/googleSearch.ts:2 | a whitespace-only input is kept |
| `GoogleSearch.SearchTerms` | src/frontend/src/utils/googleSearch.ts:2 | the terms are empty exactly when all three inputs are empty |
| `GoogleSearch.SearchUrl` | src/frontend/src/utils/googleSearch.ts:2-4 | the URL opens with "https://www.google.com/search?q=" |
| `Files.ValidateFile` | src/frontend/src/utils/files.ts:8-17 | valid exactly when the size is at most the limit; the error is present exactly when invalid |
| `Files.LimitInclusive` | src/frontend/src/utils/files.ts:6-9 | the limit is 52,428,800 bytes; the limit passes and one byte more fails |
| `Files.HundredthsRoundNearest` | src/frontend/src/utils/files.ts:12 | the MB figure is the size in MiB rounded to the nearest hundredth |
| `Files.HundredthsMonotone` | src/frontend/src/utils/files.ts:12 | a larger file never shows a smaller figure |
| `Files.RefusedShowsAtLeastLimit` | src/frontend/src/utils/files.ts:9-12 | a refused file shows at least 50.00 |
| `Files.TwoDecimalsValue` | src/frontend/src/utils/files.ts:12 | the printed figure has two decimals and denotes the rounded value |
| `Files.OneByteOver` | src/frontend/src/utils/files.ts:9-12 | one byte over the limit gives "File size exceeds 50MB limit. Your file is 50.00MB." |
| `Files.HundredMiB` | src/frontend/src/utils/files.ts:12 | a 100 MiB file shows 100.00 |
| `IncidentsPage.SortedIncidentsOrder` | src/frontend/src/pages/workflow/IncidentsPage.tsx:40-42 | `sortedIncidents` is a permutation in non-increasing timestamp order, ties in input order |
| `IncidentsPage.FilteredExactly` | src/frontend/src/pages/workflow/IncidentsPage.tsx:44-48 | an incident is kept exactly when the lower-cased query occurs in its lower-cased title, description or report number; the result is a subsequence of the sorted list |
| `IncidentsPage.EmptyQueryKeepsAll` | src/frontend/src/pages/workflow/IncidentsPage.tsx:44-48 | the empty query keeps every incident |
| `IncidentsPage.SearchIgnoresQueryCase` | src/frontend/src/pages/workflow/IncidentsPage.tsx:44-48 | the query's case does not matter |
| `IncidentsPage.SortedIncidents` | src/frontend/src/pages/workflow/IncidentsPage.tsx:40-42 | the sorted copy holds the same incidents, each as often as in the input |
| `IncidentsPage.FilteredIncidents` | src/frontend/src/pages/workflow/IncidentsPage.tsx:44-48 | the filter never adds incidents, and every incident it keeps matches the query |
| `IncidentsPage.IncidentForm.constructor` | src/frontend/src/pages/workflow/IncidentsPage.tsx:19-21 | the form starts hidden and empty |
| `IncidentsPage.IncidentForm.ToggleForm` | src/frontend/src/pages/workflow/IncidentsPage.tsx:72 | the button flips form visibility; the typed title and description stay as they were |
| `IncidentsPage.IncidentForm.HandleSubmit` | src/frontend/src/pages/workflow/IncidentsPage.tsx:26-38 | a save is sent exactly when title and description are non-blank, with the untrimmed values; success clears and hides; failure changes nothing |
| `EvidenceRecordPage.KindOf` | src/frontend/src/pages/workflow/EvidenceRecordPage.tsx:58-77 | the five kind names map to their variant, any other string `s` to `other(s)`; `KindValue` inverts it |
| `EvidenceRecordPage.KindValueRoundTrip` | src/frontend/src/pages/workflow/EvidenceRecordPage.tsx:58-77 | a kind comes back from its menu value exactly when it is not an `other` spelled like one of the five kind names; such an `other("photo")` reads back as `photo` |
| `EvidenceRecordPage.OtherEntry` | src/frontend/src/pages/workflow/EvidenceRecordPage.tsx:75-76 | the "Other" entry sends `other("other")` |
| `EvidenceRecordPage.LinkedIdRoundTrip` | src/frontend/src/pages/workflow/EvidenceRecordPage.tsx:84 | `BigInt(id.toString())` is the id |
| `EvidenceRecordPage.SortedEvidenceOrder` | src/frontend/src/pages/workflow/EvidenceRecordPage.tsx:116-118 | the displayed list is a permutation, newest first, ties in input order |
| `EvidenceRecordPage.SortedEvidence` | src/frontend/src/pages/workflow/EvidenceRecordPage.tsx:116-118 | the displayed copy holds the same items, each as often as in the input |
| `EvidenceRecordPage.EvidenceForm.constructor` | src/frontend/src/pages/workflow/EvidenceRecordPage.tsx:24-30 | the form starts hidden and empty, kind "photo", progress 0 |
| `EvidenceRecordPage.EvidenceForm.HandleFileChange` | src/frontend/src/pages/workflow/EvidenceRecordPage.tsx:34-44 | a valid file is selected; a rejected one raises the validation error and leaves the selection unchanged |
| `EvidenceRecordPage.EvidenceForm.HandleSubmit` | src/frontend/src/pages/workflow/EvidenceRecordPage.tsx:46-97 | an upload needs a non-blank title, a file and a linked id that `BigInt` accepts, and sends the mapped kind; a missing input changes nothing; success resets the form and progress to 0; failure only resets progress |
| `Decimal.StringToBigIntOfToString` | src/frontend/src/pages/workflow/EvidenceRecordPage.tsx:84 | `BigInt` reads back what `toString` prints for every integer |
| `Decimal.NatToStringValue` | src/frontend/src/utils/generateEvidenceSummary.ts:107 | the printed count is a canonical decimal denoting the number |
| `Decimal.NatToStringInjective` | src/frontend/src/pages/workflow/SubmitPoliceReportDialog.tsx:48 | different ids print differently |
| `Decimal.IntToString` | src/frontend/src/pages/workflow/VictimSurvivorInfoPage.tsx:26 | `toString` of an integer is never empty and has no leading zero unless it is "0" |
| `Decimal.StringToBigInt` | src/frontend/src/pages/workflow/EvidenceRecordPage.tsx:84 | `BigInt` of a blank string is 0 |
| `VictimSurvivorInfoPage.Normalized` | src/frontend/src/pages/workflow/VictimSurvivorInfoPage.tsx:38 | a field is absent exactly when blank, otherwise its non-empty trimmed value |
| `VictimSurvivorInfoPage.Payload` | src/frontend/src/pages/workflow/VictimSurvivorInfoPage.tsx:37-44 | no payload exactly when the age is non-blank and `BigInt` rejects it (before any save) |
| `VictimSurvivorInfoPage.BlankFormSendsEmptyInfo` | src/frontend/src/pages/workflow/VictimSurvivorInfoPage.tsx:37-44 | blank inputs send the all-absent record |
| `VictimSurvivorInfoPage.AgeParsesTrimmed` | src/frontend/src/pages/workflow/VictimSurvivorInfoPage.tsx:39 | the untrimmed age parses like the trimmed one |
| `VictimSurvivorInfoPage.TextRoundTrip` | src/frontend/src/pages/workflow/VictimSurvivorInfoPage.tsx:25 | a saved text field loads back as its trimmed value |
| `VictimSurvivorInfoPage.AgeRoundTrip` | src/frontend/src/pages/workflow/VictimSurvivorInfoPage.tsx:26 | a canonical non-zero age is stored as its value and loads back as its trimmed text |
| `VictimSurvivorInfoPage.SaveLoadRoundTrip` | src/frontend/src/pages/workflow/VictimSurvivorInfoPage.tsx:25-43 | save then load gives each text field its trimmed input, and the age its trimmed input when that is a canonical non-zero decimal |
| `VictimSurvivorInfoPage.LoadSaveRoundTrip` | src/frontend/src/pages/workflow/VictimSurvivorInfoPage.tsx:23-44 | for a record whose text fields are already trimmed and non-empty, load then save stores the same record, except that age 0 is dropped |
| `VictimSurvivorInfoPage.Loaded` | src/frontend/src/pages/workflow/VictimSurvivorInfoPage.tsx:24-30 | the age input is '' exactly when the record has no age or age 0 |
| `VictimSurvivorInfoPage.InfoForm.constructor` | src/frontend/src/pages/workflow/VictimSurvivorInfoPage.tsx:16-21 | all six inputs start empty |
| `VictimSurvivorInfoPage.InfoForm.Load` | src/frontend/src/pages/workflow/VictimSurvivorInfoPage.tsx:23-32 | a record fills all six inputs; absent fields and age 0 become ''; no record changes nothing |
| `VictimSurvivorInfoPage.InfoForm.HandleSubmit` | src/frontend/src/pages/workflow/VictimSurvivorInfoPage.tsx:34-51 | the payload sent is the normalised form |
| `VictimSurvivorInfoPage.InfoForm.HandleClear` | src/frontend/src/pages/workflow/VictimSurvivorInfoPage.tsx:53-69 | declined: nothing; otherwise the all-absent record is sent, and only success empties the inputs |
| `PoliceDepartmentsPage.ErrorMessage` | src/frontend/src/pages/workflow/PoliceDepartmentsPage.tsx:56-66 | the error text is never empty |
| `PoliceDepartmentsPage.ErrorMessageSource` | src/frontend/src/pages/workflow/PoliceDepartmentsPage.tsx:56-66 | the text is one of the three fixed texts or the error's own message |
| `PoliceDepartmentsPage.ErrorPrecedence` | src/frontend/src/pages/workflow/PoliceDepartmentsPage.tsx:58-64 | "Unauthorized" gives the login text, else "Actor not available" the connection text, else the message verbatim |
| `PoliceDepartmentsPage.NoMessageDefault` | src/frontend/src/pages/workflow/PoliceDepartmentsPage.tsx:56-58 | a missing or empty message gives the default |
| `PoliceDepartmentsPage.DepartmentSearch` | src/frontend/src/pages/workflow/PoliceDepartmentsPage.tsx:72-74 | the search always ends with "police department" after city and state |
| `PoliceDepartmentsPage.DepartmentForm.constructor` | src/frontend/src/pages/workflow/PoliceDepartmentsPage.tsx:19-28 | the form starts hidden and empty, with no banners |
| `PoliceDepartmentsPage.DepartmentForm.ToggleForm` | src/frontend/src/pages/workflow/PoliceDepartmentsPage.tsx:100 | the button flips form visibility; the inputs, the banners and the search fields stay as they were |
| `PoliceDepartmentsPage.DepartmentForm.HandleSubmit` | src/frontend/src/pages/workflow/PoliceDepartmentsPage.tsx:30-70 | a save is sent exactly when the name is non-blank, with the four inputs as typed; success shows the success banner and no error, failure the classified error text and no success banner; a blank name leaves the banners as they were; the inputs and search fields are never touched |
| `PoliceDepartmentsPage.DepartmentForm.AfterSaveDelay` | src/frontend/src/pages/workflow/PoliceDepartmentsPage.tsx:44-51 | after the delay all four fields are '', the form is hidden, and success is false |
| `PoliceDepartmentsPage.DepartmentForm.Cancel` | src/frontend/src/pages/workflow/PoliceDepartmentsPage.tsx:231-235 | cancel hides the form and clears both banners |
| `SubmitPoliceReportDialog.SelectedDepartment` | src/frontend/src/pages/workflow/SubmitPoliceReportDialog.tsx:47-49 | the selection is the first department of personal then verified with that id text, and there is none exactly when no id matches |
| `SubmitPoliceReportDialog.PersonalFirst` | src/frontend/src/pages/workflow/SubmitPoliceReportDialog.tsx:43-49 | a personal department wins over a verified one with the same id |
| `SubmitPoliceReportDialog.EmptySelectionNone` | src/frontend/src/pages/workflow/SubmitPoliceReportDialog.tsx:39 | the initial selection '' selects nothing |
| `SubmitPoliceReportDialog.PickSelectsId` | src/frontend/src/pages/workflow/SubmitPoliceReportDialog.tsx:47-49 | picking a listed department selects one with its id |
| `SubmitPoliceReportDialog.InitialPreview` | src/frontend/src/pages/workflow/SubmitPoliceReportDialog.tsx:39-54 | initially the preview is the formal report with no department, and nothing can be submitted |
| `SubmitPoliceReportDialog.ReportText` | src/frontend/src/pages/workflow/SubmitPoliceReportDialog.tsx:52-57 | `canSubmit` holds exactly when the preview opens with the submission title; the preview ends with the evidence summary in the chosen tone |
| `MessageGeneratorPage.MappedTone` | src/frontend/src/pages/workflow/MessageGeneratorPage.tsx:27-33 | only `balanced` gives calm, only `directSafety` gives severe, never very harsh; anything else gives firm |
| `MessageGeneratorPage.SettingsTones` | src/frontend/src/pages/workflow/MessageGeneratorPage.tsx:27-31 | balanced → calm, assertiveWomen → firm, directSafety → severe |
| `MessageGeneratorPage.SelectedIncident` | src/frontend/src/pages/workflow/MessageGeneratorPage.tsx:39 | a selected incident is listed, has the selected id text and no earlier incident has it; nothing is selected exactly when no incident has that id text |
| `MessageGeneratorPage.IncidentReference` | src/frontend/src/pages/workflow/MessageGeneratorPage.tsx:39-41 | there is no reference exactly when no incident has the selected id text |
| `MessageGeneratorPage.NoneOptionNoReference` | src/frontend/src/pages/workflow/MessageGeneratorPage.tsx:39-40 | "None" ('') gives no reference |
| `MessageGeneratorPage.MessageQuotesIncident` | src/frontend/src/pages/workflow/MessageGeneratorPage.tsx:38-41 | with an incident selected, the message contains its report number and title |
| `MessageGeneratorPage.CalmWithoutIncident` | src/frontend/src/pages/workflow/MessageGeneratorPage.tsx:38-41 | with "None" selected, a calm message has no "Reference:" |
| `MessageGeneratorPage.SmsCarriesMessage` | src/frontend/src/pages/workflow/MessageGeneratorPage.tsx:49-51 | the SMS link carries the message unchanged and no recipient |
| `MessageGeneratorPage.MessagePage.constructor` | src/frontend/src/pages/workflow/MessageGeneratorPage.tsx:21-23 | the tone starts as firm, with no message and no selection |
| `MessageGeneratorPage.MessagePage.ApplyDefaultTone` | src/frontend/src/pages/workflow/MessageGeneratorPage.tsx:25-36 | a non-empty default is mapped; a missing or empty one leaves the tone as it was; message and selection are untouched |
| `MessageGeneratorPage.MessagePage.Regenerate` | src/frontend/src/pages/workflow/MessageGeneratorPage.tsx:38-42 | the message is `generateMessage(tone, reference of the selected incident)` |
| `Sorting.SortBySorted` | src/frontend/src/utils/generateEvidenceSummary.ts:96 | the stable sort orders its result by key |
| `Sorting.SortByStable` | src/frontend/src/utils/generateEvidenceSummary.ts:96 | elements with equal keys keep their input order |
| `Sorting.SortByExtremes` | src/frontend/src/utils/generateEvidenceSummary.ts:98-99 | the first and last sorted elements carry the smallest and largest key |
| `Sorting.SortBy` | src/frontend/src/utils/incidentSummary.ts:9 | the sorted copy holds the same elements, each as often as in the input |
| `Text.BlankIffTrimEmpty` | src/frontend/src/utils/generateEvidenceSummary.ts:120 | `trim()` leaves nothing exactly when every character is whitespace, so blankness can be judged without trimming |
| `Text.TrimIdempotent` | src/frontend/src/pages/workflow/VictimSurvivorInfoPage.tsx:38 | trimming twice is trimming once |
| `Text.ToLowerIdempotent` | src/frontend/src/pages/workflow/IncidentsPage.tsx:45 | lower-casing leaves no upper-case ASCII letter and is idempotent |
| `Text.NumberedContains` | src/frontend/src/utils/generateEvidenceSummary.ts:115-116 | the numbered loop output holds each item's entry with its number |

## Left out

- `formatTimestamp` and `formatDateShort` (`Date`, the runtime time zone,
  locale formatting, `Number(ts) / 1_000_000`) are arbitrary functions
  supplied by the caller. Because they are functions, the same timestamp
  always gives the same text.
- `generateEvidenceSummary`'s default argument `tone = 'plain'` is not
  modelled: `EvidenceSummary.Summary` always takes the tone, as every
  caller passes one.
- The wall clock of the "Generated:" and "Report Generated:" lines is a
  parameter `now`. One value serves every reading in a police report.
- `toLowerCase` maps ASCII letters only. `trim` and `/\s+/` use the
  whitespace set of ECMA-262 (Zs as of Unicode 15). String lengths count
  Unicode scalar values, not UTF-16 code units, so characters outside the
  BMP are one character here and two in JavaScript.
- The word-count object has no prototype keys such as "constructor" or
  "__proto__".
- `encodeURIComponent`'s URIError on lone surrogates cannot arise: a Dafny
  `char` is a Unicode scalar value.
- The `console.warn` for SMS messages over 1600 characters is a log line
  only. The link is produced either way.
- `fileToUint8Array`, the upload progress callback, `window.open`, the
  clipboard, toasts, `alert`'s display, downloads and `confirm`'s dialog
  are outside the model. The handlers receive the confirmation and the
  outcome of the backend call as parameters.
- The 1500 ms timer is modelled only as the state after it fires
  (`AfterSaveDelay`).
- The react-query hooks and the remote backend actor are outside the
  model. The backend's bindings supply only the record types.
- The splash screens (random selection), the layout regression checks,
  and the routing, theme and pure display components are outside the
  model.
- `SubmitPoliceReportDialog.CanSubmit` and `ActionsEnabled` are
  predicates that state `canSubmit` and the negation of
  `!canSubmit || isLoading` as the dialog writes them. `ReportText` and
  `InitialPreview` state their consequences.

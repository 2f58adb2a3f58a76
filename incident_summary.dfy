/**
 * The incident summary report: an overview with the number of incidents,
 * their date range and the number of evidence files attached to them, a
 * numbered timeline of the incidents in ascending timestamp order, the
 * recurring title keywords when there are any, and a fixed trailer.
 */
module IncidentSummary {
  import opened Text
  import opened Decimal
  import opened Sorting
  import opened Backend
  import opened DateTime
  import opened Summaries
  import opened IncidentKeywords

  const EmptyIncidentsText := "No incidents to summarize."
  const ReportTitle := "INCIDENT SUMMARY" + " REPORT\n"
  /** Descriptions longer than this are cut and marked with "...". */
  const DescriptionLimit := 200

  /** `incidents.reduce((sum, inc) => sum + inc.evidenceIds.length, 0)`. */
  function EvidenceTotal(incidents: seq<Incident>): nat
    decreases |incidents|
  {
    if incidents == [] then 0
    else EvidenceTotal(incidents[..|incidents| - 1]) + |incidents[|incidents| - 1].evidenceIds|
  }

  /** The total of a concatenation is the sum of the totals. */
  lemma {:induction false} EvidenceTotalAppend(a: seq<Incident>, b: seq<Incident>)
    ensures EvidenceTotal(a + b) == EvidenceTotal(a) + EvidenceTotal(b)
    decreases |b|
  {
    if b == [] {
      assert a + b == a;
    } else {
      assert (a + b)[..|a + b| - 1] == a + b[..|b| - 1];
      EvidenceTotalAppend(a, b[..|b| - 1]);
    }
  }

  /** Each incident's files are part of the total, and the total is 0 exactly when no incident has any. */
  lemma {:induction false} EvidenceTotalCounts(incidents: seq<Incident>)
    ensures forall k | 0 <= k < |incidents| :: |incidents[k].evidenceIds| <= EvidenceTotal(incidents)
    ensures EvidenceTotal(incidents) == 0 <==> forall k | 0 <= k < |incidents| :: incidents[k].evidenceIds == []
    decreases |incidents|
  {
    if incidents != [] {
      var init := incidents[..|incidents| - 1];
      EvidenceTotalCounts(init);
      assert forall k | 0 <= k < |init| :: init[k] == incidents[k];
    }
  }

  function CountLine(count: nat): string {
    "Total Incidents: " + NatToString(count) + "\n"
  }

  function RangeLine(firstDate: string, lastDate: string): string {
    "Date Range: " + firstDate + " to " + lastDate + "\n"
  }

  function TotalEvidenceLine(total: nat): string {
    "Total Evidence Files: " + NatToString(total) + "\n"
  }

  /** The lines before the first timeline entry; each piece is appended whole, as the source appends its template literals. */
  function Heading(count: nat, firstDate: string, lastDate: string, totalEvidence: nat, now: string): string {
    ReportTitle
    + ("Generated: " + now + "\n")
    + "\n"
    + "OVERVIEW\n"
    + "========\n"
    + CountLine(count)
    + RangeLine(firstDate, lastDate)
    + TotalEvidenceLine(totalEvidence)
    + "\n"
    + "INCIDENT TIMELINE\n"
    + "=================\n\n"
  }

  /** The overview holds the count line, the date range line and the evidence total line. */
  lemma HeadingLines(count: nat, firstDate: string, lastDate: string, totalEvidence: nat, now: string)
    ensures StartsWith(Heading(count, firstDate, lastDate, totalEvidence, now), ReportTitle)
    ensures Contains(Heading(count, firstDate, lastDate, totalEvidence, now), CountLine(count))
    ensures Contains(Heading(count, firstDate, lastDate, totalEvidence, now), RangeLine(firstDate, lastDate))
    ensures Contains(Heading(count, firstDate, lastDate, totalEvidence, now), TotalEvidenceLine(totalEvidence))
  {
    var h := ReportTitle + ("Generated: " + now + "\n") + "\n" + "OVERVIEW\n" + "========\n";
    var c := CountLine(count);
    var r := RangeLine(firstDate, lastDate);
    var e := TotalEvidenceLine(totalEvidence);
    assert (h + c + r + e + "\n" + "INCIDENT TIMELINE\n" + "=================\n\n")[..|ReportTitle|] == ReportTitle;
    ContainsSuffix(h, c);
    ContainsGrowRight(h + c, r, c);
    ContainsSuffix(h + c, r);
    ContainsGrowRight(h + c + r, e, c);
    ContainsGrowRight(h + c + r, e, r);
    ContainsSuffix(h + c + r, e);
    ContainsTail3(h + c + r + e, "\n", "INCIDENT TIMELINE\n", "=================\n\n", c);
    ContainsTail3(h + c + r + e, "\n", "INCIDENT TIMELINE\n", "=================\n\n", r);
    ContainsTail3(h + c + r + e, "\n", "INCIDENT TIMELINE\n", "=================\n\n", e);
  }

  /** Three more pieces appended keep an occurrence. */
  lemma ContainsTail3(s: string, a: string, b: string, c: string, sub: string)
    requires Contains(s, sub)
    ensures Contains(s + a + b + c, sub)
  {
    ContainsGrowRight(s, a, sub);
    ContainsGrowRight(s + a, b, sub);
    ContainsGrowRight(s + a + b, c, sub);
  }

  /** The entry's evidence line, present only for an incident with files. */
  function EvidenceCountLine(count: nat): string {
    if count > 0 then "   Evidence: " + NatToString(count) + " file(s)\n" else ""
  }

  /** The evidence line is present exactly when the incident has files, and then states their number in decimal. */
  lemma EvidenceCountShown(count: nat)
    ensures EvidenceCountLine(count) == [] <==> count == 0
    ensures count > 0 ==> EvidenceCountLine(count) == "   Evidence: " + NatToString(count) + " file(s)\n"
                          && ValueIn(NatToString(count), 10) == count
  {
    NatToStringValue(count);
  }

  function DescriptionLine(d: string): string {
    "   Description: " + Substring(d, DescriptionLimit) + (if |d| > DescriptionLimit then "..." else "") + "\n"
  }

  /**
   * A description is printed whole up to `DescriptionLimit` characters
   * (the empty one as nothing), and as its first `DescriptionLimit`
   * characters followed by "..." beyond that.
   */
  lemma DescriptionShown(d: string)
    ensures |d| <= DescriptionLimit ==> DescriptionLine(d) == "   Description: " + d + "\n"
    ensures |d| > DescriptionLimit ==> DescriptionLine(d) == "   Description: " + d[..DescriptionLimit] + "..." + "\n"
  {
    if |d| <= DescriptionLimit {
      assert "   Description: " + d + "" == "   Description: " + d;
    }
  }

  /** The timeline entry numbered `number`. */
  function Entry(number: nat, incident: Incident, loc: Locale): string {
    NatToString(number) + ". " + loc.formatTimestamp(incident.timestamp) + "\n"
    + ("   Report #: " + incident.criminalActivityReportNumber + "\n")
    + ("   Title: " + incident.title + "\n")
    + ("   Status: " + incident.status.Text() + "\n")
    + EvidenceCountLine(|incident.evidenceIds|)
    + DescriptionLine(incident.description)
    + "\n"
  }

  function EntryOf(loc: Locale): (nat, Incident) -> string {
    (number: nat, incident: Incident) => Entry(number, incident, loc)
  }

  /** The timeline: the entries of `items` numbered from 1 in their order. */
  function Timeline(items: seq<Incident>, loc: Locale): string {
    Numbered(items, 1, EntryOf(loc))
  }

  /** The incidents in timeline order: the stable ascending sort by timestamp of a copy. */
  function Chronological(incidents: seq<Incident>): seq<Incident> {
    SortBy(incidents, IncidentTime)
  }

  /** The timeline order holds every incident once, in non-decreasing timestamp order. */
  lemma ChronologicalSorted(incidents: seq<Incident>)
    ensures var s := Chronological(incidents);
            && |s| == |incidents| && multiset(s) == multiset(incidents)
            && SortedBy(s, IncidentTime)
  {
    SortBySorted(incidents, IncidentTime);
  }

  /** Incidents with equal timestamps keep their input order. */
  lemma ChronologicalStable(incidents: seq<Incident>, t: Timestamp)
    ensures WithKey(Chronological(incidents), IncidentTime, t) == WithKey(incidents, IncidentTime, t)
  {
    SortByStable(incidents, IncidentTime, t);
  }

  /** The first and last incidents of the timeline carry the earliest and the latest timestamp. */
  lemma ChronologicalEnds(incidents: seq<Incident>)
    requires incidents != []
    ensures |Chronological(incidents)| == |incidents|
    ensures Chronological(incidents)[0].timestamp == MinKey(incidents, IncidentTime)
    ensures Chronological(incidents)[|incidents| - 1].timestamp == MaxKey(incidents, IncidentTime)
  {
    SortByEnds(incidents, IncidentTime);
  }

  /** A keyword line of the pattern analysis. */
  function KeywordLine(e: Keyword): string {
    "  - \"" + e.0 + "\" appears " + NatToString(e.1) + " times\n"
  }

  /** `text` followed by the PATTERN ANALYSIS section listing `keywords`, which the source adds when there are any. */
  function WithPatterns(text: string, keywords: seq<Keyword>): string {
    if |keywords| > 0 then
      text + "PATTERN ANALYSIS\n" + "================\n" + "Recurring keywords:\n" + Lines(keywords, KeywordLine) + "\n"
    else text
  }

  /** The section is added exactly when there are keywords, and then has a line for each. */
  lemma PatternSectionPresent(text: string, keywords: seq<Keyword>)
    ensures WithPatterns(text, keywords) == text <==> keywords == []
    ensures keywords != [] ==> Contains(WithPatterns(text, keywords), "PATTERN ANALYSIS\n")
    ensures forall k | 0 <= k < |keywords| :: Contains(WithPatterns(text, keywords), KeywordLine(keywords[k]))
  {
    if keywords != [] {
      var head := text + "PATTERN ANALYSIS\n" + "================\n" + "Recurring keywords:\n";
      assert |WithPatterns(text, keywords)| > |text|;
      ContainsSuffix(text, "PATTERN ANALYSIS\n");
      ContainsTail3(text + "PATTERN ANALYSIS\n", "================\n", "Recurring keywords:\n",
                    Lines(keywords, KeywordLine) + "\n", "PATTERN ANALYSIS\n");
      AppendAssoc(head, Lines(keywords, KeywordLine), "\n");
      forall k | 0 <= k < |keywords| ensures Contains(WithPatterns(text, keywords), KeywordLine(keywords[k])) {
        LinesContains(keywords, KeywordLine, k);
        ContainsGrowRight(Lines(keywords, KeywordLine), "\n", KeywordLine(keywords[k]));
        ContainsGrowLeft(head, Lines(keywords, KeywordLine) + "\n", KeywordLine(keywords[k]));
      }
    }
  }

  /** Anything in the text before the pattern section stays in the finished report. */
  lemma PatternsAppendedKeep(text: string, keywords: seq<Keyword>, sub: string)
    requires Contains(text, sub)
    ensures Contains(WithPatterns(text, keywords) + EndOfReport, sub)
  {
    if |keywords| > 0 {
      ContainsGrowRight5(text, "PATTERN ANALYSIS\n", "================\n", "Recurring keywords:\n",
                         Lines(keywords, KeywordLine), "\n", sub);
      ContainsGrowRight(WithPatterns(text, keywords), EndOfReport, sub);
    } else {
      ContainsGrowRight(text, EndOfReport, sub);
    }
  }

  /** The report for a non-empty list up to the trailer. */
  function ReportBody(incidents: seq<Incident>, loc: Locale, now: string): string
    requires incidents != []
  {
    var sorted := Chronological(incidents);
    var firstDate := loc.formatDateShort(sorted[0].timestamp);
    var lastDate := loc.formatDateShort(sorted[|sorted| - 1].timestamp);
    WithPatterns(Heading(|incidents|, firstDate, lastDate, EvidenceTotal(incidents), now) + Timeline(sorted, loc),
                 Keywords(incidents))
  }

  /** `generateIncidentSummary(incidents)`, with `now` as the "Generated:" clock text. */
  function Summary(incidents: seq<Incident>, loc: Locale, now: string): (r: string)
    ensures incidents == [] ==> r == EmptyIncidentsText
  {
    if incidents == [] then EmptyIncidentsText else ReportBody(incidents, loc, now) + EndOfReport
  }

  /** Every report ends with the END OF REPORT line. */
  lemma ReportEnds(text: string)
    ensures EndsWith(text + EndOfReport, EndOfReport)
    ensures text + EndOfReport != EmptyIncidentsText
  {
    assert (text + EndOfReport)[|text|..] == EndOfReport;
    assert (text + EndOfReport)[|text| + |EndOfReport| - 1] == '\n';
    assert EmptyIncidentsText[|EmptyIncidentsText| - 1] == '.';
  }

  /** Only the empty input gives the "nothing to summarize" text; any other ends with END OF REPORT. */
  lemma EmptyIffNothingToSummarize(incidents: seq<Incident>, loc: Locale, now: string)
    ensures Summary(incidents, loc, now) == EmptyIncidentsText <==> incidents == []
    ensures incidents != [] ==> EndsWith(Summary(incidents, loc, now), EndOfReport)
  {
    if incidents != [] {
      assert Summary(incidents, loc, now) == ReportBody(incidents, loc, now) + EndOfReport;
      ReportEnds(ReportBody(incidents, loc, now));
    }
  }

  /** The summary opens with its title, or is the "nothing to summarize" text. */
  lemma SummaryOpens(incidents: seq<Incident>, loc: Locale, now: string)
    ensures incidents != [] ==> StartsWith(Summary(incidents, loc, now), ReportTitle)
  {
    if incidents != [] {
      var c := Chronological(incidents);
      SummaryShape(incidents, loc, now);
      var h := Heading(|incidents|, loc.formatDateShort(c[0].timestamp), loc.formatDateShort(c[|c| - 1].timestamp),
                       EvidenceTotal(incidents), now);
      HeadingLines(|incidents|, loc.formatDateShort(c[0].timestamp), loc.formatDateShort(c[|c| - 1].timestamp),
                   EvidenceTotal(incidents), now);
      StartsWithGrow(h, Timeline(c, loc), ReportTitle);
      HeadingPatternsOpen(h + Timeline(c, loc), Keywords(incidents));
      StartsWithGrow(WithPatterns(h + Timeline(c, loc), Keywords(incidents)), EndOfReport, ReportTitle);
    }
  }


  /** The summary is never empty, and its first character is `N` or `I`. */
  lemma SummaryFirst(incidents: seq<Incident>, loc: Locale, now: string)
    ensures |Summary(incidents, loc, now)| > 0
    ensures Summary(incidents, loc, now)[0] == if incidents == [] then 'N' else 'I'
  {
    SummaryOpens(incidents, loc, now);
    if incidents != [] {
      assert Summary(incidents, loc, now)[0] == Summary(incidents, loc, now)[..|ReportTitle|][0];
    }
  }

  /** The pattern section comes after the text it is appended to. */
  lemma HeadingPatternsOpen(text: string, keywords: seq<Keyword>)
    requires StartsWith(text, ReportTitle)
    ensures StartsWith(WithPatterns(text, keywords), ReportTitle)
  {
    if |keywords| > 0 {
      var a, b, c, d := "PATTERN ANALYSIS\n", "================\n", "Recurring keywords:\n", Lines(keywords, KeywordLine);
      assert StartsWith(text + a + b + c + d + "\n", ReportTitle) by {
        StartsWithGrow(text, a, ReportTitle);
        StartsWithGrow(text + a, b, ReportTitle);
        StartsWithGrow(text + a + b, c, ReportTitle);
        StartsWithGrow(text + a + b + c, d, ReportTitle);
        StartsWithGrow(text + a + b + c + d, "\n", ReportTitle);
      }
    }
  }

  /** The report with the chronological order and its end dates as parameters. */
  lemma ReportShape(incidents: seq<Incident>, s: seq<Incident>, loc: Locale, now: string, first: Timestamp, last: Timestamp)
    requires incidents != [] && s == Chronological(incidents)
    requires |s| == |incidents| && s[0].timestamp == first && s[|s| - 1].timestamp == last
    ensures ReportBody(incidents, loc, now)
            == WithPatterns(Heading(|incidents|, loc.formatDateShort(first), loc.formatDateShort(last),
                                    EvidenceTotal(incidents), now) + Timeline(s, loc), Keywords(incidents))
  {
  }

  /**
   * The overview and the timeline of a non-empty summary: the count line
   * states the number of incidents, the date range runs from the date of
   * the earliest to the date of the latest timestamp, the evidence line
   * states the total number of files, and every incident's entry is in the
   * timeline, numbered by its place in the chronological order.
   */
  lemma SummaryLayout(incidents: seq<Incident>, loc: Locale, now: string, k: nat)
    requires k < |incidents|
    ensures var r := Summary(incidents, loc, now);
            && Contains(r, CountLine(|incidents|))
            && Contains(r, RangeLine(loc.formatDateShort(MinKey(incidents, IncidentTime)),
                                     loc.formatDateShort(MaxKey(incidents, IncidentTime))))
            && Contains(r, TotalEvidenceLine(EvidenceTotal(incidents)))
            && k < |Chronological(incidents)| && Contains(r, Entry(k + 1, Chronological(incidents)[k], loc))
  {
    var c := Chronological(incidents);
    ChronologicalEnds(incidents);
    assert Contains(Timeline(c, loc), Entry(k + 1, c[k], loc)) by { NumberedContains(c, 1, EntryOf(loc), k); }
    ChronologicalSorted(incidents);
    SummaryShape(incidents, loc, now);
    var firstDate, lastDate := loc.formatDateShort(c[0].timestamp), loc.formatDateShort(c[|c| - 1].timestamp);
    ReportLines(|incidents|, firstDate, lastDate, EvidenceTotal(incidents), now,
                Timeline(c, loc), Keywords(incidents), Entry(k + 1, c[k], loc));
    assert RangeLine(firstDate, lastDate)
        == RangeLine(loc.formatDateShort(MinKey(incidents, IncidentTime)), loc.formatDateShort(MaxKey(incidents, IncidentTime)));
  }

  /** A report holds its overview lines and whatever its timeline holds. */
  lemma ReportLines(count: nat, firstDate: string, lastDate: string, totalEvidence: nat, now: string,
                    timeline: string, keywords: seq<Keyword>, entry: string)
    requires Contains(timeline, entry)
    ensures var r := WithPatterns(Heading(count, firstDate, lastDate, totalEvidence, now) + timeline, keywords)
                     + EndOfReport;
            && Contains(r, CountLine(count)) && Contains(r, RangeLine(firstDate, lastDate))
            && Contains(r, TotalEvidenceLine(totalEvidence)) && Contains(r, entry)
  {
    var h := Heading(count, firstDate, lastDate, totalEvidence, now);
    HeadingLines(count, firstDate, lastDate, totalEvidence, now);
    ContainsGrowRight(h, timeline, CountLine(count));
    ContainsGrowRight(h, timeline, RangeLine(firstDate, lastDate));
    ContainsGrowRight(h, timeline, TotalEvidenceLine(totalEvidence));
    ContainsGrowLeft(h, timeline, entry);
    PatternsAppendedKeep(h + timeline, keywords, CountLine(count));
    PatternsAppendedKeep(h + timeline, keywords, RangeLine(firstDate, lastDate));
    PatternsAppendedKeep(h + timeline, keywords, TotalEvidenceLine(totalEvidence));
    PatternsAppendedKeep(h + timeline, keywords, entry);
  }

  /**
   * The pattern analysis of a non-empty summary: the section is there
   * exactly when some keyword is listed, which is exactly when some counted
   * title word occurs more than once, and every listed keyword has its line.
   */
  lemma SummaryPatterns(incidents: seq<Incident>, loc: Locale, now: string)
    requires incidents != []
    ensures var words := IncidentWords(incidents);
            |Keywords(incidents)| > 0 <==> exists k | 0 <= k < |words| :: multiset(words)[words[k]] > 1
    ensures forall k | 0 <= k < |Keywords(incidents)| ::
              Contains(Summary(incidents, loc, now), KeywordLine(Keywords(incidents)[k]))
  {
    var c := Chronological(incidents);
    SummaryShape(incidents, loc, now);
    KeywordsPresent(incidents);
    KeywordLines(Heading(|incidents|, loc.formatDateShort(c[0].timestamp), loc.formatDateShort(c[|c| - 1].timestamp),
                         EvidenceTotal(incidents), now) + Timeline(c, loc), Keywords(incidents));
  }


  /**
   * A non-empty summary is its heading, dated by the first and the last
   * incident of the timeline, the timeline, the pattern section and the
   * trailer.
   */
  lemma SummaryShape(incidents: seq<Incident>, loc: Locale, now: string)
    requires incidents != []
    ensures var s := Chronological(incidents);
            && |s| == |incidents|
            && Summary(incidents, loc, now)
               == WithPatterns(Heading(|incidents|, loc.formatDateShort(s[0].timestamp),
                                       loc.formatDateShort(s[|s| - 1].timestamp), EvidenceTotal(incidents), now)
                               + Timeline(s, loc), Keywords(incidents)) + EndOfReport
  {
    assert Summary(incidents, loc, now) == ReportBody(incidents, loc, now) + EndOfReport;
  }

  /** Some keyword is listed exactly when some counted title word repeats. */
  lemma KeywordsPresent(incidents: seq<Incident>)
    ensures var words := IncidentWords(incidents);
            |Keywords(incidents)| > 0 <==> exists k | 0 <= k < |words| :: multiset(words)[words[k]] > 1
  {
    TallyCounts(IncidentWords(incidents));
    TopKeywordsPresent(Tally(IncidentWords(incidents)), IncidentWords(incidents));
  }

  /** Each keyword's line survives the trailer appended after the pattern section. */
  lemma KeywordLines(body: string, keywords: seq<Keyword>)
    ensures forall k | 0 <= k < |keywords| :: Contains(WithPatterns(body, keywords) + EndOfReport, KeywordLine(keywords[k]))
  {
    PatternSectionPresent(body, keywords);
    forall k | 0 <= k < |keywords|
      ensures Contains(WithPatterns(body, keywords) + EndOfReport, KeywordLine(keywords[k]))
    {
      ContainsGrowRight(WithPatterns(body, keywords), EndOfReport, KeywordLine(keywords[k]));
    }
  }

  /** The `forEach` callback: appends the timeline entry of `incident`, numbered `number`, to `summary`. */
  method AppendEntry(summary: string, number: nat, incident: Incident, loc: Locale) returns (r: string)
    ensures r == summary + Entry(number, incident, loc)
  {
    var statusValue := incident.status.Text();
    var entry := NatToString(number) + ". " + loc.formatTimestamp(incident.timestamp) + "\n";
    entry := entry + ("   Report #: " + incident.criminalActivityReportNumber + "\n");
    entry := entry + ("   Title: " + incident.title + "\n");
    entry := entry + ("   Status: " + statusValue + "\n");
    ghost var head := entry;
    if |incident.evidenceIds| > 0 {
      entry := entry + ("   Evidence: " + NatToString(|incident.evidenceIds|) + " file(s)\n");
      assert entry == head + EvidenceCountLine(|incident.evidenceIds|);
    } else {
      assert entry == head + EvidenceCountLine(|incident.evidenceIds|);
    }
    var desc := Substring(incident.description, DescriptionLimit);
    entry := entry + ("   Description: " + desc + (if |incident.description| > DescriptionLimit then "..." else "") + "\n");
    entry := entry + "\n";
    r := summary + entry;
  }

  /** The appends of the report's lines up to the first timeline entry. */
  method WriteHeading(totalCount: nat, firstDate: string, lastDate: string, totalEvidence: nat, now: string)
    returns (summary: string)
    ensures summary == Heading(totalCount, firstDate, lastDate, totalEvidence, now)
  {
    summary := ReportTitle;
    summary := summary + ("Generated: " + now + "\n");
    summary := summary + "\n";
    summary := summary + "OVERVIEW\n";
    summary := summary + "========\n";
    summary := summary + ("Total Incidents: " + NatToString(totalCount) + "\n");
    summary := summary + ("Date Range: " + firstDate + " to " + lastDate + "\n");
    summary := summary + ("Total Evidence Files: " + NatToString(totalEvidence) + "\n");
    summary := summary + "\n";
    summary := summary + "INCIDENT TIMELINE\n";
    summary := summary + "=================\n\n";
  }

  /** The timeline loop: one entry per incident in turn. */
  method WriteTimeline(heading: string, sorted: seq<Incident>, loc: Locale) returns (summary: string)
    ensures summary == heading + Timeline(sorted, loc)
  {
    summary := heading;
    var i := 0;
    assert sorted[..0] == [];
    while i < |sorted|
      invariant 0 <= i <= |sorted|
      invariant summary == heading + Timeline(sorted[..i], loc)
    {
      summary := AppendEntry(summary, i + 1, sorted[i], loc);
      assert Timeline(sorted[..i + 1], loc) == Timeline(sorted[..i], loc) + Entry(i + 1, sorted[i], loc) by {
        NumberedPrefixSnoc(sorted, i, 1, EntryOf(loc));
      }
      AppendAssoc(heading, Timeline(sorted[..i], loc), Entry(i + 1, sorted[i], loc));
      i := i + 1;
    }
    assert sorted[..i] == sorted;
  }

  /** The pattern section: its heading lines, one line per keyword in turn, and a blank line. */
  method WritePatterns(text: string, repeatedWords: seq<Keyword>) returns (summary: string)
    ensures summary == WithPatterns(text, repeatedWords)
  {
    summary := text;
    if |repeatedWords| > 0 {
      summary := summary + "PATTERN ANALYSIS\n";
      summary := summary + "================\n";
      summary := summary + "Recurring keywords:\n";
      ghost var head := summary;
      var i := 0;
      assert repeatedWords[..0] == [];
      while i < |repeatedWords|
        invariant 0 <= i <= |repeatedWords|
        invariant summary == head + Lines(repeatedWords[..i], KeywordLine)
      {
        var word := repeatedWords[i].0;
        var count := repeatedWords[i].1;
        summary := summary + ("  - \"" + word + "\" appears " + NatToString(count) + " times\n");
        assert repeatedWords[..i + 1] == repeatedWords[..i] + [repeatedWords[i]];
        LinesSnoc(repeatedWords[..i], repeatedWords[i], KeywordLine);
        AppendAssoc(head, Lines(repeatedWords[..i], KeywordLine), KeywordLine(repeatedWords[i]));
        i := i + 1;
      }
      assert repeatedWords[..i] == repeatedWords;
      summary := summary + "\n";
    }
  }

  /**
   * `generateIncidentSummary`: the empty case, then a sorted copy, the
   * dates of its first and last incidents, the evidence total, the appends
   * of the heading and the timeline, the word counts over the titles in
   * input order, the pattern section and the trailer.
   */
  method GenerateIncidentSummary(incidents: seq<Incident>, loc: Locale, now: string) returns (summary: string)
    ensures summary == Summary(incidents, loc, now)
  {
    if |incidents| == 0 {
      return EmptyIncidentsText;
    }
    ChronologicalSorted(incidents);
    var sorted := Chronological(incidents);
    var firstDate := loc.formatDateShort(sorted[0].timestamp);
    var lastDate := loc.formatDateShort(sorted[|sorted| - 1].timestamp);
    var totalCount := |incidents|;
    var totalEvidence := EvidenceTotal(incidents);
    var heading := WriteHeading(totalCount, firstDate, lastDate, totalEvidence, now);
    summary := WriteTimeline(heading, sorted, loc);
    var titleWords := LowerTitles(incidents);
    var wordCounts := CountTitleWords(titleWords);
    var repeatedWords := TopKeywords(wordCounts);
    summary := WritePatterns(summary, repeatedWords);
    summary := summary + EndOfReport;
    assert summary == ReportBody(incidents, loc, now) + EndOfReport by {
      ReportShape(incidents, sorted, loc, now, sorted[0].timestamp, sorted[|sorted| - 1].timestamp);
    }
  }
}

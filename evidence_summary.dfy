/**
 * The evidence summary report: a header chosen by tone, an overview with
 * the item count and date range, a numbered timeline of the evidence in
 * ascending timestamp order, an optional closing section and a fixed
 * trailer.
 */
module EvidenceSummary {
  import opened Text
  import opened Decimal
  import opened Sorting
  import opened Backend
  import opened DateTime
  import opened Summaries

  datatype SummaryTone = Plain | Formal | Urgent | UrgentFeminine

  const EmptyEvidenceText := "No evidence to summarize."
  /** Descriptions longer than this are cut and marked with "...". */
  const DescriptionLimit := 300
  const NoDescription := "   Description: (No" + " description" + " provided)\n"

  /** The printed name of an evidence kind. */
  function TypeLabel(t: EvidenceType): (r: string)
    ensures r != []
    ensures t.Other? && t.other != [] ==> r == t.other
    ensures t.Other? && t.other == [] ==> r == "Other"
  {
    match t
    case Photo => "Photo"
    case Video => "Video"
    case Audio => "Audio Recording"
    case Screenshot => "Screenshot"
    case Document => "Document"
    case Other(other) => if other != [] then other else "Other"
  }

  function Header(tone: SummaryTone): string {
    match tone
    case Formal => "FORMAL EVIDENCE DOCUMENTATION REPORT"
    case Urgent => "URGENT EVIDENCE SUMMARY REPORT"
    case UrgentFeminine => "URGENT EVIDENCE SUMMARY REPORT"
    case Plain => "EVIDENCE SUMMARY REPORT"
  }

  /** The two urgent tones share their header and timeline heading; the others have headers of their own. */
  lemma UrgentTonesShareHeaders()
    ensures Header(Urgent) == Header(UrgentFeminine)
    ensures TimelineHeader(Urgent) == TimelineHeader(UrgentFeminine)
    ensures Header(Plain) != Header(Formal) && Header(Plain) != Header(Urgent) && Header(Formal) != Header(Urgent)
  {
    assert Header(Plain)[0] == 'E' && Header(Formal)[0] == 'F' && Header(Urgent)[0] == 'U';
  }

  /** The overview sentence up to the count. */
  function OverviewLead(tone: SummaryTone): string {
    match tone
    case Formal => "This formal documentation comprises "
    case Urgent => "This report documents "
    case UrgentFeminine => "This report documents "
    case Plain => "This summary includes "
  }

  /** The words between the count and "item". */
  function OverviewNoun(tone: SummaryTone): string {
    match tone
    case Formal => " evidence "
    case Urgent => " critical evidence "
    case UrgentFeminine => " critical evidence "
    case Plain => " evidence "
  }

  /** The part of the overview after "item" or "items" and a space: the date range and the tone's closing remark. */
  function OverviewRange(tone: SummaryTone, firstDate: string, lastDate: string): string {
    match tone
    case Formal =>
      "collected between " + firstDate + " and " + lastDate
      + ". Each entry has" + " been catalogued" + " with timestamp,"
      + " classification, and" + " descriptive" + " metadata for"
      + " official review."
    case Urgent =>
      "spanning " + firstDate + " to " + lastDate
      + ". This evidence" + " demonstrates a" + " pattern of stalking"
      + " and harassment" + " behavior that" + " requires immediate"
      + " law enforcement" + " intervention to" + " ensure victim"
      + " safety."
    case UrgentFeminine =>
      "collected between " + firstDate + " and " + lastDate
      + ". The documented" + " pattern of stalking" + " and harassment"
      + " behavior is deeply" + " alarming and" + " requires immediate"
      + " attention from" + " authorities to" + " protect the victim"
      + " from further harm" + " and hold the" + " perpetrator"
      + " accountable."
    case Plain =>
      "collected between " + firstDate + " and " + lastDate + "."
  }

  function Overview(tone: SummaryTone, count: nat, firstDate: string, lastDate: string): string {
    OverviewLead(tone) + NatToString(count) + OverviewNoun(tone) + "item" + (if count != 1 then "s" else "")
    + " " + OverviewRange(tone, firstDate, lastDate)
  }

  /**
   * The overview names the count in decimal followed by "item", and the
   * character after "item" is an "s" exactly when the count is not 1.
   */
  lemma OverviewPlural(tone: SummaryTone, count: nat, firstDate: string, lastDate: string)
    ensures var head := OverviewLead(tone) + NatToString(count) + OverviewNoun(tone) + "item";
            var r := Overview(tone, count, firstDate, lastDate);
            StartsWith(r, head) && |head| < |r| && (r[|head|] == 's' <==> count != 1)
  {
    var head := OverviewLead(tone) + NatToString(count) + OverviewNoun(tone) + "item";
    CharAfterPrefix(head, if count != 1 then "s" else "", " ", OverviewRange(tone, firstDate, lastDate));
  }

  function TimelineHeader(tone: SummaryTone): string {
    match tone
    case Formal => "CHRONOLOGICAL EVIDENCE LOG"
    case Urgent => "DOCUMENTED EVIDENCE TIMELINE"
    case UrgentFeminine => "DOCUMENTED EVIDENCE TIMELINE"
    case Plain => "EVIDENCE TIMELINE"
  }

  function Closing(tone: SummaryTone): string {
    match tone
    case Formal =>
      "This concludes the" + " formal evidence" + " documentation. All"
        + " entries are" + " available for" + " official review and"
        + " legal proceedings."
    case Urgent =>
      "This evidence log" + " demonstrates a" + " documented pattern"
        + " of stalking and" + " harassment" + " requiring immediate"
        + " law enforcement" + " intervention." + " Authorities should"
        + " review this" + " documentation" + " promptly to assess"
        + " risk, ensure victim" + " safety, and pursue" + " appropriate"
        + " criminal charges" + " against the" + " perpetrator."
    case UrgentFeminine =>
      "The evidence" + " documented here" + " shows a persistent"
        + " pattern of stalking" + " and harassment" + " behavior that has"
        + " caused ongoing fear" + " and violation of" + " her safety and"
        + " well-being. This" + " situation demands" + " immediate attention"
        + " from law" + " enforcement to" + " ensure her"
        + " protection and hold" + " the perpetrator" + " accountable under"
        + " the law. Every" + " entry represents a" + " documented incident"
        + " that she has" + " courageously" + " recorded. Please"
        + " act swiftly to" + " investigate and" + " prosecute."
    case Plain => ""
  }

  /** Only the plain tone has no closing text. */
  lemma ClosingPresent(tone: SummaryTone)
    ensures Closing(tone) != [] <==> tone != Plain
  {
  }

  /** `text` followed by the SUMMARY section holding `closing`, which the source adds when `closing` is not empty. */
  function WithClosing(text: string, closing: string): string {
    if closing != [] then text + "SUMMARY\n" + "=======\n" + (closing + "\n") + "\n" else text
  }

  /** The SUMMARY section is added exactly when there is a closing text, and then holds it. */
  lemma ClosingSectionPresent(text: string, closing: string)
    ensures WithClosing(text, closing) == text <==> closing == []
    ensures closing != [] ==> Contains(WithClosing(text, closing), "SUMMARY\n")
    ensures closing != [] ==> Contains(WithClosing(text, closing), closing)
  {
    if closing != [] {
      assert |WithClosing(text, closing)| > |text|;
      ContainsSuffix(text, "SUMMARY\n");
      ContainsGrowRight(text + "SUMMARY\n", "=======\n", "SUMMARY\n");
      ContainsGrowRight(text + "SUMMARY\n" + "=======\n", closing + "\n", "SUMMARY\n");
      ContainsGrowRight(text + "SUMMARY\n" + "=======\n" + (closing + "\n"), "\n", "SUMMARY\n");
      ContainsPrefix(closing, "\n");
      ContainsGrowLeft(text + "SUMMARY\n" + "=======\n", closing + "\n", closing);
      ContainsGrowRight(text + "SUMMARY\n" + "=======\n" + (closing + "\n"), "\n", closing);
    }
  }

  /** Anything in the text before the closing section stays in the finished report. */
  lemma ClosingAppendedKeeps(text: string, closing: string, sub: string)
    requires Contains(text, sub)
    ensures Contains(WithClosing(text, closing) + EndOfReport, sub)
  {
    if closing != [] {
      ContainsGrowRight5(text, "SUMMARY\n", "=======\n", closing + "\n", "\n", EndOfReport, sub);
    } else {
      ContainsGrowRight(text, EndOfReport, sub);
    }
  }

  /** The report's first lines: the header, the clock and the overview heading. */
  function Heading(header: string, now: string): string {
    (header + "\n") + ("Generated: " + now + "\n") + "\n" + "OVERVIEW\n" + "========\n"
  }

  function CountLine(count: nat): string {
    "Total Evidence Items: " + NatToString(count) + "\n"
  }

  function RangeLine(firstDate: string, lastDate: string): string {
    "Date Range: " + firstDate + " to " + lastDate + "\n"
  }

  /**
   * The lines before the first timeline entry, given the tone's header,
   * overview sentence and timeline heading; each piece is appended whole,
   * as the source appends its template literals.
   */
  function Preamble(header: string, overview: string, timelineHeader: string,
                    count: nat, firstDate: string, lastDate: string, now: string): string {
    Heading(header, now)
    + CountLine(count)
    + RangeLine(firstDate, lastDate)
    + "\n"
    + (overview + "\n")
    + "\n"
    + (timelineHeader + "\n")
    + (Repeat('=', |timelineHeader|) + "\n\n")
  }

  /** The overview holds the count line and the date range line. */
  lemma PreambleLines(header: string, overview: string, timelineHeader: string,
                      count: nat, firstDate: string, lastDate: string, now: string)
    ensures Contains(Preamble(header, overview, timelineHeader, count, firstDate, lastDate, now), CountLine(count))
    ensures Contains(Preamble(header, overview, timelineHeader, count, firstDate, lastDate, now), RangeLine(firstDate, lastDate))
  {
    var h := Heading(header, now);
    ContainsSuffix(h, CountLine(count));
    ContainsGrowRight(h + CountLine(count), RangeLine(firstDate, lastDate), CountLine(count));
    ContainsSuffix(h + CountLine(count), RangeLine(firstDate, lastDate));
    ContainsGrowRight5(h + CountLine(count) + RangeLine(firstDate, lastDate), "\n", overview + "\n", "\n",
      timelineHeader + "\n", Repeat('=', |timelineHeader|) + "\n\n", CountLine(count));
    ContainsGrowRight5(h + CountLine(count) + RangeLine(firstDate, lastDate), "\n", overview + "\n", "\n",
      timelineHeader + "\n", Repeat('=', |timelineHeader|) + "\n\n", RangeLine(firstDate, lastDate));
  }

  /** The preamble ends with the timeline heading underlined by as many `=` as the heading has characters. */
  lemma TimelineUnderline(header: string, overview: string, timelineHeader: string,
                          count: nat, firstDate: string, lastDate: string, now: string)
    ensures exists before, u ::
      && Preamble(header, overview, timelineHeader, count, firstDate, lastDate, now)
         == before + (timelineHeader + "\n") + (u + "\n\n")
      && |u| == |timelineHeader| && (forall i | 0 <= i < |u| :: u[i] == '=')
  {
    var before := Heading(header, now) + CountLine(count) + RangeLine(firstDate, lastDate) + "\n" + (overview + "\n") + "\n";
    var u := Repeat('=', |timelineHeader|);
    assert Preamble(header, overview, timelineHeader, count, firstDate, lastDate, now)
      == before + (timelineHeader + "\n") + (u + "\n\n");
  }

  /** The first `DescriptionLimit` characters of `d`, and "..." if anything was cut. */
  function Truncated(d: string): string {
    Substring(d, DescriptionLimit) + (if |d| > DescriptionLimit then "..." else "")
  }

  function DescriptionLine(d: string): string {
    if IsBlank(d) then NoDescription else "   Description: " + Truncated(d) + "\n"
  }

  /**
   * A blank description (empty or whitespace only) prints the placeholder;
   * any other is printed whole up to `DescriptionLimit` characters, and as
   * its first `DescriptionLimit` characters followed by "..." beyond that.
   */
  lemma DescriptionShown(d: string)
    ensures AllWhitespace(d) ==> DescriptionLine(d) == NoDescription
    ensures !AllWhitespace(d) && |d| <= DescriptionLimit ==> DescriptionLine(d) == "   Description: " + d + "\n"
    ensures !AllWhitespace(d) && |d| > DescriptionLimit ==>
              DescriptionLine(d) == "   Description: " + d[..DescriptionLimit] + "..." + "\n"
  {
    BlankIffTrimEmpty(d);
    if !IsBlank(d) {
      if |d| <= DescriptionLimit {
        assert Truncated(d) == d + "";
        assert d + "" == d;
      } else {
        assert Truncated(d) == d[..DescriptionLimit] + "...";
        AppendAssoc("   Description: ", d[..DescriptionLimit], "...");
      }
    }
  }

  /** The timeline entry numbered `number`. */
  function Entry(number: nat, item: EvidenceFile, loc: Locale): string {
    NatToString(number) + ". " + loc.formatTimestamp(item.timestamp) + "\n"
    + ("   Type: " + TypeLabel(item.evidenceType) + "\n")
    + ("   Title: " + item.title + "\n")
    + DescriptionLine(item.description)
    + "\n"
  }

  function EntryOf(loc: Locale): (nat, EvidenceFile) -> string {
    (number: nat, item: EvidenceFile) => Entry(number, item, loc)
  }

  /** The timeline: the entries of `items` numbered from 1 in their order. */
  function Timeline(items: seq<EvidenceFile>, loc: Locale): string {
    Numbered(items, 1, EntryOf(loc))
  }

  /** The evidence in timeline order: the stable ascending sort by timestamp of a copy. */
  function Chronological(evidence: seq<EvidenceFile>): seq<EvidenceFile> {
    SortBy(evidence, EvidenceTime)
  }

  /**
   * The timeline order holds every item of the input once, in
   * non-decreasing timestamp order.
   */
  lemma ChronologicalSorted(evidence: seq<EvidenceFile>)
    ensures var s := Chronological(evidence);
            && |s| == |evidence| && multiset(s) == multiset(evidence)
            && SortedBy(s, EvidenceTime)
  {
    SortBySorted(evidence, EvidenceTime);
  }

  /** Items with equal timestamps keep their input order. */
  lemma ChronologicalStable(evidence: seq<EvidenceFile>, t: Timestamp)
    ensures WithKey(Chronological(evidence), EvidenceTime, t) == WithKey(evidence, EvidenceTime, t)
  {
    SortByStable(evidence, EvidenceTime, t);
  }

  /** The first and last items of the timeline carry the earliest and the latest timestamp. */
  lemma ChronologicalEnds(evidence: seq<EvidenceFile>)
    requires evidence != []
    ensures |Chronological(evidence)| == |evidence|
    ensures Chronological(evidence)[0].timestamp == MinKey(evidence, EvidenceTime)
    ensures Chronological(evidence)[|evidence| - 1].timestamp == MaxKey(evidence, EvidenceTime)
  {
    SortByEnds(evidence, EvidenceTime);
  }

  /** The report for a non-empty list, given its chronological order, up to the trailer. */
  function ReportBody(sorted: seq<EvidenceFile>, tone: SummaryTone, loc: Locale, now: string): string
    requires sorted != []
  {
    var firstDate := loc.formatDateShort(sorted[0].timestamp);
    var lastDate := loc.formatDateShort(sorted[|sorted| - 1].timestamp);
    var preamble := Preamble(Header(tone), Overview(tone, |sorted|, firstDate, lastDate), TimelineHeader(tone),
                             |sorted|, firstDate, lastDate, now);
    WithClosing(preamble + Timeline(sorted, loc), Closing(tone))
  }

  /** `generateEvidenceSummary(evidence, tone)`, with `now` as the "Generated:" clock text. */
  function Summary(evidence: seq<EvidenceFile>, tone: SummaryTone, loc: Locale, now: string): (r: string)
    ensures evidence == [] ==> r == EmptyEvidenceText
  {
    if evidence == [] then EmptyEvidenceText else ReportBody(Chronological(evidence), tone, loc, now) + EndOfReport
  }

  /** Every report ends with the END OF REPORT line. */
  lemma ReportEnds(text: string)
    ensures EndsWith(text + EndOfReport, EndOfReport)
    ensures text + EndOfReport != EmptyEvidenceText
  {
    assert (text + EndOfReport)[|text|..] == EndOfReport;
    assert (text + EndOfReport)[|text| + |EndOfReport| - 1] == '\n';
    assert EmptyEvidenceText[|EmptyEvidenceText| - 1] == '.';
  }

  /** Only the empty input gives the "nothing to summarize" text, whatever the tone; any other ends with END OF REPORT. */
  lemma EmptyIffNothingToSummarize(evidence: seq<EvidenceFile>, tone: SummaryTone, loc: Locale, now: string)
    ensures Summary(evidence, tone, loc, now) == EmptyEvidenceText <==> evidence == []
    ensures evidence != [] ==> EndsWith(Summary(evidence, tone, loc, now), EndOfReport)
  {
    if evidence != [] {
      SummaryIsReport(evidence, tone, loc, now);
      ReportEnds(ReportBody(Chronological(evidence), tone, loc, now));
    }
  }

  /** The report for a non-empty list, with the dates of its first and last items as parameters. */
  lemma ReportShape(s: seq<EvidenceFile>, tone: SummaryTone, loc: Locale, now: string, first: Timestamp, last: Timestamp)
    requires s != [] && s[0].timestamp == first && s[|s| - 1].timestamp == last
    ensures var firstDate := loc.formatDateShort(first);
            var lastDate := loc.formatDateShort(last);
            ReportBody(s, tone, loc, now)
            == WithClosing(Preamble(Header(tone), Overview(tone, |s|, firstDate, lastDate), TimelineHeader(tone),
                                    |s|, firstDate, lastDate, now) + Timeline(s, loc), Closing(tone))
  {
  }

  /**
   * The overview and the timeline of a non-empty summary: the count line
   * states the number of items, the date range runs from the date of the
   * earliest to the date of the latest timestamp, and every item's entry
   * is in the timeline, numbered by its place in the chronological order.
   */
  lemma SummaryLayout(evidence: seq<EvidenceFile>, tone: SummaryTone, loc: Locale, now: string, k: nat)
    requires k < |evidence|
    ensures var firstDate := loc.formatDateShort(MinKey(evidence, EvidenceTime));
            var lastDate := loc.formatDateShort(MaxKey(evidence, EvidenceTime));
            var r := Summary(evidence, tone, loc, now);
            && Contains(r, CountLine(|evidence|)) && Contains(r, RangeLine(firstDate, lastDate))
            && k < |Chronological(evidence)| && Contains(r, Entry(k + 1, Chronological(evidence)[k], loc))
  {
    var c := Chronological(evidence);
    ChronologicalEnds(evidence);
    SummaryIsReport(evidence, tone, loc, now);
    ReportContents(c, tone, loc, now, k);
    var last := |evidence| - 1;
    assert |c| - 1 == last;
    assert RangeLine(loc.formatDateShort(c[0].timestamp), loc.formatDateShort(c[last].timestamp))
        == RangeLine(loc.formatDateShort(MinKey(evidence, EvidenceTime)), loc.formatDateShort(MaxKey(evidence, EvidenceTime)));
  }

  /** A non-empty summary is the report of the chronological order. */
  lemma SummaryIsReport(evidence: seq<EvidenceFile>, tone: SummaryTone, loc: Locale, now: string)
    requires evidence != []
    ensures |Chronological(evidence)| == |evidence|
    ensures Summary(evidence, tone, loc, now) == ReportBody(Chronological(evidence), tone, loc, now) + EndOfReport
  {
    ChronologicalSorted(evidence);
  }

  /**
   * The report of a list holds the count line, the date range from the
   * date of its first item to that of its last, and the entry of every
   * item numbered by its position from 1.
   */
  lemma ReportContents(s: seq<EvidenceFile>, tone: SummaryTone, loc: Locale, now: string, k: nat)
    requires k < |s|
    ensures var r := ReportBody(s, tone, loc, now) + EndOfReport;
            && Contains(r, CountLine(|s|))
            && Contains(r, RangeLine(loc.formatDateShort(s[0].timestamp), loc.formatDateShort(s[|s| - 1].timestamp)))
            && Contains(r, Entry(k + 1, s[k], loc))
  {
    assert Contains(Timeline(s, loc), Entry(k + 1, s[k], loc)) by { NumberedContains(s, 1, EntryOf(loc), k); }
    ReportShape(s, tone, loc, now, s[0].timestamp, s[|s| - 1].timestamp);
    ReportLines(Header(tone),
                Overview(tone, |s|, loc.formatDateShort(s[0].timestamp), loc.formatDateShort(s[|s| - 1].timestamp)),
                TimelineHeader(tone), |s|, loc.formatDateShort(s[0].timestamp), loc.formatDateShort(s[|s| - 1].timestamp),
                now, Timeline(s, loc), Closing(tone), Entry(k + 1, s[k], loc));
  }

  /** A report holds its count line, its date range line and whatever its timeline holds. */
  lemma ReportLines(header: string, overview: string, timelineHeader: string, count: nat,
                    firstDate: string, lastDate: string, now: string, timeline: string, closing: string, entry: string)
    requires Contains(timeline, entry)
    ensures var r := WithClosing(Preamble(header, overview, timelineHeader, count, firstDate, lastDate, now) + timeline, closing)
                     + EndOfReport;
            Contains(r, CountLine(count)) && Contains(r, RangeLine(firstDate, lastDate)) && Contains(r, entry)
  {
    var p := Preamble(header, overview, timelineHeader, count, firstDate, lastDate, now);
    PreambleLines(header, overview, timelineHeader, count, firstDate, lastDate, now);
    ContainsGrowRight(p, timeline, CountLine(count));
    ContainsGrowRight(p, timeline, RangeLine(firstDate, lastDate));
    ContainsGrowLeft(p, timeline, entry);
    ClosingAppendedKeeps(p + timeline, closing, CountLine(count));
    ClosingAppendedKeeps(p + timeline, closing, RangeLine(firstDate, lastDate));
    ClosingAppendedKeeps(p + timeline, closing, entry);
  }

  /** The `forEach` callback: appends the timeline entry of `item`, numbered `number`, to `summary`. */
  method AppendEntry(summary: string, number: nat, item: EvidenceFile, loc: Locale) returns (r: string)
    ensures r == summary + Entry(number, item, loc)
  {
    var entry := NatToString(number) + ". " + loc.formatTimestamp(item.timestamp) + "\n";
    entry := entry + ("   Type: " + TypeLabel(item.evidenceType) + "\n");
    entry := entry + ("   Title: " + item.title + "\n");
    ghost var head := entry;
    if !IsBlank(item.description) {
      var desc := Substring(item.description, DescriptionLimit);
      entry := entry + ("   Description: " + (desc + (if |item.description| > DescriptionLimit then "..." else "")) + "\n");
      assert entry == head + DescriptionLine(item.description);
    } else {
      entry := entry + NoDescription;
      assert entry == head + DescriptionLine(item.description);
    }
    entry := entry + "\n";
    r := summary + entry;
  }

  /** The appends of the report's lines up to the first timeline entry. */
  method WriteHeading(tone: SummaryTone, totalCount: nat, firstDate: string, lastDate: string, now: string)
    returns (summary: string)
    ensures summary == Preamble(Header(tone), Overview(tone, totalCount, firstDate, lastDate), TimelineHeader(tone),
                                totalCount, firstDate, lastDate, now)
  {
    summary := Header(tone) + "\n";
    summary := summary + ("Generated: " + now + "\n");
    summary := summary + "\n";
    summary := summary + "OVERVIEW\n";
    summary := summary + "========\n";
    summary := summary + ("Total Evidence Items: " + NatToString(totalCount) + "\n");
    summary := summary + ("Date Range: " + firstDate + " to " + lastDate + "\n");
    summary := summary + "\n";
    summary := summary + (Overview(tone, totalCount, firstDate, lastDate) + "\n");
    summary := summary + "\n";
    summary := summary + (TimelineHeader(tone) + "\n");
    summary := summary + (Repeat('=', |TimelineHeader(tone)|) + "\n\n");

  }

  /**
   * The generator's appends after the heading lines: one timeline entry
   * per item in turn, the SUMMARY section when the tone has a closing
   * text, and the trailer.
   */
  method WriteTimeline(heading: string, sorted: seq<EvidenceFile>, tone: SummaryTone, loc: Locale) returns (summary: string)
    ensures summary == WithClosing(heading + Timeline(sorted, loc), Closing(tone)) + EndOfReport
  {
    summary := heading;
    var i := 0;
    assert sorted[..0] == [];
    while i < |sorted|
      invariant 0 <= i <= |sorted|
      invariant summary == heading + Timeline(sorted[..i], loc)
    {
      summary := AppendEntry(summary, i + 1, sorted[i], loc);
      assert Timeline(sorted[..i + 1], loc) == Timeline(sorted[..i], loc) + Entry(i + 1, sorted[i], loc) by {
        NumberedPrefixSnoc(sorted, i, 1, EntryOf(loc));
      }
      AppendAssoc(heading, Timeline(sorted[..i], loc), Entry(i + 1, sorted[i], loc));
      i := i + 1;
    }
    assert sorted[..i] == sorted;
    summary := WriteClosing(summary, tone);
  }

  /** The SUMMARY section, when the tone has a closing text, then the trailer. */
  method WriteClosing(text: string, tone: SummaryTone) returns (summary: string)
    ensures summary == WithClosing(text, Closing(tone)) + EndOfReport
  {
    summary := text;
    var closingText := Closing(tone);
    if closingText != [] {
      summary := summary + "SUMMARY\n";
      summary := summary + "=======\n";
      summary := summary + (closingText + "\n");
      summary := summary + "\n";
    }
    summary := summary + EndOfReport;
  }

  /**
   * `generateEvidenceSummary`: the empty case, then a sorted copy, the
   * dates of its first and last items, and the appends of the report.
   */
  method GenerateEvidenceSummary(evidence: seq<EvidenceFile>, tone: SummaryTone, loc: Locale, now: string)
    returns (summary: string)
    ensures summary == Summary(evidence, tone, loc, now)
  {
    if |evidence| == 0 {
      return EmptyEvidenceText;
    }
    ChronologicalSorted(evidence);
    var sorted := Chronological(evidence);
    var firstDate := loc.formatDateShort(sorted[0].timestamp);
    var lastDate := loc.formatDateShort(sorted[|sorted| - 1].timestamp);
    var totalCount := |evidence|;
    var heading := WriteHeading(tone, totalCount, firstDate, lastDate, now);
    summary := WriteTimeline(heading, sorted, tone, loc);
    assert summary == ReportBody(sorted, tone, loc, now) + EndOfReport by {
      ReportShape(sorted, tone, loc, now, sorted[0].timestamp, sorted[|sorted| - 1].timestamp);
    }
  }
}

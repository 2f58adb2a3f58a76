/**
 * The police report: an optional header addressed to the chosen police
 * department, then the incident summary, a rule of sixty `=` characters,
 * and the evidence summary.
 */
module PoliceReport {
  import opened Wrappers
  import opened Text
  import opened Sequences
  import opened Backend
  import opened DateTime
  import IncidentSummary
  import EvidenceSummary

  const Title := "POLICE REPORT SUBMISSION\n"
  const TitleRule := "========================\n\n"
  /** `'='.repeat(60)`. */
  const Rule := Repeat('=', 60)
  /** What separates the incident summary from the evidence summary. */
  const SectionBreak := "\n" + Rule + "\n\n"

  /** A contact detail of the department: its label and its value. */
  type Contact = (string, string)

  /** The contact details in the order the header lists them. */
  function ContactFields(d: PoliceDepartment): seq<Contact> {
    [("Address: ", d.address), ("Phone: ", d.phone), ("Website: ", d.website)]
  }

  /** A detail is printed when its value is a non-empty string. */
  predicate Present(c: Contact) {
    c.1 != ""
  }

  function ContactLine(c: Contact): string {
    c.0 + c.1 + "\n"
  }

  /** The details that are printed, in order. */
  function ContactsShown(d: PoliceDepartment): seq<Contact> {
    Filter(ContactFields(d), Present)
  }

  function ToLine(d: PoliceDepartment): string {
    "TO: " + d.name + "\n"
  }

  function GeneratedLine(now: string): string {
    "Report Generated: " + now + "\n"
  }

  /** The header addressed to `d`, generated at `now`. */
  function DepartmentHeader(d: PoliceDepartment, now: string): string {
    Title + TitleRule + ToLine(d) + Lines(ContactsShown(d), ContactLine)
    + "\n" + GeneratedLine(now) + "\n" + (Rule + "\n\n")
  }

  /** No header when no department is selected. */
  function Header(dept: Option<PoliceDepartment>, now: string): string {
    if dept.Some? then DepartmentHeader(dept.value, now) else ""
  }

  /**
   * `generatePoliceReport(incidents, evidence, tone, dept)`, with `now` as
   * the text of every clock reading.
   */
  function Report(incidents: seq<Incident>, evidence: seq<EvidenceFile>, tone: EvidenceSummary.SummaryTone,
                  dept: Option<PoliceDepartment>, loc: Locale, now: string): (r: string)
    ensures StartsWith(r, Header(dept, now)) && EndsWith(r, EvidenceSummary.Summary(evidence, tone, loc, now))
  {
    var h, i, e := Header(dept, now), IncidentSummary.Summary(incidents, loc, now), EvidenceSummary.Summary(evidence, tone, loc, now);
    SectionsOf(h, i, SectionBreak, e);
    h + i + SectionBreak + e
  }

  /** A detail is printed exactly when its value is non-empty, and the printed ones keep their order. */
  lemma ContactsShownExactly(d: PoliceDepartment)
    ensures ("Address: ", d.address) in ContactsShown(d) <==> d.address != ""
    ensures ("Phone: ", d.phone) in ContactsShown(d) <==> d.phone != ""
    ensures ("Website: ", d.website) in ContactsShown(d) <==> d.website != ""
    ensures forall c | c in ContactsShown(d) :: c in ContactFields(d) && c.1 != ""
    ensures |ContactsShown(d)| <= 3
  {
    FilterMembers(ContactFields(d), Present);
    var f := ContactFields(d);
    assert f[0] == ("Address: ", d.address) && f[1] == ("Phone: ", d.phone) && f[2] == ("Website: ", d.website);
    assert ("Address: ", d.address) in f && ("Phone: ", d.phone) in f && ("Website: ", d.website) in f;
  }

  /** The header opens with the title and the addressee, and closes with the generation time and the rule. */
  lemma DepartmentHeaderLayout(d: PoliceDepartment, now: string)
    ensures StartsWith(DepartmentHeader(d, now), Title + TitleRule + ToLine(d))
    ensures StartsWith(DepartmentHeader(d, now), Title)
    ensures EndsWith(DepartmentHeader(d, now), "\n" + GeneratedLine(now) + "\n" + (Rule + "\n\n"))
  {
    HeaderFrame(Title + TitleRule + ToLine(d), Lines(ContactsShown(d), ContactLine), GeneratedLine(now), Rule + "\n\n");
    StartsWithTransitive(DepartmentHeader(d, now), Title + TitleRule + ToLine(d), Title);
  }

  /** The frame of a header: what comes before the contact lines and what comes after them. */
  lemma HeaderFrame(head: string, contacts: string, generated: string, rule: string)
    ensures StartsWith(head + contacts + "\n" + generated + "\n" + rule, head)
    ensures EndsWith(head + contacts + "\n" + generated + "\n" + rule, "\n" + generated + "\n" + rule)
  {
    var tail := "\n" + generated + "\n" + rule;
    assert head + contacts + "\n" + generated + "\n" + rule == head + contacts + tail;
    PartsOf(head, contacts, tail);
  }

  /** Every detail that is printed appears in the header as its own line. */
  lemma DepartmentHeaderContacts(d: PoliceDepartment, now: string, c: Contact)
    requires c in ContactsShown(d)
    ensures Contains(DepartmentHeader(d, now), ContactLine(c))
  {
    var k :| 0 <= k < |ContactsShown(d)| && ContactsShown(d)[k] == c;
    LinesContains(ContactsShown(d), ContactLine, k);
    ContainsGrowLeft(Title + TitleRule + ToLine(d), Lines(ContactsShown(d), ContactLine), ContactLine(c));
    ContainsGrowRight5(Title + TitleRule + ToLine(d) + Lines(ContactsShown(d), ContactLine),
                       "\n", GeneratedLine(now), "\n", Rule + "\n\n", "", ContactLine(c));
    assert DepartmentHeader(d, now) + "" == DepartmentHeader(d, now);
  }

  /**
   * The sections in order: the header, the incident summary right after it,
   * the section break, and the evidence summary at the end.
   */
  lemma ReportSections(incidents: seq<Incident>, evidence: seq<EvidenceFile>, tone: EvidenceSummary.SummaryTone,
                       dept: Option<PoliceDepartment>, loc: Locale, now: string)
    ensures StartsWith(Report(incidents, evidence, tone, dept, loc, now), Header(dept, now))
    ensures OccursAt(Report(incidents, evidence, tone, dept, loc, now),
                     IncidentSummary.Summary(incidents, loc, now), |Header(dept, now)|)
    ensures OccursAt(Report(incidents, evidence, tone, dept, loc, now), SectionBreak,
                     |Header(dept, now)| + |IncidentSummary.Summary(incidents, loc, now)|)
    ensures EndsWith(Report(incidents, evidence, tone, dept, loc, now), EvidenceSummary.Summary(evidence, tone, loc, now))
  {
    SectionsOf(Header(dept, now), IncidentSummary.Summary(incidents, loc, now), SectionBreak,
               EvidenceSummary.Summary(evidence, tone, loc, now));
  }

  /** Where the four parts of `h + i + b + e` lie. */
  lemma SectionsOf(h: string, i: string, b: string, e: string)
    ensures StartsWith(h + i + b + e, h)
    ensures OccursAt(h + i + b + e, i, |h|)
    ensures OccursAt(h + i + b + e, b, |h| + |i|)
    ensures EndsWith(h + i + b + e, e)
  {
    var r := h + i + b + e;
    assert r[..|h|] == h;
    assert r[|h|..|h| + |i|] == i;
    assert r[|h| + |i|..|h| + |i| + |b|] == b;
    assert r[|r| - |e|..] == e;
  }

  /** The report opens with the submission title exactly when a department is selected. */
  lemma TitleIffDepartment(incidents: seq<Incident>, evidence: seq<EvidenceFile>, tone: EvidenceSummary.SummaryTone,
                           dept: Option<PoliceDepartment>, loc: Locale, now: string)
    ensures StartsWith(Report(incidents, evidence, tone, dept, loc, now), Title) <==> dept.Some?
  {
    IncidentSummary.SummaryFirst(incidents, loc, now);
    HeaderDecides(dept, now, IncidentSummary.Summary(incidents, loc, now),
                  SectionBreak + EvidenceSummary.Summary(evidence, tone, loc, now));
    AppendAssoc(Header(dept, now) + IncidentSummary.Summary(incidents, loc, now), SectionBreak,
                EvidenceSummary.Summary(evidence, tone, loc, now));
  }

  /** Text after the header that does not start with `P` leaves the header to decide the title. */
  lemma HeaderDecides(dept: Option<PoliceDepartment>, now: string, s: string, rest: string)
    requires |s| > 0 && s[0] != 'P'
    ensures StartsWith(Header(dept, now) + s + rest, Title) <==> dept.Some?
  {
    if dept.Some? {
      DepartmentHeaderLayout(dept.value, now);
    }
    SectionsOf(Header(dept, now), s, rest, "");
    assert Header(dept, now) + s + rest + "" == Header(dept, now) + s + rest;
    PrefixDecides(Header(dept, now) + s + rest, Header(dept, now), s, Title);
  }

  /** Whether `r = h + s + …` starts with `p` is decided by `h` when `s` starts with another character than `p`. */
  lemma PrefixDecides(r: string, h: string, s: string, p: string)
    requires StartsWith(r, h) && OccursAt(r, s, |h|)
    requires |p| > 0 && |s| > 0 && s[0] != p[0]
    requires h == "" || StartsWith(h, p)
    ensures StartsWith(r, p) <==> h != ""
  {
    if h != "" {
      assert r[..|p|] == h[..|p|];
    } else {
      assert r[0] == s[0];
    }
  }

  /**
   * Without a department the report is the incident summary, the rule of
   * sixty `=` between line breaks, and the evidence summary in the given tone.
   */
  lemma NoDepartment(incidents: seq<Incident>, evidence: seq<EvidenceFile>, tone: EvidenceSummary.SummaryTone,
                     loc: Locale, now: string)
    ensures Report(incidents, evidence, tone, None, loc, now)
            == IncidentSummary.Summary(incidents, loc, now) + "\n" + Rule + "\n\n" + EvidenceSummary.Summary(evidence, tone, loc, now)
    ensures |Rule| == 60 && forall i | 0 <= i < 60 :: Rule[i] == '='
  {
    assert Header(None, now) == "";
    JoinedWithoutHeader(IncidentSummary.Summary(incidents, loc, now), EvidenceSummary.Summary(evidence, tone, loc, now));
  }

  lemma JoinedWithoutHeader(incidentText: string, evidenceText: string)
    ensures "" + incidentText + SectionBreak + evidenceText == incidentText + "\n" + Rule + "\n\n" + evidenceText
  {
    assert "" + incidentText == incidentText;
  }

  /** With nothing recorded and no department, the report joins the two "nothing to summarize" texts. */
  lemma EmptyReport(tone: EvidenceSummary.SummaryTone, loc: Locale, now: string)
    ensures Report([], [], tone, None, loc, now)
            == IncidentSummary.EmptyIncidentsText + SectionBreak + EvidenceSummary.EmptyEvidenceText
  {
    assert Header(None, now) == "";
    assert "" + IncidentSummary.EmptyIncidentsText == IncidentSummary.EmptyIncidentsText;
  }

  /** The header, appended piece by piece. */
  method WriteDepartmentHeader(d: PoliceDepartment, now: string) returns (report: string)
    ensures report == DepartmentHeader(d, now)
  {
    report := "";
    report := report + Title;
    report := report + TitleRule;
    report := report + ToLine(d);
    assert report == Title + TitleRule + ToLine(d);
    report := WriteContacts(report, d);
    report := report + "\n";
    report := report + GeneratedLine(now);
    report := report + "\n";
    report := report + (Rule + "\n\n");
  }

  /** The three optional detail lines, each appended when its value is non-empty. */
  method WriteContacts(report0: string, d: PoliceDepartment) returns (report: string)
    ensures report == report0 + Lines(ContactsShown(d), ContactLine)
  {
    ghost var a := if d.address != "" then ContactLine(("Address: ", d.address)) else "";
    ghost var p := if d.phone != "" then ContactLine(("Phone: ", d.phone)) else "";
    ghost var w := if d.website != "" then ContactLine(("Website: ", d.website)) else "";
    report := report0;
    if d.address != "" {
      report := report + ContactLine(("Address: ", d.address));
    } else {
      assert report == report0 + a;
    }
    if d.phone != "" {
      report := report + ContactLine(("Phone: ", d.phone));
    } else {
      assert report == report0 + a + p;
    }
    if d.website != "" {
      report := report + ContactLine(("Website: ", d.website));
    } else {
      assert report == report0 + a + p + w;
    }
    ShownContactLines(d);
    AppendAssoc(report0, a, p);
    AppendAssoc(report0, a + p, w);
  }

  /** The printed details as the three `if`s append them. */
  lemma ShownContactLines(d: PoliceDepartment)
    ensures Lines(ContactsShown(d), ContactLine)
            == (if d.address != "" then ContactLine(("Address: ", d.address)) else "")
               + (if d.phone != "" then ContactLine(("Phone: ", d.phone)) else "")
               + (if d.website != "" then ContactLine(("Website: ", d.website)) else "")
  {
    var f := ContactFields(d);
    assert f == [f[0]] + [f[1]] + [f[2]];
    var a := if Present(f[0]) then [f[0]] else [];
    var p := if Present(f[1]) then [f[1]] else [];
    var w := if Present(f[2]) then [f[2]] else [];
    FilterSnoc([f[0]] + [f[1]], f[2], Present);
    FilterSnoc([f[0]], f[1], Present);
    FilterSnoc([], f[0], Present);
    assert [] + [f[0]] == [f[0]];
    assert ContactsShown(d) == a + p + w;
    LinesOfThree(a, p, w);
  }

  /** The lines of at most three optional details. */
  lemma LinesOfThree(a: seq<Contact>, p: seq<Contact>, w: seq<Contact>)
    requires |a| <= 1 && |p| <= 1 && |w| <= 1
    ensures Lines(a + p + w, ContactLine)
            == (if a == [] then "" else ContactLine(a[0]))
               + (if p == [] then "" else ContactLine(p[0]))
               + (if w == [] then "" else ContactLine(w[0]))
  {
    LinesAppend(a + p, w);
    LinesAppend(a, p);
    LinesOne(a);
    LinesOne(p);
    LinesOne(w);
  }

  lemma LinesOne(a: seq<Contact>)
    requires |a| <= 1
    ensures Lines(a, ContactLine) == if a == [] then "" else ContactLine(a[0])
  {
    if a != [] {
      assert a[1..] == [];
      assert ContactLine(a[0]) + "" == ContactLine(a[0]);
    }
  }

  lemma {:induction false} LinesAppend(a: seq<Contact>, b: seq<Contact>)
    ensures Lines(a + b, ContactLine) == Lines(a, ContactLine) + Lines(b, ContactLine)
    decreases |a|
  {
    if a == [] {
      assert a + b == b;
    } else {
      assert (a + b)[1..] == a[1..] + b;
      LinesAppend(a[1..], b);
    }
  }

  /** `generatePoliceReport`: the optional header, then the two summaries with the break between them. */
  method GeneratePoliceReport(incidents: seq<Incident>, evidence: seq<EvidenceFile>, tone: EvidenceSummary.SummaryTone,
                              dept: Option<PoliceDepartment>, loc: Locale, now: string)
    returns (report: string)
    ensures report == Report(incidents, evidence, tone, dept, loc, now)
  {
    report := "";
    if dept.Some? {
      report := WriteDepartmentHeader(dept.value, now);
    }
    var incidentSummary := IncidentSummary.GenerateIncidentSummary(incidents, loc, now);
    report := report + incidentSummary;
    report := report + SectionBreak;
    var evidenceSummary := EvidenceSummary.GenerateEvidenceSummary(evidence, tone, loc, now);
    report := report + evidenceSummary;
  }
}

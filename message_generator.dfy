/**
 * The cease-and-desist message: one fixed template per tone, each with one
 * optional slot that mentions an incident reference. The slot is filled
 * when a reference is given and is not the empty string, and is left out
 * otherwise.
 *
 * The template texts are written in short pieces, which keeps the
 * verifier's work on them small; the facts that hold for every template are
 * proved once for an arbitrary `Template`.
 */
module MessageGenerator {
  import opened Wrappers
  import opened Text

  datatype MessageTone = Calm | Firm | Severe | VeryHarsh

  /**
   * A template: its first line, the rest of the text before the slot, the
   * slot's text before and after the reference, and the text after the slot.
   */
  datatype Template = Template(firstLine: string, body: string, lead: string, tail: string, closing: string)
  {
    /** The text before the slot. */
    function Opening(): string {
      firstLine + body
    }
  }

  const SevereHeadline := "CEASE AND " + "DESIST - FINAL " + "WARNING"
  const VeryHarshHeadline := "FINAL NOTICE - " + "CRIMINAL " + "CHARGES " + "PENDING"

  /** The calm template (messageGenerator.ts lines 7-11). */
  function CalmTemplate(): Template {
    Template(
      "I am writing to " + "formally " + "request that " + "you cease all " + "contact with me " +
      "immediately.",
      "\n\nYour " +
      "continued " + "attempts to " + "contact me are " + "unwanted and " + "unwelcome. I " +
      "have documented " + "all incidents " + "and am prepared " + "to take legal " + "action if this " +
      "behavior " + "continues.\n\n",
      "Reference: ",
      "\n\n",
      "Please respect " + "my request for " + "no further " + "contact.")
  }

  /** The firm template (messageGenerator.ts lines 13-19). */
  function FirmTemplate(): Template {
    Template(
      "This is a " + "formal cease " + "and desist " + "notice.",
      "\n\nYou are " +
      "hereby directed " + "to immediately " + "stop all " + "contact, " + "communication, " +
      "and " + "surveillance of " + "me. Your " + "behavior " + "constitutes " +
      "harassment and " + "stalking under " + "the law.\n\n",
      "I have " + "documented this " + "pattern of " + "behavior, " + "including: ",
      "\n\n",
      "Every incident " + "has been " + "recorded with " + "dates, times, " + "and evidence. I " +
      "am prepared to " + "file for a " + "restraining " + "order and press " + "criminal " +
      "charges. Law " + "enforcement " + "will be " + "notified of any " + "further " +
      "violations.\n\n" +
      "This is your " + "only warning. " + "Do not contact " + "me again.")
  }

  /** The severe template (messageGenerator.ts lines 21-34). */
  function SevereTemplate(): Template {
    Template(
      SevereHeadline,
      "\n\nYour stalking " +
      "and harassment " + "ends " + "immediately.\n\n",
      "Your actions " + "documented in ",
      " and other " + "incidents " + "constitute " + "criminal " + "behavior under " +
      "stalking and " + "harassment " + "statutes.\n\n",
      "I have compiled " + "extensive " + "evidence of " + "your stalking " + "behavior and am " +
      "working with " + "law " + "enforcement. " + "You have " + "violated my " +
      "boundaries " + "repeatedly and " + "your actions " + "are illegal.\n\n" +
      "If you make any " + "further attempt " + "to contact, " + "follow, or " + "surveil me, I " +
      "will " + "immediately:\n\n" +
      "1. File for an " + "emergency " + "restraining " + "order\n2. Press " +
      "criminal " + "charges for " + "stalking and " + "harassment\n3. " +
      "Provide all " + "evidence to " + "prosecutors\n4. " +
      "Pursue maximum " + "penalties " + "available under " + "law\n\nYour " +
      "behavior is " + "unacceptable " + "and criminal. " + "This is your " + "final warning. " +
      "Any further " + "contact will " + "result in " + "immediate legal " + "action and " +
      "criminal " + "prosecution.")
  }

  /** The very harsh template (messageGenerator.ts lines 36-56). */
  function VeryHarshTemplate(): Template {
    Template(
      VeryHarshHeadline,
      "\n\nYour stalking " +
      "ends NOW. There " + "will be " + "consequences.\n\n",
      "",
      " is one of many " + "documented " + "incidents of " + "your criminal " + "stalking " +
      "behavior.\n\n",
      "I have " + "maintained " + "detailed " + "records of " + "every single " +
      "incident you " + "have " + "perpetrated - " + "dates, times, " + "locations, " +
      "witnesses, and " + "physical " + "evidence. Law " + "enforcement has " + "been notified " +
      "and is " + "reviewing your " + "pattern of " + "criminal " + "behavior.\n\nYou " +
      "have repeatedly " + "violated my " + "boundaries and " + "my rights. Your " + "actions are " +
      "criminal " + "stalking and " + "harassment. I " + "will not " + "tolerate one " +
      "more second of " + "your behavior.\n\n" +
      "If you contact " + "me, approach " + "me, follow me, " + "or surveil me " + "in any way " +
      "after receiving " + "this message, I " + "will:\n\n\U{2022} " +
      "Immediately " + "file criminal " + "charges with " + "the district " + "attorney\n\U{2022} " +
      "Obtain an " + "emergency " + "protective " + "order\n\U{2022} Provide " +
      "prosecutors " + "with all " + "evidence for " + "maximum charges\n" +
      "\U{2022} Testify in " + "court to ensure " + "you face the " + "full legal " + "consequences\n\U{2022} " +
      "Pursue every " + "available civil " + "remedy for " + "damages\n\nI am " +
      "documenting " + "this warning. " + "You are on " + "notice that " + "your criminal " +
      "behavior has " + "been reported " + "and any further " + "violation will " + "result in your " +
      "arrest and " + "prosecution.\n\n" +
      "You will be " + "held " + "accountable. " + "Stay away from " + "me permanently, " +
      "or you will " + "face jail " + "time.\n\nThis is " +
      "not a request. " + "This is a legal " + "warning that " + "you are " + "committing " +
      "crimes and will " + "be prosecuted.")
  }

  function TemplateOf(tone: MessageTone): Template {
    match tone
    case Calm => CalmTemplate()
    case Firm => FirmTemplate()
    case Severe => SevereTemplate()
    case VeryHarsh => VeryHarshTemplate()
  }

  /** A reference fills the slot when it is given and is not empty (JavaScript truthiness). */
  predicate Fills(reference: Option<string>) {
    reference.Some? && reference.value != ""
  }

  /** The filled slot. */
  function SlotText(t: Template, reference: string): string {
    t.lead + reference + t.tail
  }

  /** A template with its slot filled by the reference, or left out. */
  function Fill(t: Template, reference: Option<string>): string {
    t.Opening() + (if Fills(reference) then SlotText(t, reference.value) else "") + t.closing
  }

  /** `generateMessage(tone, incidentReference)`. */
  function GenerateMessage(tone: MessageTone, reference: Option<string>): (r: string)
    ensures StartsWith(r, TemplateOf(tone).firstLine) && EndsWith(r, TemplateOf(tone).closing)
  {
    FillFrame(TemplateOf(tone), reference);
    Fill(TemplateOf(tone), reference)
  }

  // Facts that hold for every template.

  /** Without a reference a message is its template's fixed text. */
  lemma Unfilled(t: Template, reference: Option<string>)
    requires !Fills(reference)
    ensures Fill(t, reference) == t.Opening() + t.closing
  {
    assert t.Opening() + "" == t.Opening();
  }

  /** An empty reference leaves the slot out, as no reference does. */
  lemma EmptyReference(t: Template)
    ensures Fill(t, Some("")) == Fill(t, None) == t.Opening() + t.closing
  {
    Unfilled(t, Some(""));
    Unfilled(t, None);
  }

  /** Every message opens with its template's first line and opening, and ends with its closing. */
  lemma FillFrame(t: Template, reference: Option<string>)
    ensures StartsWith(Fill(t, reference), t.Opening())
    ensures StartsWith(Fill(t, reference), t.firstLine)
    ensures EndsWith(Fill(t, reference), t.closing)
  {
    var o := t.Opening();
    var s := if Fills(reference) then SlotText(t, reference.value) else "";
    var m := o + s + t.closing;
    assert Fill(t, reference) == m;
    assert m[..|o|] == o;
    assert m[..|t.firstLine|] == o[..|t.firstLine|] == t.firstLine;
    assert m[|m| - |t.closing|..] == t.closing;
  }

  /**
   * With and without a reference the messages differ only by the filled
   * slot, which sits right after the opening: cutting it out gives the
   * message without a reference.
   */
  lemma SlotAtFixedPosition(t: Template, reference: string)
    requires reference != ""
    ensures var m := Fill(t, Some(reference));
            var n := |t.Opening()|;
            && OccursAt(m, SlotText(t, reference), n)
            && m[..n] + m[n + |SlotText(t, reference)|..] == Fill(t, None)
  {
    var o, s, c := t.Opening(), SlotText(t, reference), t.closing;
    Unfilled(t, None);
    assert Fill(t, Some(reference)) == o + s + c;
    assert (o + s + c)[..|o|] == o;
    assert (o + s + c)[|o|..|o| + |s|] == s;
    assert (o + s + c)[|o| + |s|..] == c;
  }

  /** A non-empty reference is quoted verbatim, right after the slot's lead-in. */
  lemma ReferenceVerbatim(t: Template, reference: string)
    requires reference != ""
    ensures OccursAt(Fill(t, Some(reference)), t.lead + reference, |t.Opening()|)
    ensures OccursAt(Fill(t, Some(reference)), reference, |t.Opening()| + |t.lead|)
  {
    var o, l, r, c := t.Opening(), t.lead, t.tail, t.closing;
    assert Fill(t, Some(reference)) == o + (l + reference + r) + c;
    assert (o + (l + reference + r) + c)[|o|..|o| + |l| + |reference|] == l + reference;
    assert (o + (l + reference + r) + c)[|o| + |l|..|o| + |l| + |reference|] == reference;
  }

  /** So a filled slot puts the reference, with and without its lead-in, into the message. */
  lemma FillQuotes(t: Template, reference: string)
    requires reference != ""
    ensures Contains(Fill(t, Some(reference)), t.lead + reference)
    ensures Contains(Fill(t, Some(reference)), reference)
  {
    ReferenceVerbatim(t, reference);
    OccursContains(Fill(t, Some(reference)), t.lead + reference, |t.Opening()|);
    OccursContains(Fill(t, Some(reference)), reference, |t.Opening()| + |t.lead|);
  }

  lemma OccursContains(s: string, sub: string, i: int)
    requires OccursAt(s, sub, i)
    ensures Contains(s, sub)
  {
  }

  /** Templates whose first lines open with different characters never give the same message. */
  lemma FillsDiffer(t1: Template, r1: Option<string>, c1: char, t2: Template, r2: Option<string>, c2: char)
    requires StartsWith(t1.firstLine, [c1]) && StartsWith(t2.firstLine, [c2]) && c1 != c2
    ensures Fill(t1, r1) != Fill(t2, r2)
  {
    FillFrame(t1, r1);
    FillFrame(t2, r2);
    StartsWithTransitive(Fill(t1, r1), t1.firstLine, [c1]);
    StartsWithTransitive(Fill(t2, r2), t2.firstLine, [c2]);
    assert Fill(t1, r1)[0] == c1 && Fill(t2, r2)[0] == c2;
  }

  /** A character that never occurs rules out every text starting with it. */
  lemma AbsentChar(s: string, sub: string)
    requires |sub| > 0 && Lacks(s, sub[0])
    ensures !Contains(s, sub)
  {
    forall i | 0 <= i <= |s| ensures !OccursAt(s, sub, i) {
      if 0 <= i <= |s| - |sub| {
        assert s[i..i + |sub|][0] == s[i];
      }
    }
  }

  // The four templates.

  /** For every tone, a non-empty reference appears in the message, preceded by the tone's lead-in. */
  lemma MessageQuotesReference(tone: MessageTone, reference: string)
    requires reference != ""
    ensures Contains(GenerateMessage(tone, Some(reference)), TemplateOf(tone).lead + reference)
    ensures Contains(GenerateMessage(tone, Some(reference)), reference)
  {
    FillQuotes(TemplateOf(tone), reference);
  }

  lemma CalmStarts() ensures StartsWith(CalmTemplate().firstLine, ['I']) { }
  lemma FirmStarts() ensures StartsWith(FirmTemplate().firstLine, ['T']) { }
  lemma SevereStarts() ensures StartsWith(SevereTemplate().firstLine, ['C']) { }
  lemma VeryHarshStarts() ensures StartsWith(VeryHarshTemplate().firstLine, ['F']) { }

  lemma CalmFirm(r1: Option<string>, r2: Option<string>)
    ensures GenerateMessage(Calm, r1) != GenerateMessage(Firm, r2)
  {
    CalmStarts();
    FirmStarts();
    FillsDiffer(CalmTemplate(), r1, 'I', FirmTemplate(), r2, 'T');
  }

  lemma CalmVeryHarsh(r1: Option<string>, r2: Option<string>)
    ensures GenerateMessage(Calm, r1) != GenerateMessage(VeryHarsh, r2)
  {
    CalmStarts();
    VeryHarshStarts();
    FillsDiffer(CalmTemplate(), r1, 'I', VeryHarshTemplate(), r2, 'F');
  }

  lemma CalmSevere(r1: Option<string>, r2: Option<string>)
    ensures GenerateMessage(Calm, r1) != GenerateMessage(Severe, r2)
  {
    CalmStarts();
    SevereStarts();
    FillsDiffer(CalmTemplate(), r1, 'I', SevereTemplate(), r2, 'C');
  }

  lemma FirmSevere(r1: Option<string>, r2: Option<string>)
    ensures GenerateMessage(Firm, r1) != GenerateMessage(Severe, r2)
  {
    FirmStarts();
    SevereStarts();
    FillsDiffer(FirmTemplate(), r1, 'T', SevereTemplate(), r2, 'C');
  }

  lemma FirmVeryHarsh(r1: Option<string>, r2: Option<string>)
    ensures GenerateMessage(Firm, r1) != GenerateMessage(VeryHarsh, r2)
  {
    FirmStarts();
    VeryHarshStarts();
    FillsDiffer(FirmTemplate(), r1, 'T', VeryHarshTemplate(), r2, 'F');
  }

  lemma SevereVeryHarsh(r1: Option<string>, r2: Option<string>)
    ensures GenerateMessage(Severe, r1) != GenerateMessage(VeryHarsh, r2)
  {
    SevereStarts();
    VeryHarshStarts();
    FillsDiffer(SevereTemplate(), r1, 'C', VeryHarshTemplate(), r2, 'F');
  }

  /** Each tone has its own template: two tones never give the same message, whatever the references. */
  lemma TonesDiffer(t1: MessageTone, r1: Option<string>, t2: MessageTone, r2: Option<string>)
    requires t1 != t2
    ensures GenerateMessage(t1, r1) != GenerateMessage(t2, r2)
  {
    match (t1, t2)
    case (Calm, Firm) => CalmFirm(r1, r2);
    case (Calm, Severe) => CalmSevere(r1, r2);
    case (Calm, VeryHarsh) => CalmVeryHarsh(r1, r2);
    case (Firm, Severe) => FirmSevere(r1, r2);
    case (Firm, VeryHarsh) => FirmVeryHarsh(r1, r2);
    case (Severe, VeryHarsh) => SevereVeryHarsh(r1, r2);
    case (Firm, Calm) => CalmFirm(r2, r1);
    case (Severe, Calm) => CalmSevere(r2, r1);
    case (VeryHarsh, Calm) => CalmVeryHarsh(r2, r1);
    case (Severe, Firm) => FirmSevere(r2, r1);
    case (VeryHarsh, Firm) => FirmVeryHarsh(r2, r1);
    case (VeryHarsh, Severe) => SevereVeryHarsh(r2, r1);
  }

  /** The severe tone opens with its headline. */
  lemma SevereHeadlineFirst(reference: Option<string>)
    ensures StartsWith(GenerateMessage(Severe, reference), SevereHeadline)
  {
    FillFrame(SevereTemplate(), reference);
  }

  /** The very harsh tone opens with its headline. */
  lemma VeryHarshHeadlineFirst(reference: Option<string>)
    ensures StartsWith(GenerateMessage(VeryHarsh, reference), VeryHarshHeadline)
  {
    FillFrame(VeryHarshTemplate(), reference);
  }

  /** The character `c` occurs nowhere in `s`. */
  predicate Lacks(s: string, c: char) {
    forall i | 0 <= i < |s| :: s[i] != c
  }

  lemma LacksAppend(a: string, b: string, c: char)
    requires Lacks(a, c) && Lacks(b, c)
    ensures Lacks(a + b, c)
  {
    forall i | 0 <= i < |a + b| ensures (a + b)[i] != c {
      if i >= |a| {
        assert (a + b)[i] == b[i - |a|];
      }
    }
  }

  lemma CalmFirstLineLacksR()
    ensures Lacks(CalmTemplate().firstLine, 'R')
  {
    var s := "I am writing to ";
    LacksAppend(s, "formally ", 'R'); s := s + "formally ";
    LacksAppend(s, "request that ", 'R'); s := s + "request that ";
    LacksAppend(s, "you cease all ", 'R'); s := s + "you cease all ";
    LacksAppend(s, "contact with me ", 'R'); s := s + "contact with me ";
    LacksAppend(s, "immediately.", 'R'); s := s + "immediately.";
  }

  lemma CalmBodyLacksR()
    ensures Lacks(CalmTemplate().body, 'R')
  {
    var s := "\n\nYour ";
    LacksAppend(s, "continued ", 'R'); s := s + "continued ";
    LacksAppend(s, "attempts to ", 'R'); s := s + "attempts to ";
    LacksAppend(s, "contact me are ", 'R'); s := s + "contact me are ";
    LacksAppend(s, "unwanted and ", 'R'); s := s + "unwanted and ";
    LacksAppend(s, "unwelcome. I ", 'R'); s := s + "unwelcome. I ";
    LacksAppend(s, "have documented ", 'R'); s := s + "have documented ";
    LacksAppend(s, "all incidents ", 'R'); s := s + "all incidents ";
    LacksAppend(s, "and am prepared ", 'R'); s := s + "and am prepared ";
    LacksAppend(s, "to take legal ", 'R'); s := s + "to take legal ";
    LacksAppend(s, "action if this ", 'R'); s := s + "action if this ";
    LacksAppend(s, "behavior ", 'R'); s := s + "behavior ";
    LacksAppend(s, "continues.\n\n", 'R'); s := s + "continues.\n\n";
  }

  lemma CalmClosingLacksR()
    ensures Lacks(CalmTemplate().closing, 'R')
  {
    var s := "Please respect ";
    LacksAppend(s, "my request for ", 'R'); s := s + "my request for ";
    LacksAppend(s, "no further ", 'R'); s := s + "no further ";
    LacksAppend(s, "contact.", 'R'); s := s + "contact.";
  }

  lemma CalmLacksR()
    ensures Lacks(CalmTemplate().Opening() + CalmTemplate().closing, 'R')
  {
    var t := CalmTemplate();
    CalmFirstLineLacksR();
    CalmBodyLacksR();
    CalmClosingLacksR();
    LacksAppend(t.firstLine, t.body, 'R');
    LacksAppend(t.Opening(), t.closing, 'R');
  }

  /** Without a reference the calm message has no "Reference:" label: its fixed text has no capital R at all. */
  lemma CalmUnreferenced(reference: Option<string>)
    requires !Fills(reference)
    ensures !Contains(GenerateMessage(Calm, reference), "Reference:")
  {
    var t := CalmTemplate();
    Unfilled(t, reference);
    CalmLacksR();
    AbsentChar(t.Opening() + t.closing, "Reference:");
  }
}

/**
 * The message generator page: the tone preselected from the user's
 * settings, the optional incident reference, the message regenerated from
 * both, and the `sms:` link that sends it.
 */
module MessageGeneratorPage {
  import opened Wrappers
  import opened Text
  import opened Decimal
  import opened Sequences
  import opened Backend
  import opened DateTime
  import opened MessageGenerator
  import opened IncidentText
  import opened SmsLink

  /**
   * `toneMap[defaultTone] || 'firm'`: the three settings values map to
   * their tone, any other text to firm.
   */
  function MappedTone(defaultTone: string): (r: MessageTone)
    ensures r == Calm <==> defaultTone == "balanced"
    ensures r == Severe <==> defaultTone == "directSafety"
    ensures r != VeryHarsh
  {
    match defaultTone
    case "balanced" => Calm
    case "assertiveWomen" => Firm
    case "directSafety" => Severe
    case _ => Firm
  }

  /** Each settings value selects its tone. */
  lemma SettingsTones()
    ensures MappedTone(Balanced.Text()) == Calm
    ensures MappedTone(AssertiveWomen.Text()) == Firm
    ensures MappedTone(DirectSafety.Text()) == Severe
  {
  }

  /** The option value of an incident is `id.toString()`. */
  function HasIdText(selection: string): Incident -> bool {
    (i: Incident) => NatToString(i.id) == selection
  }

  /** The incident whose id text is the selection, the first one if several share it. */
  function SelectedIncident(incidents: seq<Incident>, selection: string): (r: Option<Incident>)
    ensures r.Some? ==> r.value in incidents && NatToString(r.value.id) == selection
    ensures r.Some? ==> exists k | 0 <= k < |incidents| :: incidents[k] == r.value
                          && forall j | 0 <= j < k :: NatToString(incidents[j].id) != selection
    ensures r.None? <==> forall i | i in incidents :: NatToString(i.id) != selection
  {
    var found := FindIndex(incidents, HasIdText(selection));
    assert found.Some? ==> forall j | 0 <= j < found.value :: NatToString(incidents[j].id) != selection by {
      if found.Some? {
        forall j | 0 <= j < found.value ensures NatToString(incidents[j].id) != selection {
          assert !HasIdText(selection)(incidents[j]);
        }
      }
    }
    assert found.None? ==> forall i | i in incidents :: NatToString(i.id) != selection by {
      if found.None? {
        forall i | i in incidents ensures NatToString(i.id) != selection {
          var k :| 0 <= k < |incidents| && incidents[k] == i;
          assert !HasIdText(selection)(incidents[k]);
        }
      }
    }
    Find(incidents, HasIdText(selection))
  }

  /** `incidentRef`: the formatted reference of the selected incident, or `undefined`. */
  function IncidentReference(incidents: seq<Incident>, selection: string, loc: Locale): (r: Option<string>)
    ensures r.None? <==> forall i | i in incidents :: NatToString(i.id) != selection
  {
    match SelectedIncident(incidents, selection)
    case None => None
    case Some(i) => Some(FormatIncidentReference(i, loc))
  }

  /** The "None" option has the value '', which is no incident's id text. */
  lemma NoneOptionNoReference(incidents: seq<Incident>, loc: Locale)
    ensures IncidentReference(incidents, "", loc) == None
  {
    match FindIndex(incidents, HasIdText(""))
    case None =>
    case Some(k) =>
  }

  /** With an incident selected, the message quotes its report number and title. */
  lemma MessageQuotesIncident(tone: MessageTone, incidents: seq<Incident>, selection: string, loc: Locale)
    requires SelectedIncident(incidents, selection).Some?
    ensures var i := SelectedIncident(incidents, selection).value;
            var m := GenerateMessage(tone, IncidentReference(incidents, selection, loc));
            Contains(m, i.criminalActivityReportNumber) && Contains(m, i.title)
  {
    var i := SelectedIncident(incidents, selection).value;
    var r := FormatIncidentReference(i, loc);
    assert IncidentReference(incidents, selection, loc) == Some(r);
    ReferenceQuotes(i, loc);
    QuotesVia(tone, r, i.criminalActivityReportNumber, i.title);
  }

  /** What a non-empty reference contains, the message that quotes it contains too. */
  lemma QuotesVia(tone: MessageTone, r: string, x: string, y: string)
    requires r != "" && Contains(r, x) && Contains(r, y)
    ensures Contains(GenerateMessage(tone, Some(r)), x) && Contains(GenerateMessage(tone, Some(r)), y)
  {
    MessageQuotesReference(tone, r);
    ContainsTransitive(GenerateMessage(tone, Some(r)), r, x);
    ContainsTransitive(GenerateMessage(tone, Some(r)), r, y);
  }

  /** With "None" selected, a calm message carries no reference line. */
  lemma CalmWithoutIncident(incidents: seq<Incident>, loc: Locale)
    ensures !Contains(GenerateMessage(Calm, IncidentReference(incidents, "", loc)), "Reference:")
  {
    NoneOptionNoReference(incidents, loc);
    CalmUnreferenced(None);
  }

  /** The state the page keeps. */
  class MessagePage {
    var tone: MessageTone
    var message: string
    var selectedIncidentId: string

    constructor()
      ensures tone == Firm && message == "" && selectedIncidentId == ""
    {
      tone := Firm;
      message := "";
      selectedIncidentId := "";
    }

    /** The first effect: a given default tone is mapped; without one the tone stays. */
    method ApplyDefaultTone(defaultTone: Option<string>)
      modifies this
      ensures tone == if defaultTone.Some? && defaultTone.value != "" then MappedTone(defaultTone.value) else old(tone)
      ensures message == old(message) && selectedIncidentId == old(selectedIncidentId)
    {
      if defaultTone.Some? && defaultTone.value != "" {
        var mappedTone := MappedTone(defaultTone.value);
        tone := mappedTone;
      }
    }

    /** The second effect, run whenever the tone, the selection or the incidents change. */
    method Regenerate(incidents: seq<Incident>, loc: Locale)
      modifies this`message
      ensures message == GenerateMessage(old(tone), IncidentReference(incidents, old(selectedIncidentId), loc))
    {
      var incidentRef := IncidentReference(incidents, selectedIncidentId, loc);
      message := GenerateMessage(tone, incidentRef);
    }

    /** `handleSendSms`: the link for the current message, without a recipient. */
    function SmsUrl(): string
      reads this
    {
      CreateSmsLink(message, None)
    }
  }

  /** The SMS link carries the message unchanged and no recipient. */
  lemma SmsCarriesMessage(message: string)
    ensures ParseSmsLink(CreateSmsLink(message, None)) == Some(("", message))
  {
    ParseCreate(message, None);
  }
}

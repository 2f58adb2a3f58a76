/**
 * The one-line reference to an incident that the message generator quotes:
 * "Incident Report <report number> - <title> (<formatted time>)".
 */
module IncidentText {
  import opened Text
  import opened Backend
  import opened DateTime

  const ReferencePrefix := "Incident Report "

  /** `formatIncidentReference(incident)`. */
  function FormatIncidentReference(incident: Incident, loc: Locale): (r: string)
    ensures StartsWith(r, ReferencePrefix) && EndsWith(r, ")")
  {
    var head := ReferencePrefix + incident.criminalActivityReportNumber;
    var r := head + " - " + incident.title + " (" + loc.formatTimestamp(incident.timestamp) + ")";
    assert r[..|ReferencePrefix|] == head[..|ReferencePrefix|] == ReferencePrefix;
    r
  }

  /**
   * The reference is made of its five pieces at fixed offsets: the prefix,
   * the report number right after it, the title three characters later,
   * the formatted time two characters after the title, and a closing
   * parenthesis at the very end.
   */
  lemma ReferenceLayout(incident: Incident, loc: Locale)
    ensures var r := FormatIncidentReference(incident, loc);
            var number, title, time := incident.criminalActivityReportNumber, incident.title, loc.formatTimestamp(incident.timestamp);
            && StartsWith(r, ReferencePrefix)
            && OccursAt(r, number, 16)
            && OccursAt(r, " - ", 16 + |number|)
            && OccursAt(r, title, 19 + |number|)
            && OccursAt(r, " (", 19 + |number| + |title|)
            && OccursAt(r, time, 21 + |number| + |title|)
            && EndsWith(r, ")")
            && |r| == 22 + |number| + |title| + |time|
  {
    var number, title, time := incident.criminalActivityReportNumber, incident.title, loc.formatTimestamp(incident.timestamp);
    var r := FormatIncidentReference(incident, loc);
    var a := ReferencePrefix + number;
    var b := a + " - " + title;
    var c := b + " (" + time;
    assert r == c + ")";
    assert r[..16] == ReferencePrefix by { assert r[..16] == a[..16]; }
    assert r[16..16 + |number|] == number by { assert r[16..16 + |number|] == a[16..]; }
    assert r[16 + |number|..19 + |number|] == " - " by { assert r[16 + |number|..19 + |number|] == b[|a|..|a| + 3]; }
    assert r[19 + |number|..19 + |number| + |title|] == title by { assert r[19 + |number|..19 + |number| + |title|] == b[|a| + 3..]; }
    assert r[|b|..|b| + 2] == " (" by { assert r[|b|..|b| + 2] == c[|b|..|b| + 2]; }
    assert r[|b| + 2..|b| + 2 + |time|] == time by { assert r[|b| + 2..|b| + 2 + |time|] == c[|b| + 2..]; }
    assert r[|r| - 1..] == ")";
  }

  /** The report number and the title appear verbatim in the reference. */
  lemma ReferenceQuotes(incident: Incident, loc: Locale)
    ensures FormatIncidentReference(incident, loc) != ""
    ensures Contains(FormatIncidentReference(incident, loc), incident.criminalActivityReportNumber)
    ensures Contains(FormatIncidentReference(incident, loc), incident.title)
  {
    ReferenceLayout(incident, loc);
    var r, n := FormatIncidentReference(incident, loc), |incident.criminalActivityReportNumber|;
    assert OccursAt(r, incident.criminalActivityReportNumber, 16);
    assert OccursAt(r, incident.title, 19 + n);
  }

  /** Only the report number, the title and the timestamp matter: the status, description, author and evidence do not. */
  lemma ReferenceDependsOnThreeFields(a: Incident, b: Incident, loc: Locale)
    requires a.criminalActivityReportNumber == b.criminalActivityReportNumber
    requires a.title == b.title && a.timestamp == b.timestamp
    ensures FormatIncidentReference(a, loc) == FormatIncidentReference(b, loc)
  {
  }

  /** Conversely, two incidents with report numbers of the same length get the same reference only when number, title and time text agree. */
  lemma ReferenceSeparates(a: Incident, b: Incident, loc: Locale)
    requires |a.criminalActivityReportNumber| == |b.criminalActivityReportNumber| && |a.title| == |b.title|
    requires FormatIncidentReference(a, loc) == FormatIncidentReference(b, loc)
    ensures a.criminalActivityReportNumber == b.criminalActivityReportNumber
    ensures a.title == b.title
    ensures loc.formatTimestamp(a.timestamp) == loc.formatTimestamp(b.timestamp)
  {
    ReferenceLayout(a, loc);
    ReferenceLayout(b, loc);
  }
}

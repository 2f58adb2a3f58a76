/**
 * The incident list page: the form for a new incident, the newest-first
 * list of the user's incidents and the case-insensitive search over it.
 */
module IncidentsPage {
  import opened Wrappers
  import opened Text
  import opened Sequences
  import opened Sorting
  import opened Backend

  /** What `reportIncident` is called with: the fields as typed, not trimmed. */
  datatype IncidentDraft = IncidentDraft(title: string, description: string)

  /** The comparator `Number(b.timestamp - a.timestamp)` sorts by ascending negated timestamp. */
  function NewestFirst(i: Incident): int {
    -i.timestamp
  }

  /** `sortedIncidents`: a sorted copy, newest first; equal timestamps keep their order. */
  function SortedIncidents(incidents: seq<Incident>): (r: seq<Incident>)
    ensures |r| == |incidents| && multiset(r) == multiset(incidents)
  {
    SortBy(incidents, NewestFirst)
  }

  /** `sortedIncidents` holds the same incidents, newest first, ties in their order of arrival. */
  lemma SortedIncidentsOrder(incidents: seq<Incident>)
    ensures multiset(SortedIncidents(incidents)) == multiset(incidents)
    ensures forall i, j | 0 <= i < j < |SortedIncidents(incidents)| ::
              SortedIncidents(incidents)[i].timestamp >= SortedIncidents(incidents)[j].timestamp
    ensures forall k :: WithKey(SortedIncidents(incidents), NewestFirst, k) == WithKey(incidents, NewestFirst, k)
  {
    var r := SortedIncidents(incidents);
    SortBySorted(incidents, NewestFirst);
    assert SortedBy(r, NewestFirst);
    forall k ensures WithKey(r, NewestFirst, k) == WithKey(incidents, NewestFirst, k) {
      SortByStable(incidents, NewestFirst, k);
    }
  }

  /** The search test: the lower-cased query occurs in the lower-cased title, description or report number. */
  predicate Matches(incident: Incident, query: string) {
    var q := ToLower(query);
    Contains(ToLower(incident.title), q)
    || Contains(ToLower(incident.description), q)
    || Contains(ToLower(incident.criminalActivityReportNumber), q)
  }

  function MatchesQuery(query: string): Incident -> bool {
    i => Matches(i, query)
  }

  /** `filteredIncidents`: the sorted list narrowed to the matching incidents. */
  function FilteredIncidents(incidents: seq<Incident>, query: string): (r: seq<Incident>)
    ensures |r| <= |incidents|
    ensures forall k | 0 <= k < |r| :: Matches(r[k], query)
  {
    Filter(SortedIncidents(incidents), MatchesQuery(query))
  }

  /**
   * The filtered list holds exactly the matching incidents, leaves the rest
   * of the sorted list in its order, and is itself newest first.
   */
  lemma FilteredExactly(incidents: seq<Incident>, query: string)
    ensures forall i :: i in FilteredIncidents(incidents, query) <==> i in incidents && Matches(i, query)
    ensures IsSubsequence(FilteredIncidents(incidents, query), SortedIncidents(incidents))
    ensures SortedBy(FilteredIncidents(incidents, query), NewestFirst)
  {
    var s := SortedIncidents(incidents);
    FilterMembers(s, MatchesQuery(query));
    SortedIncidentsOrder(incidents);
    forall i ensures i in s <==> i in incidents {
      assert i in s <==> i in multiset(s);
    }
    FilterSubsequence(s, MatchesQuery(query));
    SortBySorted(incidents, NewestFirst);
    FilterSorted(s, MatchesQuery(query), NewestFirst);
  }

  /** The empty query occurs in every text, so it keeps the whole sorted list. */
  lemma EmptyQueryKeepsAll(incidents: seq<Incident>)
    ensures FilteredIncidents(incidents, "") == SortedIncidents(incidents)
  {
    var s := SortedIncidents(incidents);
    forall k | 0 <= k < |s| ensures MatchesQuery("")(s[k]) {
      ContainsEmpty(ToLower(s[k].title));
    }
    FilterAll(s, MatchesQuery(""));
  }

  /** The search ignores the case of the query. */
  lemma SearchIgnoresQueryCase(incident: Incident, query: string)
    ensures Matches(incident, ToLower(query)) == Matches(incident, query)
  {
    ToLowerIdempotent(query);
  }

  /** The state the page keeps for the new-incident form. */
  class IncidentForm {
    var showForm: bool
    var title: string
    var description: string

    constructor()
      ensures !showForm && title == "" && description == ""
    {
      showForm := false;
      title := "";
      description := "";
    }

    /** The "New Incident" button. */
    method ToggleForm()
      modifies this`showForm
      ensures showForm == !old(showForm)
      ensures title == old(title) && description == old(description)
    {
      showForm := !showForm;
    }

    /**
     * `handleSubmit`. `saved` is the outcome of the backend call. Nothing is
     * sent unless both fields are non-blank; a success clears and hides the
     * form, a failure changes nothing.
     */
    method HandleSubmit(saved: bool) returns (sent: Option<IncidentDraft>)
      modifies this
      ensures sent.Some? <==> !IsBlank(old(title)) && !IsBlank(old(description))
      ensures sent.Some? ==> sent.value == IncidentDraft(old(title), old(description))
      ensures if sent.Some? && saved then title == "" && description == "" && !showForm
              else title == old(title) && description == old(description) && showForm == old(showForm)
    {
      if IsBlank(title) || IsBlank(description) {
        return None;
      }
      sent := Some(IncidentDraft(title, description));
      if saved {
        title := "";
        description := "";
        showForm := false;
      }
    }
  }
}

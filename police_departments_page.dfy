/**
 * The police departments page: the form that saves a personal department
 * (required name, success banner, delayed reset, error banner) and the
 * Google search for departments near a city and state.
 */
module PoliceDepartmentsPage {
  import opened Wrappers
  import opened Text
  import opened Sequences
  import opened GoogleSearch

  const DefaultError := "Failed to save " + "police " + "department. " + "Please try " + "again."
  const LoginError := "You must be " + "logged in " + "to save " + "police " + "departments."
  const ConnectionError := "Connection " + "error. " + "Please refresh " + "the page and " + "try again."
  const UnauthorizedMarker := "Unauthorized"
  const ActorMarker := "Actor not " + "available"
  const SearchQuery := "police " + "department"

  /** What `savePoliceDepartment` is called with: the fields as typed. */
  datatype DepartmentDraft = DepartmentDraft(name: string, address: string, phone: string, website: string)

  /** The outcome of the backend call; a failure may carry an error message. */
  datatype SaveOutcome = Saved | Failed(message: Option<string>)

  /**
   * The error text shown for a failed save: the login hint for an
   * authorisation failure, then the connection hint, then the error's own
   * message; a missing or empty message gives the default text.
   */
  function ErrorMessage(message: Option<string>): (r: string)
    ensures r != []
  {
    var errorMessage := DefaultError;
    if message.Some? && message.value != "" then
      if Contains(message.value, UnauthorizedMarker) then LoginError
      else if Contains(message.value, ActorMarker) then ConnectionError
      else message.value
    else errorMessage
  }

  /** The text shown is one of the three fixed texts or the error's own message. */
  lemma ErrorMessageSource(message: Option<string>)
    ensures var r := ErrorMessage(message);
            r == DefaultError || r == LoginError || r == ConnectionError || (message.Some? && r == message.value)
  {
  }

  /** The tests apply in order: an authorisation failure wins over a connection failure. */
  lemma ErrorPrecedence(message: string)
    ensures Contains(message, UnauthorizedMarker) ==> ErrorMessage(Some(message)) == LoginError
    ensures !Contains(message, UnauthorizedMarker) && Contains(message, ActorMarker)
            ==> ErrorMessage(Some(message)) == ConnectionError
    ensures message != "" && !Contains(message, UnauthorizedMarker) && !Contains(message, ActorMarker)
            ==> ErrorMessage(Some(message)) == message
  {
    if Contains(message, UnauthorizedMarker) || Contains(message, ActorMarker) {
      assert message != "";
    }
  }

  /** A failure without a message, or with an empty one, shows the default text. */
  lemma NoMessageDefault()
    ensures ErrorMessage(None) == ErrorMessage(Some("")) == DefaultError
  {
  }

  /** The search always asks for police departments, after the city and state given. */
  lemma DepartmentSearch(city: string, state: string)
    ensures EndsWith(SearchTerms(city, state, SearchQuery), SearchQuery)
    ensures city != "" && state != "" ==> SearchTerms(city, state, SearchQuery) == city + " " + state + " " + SearchQuery
  {
    var kept := Filter([city, state, SearchQuery], Truthy);
    KeptInputs(city, state, SearchQuery);
    var pre := (if city != "" then [city] else []) + (if state != "" then [state] else []);
    assert kept == pre + [SearchQuery];
    JoinSnoc(pre, SearchQuery, " ");
    if city != "" && state != "" {
      AllInputs(city, state, SearchQuery);
    }
  }

  /** Joining with one more part at the end ends with that part. */
  lemma {:induction false} JoinSnoc(parts: seq<string>, last: string, sep: string)
    ensures EndsWith(Join(parts + [last], sep), last)
    decreases |parts|
  {
    var j := Join(parts + [last], sep);
    if parts == [] {
      assert parts + [last] == [last];
    } else {
      var rest := Join(parts[1..] + [last], sep);
      assert (parts + [last])[1..] == parts[1..] + [last];
      assert j == parts[0] + sep + rest;
      JoinSnoc(parts[1..], last, sep);
      assert j[|j| - |last|..] == rest[|rest| - |last|..];
    }
  }

  /** The state the page keeps for the department form and the search box. */
  class DepartmentForm {
    var showForm: bool
    var name: string
    var address: string
    var phone: string
    var website: string
    var searchCity: string
    var searchState: string
    var saveError: Option<string>
    var saveSuccess: bool

    constructor()
      ensures !showForm && name == "" && address == "" && phone == "" && website == ""
      ensures searchCity == "" && searchState == "" && saveError == None && !saveSuccess
    {
      showForm := false;
      name, address, phone, website := "", "", "", "";
      searchCity, searchState := "", "";
      saveError := None;
      saveSuccess := false;
    }

    /** The URL `handleGoogleSearch` opens. */
    function SearchLink(): string
      reads this
    {
      SearchUrl(searchCity, searchState, SearchQuery)
    }

    /** The "Add Department" button. */
    method ToggleForm()
      modifies this`showForm
      ensures showForm == !old(showForm)
      ensures name == old(name) && address == old(address) && phone == old(phone) && website == old(website)
      ensures saveError == old(saveError) && saveSuccess == old(saveSuccess)
      ensures searchCity == old(searchCity) && searchState == old(searchState)
    {
      showForm := !showForm;
    }

    /**
     * `handleSubmit`. Nothing is sent unless the name is non-blank; the
     * other fields may be empty. The previous error and success flag are
     * cleared, then set from the outcome; the fields stay as typed until the
     * timer fires.
     */
    method HandleSubmit(outcome: SaveOutcome) returns (sent: Option<DepartmentDraft>)
      modifies this`saveError, this`saveSuccess
      ensures sent.Some? <==> !IsBlank(old(name))
      ensures sent.Some? ==> sent.value == DepartmentDraft(old(name), old(address), old(phone), old(website))
      ensures unchanged(this`name, this`address, this`phone, this`website)
      ensures unchanged(this`showForm, this`searchCity, this`searchState)
      ensures sent.None? ==> saveError == old(saveError) && saveSuccess == old(saveSuccess)
      ensures sent.Some? && outcome.Saved? ==> saveSuccess && saveError == None
      ensures sent.Some? && outcome.Failed? ==> !saveSuccess && saveError == Some(ErrorMessage(outcome.message))
    {
      if IsBlank(name) {
        sent := None;
      } else {
        sent := Some(DepartmentDraft(name, address, phone, website));
        saveError := None;
        saveSuccess := false;
        match outcome
        case Saved =>
          saveSuccess := true;
        case Failed(message) =>
          saveError := Some(ErrorMessage(message));
      }
    }

    /** The callback 1500 ms after a successful save: the form is emptied, hidden, and the banner goes. */
    method AfterSaveDelay()
      modifies this
      ensures name == "" && address == "" && phone == "" && website == ""
      ensures !showForm && !saveSuccess
      ensures saveError == old(saveError) && searchCity == old(searchCity) && searchState == old(searchState)
    {
      name, address, phone, website := "", "", "", "";
      showForm := false;
      saveSuccess := false;
    }

    /** The "Cancel" button: the form is hidden and both banners cleared; what was typed stays. */
    method Cancel()
      modifies this
      ensures !showForm && saveError == None && !saveSuccess
      ensures name == old(name) && address == old(address) && phone == old(phone) && website == old(website)
      ensures searchCity == old(searchCity) && searchState == old(searchState)
    {
      showForm := false;
      saveError := None;
      saveSuccess := false;
    }
  }
}

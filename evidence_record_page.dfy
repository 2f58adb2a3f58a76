/**
 * The evidence page: the upload form (file check, required fields, the
 * kind chosen from a menu, the linked incident) and the newest-first list
 * of the user's evidence.
 */
module EvidenceRecordPage {
  import opened Wrappers
  import opened Text
  import opened Decimal
  import opened Sorting
  import opened Backend
  import opened Files

  /** A file picked in the browser, as far as the page looks at it. */
  datatype PickedFile = PickedFile(name: string, size: nat)

  /** What `uploadEvidence` is called with. */
  datatype EvidenceUpload = EvidenceUpload(
    title: string,
    description: string,
    evidenceType: EvidenceType,
    file: PickedFile,
    incidentId: int)

  /** The `switch (evidenceType)`: five menu values name a kind, any other text becomes `other(text)`. */
  function KindOf(selection: string): (r: EvidenceType)
    ensures KindValue(r) == selection
    ensures r.Other? <==> !IsKindName(selection)
  {
    match selection
    case "photo" => Photo
    case "video" => Video
    case "audio" => Audio
    case "screenshot" => Screenshot
    case "document" => Document
    case _ => Other(selection)
  }

  /** The menu value of a kind: the partner of `KindOf`. */
  function KindValue(t: EvidenceType): string {
    match t
    case Photo => "photo"
    case Video => "video"
    case Audio => "audio"
    case Screenshot => "screenshot"
    case Document => "document"
    case Other(s) => s
  }

  predicate IsKindName(s: string) {
    s == "photo" || s == "video" || s == "audio" || s == "screenshot" || s == "document"
  }

  /**
   * A kind comes back from its menu value exactly when it is not an `other`
   * spelled like one of the five: `other("photo")` reads back as `photo`.
   */
  lemma KindValueRoundTrip(t: EvidenceType)
    ensures KindOf(KindValue(t)) == t <==> !(t.Other? && IsKindName(t.other))
    ensures t.Other? && IsKindName(t.other) ==> KindOf(KindValue(t)) == KindOf(t.other) != t
  {
  }

  /** The "Other" menu entry has the value "other", which the switch passes on as `other("other")`. */
  lemma OtherEntry()
    ensures KindOf("other") == Other("other")
  {
  }

  /** The linked id is `BigInt` of the option value `id.toString()`, which is the incident's id again. */
  lemma LinkedIdRoundTrip(id: nat)
    ensures StringToBigInt(NatToString(id)) == Some(id as int)
  {
    StringToBigIntOfToString(id);
    assert IntToString(id) == NatToString(id);
  }

  function NewestFirst(e: EvidenceFile): int {
    -e.timestamp
  }

  /** `sortedEvidence`: a copy sorted newest first, equal timestamps in their order. */
  function SortedEvidence(evidence: seq<EvidenceFile>): (r: seq<EvidenceFile>)
    ensures |r| == |evidence| && multiset(r) == multiset(evidence)
  {
    SortBy(evidence, NewestFirst)
  }

  /** The list shows the same records, newest first, ties in their order of arrival. */
  lemma SortedEvidenceOrder(evidence: seq<EvidenceFile>)
    ensures multiset(SortedEvidence(evidence)) == multiset(evidence)
    ensures forall i, j | 0 <= i < j < |SortedEvidence(evidence)| ::
              SortedEvidence(evidence)[i].timestamp >= SortedEvidence(evidence)[j].timestamp
    ensures forall k :: WithKey(SortedEvidence(evidence), NewestFirst, k) == WithKey(evidence, NewestFirst, k)
  {
    var r := SortedEvidence(evidence);
    SortBySorted(evidence, NewestFirst);
    assert SortedBy(r, NewestFirst);
    forall k ensures WithKey(r, NewestFirst, k) == WithKey(evidence, NewestFirst, k) {
      SortByStable(evidence, NewestFirst, k);
    }
  }

  /** The state the page keeps for the upload form. */
  class EvidenceForm {
    var showForm: bool
    var title: string
    var description: string
    var evidenceType: string
    var selectedFile: Option<PickedFile>
    var linkedIncidentId: string
    var uploadProgress: int

    constructor()
      ensures !showForm && title == "" && description == "" && evidenceType == "photo"
      ensures selectedFile == None && linkedIncidentId == "" && uploadProgress == 0
    {
      showForm := false;
      title := "";
      description := "";
      evidenceType := "photo";
      selectedFile := None;
      linkedIncidentId := "";
      uploadProgress := 0;
    }

    /**
     * `handleFileChange`: a picked file that passes `validateFile` becomes the
     * selection; a refused one is reported in an alert and the previous
     * selection stays.
     */
    method HandleFileChange(file: Option<PickedFile>) returns (alert: Option<string>)
      modifies this
      ensures file.Some? && ValidateFile(file.value.size).valid ==> selectedFile == file
      ensures !(file.Some? && ValidateFile(file.value.size).valid) ==> selectedFile == old(selectedFile)
      ensures alert.Some? <==> file.Some? && !ValidateFile(file.value.size).valid
      ensures alert.Some? ==> alert == ValidateFile(file.value.size).error
      ensures showForm == old(showForm) && title == old(title) && description == old(description)
      ensures evidenceType == old(evidenceType) && linkedIncidentId == old(linkedIncidentId)
      ensures uploadProgress == old(uploadProgress)
    {
      alert := None;
      if file.Some? {
        var validation := ValidateFile(file.value.size);
        if !validation.valid {
          alert := validation.error;
          return;
        }
        selectedFile := file;
      }
    }

    /**
     * `handleSubmit`. `uploaded` is the outcome of reading the file and of
     * the backend call. Nothing is sent unless the title is non-blank, a
     * file is selected and an incident is linked; a linked id that `BigInt`
     * rejects fails inside the `try`. A success resets the form (the kind
     * menu keeps its value); a failure only puts the progress back to 0.
     */
    method HandleSubmit(uploaded: bool) returns (sent: Option<EvidenceUpload>)
      modifies this
      ensures sent.Some? ==> !IsBlank(old(title)) && old(selectedFile).Some? && old(linkedIncidentId) != ""
      ensures sent.Some? ==> sent.value == EvidenceUpload(old(title), old(description), KindOf(old(evidenceType)),
                                                         old(selectedFile).value, sent.value.incidentId)
                             && StringToBigInt(old(linkedIncidentId)) == Some(sent.value.incidentId)
      ensures sent.None? && !IsBlank(old(title)) && old(selectedFile).Some? && old(linkedIncidentId) != ""
              ==> StringToBigInt(old(linkedIncidentId)).None?
      ensures evidenceType == old(evidenceType)
      ensures if IsBlank(old(title)) || old(selectedFile).None? || old(linkedIncidentId) == "" then
                showForm == old(showForm) && title == old(title) && description == old(description)
                && selectedFile == old(selectedFile) && linkedIncidentId == old(linkedIncidentId)
                && uploadProgress == old(uploadProgress)
              else if sent.Some? && uploaded then
                !showForm && title == "" && description == "" && selectedFile == None
                && linkedIncidentId == "" && uploadProgress == 0
              else
                showForm == old(showForm) && title == old(title) && description == old(description)
                && selectedFile == old(selectedFile) && linkedIncidentId == old(linkedIncidentId)
                && uploadProgress == 0
    {
      sent := None;
      if IsBlank(title) || selectedFile.None? || linkedIncidentId == "" {
        return;
      }
      var typeVariant := KindOf(evidenceType);
      var incidentId := StringToBigInt(linkedIncidentId);
      if incidentId.None? {
        uploadProgress := 0;
        return;
      }
      sent := Some(EvidenceUpload(title, description, typeVariant, selectedFile.value, incidentId.value));
      if uploaded {
        title := "";
        description := "";
        selectedFile := None;
        linkedIncidentId := "";
        uploadProgress := 0;
        showForm := false;
      } else {
        uploadProgress := 0;
      }
    }
  }
}

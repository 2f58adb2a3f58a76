/**
 * The dialog that prepares a police report: a department picked from the
 * personal and verified lists, an evidence tone, and the report preview that
 * can be copied or downloaded once a department is picked.
 */
module SubmitPoliceReportDialog {
  import opened Wrappers
  import opened Text
  import opened Decimal
  import opened Sequences
  import opened Backend
  import opened DateTime
  import EvidenceSummary
  import PoliceReport

  /** The dialog's own state: the department select (an id string) and the tone select. */
  datatype DialogState = DialogState(selectedDeptId: string, evidenceTone: EvidenceSummary.SummaryTone)

  /** Nothing selected, formal tone. */
  const InitialState := DialogState("", EvidenceSummary.Formal)

  /** `allDepartments`: the personal list, then the verified list. */
  function AllDepartments(personal: seq<PoliceDepartment>, verified: seq<PoliceDepartment>): seq<PoliceDepartment> {
    personal + verified
  }

  /** The option value of a department is `id.toString()`. */
  function HasIdText(selection: string): PoliceDepartment -> bool {
    (d: PoliceDepartment) => NatToString(d.id) == selection
  }

  /** `selectedDepartment`: the first department whose id text is the selection. */
  function SelectedDepartment(personal: seq<PoliceDepartment>, verified: seq<PoliceDepartment>, selection: string)
    : (r: Option<PoliceDepartment>)
    ensures r.Some? ==> r.value in personal + verified && NatToString(r.value.id) == selection
    ensures r.Some? ==> exists k | 0 <= k < |personal + verified| :: (personal + verified)[k] == r.value
                          && forall j | 0 <= j < k :: NatToString((personal + verified)[j].id) != selection
    ensures r.None? <==> forall d | d in personal + verified :: NatToString(d.id) != selection
  {
    var all := AllDepartments(personal, verified);
    var found := FindIndex(all, HasIdText(selection));
    assert found.Some? ==> forall j | 0 <= j < found.value :: NatToString(all[j].id) != selection by {
      if found.Some? {
        forall j | 0 <= j < found.value ensures NatToString(all[j].id) != selection {
          assert !HasIdText(selection)(all[j]);
        }
      }
    }
    assert found.None? ==> forall d | d in all :: NatToString(d.id) != selection by {
      if found.None? {
        forall d | d in all ensures NatToString(d.id) != selection {
          var k :| 0 <= k < |all| && all[k] == d;
          assert !HasIdText(selection)(all[k]);
        }
      }
    }
    Find(all, HasIdText(selection))
  }

  /** A personal department wins over a verified one with the same id. */
  lemma PersonalFirst(personal: seq<PoliceDepartment>, verified: seq<PoliceDepartment>, selection: string)
    ensures (exists d | d in personal :: NatToString(d.id) == selection)
            ==> SelectedDepartment(personal, verified, selection).value in personal
  {
    FindAppend(personal, verified, HasIdText(selection));
    var f := Find(personal, HasIdText(selection));
    if exists d | d in personal :: NatToString(d.id) == selection {
      var d :| d in personal && NatToString(d.id) == selection;
      var k :| 0 <= k < |personal| && personal[k] == d;
      assert HasIdText(selection)(personal[k]);
      assert f.Some?;
    }
  }

  /** The initial selection '' is no department's id text. */
  lemma EmptySelectionNone(personal: seq<PoliceDepartment>, verified: seq<PoliceDepartment>)
    ensures SelectedDepartment(personal, verified, "") == None
  {
  }

  /** Picking a listed department selects one with the same id. */
  lemma PickSelectsId(personal: seq<PoliceDepartment>, verified: seq<PoliceDepartment>, d: PoliceDepartment)
    requires d in personal + verified
    ensures SelectedDepartment(personal, verified, NatToString(d.id)).Some?
    ensures SelectedDepartment(personal, verified, NatToString(d.id)).value.id == d.id
  {
    var r := SelectedDepartment(personal, verified, NatToString(d.id));
    NatToStringInjective(r.value.id, d.id);
  }

  /** `canSubmit`: a department is selected. */
  predicate CanSubmit(personal: seq<PoliceDepartment>, verified: seq<PoliceDepartment>, st: DialogState) {
    SelectedDepartment(personal, verified, st.selectedDeptId).Some?
  }

  /** Copy and download are enabled when a department is selected and nothing is loading. */
  predicate ActionsEnabled(personal: seq<PoliceDepartment>, verified: seq<PoliceDepartment>, st: DialogState,
                           loading: bool) {
    CanSubmit(personal, verified, st) && !loading
  }

  /**
   * `reportText`: the police report for the current selection and tone.
   * Copy and download are offered exactly for a preview that opens with the
   * submission title, and the preview ends with the evidence summary in the
   * chosen tone.
   */
  function ReportText(incidents: seq<Incident>, evidence: seq<EvidenceFile>, personal: seq<PoliceDepartment>,
                      verified: seq<PoliceDepartment>, st: DialogState, loc: Locale, now: string): (r: string)
    ensures CanSubmit(personal, verified, st) <==> StartsWith(r, PoliceReport.Title)
    ensures EndsWith(r, EvidenceSummary.Summary(evidence, st.evidenceTone, loc, now))
  {
    var dept := SelectedDepartment(personal, verified, st.selectedDeptId);
    PoliceReport.TitleIffDepartment(incidents, evidence, st.evidenceTone, dept, loc, now);
    PoliceReport.Report(incidents, evidence, st.evidenceTone, dept, loc, now)
  }

  /** When the dialog opens, the preview is the formal report without a department, and nothing can be sent. */
  lemma InitialPreview(incidents: seq<Incident>, evidence: seq<EvidenceFile>, personal: seq<PoliceDepartment>,
                       verified: seq<PoliceDepartment>, loc: Locale, now: string)
    ensures ReportText(incidents, evidence, personal, verified, InitialState, loc, now)
            == PoliceReport.Report(incidents, evidence, EvidenceSummary.Formal, None, loc, now)
    ensures !CanSubmit(personal, verified, InitialState)
  {
    EmptySelectionNone(personal, verified);
  }
}

/**
 * The personal-information page: six text inputs loaded from the stored
 * record, saved back with blank fields left out and the rest trimmed, and
 * cleared on request.
 */
module VictimSurvivorInfoPage {
  import opened Wrappers
  import opened Text
  import opened Decimal
  import opened Backend

  /** The six inputs, as typed. */
  datatype FormFields = FormFields(
    name: string,
    age: string,
    gender: string,
    contactInfo: string,
    emergencyContact: string,
    additionalNotes: string)

  const EmptyForm := FormFields("", "", "", "", "", "")

  /** The record `handleClear` sends: every field absent. */
  const EmptyInfo := VictimSurvivorInfo(None, None, None, None, None, None)

  /** `field.trim() || undefined`. */
  function Normalized(field: string): (r: Option<string>)
    ensures r.None? <==> IsBlank(field)
    ensures r.Some? ==> r.value == Trim(field) && r.value != [] && Trim(r.value) == r.value
  {
    TrimIdempotent(field);
    BlankIffTrimEmpty(field);
    if Trim(field) == [] then None else Some(Trim(field))
  }

  /**
   * The payload `handleSubmit` builds: `None` when `BigInt(age)` throws,
   * which happens before the save is attempted.
   */
  function Payload(f: FormFields): (r: Option<VictimSurvivorInfo>)
    ensures r.None? <==> !IsBlank(f.age) && StringToBigInt(f.age).None?
  {
    var age := if IsBlank(f.age) then Some(None) else
      match StringToBigInt(f.age)
      case None => None
      case Some(v) => Some(Some(v));
    if age.None? then None
    else Some(VictimSurvivorInfo(
      age.value,
      Normalized(f.contactInfo),
      Normalized(f.additionalNotes),
      Normalized(f.name),
      Normalized(f.emergencyContact),
      Normalized(f.gender)))
  }

  /** `info.field || ''`. */
  function LoadedText(v: Option<string>): string {
    if v.Some? then v.value else ""
  }

  /** `info.age ? info.age.toString() : ''`: an absent age and age 0 both load as ''. */
  function LoadedAge(a: Option<int>): string {
    if a.Some? && a.value != 0 then IntToString(a.value) else ""
  }

  /** The inputs the load effect fills in from a stored record. */
  function Loaded(info: VictimSurvivorInfo): (r: FormFields)
    ensures r.age == "" <==> info.age.None? || info.age.value == 0
  {
    FormFields(LoadedText(info.name), LoadedAge(info.age), LoadedText(info.gender),
               LoadedText(info.contactInfo), LoadedText(info.emergencyContact),
               LoadedText(info.additionalNotes))
  }

  /** Saving blank inputs sends the same record as clearing. */
  lemma BlankFormSendsEmptyInfo()
    ensures Payload(EmptyForm) == Some(EmptyInfo)
  {
    assert IsBlank("");
  }

  /** `BigInt` trims its argument itself, so the untrimmed age parses like the trimmed one. */
  lemma AgeParsesTrimmed(age: string)
    ensures StringToBigInt(age) == StringToBigInt(Trim(age))
  {
    TrimIdempotent(age);
  }

  /**
   * Saving a form and loading the stored record back gives each text input
   * its trimmed value, and the age its trimmed text when that is a decimal
   * numeral without leading zeros other than "0".
   */
  lemma SaveLoadRoundTrip(f: FormFields)
    requires Payload(f).Some?
    ensures var g := Loaded(Payload(f).value);
            && g.name == Trim(f.name) && g.gender == Trim(f.gender)
            && g.contactInfo == Trim(f.contactInfo) && g.emergencyContact == Trim(f.emergencyContact)
            && g.additionalNotes == Trim(f.additionalNotes)
            && (IsCanonicalDecimal(Trim(f.age)) && Trim(f.age) != "0" ==> g.age == Trim(f.age))
  {
    var p := Payload(f).value;
    assert p.name == Normalized(f.name) && p.gender == Normalized(f.gender);
    assert p.contactInfo == Normalized(f.contactInfo) && p.emergencyContact == Normalized(f.emergencyContact);
    assert p.additionalNotes == Normalized(f.additionalNotes);
    TextRoundTrip(f.name);
    TextRoundTrip(f.gender);
    TextRoundTrip(f.contactInfo);
    TextRoundTrip(f.emergencyContact);
    TextRoundTrip(f.additionalNotes);
    if IsCanonicalDecimal(Trim(f.age)) && Trim(f.age) != "0" {
      AgeRoundTrip(f.age);
      assert p.age == StringToBigInt(f.age);
    }
  }

  /** A text input saved and loaded back holds its trimmed value. */
  lemma TextRoundTrip(field: string)
    ensures LoadedText(Normalized(field)) == Trim(field)
  {
  }

  /** An age typed as a canonical numeral other than "0" is stored as its value and loads as the trimmed text. */
  lemma AgeRoundTrip(age: string)
    requires IsCanonicalDecimal(Trim(age)) && Trim(age) != "0"
    ensures !IsBlank(age)
    ensures StringToBigInt(age) == Some(ValueIn(Trim(age), 10))
    ensures LoadedAge(StringToBigInt(age)) == Trim(age)
  {
    var d := Trim(age);
    var v := ValueIn(d, 10);
    assert v > 0 by {
      assert d[0] != '0' by { assert |d| == 1 ==> d == [d[0]]; }
      ValuePositive(d);
    }
    assert StringToBigInt(age) == Some(v) by {
      AgeParsesTrimmed(age);
      ParseDigits(d);
    }
    assert IntToString(v) == d by {
      CanonicalDecimalRoundTrip(d);
    }
  }

  /** Loading a record and saving it unchanged stores the same record, except that an age of 0 is dropped. */
  lemma LoadSaveRoundTrip(info: VictimSurvivorInfo)
    requires forall v | v in [info.name, info.gender, info.contactInfo, info.emergencyContact, info.additionalNotes] ::
               v == Normalized(LoadedText(v))
    ensures Payload(Loaded(info)) == Some(info.(age := if info.age == Some(0) then None else info.age))
  {
    var ageText := LoadedAge(info.age);
    if info.age.Some? && info.age.value != 0 {
      IntToStringTrimmed(info.age.value);
      StringToBigIntOfToString(info.age.value);
      assert !IsBlank(ageText);
    } else {
      assert IsBlank(ageText);
    }
    assert info.name == Normalized(LoadedText(info.name));
    assert info.gender == Normalized(LoadedText(info.gender));
    assert info.contactInfo == Normalized(LoadedText(info.contactInfo));
    assert info.emergencyContact == Normalized(LoadedText(info.emergencyContact));
    assert info.additionalNotes == Normalized(LoadedText(info.additionalNotes));
  }

  /** The state the page keeps: the six inputs. */
  class InfoForm {
    var name: string
    var age: string
    var gender: string
    var contactInfo: string
    var emergencyContact: string
    var additionalNotes: string

    constructor()
      ensures Fields() == EmptyForm
    {
      name, age, gender := "", "", "";
      contactInfo, emergencyContact, additionalNotes := "", "", "";
    }

    function Fields(): FormFields
      reads this
    {
      FormFields(name, age, gender, contactInfo, emergencyContact, additionalNotes)
    }

    /** The load effect: a stored record fills every input; no record leaves them as they are. */
    method Load(info: Option<VictimSurvivorInfo>)
      modifies this
      ensures Fields() == if info.Some? then Loaded(info.value) else old(Fields())
    {
      if info.Some? {
        name := LoadedText(info.value.name);
        age := LoadedAge(info.value.age);
        gender := LoadedText(info.value.gender);
        contactInfo := LoadedText(info.value.contactInfo);
        emergencyContact := LoadedText(info.value.emergencyContact);
        additionalNotes := LoadedText(info.value.additionalNotes);
      }
    }

    /** `handleSubmit`: what is sent to the backend; the inputs are left as typed. */
    method HandleSubmit() returns (sent: Option<VictimSurvivorInfo>)
      ensures sent == Payload(Fields())
      ensures sent.Some? ==> (sent.value.name.None? <==> IsBlank(name))
      ensures sent.Some? ==> (sent.value.age.None? <==> IsBlank(age))
    {
      var f := Fields();
      sent := Payload(f);
    }

    /**
     * `handleClear`: after a declined confirmation nothing happens; otherwise
     * the all-absent record is sent, and only a successful save empties the
     * inputs.
     */
    method HandleClear(confirmed: bool, saved: bool) returns (sent: Option<VictimSurvivorInfo>)
      modifies this
      ensures sent == if confirmed then Some(EmptyInfo) else None
      ensures Fields() == if confirmed && saved then EmptyForm else old(Fields())
    {
      if !confirmed {
        return None;
      }
      sent := Some(EmptyInfo);
      if saved {
        name, age, gender := "", "", "";
        contactInfo, emergencyContact, additionalNotes := "", "", "";
      }
    }
  }
}

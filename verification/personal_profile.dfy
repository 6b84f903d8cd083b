/**
 The personal profile section's own rules: which fields it asks for, which
 are required, which are checked against a pattern, which are chosen from a
 fixed list, and when its Next button is enabled.
 */
module PersonalProfile {
  import opened Wrappers
  import opened Pattern

  const AgeOptions: seq<string> := ["<25", "25-35", "35-45", "45-60", ">60"]
  const GenderOptions: seq<string> := ["male", "female", "other"]
  const OccupationOptions: seq<string> :=
    ["selfEmployed", "business", "governmentEmployee", "privateEmployee", "student", "retired", "niksenPractitioner"]
  const LanguageOptions: seq<string> := ["english", "hindi", "telugu", "tamil", "marathi", "kannada", "other"]
  const MaritalOptions: seq<string> := ["single", "married", "preferNotToShare"]

  /**
   How one field is registered: whether it is required, the pattern a text
   field must match, and the options a select field offers.
   */
  datatype FieldRule = FieldRule(name: string, required: bool, pattern: Option<Regex>, options: Option<seq<string>>)

  function Text(name: string): FieldRule { FieldRule(name, true, None, None) }
  function Checked(name: string, r: Regex): FieldRule { FieldRule(name, true, Some(r), None) }
  function Select(name: string, options: seq<string>): FieldRule { FieldRule(name, true, None, Some(options)) }

  /** The sixteen fields, in the order the section lays them out. */
  const Rules: seq<FieldRule> := [
    Checked("mobileNumber", MobilePattern),
    Checked("email", EmailPattern),
    Text("firstName"),
    Text("lastName"),
    Select("age", AgeOptions),
    Text("address"),
    Checked("pinCode", PinPattern),
    Text("city"),
    Text("state"),
    Text("country"),
    Checked("panNumber", PanPattern),
    Text("citizenship"),
    Select("gender", GenderOptions),
    Select("occupation", OccupationOptions),
    Select("preferredLanguage", LanguageOptions),
    Select("maritalStatus", MaritalOptions)
  ]

  const Mobile := 0
  const Email := 1
  const Pin := 6
  const Pan := 10

  /** A watched field value: never set, or the text it holds. */
  datatype FieldValue = Undefined | Value(text: string)

  /**
   A value the section lets through for a field: present and non-empty when
   required, matching the field's pattern, and one of its options.
   */
  predicate Accepts(rule: FieldRule, v: FieldValue)
  {
    && (rule.required ==> v.Value? && v.text != "")
    && (v.Value? && v.text != "" && rule.pattern.Some? ==> Test(rule.pattern.value, v.text))
    && (v.Value? && rule.options.Some? ==> v.text in rule.options.value)
  }

  /** `Object.values(allFields).every(v => v !== undefined && v !== "")`. */
  predicate IsFormComplete(values: seq<FieldValue>)
  {
    forall i :: 0 <= i < |values| ==> values[i] != Undefined && values[i] != Value("")
  }

  /** The Next button's `disabled` flag. */
  function NextDisabled(isLoading: bool, values: seq<FieldValue>): (disabled: bool)
    ensures disabled <==> isLoading || exists i :: 0 <= i < |values| && values[i] in {Undefined, Value("")}
    ensures !isLoading && |values| == |Rules| && (forall i :: 0 <= i < |Rules| ==> Accepts(Rules[i], values[i])) ==> !disabled
  {
    var disabled := isLoading || !IsFormComplete(values);
    if |values| == |Rules| then AcceptedIsComplete(values); disabled else disabled
  }

  /** Every field is required, and the select fields offer 5, 3, 7, 7 and 3 options. */
  lemma RuleTable()
    ensures |Rules| == 16
    ensures forall i :: 0 <= i < |Rules| ==> Rules[i].required
    ensures Rules[4].options == Some(AgeOptions) && |AgeOptions| == 5
    ensures Rules[12].options == Some(GenderOptions) && |GenderOptions| == 3
    ensures Rules[13].options == Some(OccupationOptions) && |OccupationOptions| == 7
    ensures Rules[14].options == Some(LanguageOptions) && |LanguageOptions| == 7
    ensures Rules[15].options == Some(MaritalOptions) && |MaritalOptions| == 3
  {
  }

  /** The mobile number field takes exactly ten ASCII digits. */
  lemma MobileField(s: string)
    ensures Accepts(Rules[Mobile], Value(s)) <==> ValidMobile(s)
  {
    MobileIff(s);
  }

  /** The e-mail field takes exactly the addresses of the shape `ValidEmail` describes. */
  lemma EmailField(s: string)
    ensures Accepts(Rules[Email], Value(s)) <==> ValidEmail(s)
  {
    EmailIff(s);
  }

  /** The PIN code field takes exactly six ASCII digits. */
  lemma PinField(s: string)
    ensures Accepts(Rules[Pin], Value(s)) <==> ValidPin(s)
  {
    PinIff(s);
  }

  /** The PAN field takes exactly five letters, four digits and a letter. */
  lemma PanField(s: string)
    ensures Accepts(Rules[Pan], Value(s)) <==> ValidPan(s)
  {
    PanIff(s);
  }

  /**
   Completeness is exactly "every required field is filled in": answers every
   rule accepts make the form complete, and a form is complete exactly when
   no field fails its `required` rule.
   */
  lemma {:induction false} AcceptedIsComplete(values: seq<FieldValue>)
    requires |values| == |Rules|
    ensures (forall i :: 0 <= i < |Rules| ==> Accepts(Rules[i], values[i])) ==> IsFormComplete(values)
    ensures IsFormComplete(values) <==>
      forall i :: 0 <= i < |Rules| ==> (Rules[i].required ==> values[i].Value? && values[i].text != "")
  {
    RuleTable();
    forall i | 0 <= i < |Rules|
      ensures (values[i] != Undefined && values[i] != Value("")) <==> (values[i].Value? && values[i].text != "")
    {
    }
  }
}

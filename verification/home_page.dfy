/**
 The live form flow: six sections shown one after another. Each section's
 answers are stored under a key derived from the section's name, and
 completing the last section posts the whole answer object to the submission
 endpoint.
 */
module HomePage {
  import opened Wrappers
  import opened Json
  import opened Ascii

  /** The section names, in the order they are shown. */
  const Steps: seq<string> :=
    ["Personal Profile", "Financial Profile", "Investment Profile", "Goals", "Asset Analysis", "IKIGAI"]

  const LastStep: nat := |Steps| - 1

  /** `toLowerCase()` on ASCII text. */
  function ToLower(s: string): string
  {
    seq(|s|, i requires 0 <= i < |s| => AsciiLower(s[i]))
  }

  /** Lower-casing keeps the length, leaves no upper-case letter and changes nothing else. */
  lemma ToLowerSpec(s: string)
    ensures |ToLower(s)| == |s|
    ensures forall i :: 0 <= i < |s| ==> ToLower(s)[i] == AsciiLower(s[i])
    ensures forall i :: 0 <= i < |s| ==> !('A' <= ToLower(s)[i] <= 'Z')
  {
  }

  /** `replace(" ", "")`: with a string pattern, only the first space goes. */
  function RemoveFirstSpace(s: string): string
  {
    if s == [] then []
    else if s[0] == ' ' then s[1..]
    else [s[0]] + RemoveFirstSpace(s[1..])
  }

  /** The text before the first space, then the text after it; unchanged when there is none. */
  lemma {:induction false} RemoveFirstSpaceSpec(s: string, i: nat)
    requires i <= |s|
    requires ' ' !in s[..i]
    ensures i < |s| && s[i] == ' ' ==> RemoveFirstSpace(s) == s[..i] + s[i + 1..]
    ensures i == |s| ==> RemoveFirstSpace(s) == s
  {
    if s != [] && i > 0 {
      assert s[0] in s[..i];
      assert s[1..][..i - 1] == s[..i][1..];
      RemoveFirstSpaceSpec(s[1..], i - 1);
      if i < |s| && s[i] == ' ' {
        assert s[..i] == [s[0]] + s[1..][..i - 1];
        assert s[i + 1..] == s[1..][i..];
      } else if i == |s| {
        assert s == [s[0]] + s[1..];
      }
    }
  }

  /** The key a section's answers are stored under. */
  function SectionKey(step: string): string
  {
    RemoveFirstSpace(ToLower(step))
  }

  /** The six sections' keys, in order. */
  const SectionKeys: seq<string> :=
    ["personalprofile", "financialprofile", "investmentprofile", "goals", "assetanalysis", "ikigai"]

  lemma {:induction false} ToLowerAppend(a: string, b: string)
    ensures ToLower(a + b) == ToLower(a) + ToLower(b)
  {
    if a != [] {
      assert (a + b)[1..] == a[1..] + b;
      ToLowerAppend(a[1..], b);
    } else {
      assert a + b == b;
    }
  }

  /** A two-word section name gives the two lower-cased words run together. */
  lemma TwoWordKey(first: string, second: string, k1: string, k2: string)
    requires ToLower(first) == k1 && ToLower(second) == k2
    requires ' ' !in k1
    ensures SectionKey(first + " " + second) == k1 + k2
  {
    ToLowerAppend(first, " " + second);
    ToLowerAppend(" ", second);
    var l := k1 + " " + k2;
    assert ToLower(first + " " + second) == l by {
      assert first + " " + second == first + (" " + second);
      assert ToLower(" ") == " ";
    }
    assert l[..|k1|] == k1;
    assert l[|k1| + 1..] == k2;
    RemoveFirstSpaceSpec(l, |k1|);
  }

  /** Lower-casing is worked out character by character. */
  lemma LowerByChars(w: string, l: string)
    requires |w| == |l|
    requires forall i :: 0 <= i < |w| ==> AsciiLower(w[i]) == l[i]
    ensures ToLower(w) == l
  {
    ToLowerSpec(w);
  }

  lemma PersonalLower()
    ensures ToLower("Personal") == "personal"
  {
    LowerByChars("Personal", "personal");
  }

  lemma ProfileLower()
    ensures ToLower("Profile") == "profile"
  {
    LowerByChars("Profile", "profile");
  }

  lemma FinancialLower()
    ensures ToLower("Financial") == "financial"
  {
    LowerByChars("Financial", "financial");
  }

  lemma InvestmentLower()
    ensures ToLower("Investment") == "investment"
  {
    LowerByChars("Investment", "investment");
  }

  lemma AssetLower()
    ensures ToLower("Asset") == "asset"
  {
    LowerByChars("Asset", "asset");
  }

  lemma AnalysisLower()
    ensures ToLower("Analysis") == "analysis"
  {
    LowerByChars("Analysis", "analysis");
  }

  /*
   The four two-word keys below take the name, its words and their lower-case
   forms as parameters fixed by `requires`, rather than spelling the literals
   inside the proof: that keeps the verifier from unfolding the lower-casing
   of each literal character by character.
   */
  lemma PersonalProfileKey(step: string, first: string, second: string, k1: string, k2: string)
    requires step == "Personal Profile" && first == "Personal" && second == "Profile"
    requires k1 == "personal" && k2 == "profile"
    ensures SectionKey(step) == "personalprofile"
  {
    assert step == first + " " + second;
    assert SectionKey(first + " " + second) == k1 + k2 by {
      PersonalLower();
      ProfileLower();
      assert ' ' !in k1;
      TwoWordKey(first, second, k1, k2);
    }
    assert k1 + k2 == "personalprofile";
  }

  lemma FinancialProfileKey(step: string, first: string, second: string, k1: string, k2: string)
    requires step == "Financial Profile" && first == "Financial" && second == "Profile"
    requires k1 == "financial" && k2 == "profile"
    ensures SectionKey(step) == "financialprofile"
  {
    assert step == first + " " + second;
    assert SectionKey(first + " " + second) == k1 + k2 by {
      FinancialLower();
      ProfileLower();
      assert ' ' !in k1;
      TwoWordKey(first, second, k1, k2);
    }
    assert k1 + k2 == "financialprofile";
  }

  lemma InvestmentProfileKey(step: string, first: string, second: string, k1: string, k2: string)
    requires step == "Investment Profile" && first == "Investment" && second == "Profile"
    requires k1 == "investment" && k2 == "profile"
    ensures SectionKey(step) == "investmentprofile"
  {
    assert step == first + " " + second;
    assert SectionKey(first + " " + second) == k1 + k2 by {
      InvestmentLower();
      ProfileLower();
      assert ' ' !in k1;
      TwoWordKey(first, second, k1, k2);
    }
    assert k1 + k2 == "investmentprofile";
  }

  lemma AssetAnalysisKey(step: string, first: string, second: string, k1: string, k2: string)
    requires step == "Asset Analysis" && first == "Asset" && second == "Analysis"
    requires k1 == "asset" && k2 == "analysis"
    ensures SectionKey(step) == "assetanalysis"
  {
    assert step == first + " " + second;
    assert SectionKey(first + " " + second) == k1 + k2 by {
      AssetLower();
      AnalysisLower();
      assert ' ' !in k1;
      TwoWordKey(first, second, k1, k2);
    }
    assert k1 + k2 == "assetanalysis";
  }

  lemma GoalsKey()
    ensures SectionKey("Goals") == "goals"
  {
    LowerByChars("Goals", "goals");
    RemoveFirstSpaceSpec("goals", 5);
  }

  lemma IkigaiKey()
    ensures SectionKey("IKIGAI") == "ikigai"
  {
    LowerByChars("IKIGAI", "ikigai");
    RemoveFirstSpaceSpec("ikigai", 6);
  }

  /** Each section name yields the expected key. */
  lemma StepKeys()
    ensures forall i :: 0 <= i < |Steps| ==> SectionKey(Steps[i]) == SectionKeys[i]
  {
    PersonalProfileKey(Steps[0], "Personal", "Profile", "personal", "profile");
    FinancialProfileKey(Steps[1], "Financial", "Profile", "financial", "profile");
    InvestmentProfileKey(Steps[2], "Investment", "Profile", "investment", "profile");
    GoalsKey();
    AssetAnalysisKey(Steps[4], "Asset", "Analysis", "asset", "analysis");
    IkigaiKey();
  }

  /** No two sections share a key, so no section's answers overwrite another's. */
  lemma SectionKeysDistinct()
    ensures forall i, j :: 0 <= i < j < |SectionKeys| ==> SectionKeys[i] != SectionKeys[j]
  {
    assert |SectionKeys[0]| == 15 && |SectionKeys[1]| == 16 && |SectionKeys[2]| == 17;
    assert |SectionKeys[3]| == 5 && |SectionKeys[4]| == 13 && |SectionKeys[5]| == 6;
  }

  /** What `fetch` gave back: a response with its `ok` flag, or a thrown error. */
  datatype FetchResult = Responded(ok: bool) | FetchThrew

  class Home {
    var currentStep: int
    var formData: Fields
    var isLoading: bool
    var isSubmitted: bool

    /** The step is a valid index and the answer object only holds section keys, once each. */
    ghost predicate Valid()
      reads this
    {
      && 0 <= currentStep <= LastStep
      && KeysUnique(formData)
      && forall k :: k in Keys(formData) ==> k in SectionKeys
    }

    constructor ()
      ensures Valid()
      ensures currentStep == 0 && formData == [] && !isLoading && !isSubmitted
    {
      currentStep := 0;
      formData := [];
      isLoading := false;
      isSubmitted := false;
    }

    /** The key of the section on screen. */
    function CurrentKey(): (k: string)
      reads this
      requires Valid()
      ensures k == SectionKeys[currentStep]
    {
      StepKeys();
      SectionKey(Steps[currentStep])
    }

    /**
     `handleNext(data)` up to the `await`: store the section's answers under its
     key; before the last step move on; on the last step start the submission
     and return the body it posts.
     */
    method HandleNext(data: Json) returns (posted: Option<Json>)
      requires Valid()
      modifies this
      ensures Valid()
      ensures formData == Put(old(formData), SectionKeys[old(currentStep)], data)
      ensures isSubmitted == old(isSubmitted)
      ensures old(currentStep) < LastStep ==>
        currentStep == old(currentStep) + 1 && posted == None && isLoading == old(isLoading)
      ensures old(currentStep) == LastStep ==>
        currentStep == old(currentStep) && isLoading && posted == Some(JObj(formData))
    {
      var key := CurrentKey();
      var updated := Put(formData, key, data);
      PutKeepsUnique(formData, key, data);
      formData := updated;
      if currentStep == LastStep {
        isLoading := true;
        posted := Some(JObj(updated));
      } else {
        currentStep := currentStep + 1;
        posted := None;
      }
    }

    /**
     The rest of `handleNext` once the request has settled: only an OK
     response marks the form submitted; loading ends either way, and the
     answers stay as they were for a retry.
     */
    method SubmissionSettled(result: FetchResult)
      requires Valid()
      modifies this`isLoading, this`isSubmitted
      ensures Valid()
      ensures !isLoading
      ensures result == Responded(true) ==> isSubmitted
      ensures result != Responded(true) ==> isSubmitted == old(isSubmitted)
    {
      if result == Responded(true) {
        isSubmitted := true;
      }
      isLoading := false;
    }

    /** `handlePrevious`: one step back, never below the first. */
    method HandlePrevious()
      requires Valid()
      modifies this`currentStep
      ensures Valid()
      ensures currentStep == if old(currentStep) > 0 then old(currentStep) - 1 else 0
    {
      if currentStep > 0 {
        currentStep := currentStep - 1;
      }
    }

    /** The answers the section on screen starts from: only its own entry. */
    function InitialData(): (r: Option<Json>)
      reads this
      requires Valid()
      ensures r.None? <==> SectionKeys[currentStep] !in Keys(formData)
      ensures r.Some? ==> (SectionKeys[currentStep], r.value) in formData
    {
      Lookup(formData, CurrentKey())
    }
  }

  /**
   Going back a step and completing it again with the answers it shows leaves
   the answer object as it was.
   */
  lemma RetreatThenAdvance(formData: Fields, step: nat, data: Json)
    requires KeysUnique(formData)
    requires step <= LastStep
    requires Lookup(formData, SectionKeys[step]) == Some(data)
    ensures Put(formData, SectionKeys[step], data) == formData
  {
    PutExisting(formData, SectionKeys[step], data);
  }

  /** Completing a section twice with the same answers is the same as once. */
  lemma ResubmitIdempotent(formData: Fields, step: nat, data: Json)
    requires step <= LastStep
    ensures Put(Put(formData, SectionKeys[step], data), SectionKeys[step], data)
         == Put(formData, SectionKeys[step], data)
  {
    PutIdempotent(formData, SectionKeys[step], data);
  }

  /** Completing a section changes its own entry and no other section's. */
  lemma OnlyOwnSectionChanges(formData: Fields, step: nat, data: Json, other: nat)
    requires step <= LastStep && other <= LastStep && other != step
    ensures Lookup(Put(formData, SectionKeys[step], data), SectionKeys[step]) == Some(data)
    ensures Lookup(Put(formData, SectionKeys[step], data), SectionKeys[other]) == Lookup(formData, SectionKeys[other])
  {
    SectionKeysDistinct();
    PutLookup(formData, SectionKeys[step], data, SectionKeys[step]);
    PutLookup(formData, SectionKeys[step], data, SectionKeys[other]);
  }

  /** One step of a run: the next section's answers join the end of the object. */
  lemma RunStep(before: Fields, i: nat, answers: seq<Json>)
    requires i < |SectionKeys| && |answers| == |SectionKeys|
    requires Keys(before) == SectionKeys[..i]
    requires forall j :: 0 <= j < i ==> Lookup(before, SectionKeys[j]) == Some(answers[j])
    ensures Keys(Put(before, SectionKeys[i], answers[i])) == SectionKeys[..i + 1]
    ensures forall j :: 0 <= j <= i ==> Lookup(Put(before, SectionKeys[i], answers[i]), SectionKeys[j]) == Some(answers[j])
  {
    SectionKeysDistinct();
    assert SectionKeys[i] !in SectionKeys[..i];
    assert SectionKeys[..i + 1] == SectionKeys[..i] + [SectionKeys[i]];
    forall j | 0 <= j <= i
      ensures Lookup(Put(before, SectionKeys[i], answers[i]), SectionKeys[j]) == Some(answers[j])
    {
      PutLookup(before, SectionKeys[i], answers[i], SectionKeys[j]);
    }
  }

  /**
   A whole run: six sections completed in order post an object holding each
   section's answers under its key. Once the request settles, the page shows
   the submitted state exactly when the response was OK, and the answers stay
   in place whatever the outcome.
   */
  method CompleteRun(answers: seq<Json>, result: FetchResult) returns (posted: Json, submitted: bool, kept: Fields)
    requires |answers| == |Steps|
    ensures posted.JObj? && Keys(posted.fields) == SectionKeys
    ensures forall i :: 0 <= i < |Steps| ==> Lookup(posted.fields, SectionKeys[i]) == Some(answers[i])
    ensures submitted <==> result == Responded(true)
    ensures kept == posted.fields
  {
    var home := new Home();
    var i := 0;
    var sent: Option<Json> := None;
    while i < |Steps|
      invariant 0 <= i <= |Steps|
      invariant home.Valid()
      invariant !home.isSubmitted
      invariant i < |Steps| ==> home.currentStep == i && sent == None
      invariant i == |Steps| ==> sent == Some(JObj(home.formData))
      invariant Keys(home.formData) == SectionKeys[..i]
      invariant forall j :: 0 <= j < i ==> Lookup(home.formData, SectionKeys[j]) == Some(answers[j])
    {
      RunStep(home.formData, i, answers);
      sent := home.HandleNext(answers[i]);
      i := i + 1;
    }
    assert SectionKeys[..|Steps|] == SectionKeys;
    posted := sent.value;
    home.SubmissionSettled(result);
    submitted := home.isSubmitted;
    kept := home.formData;
  }
}

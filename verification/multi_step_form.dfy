/**
 The draft-saving variant of the form: seven sections, every section's
 answers spread into one flat answer object that is saved to the browser's
 local storage slot "multiStepFormData" after each section.
 */
module MultiStepForm {
  import opened Wrappers
  import opened Json

  /** The section titles, in the order they are shown. */
  const SectionTitles: seq<string> :=
    ["Personal Profile + KYC", "Financial Profile", "Investment Profile", "Goals",
     "Asset Analysis", "Ikigai", "Savart One"]

  const LastSection: nat := |SectionTitles| - 1

  const SavedMessage := "Section saved successfully"
  const SaveErrorMessage := "Error saving section"

  datatype ToastKind = Success | Error
  datatype Toast = Toast(message: string, kind: ToastKind)

  class Form {
    var currentStep: int
    var formData: Fields
    var isLoading: bool
    var toast: Option<Toast>
    /** The "multiStepFormData" slot of local storage, as the object it holds. */
    var draft: Option<Fields>

    /** The step indexes a section, and the answers form a JavaScript object. */
    ghost predicate Valid()
      reads this
    {
      0 <= currentStep <= LastSection && KeysUnique(formData)
    }

    /** Mounting: the saved draft, when there is one, becomes the answers. */
    constructor (stored: Option<Fields>)
      requires stored.Some? ==> KeysUnique(stored.value)
      ensures Valid()
      ensures currentStep == 0 && !isLoading && toast == None && draft == stored
      ensures formData == if stored.Some? then stored.value else []
    {
      currentStep := 0;
      isLoading := false;
      toast := None;
      draft := stored;
      if stored.Some? {
        formData := stored.value;
      } else {
        formData := [];
      }
    }

    /** `handleNext`: one section on, never past the last. */
    method HandleNext()
      requires Valid()
      modifies this`currentStep
      ensures Valid()
      ensures currentStep == if old(currentStep) < LastSection then old(currentStep) + 1 else LastSection
    {
      if currentStep < LastSection {
        currentStep := currentStep + 1;
      }
    }

    /** `handlePrevious`: one section back, never before the first. */
    method HandlePrevious()
      requires Valid()
      modifies this`currentStep
      ensures Valid()
      ensures currentStep == if old(currentStep) > 0 then old(currentStep) - 1 else 0
    {
      if currentStep > 0 {
        currentStep := currentStep - 1;
      }
    }

    /**
     `handleSubmit(data)`: spread the section's answers over the stored ones,
     then save the result; `stored` says whether the storage write went
     through. Only a successful save moves on. Either way the merged answers
     stay in memory and loading ends.
     */
    method HandleSubmit(data: Fields, stored: bool)
      requires Valid()
      modifies this
      ensures Valid()
      ensures formData == Merge(old(formData), data)
      ensures !isLoading
      ensures stored ==>
        && draft == Some(formData)
        && currentStep == (if old(currentStep) < LastSection then old(currentStep) + 1 else LastSection)
        && toast == Some(Toast(SavedMessage, Success))
      ensures !stored ==>
        && draft == old(draft)
        && currentStep == old(currentStep)
        && toast == Some(Toast(SaveErrorMessage, Error))
    {
      isLoading := true;
      var updated := Merge(formData, data);
      MergeKeepsUnique(formData, data);
      formData := updated;
      if stored {
        draft := Some(updated);
        HandleNext();
        toast := Some(Toast(SavedMessage, Success));
      } else {
        toast := Some(Toast(SaveErrorMessage, Error));
      }
      isLoading := false;
    }

    /** The last section's Submit button only logs the answers; nothing is sent or changed. */
    method LogSubmission() returns (logged: Fields)
      requires Valid()
      ensures logged == formData
    {
      logged := formData;
    }
  }

  /**
   Every key in the draft is still there, in its place, after any later
   section is saved: answers are only ever added or overwritten.
   */
  lemma SavingKeepsAnswers(formData: Fields, data: Fields, k: string)
    requires KeysUnique(data)
    ensures k in Keys(formData) ==> k in Keys(Merge(formData, data))
    ensures |Merge(formData, data)| >= |formData|
    ensures forall i :: 0 <= i < |formData| ==> Merge(formData, data)[i].0 == formData[i].0
    ensures Lookup(Merge(formData, data), k) == if k in Keys(data) then Lookup(data, k) else Lookup(formData, k)
  {
    MergeKeySet(formData, data, k);
    MergeKeepsOrder(formData, data);
    MergeLookup(formData, data, k);
  }

  /** Spreading an object whose every entry is already present changes nothing. */
  lemma {:induction false} MergeExisting(a: Fields, b: Fields)
    requires KeysUnique(a) && KeysUnique(b)
    requires forall k :: k in Keys(b) ==> Lookup(a, k) == Lookup(b, k)
    ensures Merge(a, b) == a
    decreases |b|
  {
    if b != [] {
      assert Keys(b) == [b[0].0] + Keys(b[1..]);
      assert Lookup(b, b[0].0) == Some(b[0].1);
      PutExisting(a, b[0].0, b[0].1);
      assert KeysUnique(b[1..]);
      forall k | k in Keys(b[1..]) ensures Lookup(a, k) == Lookup(b[1..], k) {
        assert k in Keys(b);
        assert k != b[0].0 by {
          var i :| 0 <= i < |b[1..]| && Keys(b[1..])[i] == k;
          assert b[1..][i] == b[i + 1];
        }
      }
      MergeExisting(a, b[1..]);
    } else {
      assert Merge(a, b) == a;
    }
  }

  /**
   Saving the same section twice gives the same answers as saving it once,
   so a retry after a failed save is harmless.
   */
  lemma {:induction false} ResaveIdempotent(formData: Fields, data: Fields)
    requires KeysUnique(formData) && KeysUnique(data)
    ensures Merge(Merge(formData, data), data) == Merge(formData, data)
  {
    var m := Merge(formData, data);
    MergeKeepsUnique(formData, data);
    forall k | k in Keys(data) ensures Lookup(m, k) == Lookup(data, k) {
      MergeLookup(formData, data, k);
    }
    MergeExisting(m, data);
  }
}

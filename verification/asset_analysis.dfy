/**
 The asset analysis section: its default answers, the entry a new real-estate
 row starts from, and the clean-up `onSubmitForm` does before handing the
 answers on, which turns every empty-string sub-field of a top-level object
 or array into `null`, one level deep, in place.
 */
module AssetAnalysis {
  import opened Wrappers
  import opened Json

  /** `if (value[subKey] === "") value[subKey] = null`, for one member. */
  function NullIfEmpty(v: Json): (w: Json)
    ensures w != JStr("")
    ensures v != JStr("") ==> w == v
    ensures w == JNull <==> v == JNull || v == JStr("")
  {
    if v == JStr("") then JNull else v
  }

  /** One top-level value after the clean-up: its direct members, not deeper ones. */
  function NormalizedValue(v: Json): (r: Json)
    ensures v.JObj? <==> r.JObj?
    ensures v.JArr? <==> r.JArr?
    ensures v.JObj? ==> Keys(r.fields) == Keys(v.fields)
    ensures v.JArr? ==> |r.items| == |v.items|
  {
    match v
    case JObj(fields) => JObj(seq(|fields|, i requires 0 <= i < |fields| => (fields[i].0, NullIfEmpty(fields[i].1))))
    case JArr(items) => JArr(seq(|items|, i requires 0 <= i < |items| => NullIfEmpty(items[i])))
    case _ => v
  }

  /** The answers after the clean-up. */
  function Normalized(data: Fields): (r: Fields)
    ensures Keys(r) == Keys(data)
  {
    seq(|data|, i requires 0 <= i < |data| => (data[i].0, NormalizedValue(data[i].1)))
  }

  /** The inner loop: the members of one top-level value, nulled one by one. */
  method NullEmptyMembers(v: Json) returns (w: Json)
    ensures w == NormalizedValue(v)
  {
    match v {
      case JObj(fields) =>
        var out: Fields := [];
        var j := 0;
        while j < |fields|
          invariant 0 <= j <= |fields|
          invariant |out| == j
          invariant forall m :: 0 <= m < j ==> out[m] == (fields[m].0, NullIfEmpty(fields[m].1))
        {
          var member := fields[j];
          if member.1 == JStr("") {
            member := (member.0, JNull);
          }
          out := out + [member];
          j := j + 1;
        }
        w := JObj(out);
      case JArr(items) =>
        var out: seq<Json> := [];
        var j := 0;
        while j < |items|
          invariant 0 <= j <= |items|
          invariant |out| == j
          invariant forall m :: 0 <= m < j ==> out[m] == NullIfEmpty(items[m])
        {
          var item := items[j];
          if item == JStr("") {
            item := JNull;
          }
          out := out + [item];
          j := j + 1;
        }
        w := JArr(out);
      case _ =>
        w := v;
    }
  }

  /**
   `onSubmitForm`: the outer loop rewrites each top-level value in place, and
   the same answer object is what goes on to `onSubmit`.
   */
  method OnSubmitForm(data: array<(string, Json)>) returns (submitted: array<(string, Json)>)
    modifies data
    ensures submitted == data
    ensures data[..] == Normalized(old(data[..]))
  {
    var i := 0;
    while i < data.Length
      invariant 0 <= i <= data.Length
      invariant forall m :: 0 <= m < i ==> data[m] == (old(data[m]).0, NormalizedValue(old(data[m]).1))
      invariant forall m :: i <= m < data.Length ==> data[m] == old(data[m])
    {
      var value := NullEmptyMembers(data[i].1);
      data[i] := (data[i].0, value);
      i := i + 1;
    }
    submitted := data;
  }

  /**
   Inside a top-level object, an empty string becomes `null` and every other
   member (`null`, `0`, a non-empty string, a nested value) keeps its value.
   */
  lemma ObjectMembers(data: Fields, i: nat, j: nat)
    requires i < |data| && data[i].1.JObj? && j < |data[i].1.fields|
    ensures Normalized(data)[i].1.JObj?
    ensures |Normalized(data)[i].1.fields| == |data[i].1.fields|
    ensures Normalized(data)[i].1.fields[j].0 == data[i].1.fields[j].0
    ensures data[i].1.fields[j].1 == JStr("") ==> Normalized(data)[i].1.fields[j].1 == JNull
    ensures data[i].1.fields[j].1 != JStr("") ==> Normalized(data)[i].1.fields[j].1 == data[i].1.fields[j].1
  {
  }

  /** Inside a top-level array, the same holds element by element. */
  lemma ArrayElements(data: Fields, i: nat, j: nat)
    requires i < |data| && data[i].1.JArr? && j < |data[i].1.items|
    ensures Normalized(data)[i].1.JArr?
    ensures |Normalized(data)[i].1.items| == |data[i].1.items|
    ensures data[i].1.items[j] == JStr("") ==> Normalized(data)[i].1.items[j] == JNull
    ensures data[i].1.items[j] != JStr("") ==> Normalized(data)[i].1.items[j] == data[i].1.items[j]
  {
  }

  /** Top-level values that are not objects are left as they are, even `""`. */
  lemma ScalarsUntouched(data: Fields, i: nat)
    requires i < |data| && !data[i].1.JObj? && !data[i].1.JArr?
    ensures Normalized(data)[i] == data[i]
  {
  }

  /** After the clean-up no direct member of a top-level value is an empty string. */
  lemma NoEmptyMembers(data: Fields, i: nat)
    requires i < |data|
    ensures Normalized(data)[i].1.JObj? ==>
      forall j :: 0 <= j < |Normalized(data)[i].1.fields| ==> Normalized(data)[i].1.fields[j].1 != JStr("")
    ensures Normalized(data)[i].1.JArr? ==>
      forall j :: 0 <= j < |Normalized(data)[i].1.items| ==> Normalized(data)[i].1.items[j] != JStr("")
  {
  }

  lemma NormalizedValueIdempotent(v: Json)
    ensures NormalizedValue(NormalizedValue(v)) == NormalizedValue(v)
  {
    match v {
      case JObj(fields) =>
        var once := NormalizedValue(v).fields;
        assert NormalizedValue(NormalizedValue(v)).fields == once;
      case JArr(items) =>
        var once := NormalizedValue(v).items;
        assert NormalizedValue(NormalizedValue(v)).items == once;
      case _ =>
    }
  }

  /** Cleaning the answers twice gives the same as cleaning them once. */
  lemma NormalizeIdempotent(data: Fields)
    ensures Normalized(Normalized(data)) == Normalized(data)
  {
    forall i | 0 <= i < |data|
      ensures Normalized(Normalized(data))[i] == Normalized(data)[i]
    {
      NormalizedValueIdempotent(data[i].1);
    }
  }

  /** The entry "Add Real Estate Property" appends. */
  const NewRealEstateEntry: Json :=
    JObj([("nature", JStr("")), ("location", JStr("")), ("area", JNull), ("purchaseValue", JNull), ("currentValue", JNull)])

  function Holding(keys: seq<string>): Json
  {
    JObj(seq(|keys|, i requires 0 <= i < |keys| => (keys[i], JNull)))
  }

  const ChitFunds: Json := JObj([("monthlyContribution", JNull), ("tenure", JStr("")), ("chitValue", JNull)])

  /** The answers the section starts from when it is given none. */
  const DefaultAnswers: Fields := [
    ("realEstate", JArr([])),
    ("reits", Holding(["currentValue"])),
    ("goldJewellery", Holding(["currentValue"])),
    ("chitFunds", ChitFunds),
    ("listedEquity", Holding(["purchaseValue", "currentValue"])),
    ("mutualFunds", Holding(["purchaseValue", "currentValue"])),
    ("fixedDeposit", Holding(["purchaseValue", "currentValue"])),
    ("eps", Holding(["currentValue"])),
    ("nps", Holding(["currentValue"])),
    ("ulip", Holding(["currentValue"])),
    ("bondsDebentures", Holding(["currentValue"])),
    ("alternativeInvestments", Holding(["currentValue"])),
    ("unsecuredLending", Holding(["currentValue"])),
    ("privateEquity", Holding(["currentValue"])),
    ("postalSavings", Holding(["currentValue"])),
    ("cashEquivalents", Holding(["currentValue"]))
  ]

  const ChitFundsIndex := 3

  lemma HoldingNulls(keys: seq<string>)
    ensures Holding(keys).JObj?
    ensures forall j :: 0 <= j < |Holding(keys).fields| ==> Holding(keys).fields[j].1 == JNull
  {
  }

  /**
   In the default answers `realEstate` is empty, `chitFunds.tenure` is the
   one empty string, and every other field is `null`.
   */
  lemma DefaultAnswersShape()
    ensures DefaultAnswers[0] == ("realEstate", JArr([]))
    ensures DefaultAnswers[ChitFundsIndex] == ("chitFunds", ChitFunds)
    ensures Lookup(ChitFunds.fields, "tenure") == Some(JStr(""))
    ensures forall j :: 0 <= j < |ChitFunds.fields| && ChitFunds.fields[j].0 != "tenure" ==> ChitFunds.fields[j].1 == JNull
    ensures forall i :: 1 <= i < |DefaultAnswers| && i != ChitFundsIndex ==>
      && DefaultAnswers[i].1.JObj?
      && forall j :: 0 <= j < |DefaultAnswers[i].1.fields| ==> DefaultAnswers[i].1.fields[j].1 == JNull
  {
    HoldingNulls(["currentValue"]);
    HoldingNulls(["purchaseValue", "currentValue"]);
  }

  /**
   The clean-up of the default answers turns the one empty string,
   `chitFunds.tenure`, into `null` and changes nothing else.
   */
  lemma DefaultAnswersCleaned()
    ensures Normalized(DefaultAnswers)[ChitFundsIndex].1 ==
      JObj([("monthlyContribution", JNull), ("tenure", JNull), ("chitValue", JNull)])
    ensures forall i :: 0 <= i < |DefaultAnswers| && i != ChitFundsIndex ==> Normalized(DefaultAnswers)[i] == DefaultAnswers[i]
  {
    DefaultAnswersShape();
    forall i | 0 <= i < |DefaultAnswers| && i != ChitFundsIndex
      ensures Normalized(DefaultAnswers)[i] == DefaultAnswers[i]
    {
      HoldingUnchanged(DefaultAnswers[i].1);
    }
    assert NormalizedValue(ChitFunds).fields == [("monthlyContribution", JNull), ("tenure", JNull), ("chitValue", JNull)];
  }

  /** A value whose members are all `null` (or an empty array) passes through unchanged. */
  lemma HoldingUnchanged(v: Json)
    requires v.JObj? ==> forall j :: 0 <= j < |v.fields| ==> v.fields[j].1 == JNull
    requires v.JArr? ==> v.items == []
    ensures NormalizedValue(v) == v
  {
    match v {
      case JObj(fields) =>
        assert NormalizedValue(v).fields == fields;
      case JArr(items) =>
        assert NormalizedValue(v).items == items;
      case _ =>
    }
  }

  /**
   Only one level is cleaned: real-estate rows keep their empty `nature` and
   `location`, because the array's own elements are objects, not `""`.
   */
  lemma RealEstateRowsKept(data: Fields, i: nat, rows: seq<Json>)
    requires i < |data| && data[i] == ("realEstate", JArr(rows))
    requires forall r :: r in rows ==> r.JObj?
    ensures Normalized(data)[i] == data[i]
  {
    forall j | 0 <= j < |rows| ensures NormalizedValue(JArr(rows)).items[j] == rows[j] {
      assert rows[j] in rows;
    }
    assert NormalizedValue(JArr(rows)).items == rows;
  }

  /** A freshly added real-estate row survives the clean-up with its empty strings. */
  lemma NewRowSurvives(data: Fields, i: nat)
    requires i < |data| && data[i] == ("realEstate", JArr([NewRealEstateEntry]))
    ensures Normalized(data)[i].1.items[0] == NewRealEstateEntry
    ensures Lookup(NewRealEstateEntry.fields, "location") == Some(JStr(""))
  {
    RealEstateRowsKept(data, i, [NewRealEstateEntry]);
  }
}

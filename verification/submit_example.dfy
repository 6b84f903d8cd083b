/**
 A worked example of the submission row: an answer object with a nested
 section and a list of goals. Each step is its own small lemma, because
 equalities between string literals are costly to check in a large context.
 */
module SubmitExample {
  import opened Json
  import opened SubmitRoute

  lemma QuoteName()
    ensures Quote("name") == "\"name\""
  {
    EscapePlain("name");
  }

  lemma QuoteAmount()
    ensures Quote("amount") == "\"amount\""
  {
    EscapePlain("amount");
  }

  lemma QuoteX()
    ensures Stringify(JStr("x")) == "\"x\""
  {
    EscapePlain("x");
  }

  lemma GoalMembers(fields: Fields)
    requires fields == [("name", JStr("x")), ("amount", JNum(5))]
    ensures MemberTexts(fields) == ["\"name\":\"x\"", "\"amount\":5"]
  {
    var m := MemberTexts(fields);
    QuoteName();
    QuoteAmount();
    QuoteX();
    assert Stringify(JNum(5)) == "5";
    assert m[0] == "\"name\"" + ":" + "\"x\"";
    assert m[1] == "\"amount\"" + ":" + "5";
    assert "\"name\"" + ":" + "\"x\"" == "\"name\":\"x\"";
    assert "\"amount\"" + ":" + "5" == "\"amount\":5";
    assert m == [m[0], m[1]];
  }

  lemma ObjectText(fields: Fields)
    ensures Stringify(JObj(fields)) == "{" + Join(MemberTexts(fields), ",") + "}"
  {
  }

  lemma ArrayText(items: seq<Json>)
    ensures Stringify(JArr(items)) == "[" + Join(ElementTexts(items), ",") + "]"
  {
  }

  lemma JoinTwo(a: string, b: string)
    ensures Join([a, b], ",") == a + "," + b
  {
  }

  lemma GoalInner(t: string)
    requires t == "\"name\":\"x\"" + "," + "\"amount\":5"
    ensures "{" + t + "}" == "{\"name\":\"x\",\"amount\":5}"
  {
  }

  lemma GoalBrackets(t: string)
    requires t == "{\"name\":\"x\",\"amount\":5}"
    ensures "[" + t + "]" == "[{\"name\":\"x\",\"amount\":5}]"
  {
  }

  lemma GoalText(fields: Fields)
    requires fields == [("name", JStr("x")), ("amount", JNum(5))]
    ensures Stringify(JObj(fields)) == "{\"name\":\"x\",\"amount\":5}"
  {
    ObjectText(fields);
    GoalMembers(fields);
    JoinTwo("\"name\":\"x\"", "\"amount\":5");
    GoalInner(Join(MemberTexts(fields), ","));
  }

  lemma GoalListText(goal: Json)
    requires goal == JObj([("name", JStr("x")), ("amount", JNum(5))])
    ensures Stringify(JArr([goal])) == "[{\"name\":\"x\",\"amount\":5}]"
  {
    ArrayText([goal]);
    GoalText(goal.fields);
    var e := ElementTexts([goal]);
    assert e == [Stringify(goal)];
    GoalBrackets(Join(e, ","));
  }

  lemma PersonalCells(personal: Fields)
    requires personal == [("name", JStr("A")), ("age", JNull)]
    ensures FlattenObject(personal, "personal") == ["personal.name: A", "personal.age: NA"]
  {
    assert personal == [personal[0]] + [personal[1]];
    FlattenAppend([personal[0]], [personal[1]], "personal");
    ScalarCells("name", "personal", "A", 0);
    ScalarCells("age", "personal", "A", 0);
    assert PathOf("personal", "name") + ": " + "A" == "personal.name: A";
    assert PathOf("personal", "age") + ": NA" == "personal.age: NA";
  }

  lemma GoalsCell(path: string, text: string)
    requires path == "goals.list" && text == "[{\"name\":\"x\",\"amount\":5}]"
    ensures path + ": " + text == "goals.list: [{\"name\":\"x\",\"amount\":5}]"
  {
  }

  lemma GoalsCells(goals: Fields)
    requires goals == [("list", JArr([JObj([("name", JStr("x")), ("amount", JNum(5))])]))]
    ensures FlattenObject(goals, "goals") == ["goals.list: [{\"name\":\"x\",\"amount\":5}]"]
  {
    var goal := goals[0].1.items[0];
    assert goals == [("list", JArr([goal]))];
    ArrayCell("list", [goal], "goals");
    GoalListText(goal);
    GoalsCell(PathOf("goals", "list"), Stringify(JArr([goal])));
  }

  /**
   `{personal: {name: "A", age: null}, goals: {list: [{name: "x", amount: 5}]}}`
   becomes three cells: the nested section is expanded, the null is `NA`, and
   the list is one cell of JSON text.
   */
  lemma WorkedExample(body: Fields)
    requires body == [
      ("personal", JObj([("name", JStr("A")), ("age", JNull)])),
      ("goals", JObj([("list", JArr([JObj([("name", JStr("x")), ("amount", JNum(5))])]))]))]
    ensures FlattenObject(body, "")
         == ["personal.name: A", "personal.age: NA", "goals.list: [{\"name\":\"x\",\"amount\":5}]"]
  {
    var personal := body[0].1.fields;
    var goals := body[1].1.fields;
    assert body == [("personal", JObj(personal))] + [("goals", JObj(goals))];
    FlattenAppend([("personal", JObj(personal))], [("goals", JObj(goals))], "");
    NestedObjectCells("personal", personal, "");
    NestedObjectCells("goals", goals, "");
    PersonalCells(personal);
    GoalsCells(goals);
  }
}

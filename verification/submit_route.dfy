/**
 The submission endpoint: the request body is flattened into one row of
 `"path: value"` cells, and the outcome of appending that row decides the reply.
 The spreadsheet client is not modelled; what its construction and its append
 call do is a parameter (an `Outcome`).
 */
module SubmitRoute {
  import opened Wrappers
  import opened Json

  // ---------------------------------------------------------------------
  // Flattening

  /** The dotted path of `key` below `prefix`; the empty prefix stands for the top. */
  function PathOf(prefix: string, key: string): (path: string)
    ensures |path| >= |key| && path[|path| - |key|..] == key
    ensures prefix == "" ==> path == key
    ensures prefix != "" ==> |path| == |prefix| + 1 + |key| && path[..|prefix| + 1] == prefix + "."
  {
    if prefix != "" then prefix + "." + key else key
  }

  predicate IsScalar(v: Json)
  {
    !v.JArr? && !v.JObj?
  }

  /** A scalar in a template literal: strings as they are, numbers and booleans as text. */
  function ScalarText(v: Json): string
    requires IsScalar(v)
  {
    match v
    case JNull => "null"
    case JStr(s) => s
    case JNum(n) => IntText(n)
    case JBool(b) => if b then "true" else "false"
  }

  /** The text of a scalar cell: `null` and the empty string are written `NA`. */
  function CellText(v: Json): (t: string)
    requires IsScalar(v)
    ensures v == JNull || v == JStr("") ==> t == "NA"
    ensures v.JStr? && v.s != "" ==> t == v.s
    ensures v.JNum? ==> t == IntText(v.n)
    ensures v == JBool(false) ==> t == "false"
    ensures v == JBool(true) ==> t == "true"
  {
    if v == JNull || v == JStr("") then "NA" else ScalarText(v)
  }

  /** Concatenation of a sequence of sequences, the second half of `flatMap`. */
  function Concat<T>(ss: seq<seq<T>>): seq<T>
  {
    if ss == [] then [] else ss[0] + Concat(ss[1..])
  }

  /** The cells one entry of an object contributes. */
  function FlattenEntry(key: string, value: Json, prefix: string): seq<string>
    decreases value, 2
  {
    var path := PathOf(prefix, key);
    match value
    case JArr(_) => [path + ": " + Stringify(value)]
    case JObj(fields) => FlattenObject(fields, path)
    case _ => [path + ": " + CellText(value)]
  }

  /** `flattenObject(obj, prefix)`: `Object.entries(obj).flatMap(...)`. */
  function FlattenObject(fields: Fields, prefix: string): seq<string>
    decreases JObj(fields), 1
  {
    Concat(seq(|fields|, i requires 0 <= i < |fields| => FlattenEntry(fields[i].0, fields[i].1, prefix)))
  }

  // ---------------------------------------------------------------------
  // A reference view: the leaves of the tree, each with its full path

  /** The leaf values below one entry: every value that is not an object. */
  function LeavesOfEntry(key: string, value: Json, prefix: string): seq<(string, Json)>
    decreases value, 2
  {
    var path := PathOf(prefix, key);
    match value
    case JObj(fields) => Leaves(fields, path)
    case _ => [(path, value)]
  }

  function Leaves(fields: Fields, prefix: string): seq<(string, Json)>
    decreases JObj(fields), 1
  {
    Concat(seq(|fields|, i requires 0 <= i < |fields| => LeavesOfEntry(fields[i].0, fields[i].1, prefix)))
  }

  /** How one leaf is written: arrays as JSON text, scalars as `CellText`. */
  function Render(leaf: (string, Json)): string
    requires !leaf.1.JObj?
  {
    leaf.0 + ": " + (if leaf.1.JArr? then Stringify(leaf.1) else CellText(leaf.1))
  }

  predicate NoObjects(leaves: seq<(string, Json)>)
  {
    forall j :: 0 <= j < |leaves| ==> !leaves[j].1.JObj?
  }

  function RenderAll(leaves: seq<(string, Json)>): seq<string>
    requires NoObjects(leaves)
  {
    seq(|leaves|, j requires 0 <= j < |leaves| => Render(leaves[j]))
  }

  /** The number of cells a value yields: one per scalar and one per array. */
  function CellCount(v: Json): nat
    decreases v, 2
  {
    match v
    case JObj(fields) => FieldsCellCount(fields)
    case _ => 1
  }

  function Sum(ns: seq<nat>): nat
  {
    if ns == [] then 0 else ns[0] + Sum(ns[1..])
  }

  function FieldsCellCount(fields: Fields): nat
    decreases JObj(fields), 1
  {
    Sum(seq(|fields|, i requires 0 <= i < |fields| => CellCount(fields[i].1)))
  }

  // ---------------------------------------------------------------------
  // Lemmas about Concat and Sum

  lemma {:induction false} ConcatAppend<T>(s: seq<seq<T>>, t: seq<seq<T>>)
    ensures Concat(s + t) == Concat(s) + Concat(t)
  {
    if s == [] {
      assert s + t == t;
    } else {
      ConcatAppend(s[1..], t);
      assert (s + t)[1..] == s[1..] + t;
    }
  }

  lemma {:induction false} ConcatLength<T>(ss: seq<seq<T>>, ns: seq<nat>)
    requires |ss| == |ns|
    requires forall i :: 0 <= i < |ss| ==> |ss[i]| == ns[i]
    ensures |Concat(ss)| == Sum(ns)
  {
    if ss != [] {
      ConcatLength(ss[1..], ns[1..]);
    }
  }

  /** Each element of a concatenation comes from one of the parts. */
  lemma {:induction false} ConcatMember<T>(ss: seq<seq<T>>, x: T)
    requires x in Concat(ss)
    ensures exists i :: 0 <= i < |ss| && x in ss[i]
  {
    if x !in ss[0] {
      ConcatMember(ss[1..], x);
      var i :| 0 <= i < |ss[1..]| && x in ss[1..][i];
      assert x in ss[i + 1];
    }
  }

  /** Rendering the parts one by one renders the whole. */
  lemma {:induction false} ConcatRender(cells: seq<seq<string>>, leaves: seq<seq<(string, Json)>>)
    requires |cells| == |leaves|
    requires forall i :: 0 <= i < |leaves| ==> NoObjects(leaves[i]) && cells[i] == RenderAll(leaves[i])
    ensures NoObjects(Concat(leaves)) && Concat(cells) == RenderAll(Concat(leaves))
  {
    if cells != [] {
      ConcatRender(cells[1..], leaves[1..]);
      assert Concat(leaves) == leaves[0] + Concat(leaves[1..]);
      RenderAllAppend(leaves[0], Concat(leaves[1..]));
    }
  }

  lemma RenderAllAppend(a: seq<(string, Json)>, b: seq<(string, Json)>)
    requires NoObjects(a) && NoObjects(b)
    ensures NoObjects(a + b) && RenderAll(a + b) == RenderAll(a) + RenderAll(b)
  {
  }

  // ---------------------------------------------------------------------
  // Properties of the flattening

  /** Object entries are flattened in order: the cells of `a + b` are `a`'s then `b`'s. */
  lemma FlattenAppend(a: Fields, b: Fields, prefix: string)
    ensures FlattenObject(a + b, prefix) == FlattenObject(a, prefix) + FlattenObject(b, prefix)
  {
    assert seq(|a + b|, i requires 0 <= i < |a + b| => FlattenEntry((a + b)[i].0, (a + b)[i].1, prefix))
        == seq(|a|, i requires 0 <= i < |a| => FlattenEntry(a[i].0, a[i].1, prefix))
         + seq(|b|, i requires 0 <= i < |b| => FlattenEntry(b[i].0, b[i].1, prefix));
    ConcatAppend(seq(|a|, i requires 0 <= i < |a| => FlattenEntry(a[i].0, a[i].1, prefix)),
                 seq(|b|, i requires 0 <= i < |b| => FlattenEntry(b[i].0, b[i].1, prefix)));
  }

  /** A one-entry object yields exactly that entry's cells; an empty one yields none. */
  lemma FlattenSingle(key: string, value: Json, prefix: string)
    ensures FlattenObject([(key, value)], prefix) == FlattenEntry(key, value, prefix)
    ensures FlattenObject([], prefix) == []
  {
    var cells := FlattenEntry(key, value, prefix);
    var entries := seq(1, i requires 0 <= i < 1 => FlattenEntry([(key, value)][i].0, [(key, value)][i].1, prefix));
    assert entries == [cells] by {
      assert entries[0] == cells;
    }
    assert Concat([cells]) == cells + Concat([]);
  }

  /**
   Scalars: `null` and `""` are written `NA`; every other scalar, `0` and
   `false` included, is written as its text.
   */
  lemma ScalarCells(key: string, prefix: string, s: string, n: int)
    ensures FlattenObject([(key, JNull)], prefix) == [PathOf(prefix, key) + ": NA"]
    ensures FlattenObject([(key, JStr(""))], prefix) == [PathOf(prefix, key) + ": NA"]
    ensures s != "" ==> FlattenObject([(key, JStr(s))], prefix) == [PathOf(prefix, key) + ": " + s]
    ensures FlattenObject([(key, JNum(n))], prefix) == [PathOf(prefix, key) + ": " + IntText(n)]
    ensures FlattenObject([(key, JNum(0))], prefix) == [PathOf(prefix, key) + ": 0"]
    ensures FlattenObject([(key, JBool(false))], prefix) == [PathOf(prefix, key) + ": false"]
    ensures FlattenObject([(key, JBool(true))], prefix) == [PathOf(prefix, key) + ": true"]
  {
    var path := PathOf(prefix, key);
    FlattenSingle(key, JNull, prefix);
    assert path + ": " + "NA" == path + ": NA";
    FlattenSingle(key, JStr(""), prefix);
    FlattenSingle(key, JStr(s), prefix);
    FlattenSingle(key, JNum(n), prefix);
    FlattenSingle(key, JNum(0), prefix);
    assert IntText(0) == "0";
    assert path + ": " + "0" == path + ": 0";
    FlattenSingle(key, JBool(false), prefix);
    assert path + ": " + "false" == path + ": false";
    FlattenSingle(key, JBool(true), prefix);
    assert path + ": " + "true" == path + ": true";
  }

  /** An array is one cell holding its JSON text; its elements are never visited. */
  lemma ArrayCell(key: string, items: seq<Json>, prefix: string)
    ensures FlattenObject([(key, JArr(items))], prefix) == [PathOf(prefix, key) + ": " + Stringify(JArr(items))]
  {
    FlattenSingle(key, JArr(items), prefix);
  }

  /** A nested object contributes its own entries under the extended path; an empty one nothing. */
  lemma NestedObjectCells(key: string, fields: Fields, prefix: string)
    ensures FlattenObject([(key, JObj(fields))], prefix) == FlattenObject(fields, PathOf(prefix, key))
    ensures FlattenObject([(key, JObj([]))], prefix) == []
  {
    FlattenSingle(key, JObj(fields), prefix);
    FlattenSingle(key, JObj([]), prefix);
    FlattenSingle(key, JObj([]), PathOf(prefix, key));
  }

  /** The cells are exactly the rendered leaves, in order, and no leaf is an object. */
  lemma {:induction false} FlattenIsRenderedLeaves(fields: Fields, prefix: string)
    ensures NoObjects(Leaves(fields, prefix))
    ensures FlattenObject(fields, prefix) == RenderAll(Leaves(fields, prefix))
    decreases JObj(fields), 1
  {
    var cells: seq<seq<string>> :=
      seq(|fields|, i requires 0 <= i < |fields| => FlattenEntry(fields[i].0, fields[i].1, prefix));
    var leaves: seq<seq<(string, Json)>> :=
      seq(|fields|, i requires 0 <= i < |fields| => LeavesOfEntry(fields[i].0, fields[i].1, prefix));
    forall i | 0 <= i < |fields|
      ensures NoObjects(leaves[i]) && cells[i] == RenderAll(leaves[i])
    {
      EntryIsRenderedLeaves(fields[i].0, fields[i].1, prefix);
    }
    ConcatRender(cells, leaves);
  }

  lemma {:induction false} EntryIsRenderedLeaves(key: string, value: Json, prefix: string)
    ensures NoObjects(LeavesOfEntry(key, value, prefix))
    ensures FlattenEntry(key, value, prefix) == RenderAll(LeavesOfEntry(key, value, prefix))
    decreases value, 2
  {
    var path := PathOf(prefix, key);
    match value
    case JObj(fields) => FlattenIsRenderedLeaves(fields, path);
    case _ =>
      assert LeavesOfEntry(key, value, prefix) == [(path, value)];
      assert RenderAll([(path, value)]) == [Render((path, value))];
  }

  /** Below a non-empty prefix, every leaf path starts with the prefix and a dot. */
  lemma {:induction false} LeafPathsExtendPrefix(fields: Fields, prefix: string)
    requires prefix != ""
    ensures forall l :: l in Leaves(fields, prefix) ==>
      |l.0| > |prefix| && l.0[..|prefix| + 1] == prefix + "."
    decreases JObj(fields), 1
  {
    var leaves: seq<seq<(string, Json)>> := seq(|fields|, i requires 0 <= i < |fields| => LeavesOfEntry(fields[i].0, fields[i].1, prefix));
    forall l | l in Leaves(fields, prefix)
      ensures |l.0| > |prefix| && l.0[..|prefix| + 1] == prefix + "."
    {
      ConcatMember(leaves, l);
      var i :| 0 <= i < |leaves| && l in leaves[i];
      EntryLeafPathsExtendPrefix(fields[i].0, fields[i].1, prefix);
    }
  }

  lemma {:induction false} EntryLeafPathsExtendPrefix(key: string, value: Json, prefix: string)
    requires prefix != ""
    ensures forall l :: l in LeavesOfEntry(key, value, prefix) ==>
      |l.0| > |prefix| && l.0[..|prefix| + 1] == prefix + "."
    decreases value, 2
  {
    var path := PathOf(prefix, key);
    match value
    case JObj(fields) =>
      LeafPathsExtendPrefix(fields, path);
      forall l | l in Leaves(fields, path)
        ensures |l.0| > |prefix| && l.0[..|prefix| + 1] == prefix + "."
      {
        assert l.0[..|prefix| + 1] == l.0[..|path| + 1][..|prefix| + 1];
      }
    case _ =>
  }

  /** The number of cells is the number of scalar leaves plus the number of arrays. */
  lemma {:induction false} FlattenCount(fields: Fields, prefix: string)
    ensures |FlattenObject(fields, prefix)| == FieldsCellCount(fields)
    decreases JObj(fields), 1
  {
    var cells: seq<seq<string>> := seq(|fields|, i requires 0 <= i < |fields| => FlattenEntry(fields[i].0, fields[i].1, prefix));
    var counts := seq(|fields|, i requires 0 <= i < |fields| => CellCount(fields[i].1));
    forall i | 0 <= i < |fields| ensures |cells[i]| == counts[i] {
      EntryCount(fields[i].0, fields[i].1, prefix);
    }
    ConcatLength(cells, counts);
  }

  lemma {:induction false} EntryCount(key: string, value: Json, prefix: string)
    ensures |FlattenEntry(key, value, prefix)| == CellCount(value)
    decreases value, 2
  {
    match value
    case JObj(fields) => FlattenCount(fields, PathOf(prefix, key));
    case _ =>
  }

  // ---------------------------------------------------------------------
  // The request handler

  /** `Object.entries(body)` for whatever `req.json()` produced. */
  function Entries(body: Json): (r: Option<Fields>)
    ensures r.None? <==> body == JNull
    ensures body.JObj? ==> r == Some(body.fields)
    ensures body.JNum? || body.JBool? ==> r == Some([])
    ensures body.JArr? ==> r.Some? && |r.value| == |body.items|
    ensures body.JArr? ==> forall i :: 0 <= i < |body.items| ==> r.value[i] == (NatText(i), body.items[i])
    ensures body.JStr? ==> r.Some? && |r.value| == |body.s|
    ensures body.JStr? ==> forall i :: 0 <= i < |body.s| ==> r.value[i] == (NatText(i), JStr([body.s[i]]))
  {
    match body
    case JNull => None
    case JObj(fields) => Some(fields)
    case JArr(items) => Some(seq(|items|, i requires 0 <= i < |items| => (NatText(i), items[i])))
    case JStr(s) => Some(seq(|s|, i requires 0 <= i < |s| => (NatText(i), JStr([s[i]]))))
    case _ => Some([])
  }

  /** What a `catch` can receive: an `Error` object with its message, or anything else. */
  datatype Thrown = ErrorObject(message: string) | NonError

  /** How a step that may throw ended. */
  datatype Outcome = Completed | Threw(thrown: Thrown)

  /** What `req.json()` produced. */
  datatype BodyRead = Parsed(value: Json) | ParseFailed(thrown: Thrown)

  datatype ReplyBody = Message(message: string) | Failure(error: string, details: string)

  datatype Reply = Reply(status: int, body: ReplyBody)

  /** The reply, and the rows handed to the append call if it was reached. */
  datatype Handled = Handled(reply: Reply, appended: Option<seq<seq<string>>>)

  const SuccessMessage := "Form data submitted successfully"
  const FailureError := "Failed to submit form data"
  const UnknownDetails := "An unknown error occurred"
  /** What `Object.entries(null)` throws. */
  const NullBodyMessage := "Cannot convert undefined or null to object"

  function Details(e: Thrown): string
  {
    match e
    case ErrorObject(m) => m
    case NonError => UnknownDetails
  }

  function FailureReply(e: Thrown): (r: Reply)
    ensures r.status == 500 && r.body.Failure? && r.body.error == FailureError
    ensures e.ErrorObject? ==> r.body.details == e.message
    ensures e.NonError? ==> r.body.details == UnknownDetails
  {
    Reply(500, Failure(FailureError, Details(e)))
  }

  /**
   `POST`: read the body, build the client, flatten the body into one row,
   append it. `body` is what `req.json()` gave or threw; `client` is whether
   building the authenticated client threw; `append` is how the append call
   ended.
   */
  function Post(body: BodyRead, client: Outcome, append: Outcome): (h: Handled)
    ensures h.reply.status == 200 <==>
      body.Parsed? && client.Completed? && body.value != JNull && append.Completed?
    ensures h.reply.status == 200 ==> h.reply.body == Message(SuccessMessage)
    ensures h.reply.status != 200 ==>
      h.reply.status == 500 && h.reply.body.Failure? && h.reply.body.error == FailureError
    ensures h.appended.Some? <==> body.Parsed? && client.Completed? && body.value != JNull
    ensures h.appended.Some? ==>
      h.appended.value == [FlattenObject(Entries(body.value).value, "")]
    ensures body.ParseFailed? ==> h.reply == FailureReply(body.thrown)
    ensures body.Parsed? && client.Threw? ==> h.reply == FailureReply(client.thrown)
    ensures body.Parsed? && client.Completed? && body.value == JNull ==>
      h.reply == FailureReply(ErrorObject(NullBodyMessage))
    ensures h.appended.Some? && append.Threw? ==> h.reply == FailureReply(append.thrown)
  {
    match body
    case ParseFailed(e) => Handled(FailureReply(e), None)
    case Parsed(json) =>
      match client
      case Threw(e) => Handled(FailureReply(e), None)
      case Completed =>
        match Entries(json)
        case None => Handled(FailureReply(ErrorObject(NullBodyMessage)), None)
        case Some(fields) =>
          var values := [FlattenObject(fields, "")];
          match append
          case Completed => Handled(Reply(200, Message(SuccessMessage)), Some(values))
          case Threw(e) => Handled(FailureReply(e), Some(values))
  }

  /** The row sent for a body is always exactly one row. */
  lemma OneRowPerSubmission(body: Json, append: Outcome)
    requires body != JNull
    ensures Post(Parsed(body), Completed, append).appended.Some?
    ensures |Post(Parsed(body), Completed, append).appended.value| == 1
  {
  }
}

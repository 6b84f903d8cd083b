/** Option type shared by the modules of this model. */
module Wrappers {
  datatype Option<+T> = None | Some(value: T)
}

/**
 JSON-like values as the form app sees them after `JSON.parse`, together with
 the two JavaScript operations on them that the app relies on: the object
 spread (`{...o, [k]: v}` and `{...a, ...b}`) and `JSON.stringify`.

 An object is an association list in `Object.entries` order. Every object the
 app builds has non-integer keys, for which that order is insertion order.
 */
module Json {
  import opened Wrappers

  datatype Json =
    | JNull
    | JStr(s: string)
    | JNum(n: int)
    | JBool(b: bool)
    | JArr(items: seq<Json>)
    | JObj(fields: seq<(string, Json)>)

  type Fields = seq<(string, Json)>

  /** The keys of an object, in entry order. */
  function Keys(fs: Fields): (ks: seq<string>)
    ensures |ks| == |fs|
    ensures forall i :: 0 <= i < |fs| ==> ks[i] == fs[i].0
  {
    if fs == [] then [] else [fs[0].0] + Keys(fs[1..])
  }

  /** A JavaScript object never holds the same key twice. */
  predicate KeysUnique(fs: Fields)
  {
    forall i, j :: 0 <= i < j < |fs| ==> fs[i].0 != fs[j].0
  }

  /** `o[k]`: the value stored under `k`, `None` for `undefined`. */
  function Lookup(fs: Fields, k: string): (r: Option<Json>)
    ensures r.None? <==> k !in Keys(fs)
    ensures r.Some? ==> (k, r.value) in fs
  {
    if fs == [] then None
    else if fs[0].0 == k then Some(fs[0].1)
    else Lookup(fs[1..], k)
  }

  /**
   `{...o, [k]: v}`: an existing key keeps its position and gets the new
   value; a new key goes at the end.
   */
  function Put(fs: Fields, k: string, v: Json): (r: Fields)
    ensures Keys(r) == if k in Keys(fs) then Keys(fs) else Keys(fs) + [k]
  {
    if fs == [] then [(k, v)]
    else if fs[0].0 == k then [(k, v)] + fs[1..]
    else [fs[0]] + Put(fs[1..], k, v)
  }

  /** `{...a, ...b}`: the entries of `b`, in order, spread over `a`. */
  function Merge(a: Fields, b: Fields): (r: Fields)
    ensures |a| <= |r| <= |a| + |b|
    decreases |b|
  {
    if b == [] then a else Merge(Put(a, b[0].0, b[0].1), b[1..])
  }

  lemma {:induction false} KeysAppend(a: Fields, b: Fields)
    ensures Keys(a + b) == Keys(a) + Keys(b)
  {
  }

  /** After a put, the key holds the new value and every other key is untouched. */
  lemma {:induction false} PutLookup(fs: Fields, k: string, v: Json, k': string)
    ensures Lookup(Put(fs, k, v), k') == if k' == k then Some(v) else Lookup(fs, k')
  {
    if fs != [] && fs[0].0 != k {
      PutLookup(fs[1..], k, v, k');
    }
  }

  lemma {:induction false} PutKeepsUnique(fs: Fields, k: string, v: Json)
    requires KeysUnique(fs)
    ensures KeysUnique(Put(fs, k, v))
  {
    var r := Put(fs, k, v);
    assert Keys(r) == if k in Keys(fs) then Keys(fs) else Keys(fs) + [k];
    forall i, j | 0 <= i < j < |r| ensures r[i].0 != r[j].0 {
      assert Keys(r)[i] == r[i].0 && Keys(r)[j] == r[j].0;
      if k !in Keys(fs) && j == |fs| {
        assert Keys(fs)[i] == r[i].0;
      } else {
        assert Keys(fs)[i] == r[i].0 && Keys(fs)[j] == r[j].0;
      }
    }
  }

  /** Storing the value a key already holds changes nothing. */
  lemma {:induction false} PutExisting(fs: Fields, k: string, v: Json)
    requires KeysUnique(fs)
    requires Lookup(fs, k) == Some(v)
    ensures Put(fs, k, v) == fs
  {
    if fs[0].0 != k {
      PutExisting(fs[1..], k, v);
    }
  }

  /** Putting the same key and value twice is the same as putting it once. */
  lemma {:induction false} PutIdempotent(fs: Fields, k: string, v: Json)
    ensures Put(Put(fs, k, v), k, v) == Put(fs, k, v)
  {
    if fs != [] && fs[0].0 != k {
      PutIdempotent(fs[1..], k, v);
    }
  }

  /**
   Spreading `b` over `a`: keys of `b` take `b`'s value, every other key keeps
   `a`'s value, and no key is lost.
   */
  lemma {:induction false} MergeLookup(a: Fields, b: Fields, k: string)
    requires KeysUnique(b)
    ensures Lookup(Merge(a, b), k) == if k in Keys(b) then Lookup(b, k) else Lookup(a, k)
    decreases |b|
  {
    if b != [] {
      var a' := Put(a, b[0].0, b[0].1);
      assert KeysUnique(b[1..]);
      MergeLookup(a', b[1..], k);
      PutLookup(a, b[0].0, b[0].1, k);
      assert Keys(b) == [b[0].0] + Keys(b[1..]);
      if k == b[0].0 {
        assert k !in Keys(b[1..]) by {
          forall i | 0 <= i < |b[1..]| ensures Keys(b[1..])[i] != k {
            assert b[1..][i] == b[i + 1];
          }
        }
      }
    }
  }

  /** The merged object starts with `a`'s keys, in their order. */
  lemma {:induction false} MergeKeepsOrder(a: Fields, b: Fields)
    ensures |Merge(a, b)| >= |a|
    ensures forall i :: 0 <= i < |a| ==> Merge(a, b)[i].0 == a[i].0
    decreases |b|
  {
    if b != [] {
      var a' := Put(a, b[0].0, b[0].1);
      MergeKeepsOrder(a', b[1..]);
      assert |Keys(a)| <= |Keys(a')|;
      forall i | 0 <= i < |a| ensures Merge(a, b)[i].0 == a[i].0 {
        assert Keys(a')[i] == a'[i].0 && Keys(a)[i] == a[i].0;
      }
    } else {
      assert Merge(a, b) == a;
    }
  }

  /** A key is in the merged object iff it is in `a` or in `b`. */
  lemma {:induction false} MergeKeySet(a: Fields, b: Fields, k: string)
    ensures k in Keys(Merge(a, b)) <==> k in Keys(a) || k in Keys(b)
    decreases |b|
  {
    if b != [] {
      var a' := Put(a, b[0].0, b[0].1);
      MergeKeySet(a', b[1..], k);
      assert Keys(b) == [b[0].0] + Keys(b[1..]);
    }
  }

  lemma {:induction false} MergeKeepsUnique(a: Fields, b: Fields)
    requires KeysUnique(a)
    ensures KeysUnique(Merge(a, b))
    decreases |b|
  {
    if b != [] {
      PutKeepsUnique(a, b[0].0, b[0].1);
      MergeKeepsUnique(Put(a, b[0].0, b[0].1), b[1..]);
    }
  }

  // ---------------------------------------------------------------------
  // Text forms of values

  function DigitChar(d: nat): (c: char)
    requires d < 10
    ensures '0' <= c <= '9'
  {
    "0123456789"[d]
  }

  /** The decimal text of a natural number, without leading zeros. */
  function NatText(n: nat): (s: string)
    ensures |s| > 0 && (|s| > 1 ==> s[0] != '0')
    ensures forall i :: 0 <= i < |s| ==> '0' <= s[i] <= '9'
  {
    if n < 10 then [DigitChar(n)] else NatText(n / 10) + [DigitChar(n % 10)]
  }

  /** Reads decimal digits back; the partner of `NatText`. */
  function DigitsValue(s: string): nat
    requires forall i :: 0 <= i < |s| ==> '0' <= s[i] <= '9'
  {
    if s == [] then 0 else 10 * DigitsValue(s[..|s| - 1]) + (s[|s| - 1] as int - '0' as int)
  }

  lemma {:induction false} NatTextRoundTrip(n: nat)
    ensures DigitsValue(NatText(n)) == n
  {
    if n >= 10 {
      NatTextRoundTrip(n / 10);
      var s := NatText(n);
      assert s[..|s| - 1] == NatText(n / 10);
    }
  }

  /**
   `String(n)` for an integral number of magnitude at most 2^53, which a
   JavaScript number holds exactly and writes with all its digits: a minus
   sign before negatives.
   */
  function IntText(n: int): (s: string)
    ensures |s| > 0 && (n < 0 <==> s[0] == '-')
    ensures n >= 0 ==> s == NatText(n)
    ensures n < 0 ==> s == "-" + NatText(-n)
  {
    if n < 0 then "-" + NatText(-n) else NatText(n)
  }

  /** Lower-case hexadecimal digit, as `JSON.stringify` writes `\u00XX`. */
  function HexDigit(d: nat): (c: char)
    requires d < 16
  {
    "0123456789abcdef"[d]
  }

  /** How `JSON.stringify` writes one character inside a string literal. */
  function EscapeChar(c: char): (r: string)
    ensures |r| >= 1
    ensures c != '"' && c != '\\' && c >= ' ' ==> r == [c]
    ensures r[0] == '\\' <==> c == '"' || c == '\\' || c < ' '
  {
    if c == '"' then "\\\""
    else if c == '\\' then "\\\\"
    else if c == '\U{0008}' then "\\b"
    else if c == '\t' then "\\t"
    else if c == '\n' then "\\n"
    else if c == '\U{000C}' then "\\f"
    else if c == '\r' then "\\r"
    else if c < ' ' then "\\u00" + [HexDigit(c as nat / 16), HexDigit(c as nat % 16)]
    else [c]
  }

  function EscapeString(s: string): string
  {
    if s == [] then [] else EscapeChar(s[0]) + EscapeString(s[1..])
  }

  /** A character `JSON.stringify` writes as it is. */
  predicate PlainChar(c: char)
  {
    c != '"' && c != '\\' && c >= ' '
  }

  /** A string without quotes, backslashes or control characters is written verbatim. */
  lemma {:induction false} EscapePlain(s: string)
    requires forall i :: 0 <= i < |s| ==> PlainChar(s[i])
    ensures EscapeString(s) == s
  {
    if s != [] {
      EscapePlain(s[1..]);
      assert s == [s[0]] + s[1..];
    }
  }

  /** A JSON string literal. */
  function Quote(s: string): (r: string)
    ensures |r| >= 2 && r[0] == '"' && r[|r| - 1] == '"'
  {
    "\"" + EscapeString(s) + "\""
  }

  /** Joins strings with a separator, as `Array.prototype.join` does. */
  function Join(parts: seq<string>, sep: string): string
  {
    if parts == [] then ""
    else if |parts| == 1 then parts[0]
    else parts[0] + sep + Join(parts[1..], sep)
  }

  /** `JSON.stringify` with no indentation. */
  function Stringify(j: Json): (r: string)
    ensures j.JArr? ==> |r| >= 2 && r[0] == '[' && r[|r| - 1] == ']'
    ensures j.JObj? ==> |r| >= 2 && r[0] == '{' && r[|r| - 1] == '}'
    decreases j, 2
  {
    match j
    case JNull => "null"
    case JBool(b) => if b then "true" else "false"
    case JNum(n) => IntText(n)
    case JStr(s) => Quote(s)
    case JArr(items) => "[" + Join(ElementTexts(items), ",") + "]"
    case JObj(fields) => "{" + Join(MemberTexts(fields), ",") + "}"
  }

  /** The texts of an array's elements, in order. */
  function ElementTexts(items: seq<Json>): (ts: seq<string>)
    ensures |ts| == |items|
    ensures forall i :: 0 <= i < |items| ==> ts[i] == Stringify(items[i])
    decreases JArr(items), 1
  {
    seq(|items|, i requires 0 <= i < |items| => Stringify(items[i]))
  }

  /** The `"key":value` texts of an object's members, in order. */
  function MemberTexts(fields: Fields): (ts: seq<string>)
    ensures |ts| == |fields|
    ensures forall i :: 0 <= i < |fields| ==> ts[i] == Quote(fields[i].0) + ":" + Stringify(fields[i].1)
    decreases JObj(fields), 1
  {
    seq(|fields|, i requires 0 <= i < |fields| => Quote(fields[i].0) + ":" + Stringify(fields[i].1))
  }
}

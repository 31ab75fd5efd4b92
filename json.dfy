/** An already-parsed JSON value, and the handful of JavaScript operations
    the core applies to one: `Object.keys`, property access `o[k]`, optional
    chaining `o?.[k]`, the `in` operator, `typeof o === "object"` and
    truthiness. Objects keep their members in insertion order. */
module Json {
  import opened Wrappers
  import JsNumber

  datatype Json =
    | JNull
    | JBool(b: bool)
    | JNum(n: real)
    | JStr(s: string)
    | JArr(items: seq<Json>)
    | JObj(fields: seq<(string, Json)>)

  /** `typeof j === "object" && j !== null`: objects and arrays. */
  predicate IsObject(j: Json) {
    j.JObj? || j.JArr?
  }

  /** `!j` for a defined value: null, false, 0 and "". */
  predicate Falsy(j: Json) {
    j == JNull || j == JBool(false) || j == JNum(0.0) || j == JStr("")
  }

  /** Truthiness of a value that may be `undefined` (`None`). */
  predicate Truthy(v: Option<Json>) {
    v.Some? && !Falsy(v.value)
  }

  // ---- member order of a JavaScript object ------------------------------

  function FieldKeys(f: seq<(string, Json)>): (ks: seq<string>)
    ensures |ks| == |f|
    ensures forall i :: 0 <= i < |f| ==> ks[i] == f[i].0
  {
    if f == [] then [] else [f[0].0] + FieldKeys(f[1..])
  }

  /** Each key once, at the place it first occurs. */
  function Dedup(ks: seq<string>): (r: seq<string>)
    ensures forall k :: k in r <==> k in ks
  {
    if ks == [] then []
    else
      var d := Dedup(ks[..|ks| - 1]);
      assert ks == ks[..|ks| - 1] + [ks[|ks| - 1]];
      if ks[|ks| - 1] in d then d else d + [ks[|ks| - 1]]
  }

  function IndexKeysIn(ks: seq<string>): (r: seq<string>)
    ensures forall k :: k in r <==> k in ks && JsNumber.IsArrayIndex(k)
  {
    if ks == [] then []
    else (if JsNumber.IsArrayIndex(ks[0]) then [ks[0]] else []) + IndexKeysIn(ks[1..])
  }

  function OtherKeysIn(ks: seq<string>): (r: seq<string>)
    ensures forall k :: k in r <==> k in ks && !JsNumber.IsArrayIndex(k)
  {
    if ks == [] then []
    else (if JsNumber.IsArrayIndex(ks[0]) then [] else [ks[0]]) + OtherKeysIn(ks[1..])
  }

  function IndexValue(k: string): nat
    requires JsNumber.IsArrayIndex(k)
  {
    JsNumber.DecimalValue(k)
  }

  predicate AllIndices(ks: seq<string>) {
    forall i :: 0 <= i < |ks| ==> JsNumber.IsArrayIndex(ks[i])
  }

  predicate SortedByIndex(ks: seq<string>)
    requires AllIndices(ks)
  {
    forall i, j :: 0 <= i < j < |ks| ==> IndexValue(ks[i]) <= IndexValue(ks[j])
  }

  function InsertByIndex(k: string, s: seq<string>): (r: seq<string>)
    requires JsNumber.IsArrayIndex(k) && AllIndices(s) && SortedByIndex(s)
    ensures AllIndices(r) && SortedByIndex(r)
    ensures forall x :: x in r <==> x == k || x in s
  {
    if s == [] then [k]
    else if IndexValue(k) <= IndexValue(s[0]) then [k] + s
    else
      var t := InsertByIndex(k, s[1..]);
      assert forall x :: x in t ==> IndexValue(s[0]) <= IndexValue(x);
      [s[0]] + t
  }

  function SortByIndex(ks: seq<string>): (r: seq<string>)
    requires AllIndices(ks)
    ensures AllIndices(r) && SortedByIndex(r)
    ensures forall x :: x in r <==> x in ks
  {
    if ks == [] then [] else InsertByIndex(ks[0], SortByIndex(ks[1..]))
  }

  /** The order `Object.keys` lists an object's own keys in: array-index keys
      ascending by value, then every other key in insertion order. */
  function JsKeyOrder(ks: seq<string>): (r: seq<string>)
    ensures forall x :: x in r <==> x in ks
  {
    var idx := IndexKeysIn(ks);
    assert AllIndices(idx) by {
      forall i | 0 <= i < |idx| ensures JsNumber.IsArrayIndex(idx[i]) {
        assert idx[i] in idx;
      }
    }
    SortByIndex(idx) + OtherKeysIn(ks)
  }

  /** "0", "1", ..., the keys of an array or a string of length `n`. */
  function IndexKeys(n: nat): (r: seq<string>)
    ensures |r| == n
  {
    if n == 0 then [] else IndexKeys(n - 1) + [JsNumber.NatToString(n - 1)]
  }

  /** The characters of a string, each as a one-character string. */
  function CharItems(s: string): (r: seq<Json>)
    ensures |r| == |s|
  {
    seq(|s|, i requires 0 <= i < |s| => JStr([s[i]]))
  }

  /** `Object.keys(j)` for any value except null (for which it throws). */
  function OwnKeys(j: Json): seq<string> {
    match j
    case JObj(f) => JsKeyOrder(Dedup(FieldKeys(f)))
    case JArr(items) => IndexKeys(|items|)
    case JStr(s) => IndexKeys(|s|)
    case _ => []
  }

  /** The value `JSON.parse` keeps for a repeated key: the last one. */
  function LastValue(f: seq<(string, Json)>, k: string): Option<Json> {
    if f == [] then None
    else if f[|f| - 1].0 == k then Some(f[|f| - 1].1)
    else LastValue(f[..|f| - 1], k)
  }

  function ItemAt(items: seq<Json>, k: string): Option<Json> {
    if items == [] then None
    else if JsNumber.NatToString(|items| - 1) == k then Some(items[|items| - 1])
    else ItemAt(items[..|items| - 1], k)
  }

  /** `j[k]` for an own property; `None` is `undefined`. */
  function Prop(j: Json, k: string): Option<Json> {
    match j
    case JObj(f) => LastValue(f, k)
    case JArr(items) => ItemAt(items, k)
    case JStr(s) => ItemAt(CharItems(s), k)
    case _ => None
  }

  /** `v?.[k]`: `undefined` when `v` is `undefined` or null. */
  function OptChain(v: Option<Json>, k: string): Option<Json> {
    if v.None? || v.value == JNull then None else Prop(v.value, k)
  }

  // ---- every listed key has a value, and only those -------------------

  lemma {:induction false} LastValueMembership(f: seq<(string, Json)>, k: string)
    ensures LastValue(f, k).Some? <==> k in FieldKeys(f)
  {
    if f != [] {
      LastValueMembership(f[..|f| - 1], k);
      var ks := FieldKeys(f);
      assert FieldKeys(f[..|f| - 1]) == ks[..|f| - 1];
      assert ks == ks[..|f| - 1] + [f[|f| - 1].0];
    }
  }

  lemma {:induction false} ItemAtMembership(items: seq<Json>, k: string)
    ensures ItemAt(items, k).Some? <==> k in IndexKeys(|items|)
  {
    if items != [] {
      ItemAtMembership(items[..|items| - 1], k);
    }
  }

  /** `Object.keys(j)` lists exactly the keys at which `j` has a value. */
  lemma OwnKeysMembership(j: Json, k: string)
    ensures k in OwnKeys(j) <==> Prop(j, k).Some?
  {
    match j
    case JObj(f) => LastValueMembership(f, k);
    case JArr(items) => ItemAtMembership(items, k);
    case JStr(s) => ItemAtMembership(CharItems(s), k);
    case _ =>
  }
}

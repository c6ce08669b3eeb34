/**
 * JSON values as the extension handles them after `JSON.parse`, with JavaScript's reading rules:
 * truthiness, property reads on objects, arrays and strings, and the `a || b || c` chains the
 * service uses to pick a reply text.
 */
module Json {
  import opened Wrappers
  import opened Text

  /** A JSON value; object members keep their textual order. */
  datatype Json =
    | JNull
    | JBool(b: bool)
    | JNum(n: int)
    | JStr(s: string)
    | JArr(items: seq<Json>)
    | JObj(members: seq<Member>)

  datatype Member = Member(key: string, value: Json)

  /** JavaScript truthiness: `null`, `false`, `0` and `""` are falsy, every array and object is truthy. */
  predicate Truthy(v: Json)
  {
    match v
    case JNull => false
    case JBool(b) => b
    case JNum(n) => n != 0
    case JStr(s) => s != ""
    case _ => true
  }

  /** Truthiness of a property read that may be `undefined` (`None`). */
  predicate TruthyOpt(v: Option<Json>)
  {
    v.Some? && Truthy(v.value)
  }

  predicate DistinctKeys(ms: seq<Member>)
  {
    forall i, j :: 0 <= i < j < |ms| ==> ms[i].key != ms[j].key
  }

  /** The value stored under `key` in an object's members. */
  function Lookup(ms: seq<Member>, key: string): (r: Option<Json>)
    ensures r.None? <==> forall i :: 0 <= i < |ms| ==> ms[i].key != key
    ensures r.Some? ==> exists i :: 0 <= i < |ms| && ms[i].key == key && ms[i].value == r.value
  {
    if |ms| == 0 then None
    else if ms[0].key == key then Some(ms[0].value)
    else Lookup(ms[1..], key)
  }

  /** In an object with distinct keys, a member's value is what a read of its key returns. */
  lemma LookupMember(ms: seq<Member>, i: int)
    requires DistinctKeys(ms) && 0 <= i < |ms|
    ensures Lookup(ms, ms[i].key) == Some(ms[i].value)
  {
    if i > 0 {
      assert ms[0].key != ms[i].key;
      assert DistinctKeys(ms[1..]) by {
        forall a, b | 0 <= a < b < |ms[1..]| ensures ms[1..][a].key != ms[1..][b].key {
          assert ms[1..][a] == ms[a + 1] && ms[1..][b] == ms[b + 1];
        }
      }
      LookupMember(ms[1..], i - 1);
    }
  }

  /** The array index a property name denotes: a canonical decimal numeral. */
  function ArrayIndex(key: string): Option<nat>
  {
    if |key| > 0 && AllDigits(key) && (|key| == 1 || key[0] != '0') then Some(DigitsValue(key)) else None
  }

  /**
   * `v[key]` for a value that is not `null`: object members by name, array elements and string
   * characters by index, `length` of arrays and strings; anything else reads as `undefined`.
   * Properties inherited from the prototype are not modelled.
   */
  function Get(v: Json, key: string): Option<Json>
  {
    match v
    case JObj(ms) => Lookup(ms, key)
    case JArr(items) =>
      if key == "length" then Some(JNum(|items|))
      else (match ArrayIndex(key)
            case Some(i) => if i < |items| then Some(items[i]) else None
            case None => None)
    case JStr(s) =>
      if key == "length" then Some(JNum(|s|))
      else (match ArrayIndex(key)
            case Some(i) => if i < |s| then Some(JStr([s[i]])) else None
            case None => None)
    case _ => None
  }

  /** `x?.[key]`: `undefined` when `x` is `undefined` or `null`, otherwise a plain read. */
  function GetOpt(x: Option<Json>, key: string): Option<Json>
  {
    match x
    case None => None
    case Some(v) => if v == JNull then None else Get(v, key)
  }

  /** The position of the first truthy candidate, if any. */
  function FirstTruthyIndex(cands: seq<Option<Json>>): (r: Option<nat>)
    ensures r.Some? ==> r.value < |cands| && TruthyOpt(cands[r.value])
    ensures r.Some? ==> forall j :: 0 <= j < r.value ==> !TruthyOpt(cands[j])
    ensures r.None? ==> forall j :: 0 <= j < |cands| ==> !TruthyOpt(cands[j])
  {
    if |cands| == 0 then None
    else if TruthyOpt(cands[0]) then Some(0)
    else match FirstTruthyIndex(cands[1..])
         case None => None
         case Some(k) => Some(k + 1)
  }

  /**
   * `c0 || c1 || ... || fallback`: the first truthy candidate, or `fallback` (which JavaScript returns
   * whatever its truthiness) when none is truthy.
   */
  function FirstTruthy(cands: seq<Option<Json>>, fallback: Json): (r: Json)
    ensures (exists i :: 0 <= i < |cands| && TruthyOpt(cands[i])) ==>
              exists i :: 0 <= i < |cands| && cands[i] == Some(r) && Truthy(r)
                          && forall j :: 0 <= j < i ==> !TruthyOpt(cands[j])
    ensures (forall i :: 0 <= i < |cands| ==> !TruthyOpt(cands[i])) ==> r == fallback
  {
    match FirstTruthyIndex(cands)
    case None => fallback
    case Some(k) => cands[k].value
  }
}

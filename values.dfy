/** Already-parsed JSON values, as the pipeline's scripts see them after
    `json.load`, and the few Python operations the scripts apply to them:
    `d.get(k, default)`, `d[k]`, iteration with `for`, and the exceptions these
    raise. An object keeps its members in insertion order, because the scripts
    iterate `data.items()` and the order of their output rows follows it. */
module Values {
  import opened Wrappers

  datatype Json =
    | JNull
    | JBool(b: bool)
    | JNum(n: real)
    | JStr(s: string)
    | JArray(items: seq<Json>)
    | JObject(members: seq<Member>)

  datatype Member = Member(key: string, value: Json)

  /** The Python exceptions the modelled code can raise. */
  datatype PyError =
    | KeyError(key: string)
    | TypeError
    | ValueError
    | AttributeError
    | FileNotFound(path: string)

  /** The value stored under `key`, if the member sequence has that key. */
  function Lookup(ms: seq<Member>, key: string): (r: Option<Json>)
    ensures r.Some? <==> exists i :: 0 <= i < |ms| && ms[i].key == key
    ensures r.Some? ==> exists i :: 0 <= i < |ms| && ms[i].key == key && ms[i].value == r.value
  {
    if ms == [] then None
    else if ms[0].key == key then Some(ms[0].value)
    else
      var r := Lookup(ms[1..], key);
      assert forall i :: 0 < i < |ms| ==> ms[i] == ms[1..][i - 1];
      r
  }

  /** A member no earlier member shares a key with is what a lookup of its key finds. */
  lemma {:induction false} LookupFirst(ms: seq<Member>, i: nat)
    requires i < |ms|
    requires forall j :: 0 <= j < i ==> ms[j].key != ms[i].key
    ensures Lookup(ms, ms[i].key) == Some(ms[i].value)
  {
    if i > 0 {
      assert forall j :: 0 <= j < i - 1 ==> ms[1..][j] == ms[j + 1];
      LookupFirst(ms[1..], i - 1);
    }
  }

  predicate HasKey(ms: seq<Member>, key: string) {
    Lookup(ms, key).Some?
  }

  /** `d.get(key, default)` on a dict's members. */
  function Get(ms: seq<Member>, key: string, default: Json): (r: Json)
    ensures HasKey(ms, key) ==> r == Lookup(ms, key).value
    ensures !HasKey(ms, key) ==> r == default
  {
    match Lookup(ms, key)
    case Some(x) => x
    case None => default
  }

  /** `v.get(key, default)`: only a dict has `get`. */
  function DictGet(v: Json, key: string, default: Json): (r: Result<Json, PyError>)
    ensures r.Failure? <==> !v.JObject?
    ensures r.Failure? ==> r.error == AttributeError
    ensures v.JObject? && HasKey(v.members, key) ==> r == Success(Lookup(v.members, key).value)
    ensures v.JObject? && !HasKey(v.members, key) ==> r == Success(default)
  {
    match v
    case JObject(ms) =>
      (match Lookup(ms, key)
       case Some(x) => Success(x)
       case None => Success(default))
    case _ => Failure(AttributeError)
  }

  /** `v[key]` with a string key: a dict raises `KeyError` for a missing key,
      every other value raises `TypeError`. */
  function Subscript(v: Json, key: string): (r: Result<Json, PyError>)
    ensures r.Success? <==> v.JObject? && HasKey(v.members, key)
    ensures r.Success? ==> r.value == Lookup(v.members, key).value
    ensures v.JObject? && !HasKey(v.members, key) ==> r == Failure(KeyError(key))
    ensures !v.JObject? ==> r == Failure(TypeError)
  {
    match v
    case JObject(ms) =>
      (match Lookup(ms, key)
       case Some(x) => Success(x)
       case None => Failure(KeyError(key)))
    case _ => Failure(TypeError)
  }

  /** The one-character strings of `s`, which is what `for c in s` yields. */
  function Chars(s: string): (r: seq<Json>)
    ensures |r| == |s|
    ensures forall i :: 0 <= i < |s| ==> r[i] == JStr([s[i]])
  {
    seq(|s|, i requires 0 <= i < |s| => JStr([s[i]]))
  }

  /** The keys of a dict, which is what `for k in d` yields. */
  function Keys(ms: seq<Member>): (r: seq<Json>)
    ensures |r| == |ms|
    ensures forall i :: 0 <= i < |ms| ==> r[i] == JStr(ms[i].key)
  {
    seq(|ms|, i requires 0 <= i < |ms| => JStr(ms[i].key))
  }

  /** What a `for` loop over `v` visits: a list's items, a dict's keys, a
      string's characters; any other value is not iterable. */
  function Iterate(v: Json): (r: Result<seq<Json>, PyError>)
    ensures r.Failure? <==> v.JNull? || v.JBool? || v.JNum?
    ensures r.Failure? ==> r.error == TypeError
    ensures v.JArray? ==> r == Success(v.items)
    ensures v.JObject? ==>
              r.Success? && |r.value| == |v.members| &&
              forall i :: 0 <= i < |v.members| ==> r.value[i] == JStr(v.members[i].key)
    ensures v.JStr? ==>
              r.Success? && |r.value| == |v.s| &&
              forall i :: 0 <= i < |v.s| ==> r.value[i] == JStr([v.s[i]])
  {
    match v
    case JArray(items) => Success(items)
    case JObject(ms) => Success(Keys(ms))
    case JStr(s) => Success(Chars(s))
    case _ => Failure(TypeError)
  }
}

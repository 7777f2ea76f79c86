/** JSON documents as Python's json module decodes them, and the few dict and
    list operations the generator applies to them. */
module Json {
  import opened Wrappers

  /** A decoded JSON value. Objects keep their members in document order. */
  datatype Json =
    | JNull
    | JBool(b: bool)
    | JNum(n: real)
    | JStr(s: string)
    | JArr(items: seq<Json>)
    | JObj(members: seq<Member>)

  datatype Member = Member(key: string, value: Json)

  function Min(a: int, b: int): int { if a <= b then a else b }

  /** d.get(key): the value of the LAST member with that key, since a later
      duplicate overwrites an earlier one when json.loads builds the dict. */
  function Get(members: seq<Member>, key: string): (r: Option<Json>)
    ensures r.None? <==> forall i :: 0 <= i < |members| ==> members[i].key != key
    ensures r.Some? ==> exists i :: 0 <= i < |members| && members[i] == Member(key, r.value)
                                   && forall j :: i < j < |members| ==> members[j].key != key
  {
    if |members| == 0 then None
    else if members[|members| - 1].key == key then Some(members[|members| - 1].value)
    else Get(members[..|members| - 1], key)
  }

  /** d.get(key, default) */
  function GetOr(members: seq<Member>, key: string, default: Json): Json {
    match Get(members, key)
    case Some(v) => v
    case None => default
  }

  /** `key in d` */
  predicate Has(members: seq<Member>, key: string) {
    Get(members, key).Some?
  }

  /** Python truthiness of a decoded value (`if not v`). */
  predicate Truthy(v: Json) {
    match v
    case JNull => false
    case JBool(b) => b
    case JNum(n) => n != 0.0
    case JStr(s) => |s| > 0
    case JArr(items) => |items| > 0
    case JObj(members) => |members| > 0
  }

  /** The values `for x in v[:n]` visits: the first n items of a list, the first
      n one-character strings of a string; any other value raises TypeError. */
  function FirstItems(v: Json, n: nat): (r: Result<seq<Json>>)
    ensures r.Ok? <==> v.JArr? || v.JStr?
    ensures v.JArr? ==> r == Ok(v.items[..Min(n, |v.items|)])
    ensures v.JStr? ==> r.Ok? && |r.value| == Min(n, |v.s|)
                        && forall i :: 0 <= i < |r.value| ==> r.value[i] == JStr([v.s[i]])
  {
    match v
    case JArr(items) => Ok(items[..Min(n, |items|)])
    case JStr(s) => Ok(seq(Min(n, |s|), i requires 0 <= i < Min(n, |s|) => JStr([s[i]])))
    case _ => Err("TypeError: object is not subscriptable")
  }

  /** All values are strings. */
  predicate AllStrings(vs: seq<Json>) {
    forall i :: 0 <= i < |vs| ==> vs[i].JStr?
  }

  /** The number of leading values that are strings. */
  function StringPrefix(vs: seq<Json>): (n: nat)
    ensures n <= |vs|
    ensures AllStrings(vs[..n])
    ensures n < |vs| ==> !vs[n].JStr?
  {
    if |vs| == 0 || !vs[0].JStr? then 0
    else
      var m := StringPrefix(vs[1..]);
      1 + m
  }
}

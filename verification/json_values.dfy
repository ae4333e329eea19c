/** Parsed JSON values, for the generative replies whose keys are not fixed in advance.
    An object keeps its members in document order, as a Python `dict` produced by
    `json.loads` does. */
module JsonValues {
  import opened Wrappers

  datatype Json =
    | JNull
    | JBool(b: bool)
    | JNum(n: real)
    | JStr(s: string)
    | JArr(items: seq<Json>)
    | JObj(members: seq<(string, Json)>)

  /** No key occurs twice: every `dict` has this shape. */
  predicate UniqueKeys(members: seq<(string, Json)>) {
    forall i, j :: 0 <= i < j < |members| ==> members[i].0 != members[j].0
  }

  /** `d.get(key)`: the value stored under `key`, if any. */
  function Get(members: seq<(string, Json)>, key: string): (r: Option<Json>)
    ensures r.None? <==> forall i :: 0 <= i < |members| ==> members[i].0 != key
    ensures r.Some? ==> (key, r.value) in members
    decreases |members|
  {
    if |members| == 0 then None
    else if members[0].0 == key then Some(members[0].1)
    else Get(members[1..], key)
  }

  /** Under unique keys the value `Get` finds is the one stored at the key's position. */
  lemma {:induction false} GetAt(members: seq<(string, Json)>, i: nat)
    requires UniqueKeys(members) && i < |members|
    ensures Get(members, members[i].0) == Some(members[i].1)
    decreases |members|
  {
    if i > 0 {
      assert members[0].0 != members[i].0;
      GetAt(members[1..], i - 1);
    }
  }

  /** A JSON array of strings, as Pydantic's `List[str]` accepts it. */
  function AsStrings(v: Json): (r: Option<seq<string>>)
    ensures r.Some? ==> v.JArr? && |r.value| == |v.items|
    ensures r.Some? ==> forall i :: 0 <= i < |v.items| ==> v.items[i] == JStr(r.value[i])
    ensures v.JArr? && (forall i :: 0 <= i < |v.items| ==> v.items[i].JStr?) ==> r.Some?
  {
    if v.JArr? && forall i :: 0 <= i < |v.items| ==> v.items[i].JStr? then
      Some(seq(|v.items|, i requires 0 <= i < |v.items| && v.items[i].JStr? => v.items[i].s))
    else None
  }
}

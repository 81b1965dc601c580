/**
 * Parsed JSON values as the bot sees them after `json.loads`. An object is
 * the key-ordered list of a Python dict's items (keys are distinct in a
 * dict; `Get` returns the first entry with the key).
 */
module Json {
  import opened Wrappers

  datatype Json =
    | JString(str: string)
    | JObject(fields: seq<(string, Json)>)
    | JArray(items: seq<Json>)
    | JBool(b: bool)
    | JOther  // numbers and null: never read by the bot

  /** `d.get(key)` on a dict given by its items. */
  function Get(fields: seq<(string, Json)>, key: string): (r: Option<Json>)
    ensures r.None? <==> forall i :: 0 <= i < |fields| ==> fields[i].0 != key
  {
    if fields == [] then None
    else if fields[0].0 == key then Some(fields[0].1)
    else
      assert forall i :: 1 <= i < |fields| ==> fields[i] == fields[1..][i - 1];
      Get(fields[1..], key)
  }

  /** What `Get` finds is the value of the first entry with the key. */
  lemma {:induction false} GetFindsFirst(fields: seq<(string, Json)>, key: string, i: nat)
    requires i < |fields| && fields[i].0 == key
    requires forall j :: 0 <= j < i ==> fields[j].0 != key
    ensures Get(fields, key) == Some(fields[i].1)
  {
    if i > 0 {
      assert fields[1..][i - 1] == fields[i];
      GetFindsFirst(fields[1..], key, i - 1);
    }
  }
}

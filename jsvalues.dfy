/**
 * The JavaScript values a block payload decodes to, and the one property
 * access the ledger performs on them (`data.owner`).
 */
module JsValues {
  import opened Wrappers

  /**
   * A value as JSON.parse produces it: null, a boolean, a number (kept
   * integral here), a string, an array or an object whose members are listed
   * in insertion order.
   */
  datatype Json =
    | JNull
    | JBool(b: bool)
    | JNum(n: int)
    | JStr(s: string)
    | JArr(items: seq<Json>)
    | JObj(members: seq<(string, Json)>)

  /**
   * `o[key]` on an object: the value of the last member with that key, as
   * JSON.parse keeps the last of duplicated keys; `None` is `undefined`.
   */
  function Lookup(members: seq<(string, Json)>, key: string): (r: Option<Json>)
    ensures r.None? <==> forall i :: 0 <= i < |members| ==> members[i].0 != key
    ensures r.Some? ==> exists i :: 0 <= i < |members| && members[i] == (key, r.value)
                                    && forall j :: i < j < |members| ==> members[j].0 != key
  {
    if |members| == 0 then None
    else if members[|members| - 1].0 == key then Some(members[|members| - 1].1)
    else Lookup(members[..|members| - 1], key)
  }

  /** The TypeError a property read on `null` throws. */
  const OwnerOfNull := "TypeError: Cannot read properties of null (reading 'owner')"

  /**
   * `data.owner`: the member of an object, `undefined` (`None`) for every
   * other non-null value, and a TypeError for `null`.
   */
  function OwnerOf(data: Json): (r: Result<Option<Json>, string>)
    ensures r.Failure? <==> data == JNull
    ensures r.Success? && r.value.Some? ==> data.JObj?
  {
    match data
    case JNull => Failure(OwnerOfNull)
    case JObj(members) => Success(Lookup(members, "owner"))
    case _ => Success(None)
  }
}

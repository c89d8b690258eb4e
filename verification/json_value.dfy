/** The JSON values `json.loads` produces, as far as the structured-data reader looks at them. */
module JsonValue {
  import opened Wrappers

  /** A decoded JSON value. A number keeps the text `str()` gives for it; `true`, `false` and
      `null` keep theirs ("True", "False", "None"). An object keeps its members in order. */
  datatype Json =
    | JStr(s: string)
    | JNum(text: string)
    | JLit(text: string)
    | JArr(items: seq<Json>)
    | JObj(members: seq<(string, Json)>)

  /** `obj.get(k)`: the value of the last member named `k` (`json.loads` keeps the last of
      duplicated names), or `None`. */
  function Get(members: seq<(string, Json)>, k: string): (r: Option<Json>)
    ensures r.None? <==> forall i :: 0 <= i < |members| ==> members[i].0 != k
    ensures r.Some? ==> exists i :: 0 <= i < |members| && members[i] == (k, r.value)
                         && forall j :: i < j < |members| ==> members[j].0 != k
  {
    if |members| == 0 then None
    else if members[|members| - 1].0 == k then Some(members[|members| - 1].1)
    else Get(members[..|members| - 1], k)
  }

  /** A string member read with default "": a string value as it is; a missing member, or any
      other value, as "". */
  function StringOr(v: Option<Json>): (r: string)
    ensures v.Some? && v.value.JStr? ==> r == v.value.s
    ensures !(v.Some? && v.value.JStr?) ==> r == ""
  {
    match v
    case Some(JStr(s)) => s
    case _ => ""
  }

  /** `str(obj.get(k, ''))` for a scalar value; arrays and objects read as "". */
  function ScalarText(v: Option<Json>): string {
    match v
    case Some(JStr(s)) => s
    case Some(JNum(t)) => t
    case Some(JLit(t)) => t
    case _ => ""
  }
}

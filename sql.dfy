/** The part of the SQL engine that the routes depend on: parameter values and
    how a numbered placeholder `$n` is bound to them. */
module Sql {
  import opened Wrappers

  /** A bound parameter: an integer, a text, SQL NULL, or the JSON text of an
      array of destination ids (what `JSON.stringify(destinations)` produces). */
  datatype Value = Int(i: int) | Text(s: string) | Null | Json(ids: seq<int>)

  /** The value that placeholder `$n` stands for when the statement runs with
      `values`. Placeholders count from 1; a placeholder past the end of
      `values` has no value and the server rejects the statement. */
  function Param(values: seq<Value>, n: nat): (r: Option<Value>)
    ensures r.Some? <==> 1 <= n <= |values|
    ensures r.Some? ==> r.value == values[n - 1]
  {
    if 1 <= n <= |values| then Some(values[n - 1]) else None
  }

  /** `paramCount++; values.push(v)`: the value pushed is the one the new
      count names, and every placeholder bound before keeps its value. */
  lemma ParamAfterPush(values: seq<Value>, v: Value)
    ensures Param(values + [v], |values| + 1) == Some(v)
    ensures forall n :: 1 <= n <= |values| ==> Param(values + [v], n) == Param(values, n)
    ensures Param(values + [v], |values| + 2) == None
  {
  }
}

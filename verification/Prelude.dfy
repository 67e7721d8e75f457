/** Small shared vocabulary: optional values, results, table lookups and text tests. */
module Prelude {

  datatype Option<+T> = None | Some(value: T) {
    /** SQL's `COALESCE(this, other)`. */
    function OrElse(other: Option<T>): Option<T> {
      if Some? then this else other
    }
  }

  datatype Result<+T, +E> = Ok(value: T) | Err(error: E) {
    predicate IsFailure() {
      Err?
    }

    function PropagateFailure<U>(): Result<U, E>
      requires Err?
    {
      Err(error)
    }

    function Extract(): T
      requires Ok?
    {
      value
    }
  }

  /** The first row of a table satisfying `p`: `SELECT ... WHERE p ORDER BY created_at LIMIT 1`
      on a table kept in insertion order. */
  function FindFirst<T>(rows: seq<T>, p: T -> bool): (r: Option<nat>)
    ensures r.None? <==> forall j | 0 <= j < |rows| :: !p(rows[j])
    ensures r.Some? ==> r.value < |rows| && p(rows[r.value])
    ensures r.Some? ==> forall j | 0 <= j < r.value :: !p(rows[j])
  {
    if rows == [] then None
    else if p(rows[0]) then Some(0)
    else
      match FindFirst(rows[1..], p)
      case None => None
      case Some(i) => Some(i + 1)
  }

  /** `UPDATE ... SET f WHERE p`. */
  function UpdateWhere<T>(rows: seq<T>, p: T -> bool, f: T -> T): (r: seq<T>)
    ensures |r| == |rows|
    ensures forall i | 0 <= i < |rows| :: r[i] == if p(rows[i]) then f(rows[i]) else rows[i]
  {
    seq(|rows|, i requires 0 <= i < |rows| => if p(rows[i]) then f(rows[i]) else rows[i])
  }

  /** `SELECT ... WHERE p`, in insertion order. */
  function Filter<T(!new)>(rows: seq<T>, p: T -> bool): (r: seq<T>)
    ensures forall x :: x in r <==> x in rows && p(x)
  {
    if rows == [] then []
    else (if p(rows[0]) then [rows[0]] else []) + Filter(rows[1..], p)
  }

  /** SQL's `text LIKE '%' || suffix`, for a suffix without wildcards. */
  predicate HasSuffix(text: string, suffix: string) {
    |suffix| <= |text| && text[|text| - |suffix|..] == suffix
  }

  /** SQL's `text LIKE prefix || '%'`, for a prefix without wildcards. */
  predicate HasPrefix(text: string, prefix: string) {
    prefix <= text
  }

  lemma PrefixMeans(text: string, prefix: string)
    ensures HasPrefix(text, prefix) <==> |prefix| <= |text| && forall i | 0 <= i < |prefix| :: text[i] == prefix[i]
  {
  }

}

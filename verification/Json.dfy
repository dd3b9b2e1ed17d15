/** Decoded JSON documents and their nesting depth. */
module Json {
  datatype Json =
    | Null
    | Bool(b: bool)
    | Num(r: real)
    | Str(s: string)
    | Arr(items: seq<Json>)
    | Obj(fields: map<string, Json>)

  /** Containers nest at most `n` levels deep; false for negative `n`. */
  predicate HeightAtMost(j: Json, n: int) {
    n >= 0 &&
    match j
    case Arr(items) => forall i | 0 <= i < |items| :: HeightAtMost(items[i], n - 1)
    case Obj(fields) => forall k | k in fields :: HeightAtMost(fields[k], n - 1)
    case _ => true
  }

  lemma {:induction false} HeightMonotone(j: Json, m: int, n: int)
    requires HeightAtMost(j, m) && m <= n
    ensures HeightAtMost(j, n)
    decreases j
  {
    match j
    case Arr(items) =>
      forall i | 0 <= i < |items| ensures HeightAtMost(items[i], n - 1) {
        HeightMonotone(items[i], m - 1, n - 1);
      }
    case Obj(fields) =>
      forall k | k in fields ensures HeightAtMost(fields[k], n - 1) {
        HeightMonotone(fields[k], m - 1, n - 1);
      }
    case _ =>
  }
}

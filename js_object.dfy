/**
 Plain JavaScript objects as the reducer sees them: a finite map from property
 names to values, with property reads that yield `undefined` for a missing
 key and object spread as a right-biased map union.
 */
module JsObject {

  import opened ActionTypes

  /** The JavaScript values that flow through the reducer. `Tag` is the value of
      one of the action-type constants; `Opaque` stands for any other value
      (an error object, a transaction receipt), compared by identity. */
  datatype Value =
    | Undefined
    | Bool(b: bool)
    | Num(n: int)
    | Str(s: string)
    | Tag(kind: Kind)
    | Opaque(id: nat)

  /** An object's own enumerable properties. */
  type Object = map<string, Value>

  const TypeKey: string := "type"
  const RoleKey: string := "role"
  const InProgressKey: string := "inProgress"
  const ErrorKey: string := "error"

  /** Property read `o.k`: a missing property reads as `undefined`. */
  function Get(o: Object, k: string): (r: Value)
    ensures k in o ==> r == o[k]
    ensures k !in o ==> r == Undefined
  {
    if k in o then o[k] else Undefined
  }

  /** Object spread `{...a, ...b}`: every property of both, and where both have
      a property the right-hand one wins. */
  function Spread(a: Object, b: Object): (r: Object)
    ensures r.Keys == a.Keys + b.Keys
    ensures forall k :: k in b ==> r[k] == b[k]
    ensures forall k :: k in a && k !in b ==> r[k] == a[k]
  {
    a + b
  }

}

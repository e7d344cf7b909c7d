/**
 * The few JavaScript value shapes the components read and compare:
 * nullable values, calls that may throw, string prefixes and the
 * class-token lists that `className` template strings produce.
 */
module Js {

  /** A value that may be `null` or `undefined`, as `localStorage.getItem`
      returns or as a hover state holds before the first hover. */
  datatype Nullable<+T> = Null | Value(value: T)

  /** The outcome of a call that either returns or throws an `Error`. */
  datatype Result<+T> = Ok(value: T) | Thrown(message: string)

  /** JavaScript truthiness of a nullable string: `null` and `""` are falsy,
      every other string is truthy. */
  predicate Truthy(s: Nullable<string>)
  {
    s.Value? && s.value != ""
  }

  /** `String.prototype.startsWith`. */
  predicate StartsWith(s: string, prefix: string)
  {
    |prefix| <= |s| && s[..|prefix|] == prefix
  }

  /** The class tokens of `${base} ${cond ? whenTrue : whenFalse}`: an empty
      branch contributes no class. */
  function Conditional(base: string, cond: bool, whenTrue: string, whenFalse: string): (r: seq<string>)
    requires base != "" && whenTrue != base && whenFalse != base
    ensures base in r
    ensures whenTrue != "" && whenTrue != whenFalse ==> (whenTrue in r <==> cond)
    ensures whenFalse != "" && whenTrue != whenFalse ==> (whenFalse in r <==> !cond)
    ensures forall t :: t in r ==> t == base || t == whenTrue || t == whenFalse
  {
    var chosen := if cond then whenTrue else whenFalse;
    [base] + (if chosen == "" then [] else [chosen])
  }
}

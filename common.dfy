/** Small value types and sequence helpers shared by the whole model. */
module Common {

  /** A value that may be absent: JavaScript's `undefined` for an optional field or argument. */
  datatype Option<+T> = None | Some(value: T)

  /** The value of an optional argument, or its declared default when the caller omitted it
      (a JavaScript default parameter applies exactly when the argument is `undefined`). */
  function ArgOr<T>(arg: Option<T>, default: T): (v: T)
    ensures arg.None? ==> v == default
    ensures arg.Some? ==> v == arg.value
  {
    match arg
    case None => default
    case Some(x) => x
  }

  /** `s.slice(0, n)`: the first `n` elements of `s`, or all of `s` when it is shorter. */
  function Take<T>(s: seq<T>, n: nat): (r: seq<T>)
    ensures |r| == if |s| < n then |s| else n
    ensures r <= s
    ensures forall x :: x in r ==> x in s
  {
    if |s| <= n then s else s[..n]
  }
}

/** Shared result and error types for the connection-routing, write-prevention,
    strict-loading, CTE and quoting models.

    Ruby raises exceptions; the model returns them as values instead, so every
    error path of the modelled code is a `Raised` outcome or a `Failure` result
    that callers can reason about.
 */
module Common {

  datatype Option<+T> = None | Some(value: T) {
    function GetOr(default: T): T {
      match this
      case Some(v) => v
      case None => default
    }
  }

  /** Why an `ArgumentError` was raised. */
  datatype ArgumentProblem =
    | MissingRoleAndShard       // connected_to called with neither role nor shard
    | WithWithoutArguments      // Relation#with called with no argument
    | UnsupportedWithArgument   // an argument shape `with` does not accept
    | UnsupportedCteValue       // a hash value that is not a relation, Arel node or string

  /** The exceptions the modelled code raises. */
  datatype Error =
    | ReadOnlyError(message: string)
    | ArgumentError(problem: ArgumentProblem, message: string)
    | ConnectionNotEstablished(message: string)
    | StrictLoadingViolation(owner: string, association: string)

  /** The outcome of running a block: the value it returned or what it raised. */
  datatype Outcome<+T> = Returned(value: T) | Raised(error: Error)

  /** A result of a pure computation that may fail. */
  datatype Result<+T> = Success(value: T) | Failure(error: Error)

  /** True when `p` is a prefix of `s`. */
  predicate StartsWith(s: string, p: string) {
    |p| <= |s| && s[..|p|] == p
  }

  lemma ConcatAssoc<T>(x: seq<T>, y: seq<T>, z: seq<T>)
    ensures x + (y + z) == (x + y) + z
  {
  }

  lemma SplitFour<T>(s: seq<T>, i: nat, j: nat, k: nat)
    requires i <= j <= k <= |s|
    ensures s[..i] + s[i..j] + s[j..k] + s[k..] == s
  {
    assert s[..i] + s[i..j] == s[..j];
    assert s[..j] + s[j..k] == s[..k];
  }
}

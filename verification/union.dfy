/** Tagged containers: an optional value (`Maybe`) and an ok-or-error value
    (`Result`), with the helpers the parser engine and its callers use.
    The source's "unwrap the wrong arm" assertions become preconditions. */
module Union {

  datatype Maybe<+T> = Some(item: T) | Nil

  datatype Result<+T, +E> = Ok(value: T) | Err(error: E)

  // ---------------------------------------------------------------- Maybe

  /** The value inside a `Some`; unwrapping `Nil` is a failed assertion in the source. */
  function Unwrap<T>(m: Maybe<T>): (x: T)
    requires m.Some?
    ensures Some(x) == m
  {
    m.item
  }

  /** Like `Unwrap`; the expectation text only feeds the failure message. */
  function Expect<T>(m: Maybe<T>, expectation: string): (x: T)
    requires m.Some?
    ensures x == Unwrap(m)
    ensures Some(x) == m
  {
    m.item
  }

  function IsSome<T>(m: Maybe<T>): (b: bool)
    ensures b <==> m != Nil
  {
    m.Some?
  }

  function IsNil<T>(m: Maybe<T>): (b: bool)
    ensures b <==> !IsSome(m)
  {
    m.Nil?
  }

  /** Truthiness: `Nil` defines `__bool__` as false, while a `Some` has no
      `__bool__` and is therefore always truthy, whatever it holds. */
  function Truthy<T>(m: Maybe<T>): (b: bool)
    ensures b <==> IsSome(m)
  {
    match m
    case Some(_) => true
    case Nil => false
  }

  /** Exactly one of `is_some` / `is_nil` holds, and `Some` round-trips through `Unwrap`. */
  lemma MaybeExclusive<T>(m: Maybe<T>)
    ensures IsSome(m) != IsNil(m)
    ensures IsSome(m) ==> m == Some(Unwrap(m))
  {
  }

  // --------------------------------------------------------------- Result

  function IsOk<T, E>(r: Result<T, E>): (b: bool)
    ensures b <==> !r.Err?
  {
    r.Ok?
  }

  function IsErr<T, E>(r: Result<T, E>): (b: bool)
    ensures b <==> !IsOk(r)
  {
    r.Err?
  }

  function UnwrapOk<T, E>(r: Result<T, E>): (x: T)
    requires r.Ok?
    ensures Ok(x) == r
  {
    r.value
  }

  function UnwrapErr<T, E>(r: Result<T, E>): (e: E)
    requires r.Err?
    ensures Err(e) == r
  {
    r.error
  }

  function ExpectOk<T, E>(r: Result<T, E>, expectation: string): (x: T)
    requires r.Ok?
    ensures x == UnwrapOk(r)
  {
    r.value
  }

  /** `ok()`: forgets the error. */
  function OkOf<T, E>(r: Result<T, E>): (m: Maybe<T>)
    ensures IsSome(m) <==> IsOk(r)
    ensures IsOk(r) ==> m == Some(UnwrapOk(r))
  {
    match r
    case Ok(x) => Some(x)
    case Err(_) => Nil
  }

  function Map<T, E, U>(r: Result<T, E>, f: T -> U): (r': Result<U, E>)
    ensures IsOk(r') <==> IsOk(r)
    ensures r.Ok? ==> r' == Ok(f(r.value))
    ensures r.Err? ==> r' == Err(r.error)
  {
    match r
    case Ok(x) => Ok(f(x))
    case Err(e) => Err(e)
  }

  function MapErr<T, E, F>(r: Result<T, E>, f: E -> F): (r': Result<T, F>)
    ensures IsOk(r') <==> IsOk(r)
    ensures r.Ok? ==> r' == Ok(r.value)
    ensures r.Err? ==> r' == Err(f(r.error))
  {
    match r
    case Ok(x) => Ok(x)
    case Err(e) => Err(f(e))
  }

  function AndThen<T, E, U>(r: Result<T, E>, op: T -> Result<U, E>): (r': Result<U, E>)
    ensures r.Ok? ==> r' == op(r.value)
    ensures r.Err? ==> r' == Err(r.error)
  {
    match r
    case Ok(x) => op(x)
    case Err(e) => Err(e)
  }

  function MapOr<T, E, U>(r: Result<T, E>, f: T -> U, default: U): (u: U)
    ensures r.Ok? ==> u == f(r.value)
    ensures r.Err? ==> u == default
  {
    match r
    case Ok(x) => f(x)
    case Err(_) => default
  }

  function MapOrElse<T, E, U>(r: Result<T, E>, f: T -> U, default: E -> U): (u: U)
    ensures r.Ok? ==> u == f(r.value)
    ensures r.Err? ==> u == default(r.error)
  {
    match r
    case Ok(x) => f(x)
    case Err(e) => default(e)
  }

  // ----------------------------------------------------------------- laws

  /** `and_then` with `Ok` is the identity, and `Ok` then `op` is `op`. */
  lemma AndThenIdentities<T, E, U>(r: Result<T, E>, x: T, op: T -> Result<U, E>)
    ensures AndThen(r, y => Ok(y)) == r
    ensures AndThen(Ok(x), op) == op(x)
  {
  }

  /** `and_then` is associative. */
  lemma AndThenAssociative<T, E, U, V>(r: Result<T, E>, f: T -> Result<U, E>, g: U -> Result<V, E>)
    ensures AndThen(AndThen(r, f), g) == AndThen(r, x => AndThen(f(x), g))
  {
  }

  /** `map` is `and_then` followed by `Ok`; it preserves identity and composition. */
  lemma MapLaws<T, E, U, V>(r: Result<T, E>, f: T -> U, g: U -> V)
    ensures Map(r, f) == AndThen(r, x => Ok(f(x)))
    ensures Map(r, x => x) == r
    ensures Map(Map(r, f), g) == Map(r, x => g(f(x)))
  {
  }

  /** `map_err` only touches the error arm, and composes. */
  lemma MapErrLaws<T, E, F, G>(r: Result<T, E>, f: E -> F, g: F -> G)
    ensures MapErr(r, e => e) == r
    ensures MapErr(MapErr(r, f), g) == MapErr(r, e => g(f(e)))
    ensures OkOf(MapErr(r, f)) == OkOf(r)
  {
  }

  /** `map_or` is `map_or_else` with a constant fallback, and agrees with `map` followed by `ok`. */
  lemma MapOrLaws<T, E, U>(r: Result<T, E>, f: T -> U, default: U)
    ensures MapOr(r, f, default) == MapOrElse(r, f, _ => default)
    ensures MapOr(r, f, default) == match OkOf(Map(r, f)) case Some(u) => u case Nil => default
  {
  }
}

/** Result and option types, and the two integer helpers every module uses. */
module Prelude {

  datatype Option<+T> = None | Some(value: T)

  /** The failures the clients can return: the sentinels of the portmapper
      package, a context error, and everything else. */
  datatype Error =
    | ErrUnsupported
    | ErrNotAuthorized
    | ErrNoResources
    | ErrContext
    | ErrOther

  datatype Result<+T> = Ok(value: T) | Err(error: Error)

  function Min(x: int, y: int): int { if x <= y then x else y }

  function Max(x: int, y: int): int { if x <= y then y else x }

  function Pow2(n: nat): (r: nat)
    ensures r >= 1
  {
    if n == 0 then 1 else 2 * Pow2(n - 1)
  }

  /** Moving one element across a split of a concatenation. */
  lemma Advance<T>(a: seq<T>, b: seq<T>, j: nat)
    requires j < |b|
    ensures (a + b[..j]) + [b[j]] == a + b[..j + 1]
    ensures ((a + b[..j]) + [b[j]]) + b[j + 1..] == a + b
    ensures ((a + b[..j]) + [b[j]])[..|a| + j] == a + b[..j]
  {
  }

  /** A prefix one longer. */
  lemma Grow<T>(a: seq<T>, i: nat)
    requires i < |a|
    ensures a[..i + 1] == a[..i] + [a[i]] && a[..i + 1][..i] == a[..i]
  {
  }
}

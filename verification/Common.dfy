/** Small definitions that several models share. */
module Common {

  datatype Option<T> = None | Some(value: T)

  /** Times are in nanoseconds. */
  const SECOND := 1_000_000_000
  const MINUTE := 60 * SECOND

  /** Whether a Valkey key is gone at its deadline, or only after it. */
  datatype Expiry = AtDeadline | AfterDeadline

  /** From how long after EXPIRE on a key is gone.  EXPIRE is given whole seconds;
      with none left it deletes the key. */
  function KeySpan(window: int, expiry: Expiry): int {
    if window < SECOND then 0 else window / SECOND * SECOND + One(expiry.AfterDeadline?)
  }

  function Min(a: int, b: int): int { if a < b then a else b }

  function Max(a: int, b: int): int { if a < b then b else a }

  function One(b: bool): nat { if b then 1 else 0 }

  function Pow2(k: nat): nat { if k == 0 then 1 else 2 * Pow2(k - 1) }

  lemma {:induction false} Associate<T>(a: seq<T>, b: seq<T>, c: seq<T>)
    ensures a + (b + c) == (a + b) + c
  {
  }
}

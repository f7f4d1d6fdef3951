/** Machine integers and the result types shared by the whole model. */
module Machine {
  const TWO32: nat := 0x1_0000_0000
  const MAX32: nat := 0xFFFF_FFFF
  const TWO64: nat := 0x1_0000_0000_0000_0000

  type uint32 = n: int | 0 <= n < 0x1_0000_0000
  type uint64 = n: int | 0 <= n < 0x1_0000_0000_0000_0000

  datatype Option<+T> = None | Some(value: T)

  datatype Result<+T, +E> = Ok(value: T) | Err(error: E) {
    predicate IsFailure() {
      Err?
    }

    function PropagateFailure<U>(): Result<U, E>
      requires Err?
    {
      Err(error)
    }

    function Extract(): T
      requires Ok?
    {
      value
    }
  }

  /** The levels of a diagnostic row, and the codes they are published as. */
  datatype Level = OK | WARN | ERROR | STALE

  function LevelCode(level: Level): nat {
    match level
    case OK => 0
    case WARN => 1
    case ERROR => 2
    case STALE => 3
  }

  function Max(a: int, b: int): int {
    if a < b then b else a
  }

  function MaxReal(a: real, b: real): real {
    if a < b then b else a
  }

  function MinReal(a: real, b: real): real {
    if a < b then a else b
  }

  /** What a machine word shows of an unbounded count. */
  function Wrap32(n: nat): uint32 {
    n % TWO32
  }

  function Wrap64(n: nat): uint64 {
    n % TWO64
  }

  /** Adding to a wrapped sum is wrapping the true sum. */
  lemma WrapAdd64(x: nat, d: nat)
    ensures Wrap64(Wrap64(x) + d) == Wrap64(x + d)
  {
  }

  lemma WrapAdd32(x: nat, d: nat)
    ensures Wrap32(Wrap32(x) + d) == Wrap32(x + d)
  {
  }

  /** A whole multiple of 2^64: what a 64-bit statistic can have lost. */
  predicate Whole(x: int) {
    x % TWO64 == 0
  }

  lemma WholeCombine(d: int, e: int, x: nat)
    requires Whole(d) && Whole(e)
    ensures Whole(d + x - Wrap64(x)) && Whole(d - e)
  {
  }
}

/** Machine words, and the Option type shared by the whole model.

    The source counts volumes, sequence numbers and failures in `std::uint64_t`.  The
    model keeps them as integers in range and writes every wrap-around out. */
module Words {

  datatype Option<+T> = None | Some(value: T) {
    function GetOr(default: T): T {
      match this
      case Some(v) => v
      case None => default
    }
  }

  /** Prices are compared, copied and used as map keys, never computed with: integer ticks. */
  type Price = int

  const TWO63: int := 0x8000_0000_0000_0000
  const TWO64: int := 0x1_0000_0000_0000_0000

  type u64 = x: int | 0 <= x < 0x1_0000_0000_0000_0000

  type u8 = x: int | 0 <= x < 0x100

  /** Unsigned 64-bit wrap-around: a value in range is itself. */
  function Wrap(x: int): u64 {
    if 0 <= x < 0x1_0000_0000_0000_0000 then x else x % 0x1_0000_0000_0000_0000
  }

  /** `static_cast<std::int64_t>` of an unsigned word, and of a wider result: two's complement. */
  function AsSigned(x: int): int {
    if Wrap(x) < TWO63 then Wrap(x) else Wrap(x) - TWO64
  }

  predicate FitsSigned(x: int) {
    -TWO63 <= x < TWO63
  }

  lemma WrapAdd(a: int, b: int)
    ensures Wrap(Wrap(a) + b) == Wrap(a + b)
  {
  }

  lemma AsSignedWraps(x: int)
    ensures Wrap(AsSigned(x)) == Wrap(x)
    ensures AsSigned(x) == x <==> FitsSigned(x)
  {
  }

  /** Two sums wrap to the same word exactly when their difference wraps to 0. */
  lemma WrapEqual(a: int, b: int)
    ensures Wrap(a) == Wrap(b) <==> Wrap(a - b) == 0
  {
    assert a == a / TWO64 * TWO64 + Wrap(a);
    assert b == b / TWO64 * TWO64 + Wrap(b);
  }

  /** A signed reading may replace the word it reads under any wrapping sum. */
  lemma AsSignedCongruent(x: int, c: int)
    ensures Wrap(c + AsSigned(x)) == Wrap(c + x)
  {
    AsSignedWraps(x);
    WrapAdd(AsSigned(x), c);
    WrapAdd(x, c);
  }

  lemma AsSignedCongruentMinus(x: u64, c: int)
    ensures Wrap(c - AsSigned(x)) == Wrap(c - x)
  {
    if x >= TWO63 {
      assert c - AsSigned(x) == (c - x) + TWO64;
    }
  }

  /** Adding a non-negative amount either is exact or wraps to something smaller. */
  lemma WrapExact(x: nat)
    ensures Wrap(x) <= x
    ensures Wrap(x) == x <==> x < TWO64
  {
  }
}

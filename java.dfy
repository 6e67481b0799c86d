/** The parts of Java's semantics the data access object relies on: nullable
    references and 32-bit `int` arithmetic, which wraps around silently. */
module Java {

  /** A Java reference that may be null (`None`). */
  datatype Option<T> = None | Some(value: T)

  const MIN_INT: int := -0x8000_0000
  const MAX_INT: int := 0x7fff_ffff
  const TWO_POW_32: int := 0x1_0000_0000

  /** The values of Java's `int`. */
  type Int32 = x: int | MIN_INT <= x <= MAX_INT

  predicate InRange(x: int) {
    MIN_INT <= x <= MAX_INT
  }

  /** Reduces a mathematical integer to the `int` with the same low 32 bits. */
  function Wrap(x: int): (r: Int32)
    ensures InRange(x) ==> r == x
    ensures MAX_INT < x <= MAX_INT + TWO_POW_32 ==> r == x - TWO_POW_32
    ensures MIN_INT - TWO_POW_32 <= x < MIN_INT ==> r == x + TWO_POW_32
  {
    (x - MIN_INT) % TWO_POW_32 + MIN_INT
  }

  /** Java's `a + b` on `int`. */
  function Add(a: Int32, b: Int32): (r: Int32)
    ensures InRange(a + b) ==> r == a + b
    ensures a + b > MAX_INT ==> r == a + b - TWO_POW_32 && r < 0
    ensures a + b < MIN_INT ==> r == a + b + TWO_POW_32 && r >= 0
  {
    Wrap(a + b)
  }

  /** Java's `a - b` on `int`. */
  function Sub(a: Int32, b: Int32): (r: Int32)
    ensures InRange(a - b) ==> r == a - b
    ensures a - b > MAX_INT ==> r == a - b - TWO_POW_32 && r < 0
    ensures a - b < MIN_INT ==> r == a - b + TWO_POW_32 && r >= 0
  {
    Wrap(a - b)
  }

  /** Java's `Math.abs(int)`: the one negative result is `Math.abs(MIN_VALUE) == MIN_VALUE`. */
  function Abs(a: Int32): (r: Int32)
    ensures a != MIN_INT ==> r >= 0 && (r == a || r == -a)
    ensures a == MIN_INT ==> r == MIN_INT
  {
    if a < 0 then Wrap(-(a as int)) else a
  }

  /** `int` subtraction undoes `int` addition, overflow or not. */
  lemma SubUndoesAdd(a: Int32, b: Int32)
    ensures Sub(Add(a, b), b) == a
  {
  }
}

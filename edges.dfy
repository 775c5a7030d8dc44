/**
 * Signal levels, edge classification and the SPI mode table.
 *
 * A sample is a Java `int` whose bit `ch` is the level of channel `ch`.
 * Channel indices and bit positions are restricted to 0..30: `1 << ch` is
 * then the positive power of two 2^ch, a masked sample is either 0 or 2^ch,
 * and Java's `&`, `|` and signed comparisons on them are written here with
 * integer arithmetic.
 */
module Signals {

  /** Highest channel index the model accepts (bit 31 is the sign bit of a Java int). */
  const MaxChannel := 30

  predicate ValidChannel(ch: int) {
    0 <= ch <= MaxChannel
  }

  function Pow2(n: nat): (p: nat)
    ensures p >= 1
  {
    if n == 0 then 1 else 2 * Pow2(n - 1)
  }

  /**
   * Bit n of v in two's complement: v shifted right arithmetically n times,
   * then its lowest bit. Dafny's `/` rounds down for a positive divisor, so
   * `v / 2` is the arithmetic shift also for a negative sample.
   */
  predicate Bit(v: int, n: nat)
    decreases n
  {
    if n == 0 then v % 2 == 1 else Bit(v / 2, n - 1)
  }

  /** `1 << ch`, the mask of one channel. */
  function Mask(ch: int): (m: int)
    requires ValidChannel(ch)
    ensures m > 0
  {
    Pow2(ch)
  }

  /** `value & (1 << ch)`: the sample restricted to one channel. */
  function Masked(value: int, ch: int): (m: int)
    requires ValidChannel(ch)
    ensures m == 0 || m == Mask(ch)
    ensures m == Mask(ch) <==> Bit(value, ch)
  {
    if Bit(value, ch) then Mask(ch) else 0
  }

  /** Channel `ch` is high in `value`. */
  predicate High(value: int, ch: int)
    requires ValidChannel(ch)
  {
    Masked(value, ch) != 0
  }

  /** `acc | (1 << b)`: bit b of the accumulator set, every other bit kept. */
  function SetBit(acc: int, b: int): int
    requires ValidChannel(b)
  {
    if Bit(acc, b) then acc else acc + Pow2(b)
  }

  datatype Edge = Rising | Falling | NoEdge

  /** Classifies the transition between two masked values by comparing them. */
  function ToEdge(oldValue: int, newValue: int): Edge {
    if oldValue < newValue then Rising
    else if oldValue > newValue then Falling
    else NoEdge
  }

  /**
   * The classification follows the order of the two values, and swapping
   * them swaps a rising edge for a falling one.
   */
  lemma EdgeOrder(a: int, b: int)
    ensures ToEdge(a, b) == Rising <==> a < b
    ensures ToEdge(a, b) == Falling <==> a > b
    ensures ToEdge(a, b) == NoEdge <==> a == b
    ensures ToEdge(a, b) == Rising <==> ToEdge(b, a) == Falling
  {
  }

  /**
   * On masked values the comparison is a level change of the channel:
   * falling is high-to-low, rising is low-to-high, and no edge means the
   * level stayed the same.
   */
  lemma MaskedEdge(a: int, b: int, ch: int)
    requires ValidChannel(ch)
    ensures ToEdge(Masked(a, ch), Masked(b, ch)) == Falling <==> High(a, ch) && !High(b, ch)
    ensures ToEdge(Masked(a, ch), Masked(b, ch)) == Rising <==> !High(a, ch) && High(b, ch)
    ensures ToEdge(Masked(a, ch), Masked(b, ch)) == NoEdge <==> (High(a, ch) <==> High(b, ch))
  {
  }

  /** Clock polarity and phase: the four de facto Motorola SPI modes. */
  datatype SpiMode = Mode0 | Mode1 | Mode2 | Mode3

  /** Modes 0 and 3 sample on the rising clock edge, modes 1 and 2 on the falling one. */
  function SampleEdge(mode: SpiMode): (e: Edge)
    ensures e != NoEdge
    ensures e == Rising <==> mode == Mode0 || mode == Mode3
  {
    match mode
    case Mode0 => Rising
    case Mode1 => Falling
    case Mode2 => Falling
    case Mode3 => Rising
  }

  /** Data changes on the clock edge opposite to the sample edge. */
  function DataChangeEdge(mode: SpiMode): (e: Edge)
    ensures e != NoEdge && e != SampleEdge(mode)
  {
    match mode
    case Mode0 => Falling
    case Mode1 => Rising
    case Mode2 => Rising
    case Mode3 => Falling
  }
}

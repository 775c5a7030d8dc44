/**
 * The SPI frame decoder as a specification: one `Step` per sample index and
 * `Run`, the fold of `Step` over the decode window. The imperative decoder
 * loop of the worker is proved equal to `Run`; the lemmas here state what
 * the fold guarantees about the decoder state and the reported events.
 */
module FrameDecoder {
  import opened Signals
  import opened DataSet

  datatype BitOrder = MsbFirst | LsbFirst

  /** The analyser's settings, as set through the worker's setters. */
  datatype Config = Config(
    csIdx: int, sckIdx: int, mosiIdx: int, misoIdx: int,
    mode: SpiMode, bitCount: int, bitOrder: BitOrder,
    reportCS: bool, honourCS: bool)

  /**
   * Every channel is one of the 31 non-sign bits of a sample, and the index
   * of the first (most significant) bit of a word is one of them too.
   */
  predicate ValidConfig(c: Config) {
    && ValidChannel(c.csIdx) && ValidChannel(c.sckIdx)
    && ValidChannel(c.mosiIdx) && ValidChannel(c.misoIdx)
    && ValidChannel(c.bitCount)
  }

  /** Settings the decoder accepts. */
  type Settings = c: Config | ValidConfig(c)
    witness Config(0, 0, 0, 0, Mode0, 0, MsbFirst, false, false)

  /** The loop variables of the decoder. */
  datatype Scan = Scan(
    oldSck: int, oldCs: int,
    slaveSelected: bool, dataEdgeSeen: bool,
    lastIdx: int, bitIdx: int,
    misoValue: int, mosiValue: int)

  /** The bit counter lies between 0 and bitCount. */
  predicate InRange(c: Settings, s: Scan) {
    0 <= s.bitIdx <= c.bitCount
  }

  /**
   * `acc` has bits set only at positions in (b, top]: it is a multiple of
   * 2^(b+1) and a non-negative number below 2^(top+1).
   */
  predicate WordBits(acc: int, b: int, top: int)
    requires 0 <= b <= top
  {
    acc % Pow2(b + 1) == 0 && 0 <= acc < Pow2(top + 1)
  }

  /** The invariant of the bit counter and both accumulators. */
  predicate BitsInv(c: Settings, s: Scan) {
    && InRange(c, s)
    && WordBits(s.misoValue, s.bitIdx, c.bitCount)
    && WordBits(s.mosiValue, s.bitIdx, c.bitCount)
  }

  /** The whole invariant of the scan before the sample at index `next` is processed. */
  predicate ScanInv(c: Settings, start: int, next: int, s: Scan) {
    BitsInv(c, s) && start <= s.lastIdx < next
  }

  /** The state before the first loop iteration: the window start is a CS assertion. */
  function Init(c: Settings, values: seq<int>, start: int): (s: Scan)
    requires 0 <= start < |values|
    ensures ScanInv(c, start, start + 1, s)
    ensures s.slaveSelected && !s.dataEdgeSeen && s.bitIdx == c.bitCount
    ensures s.misoValue == 0 && s.mosiValue == 0
  {
    Scan(Masked(values[start], c.sckIdx), Masked(values[start], c.csIdx),
         true, false, start, c.bitCount, 0, 0)
  }

  function CsEdgeAt(c: Settings, values: seq<int>, s: Scan, idx: int): Edge
    requires 0 <= idx < |values|
  {
    ToEdge(s.oldCs, Masked(values[idx], c.csIdx))
  }

  function ClockEdgeAt(c: Settings, values: seq<int>, s: Scan, idx: int): Edge
    requires 0 <= idx < |values|
  {
    ToEdge(s.oldSck, Masked(values[idx], c.sckIdx))
  }

  /** Whether the slave is selected once the CS edge at `idx` is taken into account. */
  predicate SelectedAfter(c: Settings, values: seq<int>, s: Scan, idx: int)
    requires 0 <= idx < |values|
  {
    var csEdge := CsEdgeAt(c, values, s, idx);
    if csEdge == Falling then true else if csEdge == Rising then false else s.slaveSelected
  }

  /** The sample is ignored apart from its CS level: CS is honoured and the slave is deselected. */
  predicate Skipped(c: Settings, values: seq<int>, s: Scan, idx: int)
    requires 0 <= idx < |values|
  {
    c.honourCS && !SelectedAfter(c, values, s, idx)
  }

  /**
   * Sampling is armed after the clock part of an iteration that is not
   * skipped: a data-change edge was seen before with no CS fall at this
   * sample, or the clock makes the data-change edge at this very sample.
   */
  predicate Armed(c: Settings, values: seq<int>, s: Scan, idx: int)
    requires 0 <= idx < |values|
  {
    || (s.dataEdgeSeen && CsEdgeAt(c, values, s, idx) != Falling)
    || ClockEdgeAt(c, values, s, idx) == DataChangeEdge(c.mode)
  }

  /**
   * A qualifying sample edge: the sample is not skipped, the clock makes the
   * mode's sample edge, and a data-change edge was seen at an earlier sample
   * with no CS fall since (a CS fall at this very sample re-arms the wait).
   */
  predicate IsSamplePoint(c: Settings, values: seq<int>, s: Scan, idx: int)
    requires 0 <= idx < |values|
  {
    && !Skipped(c, values, s, idx)
    && s.dataEdgeSeen && CsEdgeAt(c, values, s, idx) != Falling
    && ClockEdgeAt(c, values, s, idx) == SampleEdge(c.mode)
  }

  /** A chip-select event, reported only when CS reporting is enabled. */
  function ReportCs(c: Config, e: SpiEvent): seq<SpiEvent> {
    if c.reportCS then [e] else []
  }

  /** The chip-select events an iteration reports, from the CS edge alone. */
  function CsEvents(c: Settings, values: seq<int>, s: Scan, idx: int): seq<SpiEvent>
    requires 0 <= idx < |values|
  {
    var csEdge := CsEdgeAt(c, values, s, idx);
    if csEdge == Falling then ReportCs(c, CsLow(c.csIdx, idx))
    else if csEdge == Rising then ReportCs(c, CsHigh(c.csIdx, idx))
    else []
  }

  /** A completed word: MOSI first, then MISO, both with their bit order converted. */
  function DataEvents(c: Config, startIdx: int, endIdx: int, mosi: int, miso: int,
                      convert: (int, BitOrder) -> int): seq<SpiEvent>
  {
    [MosiData(c.mosiIdx, startIdx, endIdx, convert(mosi, c.bitOrder)),
     MisoData(c.misoIdx, startIdx, endIdx, convert(miso, c.bitOrder))]
  }

  /**
   * The chip-select part of an iteration: a CS fall selects the slave and
   * re-arms the wait for a data-change edge, a CS rise deselects it.
   */
  function CsPhase(c: Settings, values: seq<int>, s: Scan, idx: int): (r: (Scan, seq<SpiEvent>))
    requires 0 < idx < |values|
    ensures r.0.bitIdx == s.bitIdx
  {
    var csValue := Masked(values[idx], c.csIdx);
    var csEdge := ToEdge(s.oldCs, csValue);
    if csEdge == Falling then
      (s.(oldCs := csValue, slaveSelected := true, dataEdgeSeen := false), ReportCs(c, CsLow(c.csIdx, idx)))
    else if csEdge == Rising then
      (s.(oldCs := csValue, slaveSelected := false), ReportCs(c, CsHigh(c.csIdx, idx)))
    else
      (s.(oldCs := csValue), [])
  }

  /** `acc | (1 << bitIdx)` when the data line is high, `acc` otherwise. */
  function Store(acc: int, high: bool, bitIdx: int): int
    requires ValidChannel(bitIdx)
  {
    if high then SetBit(acc, bitIdx) else acc
  }

  /**
   * The sampling part of an iteration, at a qualifying sample edge: both data
   * levels are stored at position bitIdx; at position 0 the word is complete,
   * is reported, and the counter and the accumulators restart.
   */
  function SamplePhase(c: Settings, values: seq<int>, s: Scan, idx: int,
                       convert: (int, BitOrder) -> int): (r: (Scan, seq<SpiEvent>))
    requires 0 < idx < |values| && InRange(c, s)
    ensures InRange(c, r.0)
  {
    var miso := Store(s.misoValue, Masked(values[idx], c.misoIdx) == Mask(c.misoIdx), s.bitIdx);
    var mosi := Store(s.mosiValue, Masked(values[idx], c.mosiIdx) == Mask(c.mosiIdx), s.bitIdx);
    if s.bitIdx > 0 then
      (s.(bitIdx := s.bitIdx - 1, misoValue := miso, mosiValue := mosi), [])
    else
      (s.(bitIdx := c.bitCount, misoValue := 0, mosiValue := 0),
       DataEvents(c, s.lastIdx, idx, mosi, miso, convert))
  }

  /**
   * The clock part of an iteration, for a sample that is not skipped: a
   * data-change edge arms sampling, the sample before the first clocked bit
   * of a word is kept in lastIdx, and a sample edge after arming samples the
   * data lines.
   */
  function ClockPhase(c: Settings, values: seq<int>, s: Scan, idx: int,
                      convert: (int, BitOrder) -> int): (r: (Scan, seq<SpiEvent>))
    requires 0 < idx < |values| && InRange(c, s)
    ensures InRange(c, r.0)
  {
    var sckValue := Masked(values[idx], c.sckIdx);
    var clockEdge := ToEdge(s.oldSck, sckValue);
    var seen := s.dataEdgeSeen || clockEdge == DataChangeEdge(c.mode);
    var lastIdx := if seen && s.bitIdx == c.bitCount then idx - 1 else s.lastIdx;
    var t := s.(oldSck := sckValue, dataEdgeSeen := seen, lastIdx := lastIdx);
    if seen && clockEdge == SampleEdge(c.mode) then SamplePhase(c, values, t, idx, convert)
    else (t, [])
  }

  /** One iteration of the decoder loop, at sample index `idx`. */
  function Step(c: Settings, values: seq<int>, s: Scan, idx: int,
                convert: (int, BitOrder) -> int): (r: (Scan, seq<SpiEvent>))
    requires 0 < idx < |values| && InRange(c, s)
    ensures InRange(c, r.0)
  {
    var cs := CsPhase(c, values, s, idx);
    if c.honourCS && !cs.0.slaveSelected then cs
    else
      var clock := ClockPhase(c, values, cs.0, idx, convert);
      (clock.0, cs.1 + clock.1)
  }

  /**
   * The decoder state and the events reported once the samples start+1 ..
   * hi-1 of the window that starts at `start` are processed.
   */
  function Run(c: Settings, values: seq<int>, start: int, hi: int,
               convert: (int, BitOrder) -> int): (r: (Scan, seq<SpiEvent>))
    requires 0 <= start < hi <= |values|
    ensures InRange(c, r.0)
    decreases hi
  {
    if hi == start + 1 then (Init(c, values, start), [])
    else
      var prev := Run(c, values, start, hi - 1, convert);
      var next := Step(c, values, prev.0, hi - 1, convert);
      (next.0, prev.1 + next.1)
  }

  /** The events the decoder loop reports over the window [start, end). */
  function DecodedEvents(c: Settings, values: seq<int>, start: int, end: int,
                         convert: (int, BitOrder) -> int): seq<SpiEvent>
    requires 0 <= start < end <= |values|
  {
    Run(c, values, start, end, convert).1
  }

  /** The number of qualifying sample edges among the samples start+1 .. hi-1. */
  function SamplePoints(c: Settings, values: seq<int>, start: int, hi: int,
                        convert: (int, BitOrder) -> int): (n: nat)
    requires 0 <= start < hi <= |values|
    ensures n <= hi - start - 1
    decreases hi
  {
    if hi == start + 1 then 0
    else
      var s := Run(c, values, start, hi - 1, convert).0;
      SamplePoints(c, values, start, hi - 1, convert) + (if IsSamplePoint(c, values, s, hi - 1) then 1 else 0)
  }

  /** The number of MOSI words among the events. */
  function MosiEvents(evs: seq<SpiEvent>): (n: nat)
    ensures n <= |evs|
  {
    if evs == [] then 0
    else MosiEvents(evs[..|evs| - 1]) + (if evs[|evs| - 1].MosiData? then 1 else 0)
  }
}

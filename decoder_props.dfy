/**
 * What the decoder fold guarantees: the invariant of the bit counter and
 * the accumulators, the effect of one iteration in each of its cases, the
 * order and the spans of the reported events, and the count of words.
 */
module DecoderProperties {
  import opened Signals
  import opened DataSet
  import opened FrameDecoder

  lemma {:induction false} Pow2Split(a: nat, b: nat)
    requires a <= b
    ensures Pow2(b) == Pow2(a) * Pow2(b - a)
    decreases b
  {
    if b > a {
      Pow2Split(a, b - 1);
      assert Pow2(b) == 2 * Pow2(b - 1);
      assert Pow2(b - a) == 2 * Pow2(b - 1 - a);
    }
  }

  lemma MulDiv(k: int, q: int)
    requires q > 0
    ensures (k * q) / q == k && (k * q) % q == 0
  {
    var d, m := (k * q) / q, (k * q) % q;
    assert k * q == d * q + m && 0 <= m < q;
    assert (k - d) * q == m;
    if k - d >= 1 {
      assert false;
    } else if k - d <= -1 {
      assert false;
    }
  }

  /** A multiple of 2p is a multiple of p, and so is the sum of it and p. */
  lemma EvenMultiple(acc: int, p: int)
    requires p > 0 && acc % (2 * p) == 0
    ensures acc % p == 0 && (acc + p) % p == 0
  {
    var k := acc / (2 * p);
    assert acc == k * (2 * p);
    assert acc == (2 * k) * p;
    MulDiv(2 * k, p);
    assert acc + p == (2 * k + 1) * p;
    MulDiv(2 * k + 1, p);
  }

  /** Bit n of a multiple of 2^(n+1) is clear. */
  lemma {:induction false} BitOfMultiple(v: int, n: nat)
    requires v % Pow2(n + 1) == 0
    ensures !Bit(v, n)
    decreases n
  {
    if n > 0 {
      var p := Pow2(n);
      var k := v / Pow2(n + 1);
      assert v == (k * p) * 2;
      MulDiv(k * p, 2);
      MulDiv(k, p);
      BitOfMultiple(v / 2, n - 1);
    }
  }

  /** Of two multiples of q, the smaller one is at least q below the other. */
  lemma MultipleBelow(x: int, y: int, q: int)
    requires q > 0 && x % q == 0 && y % q == 0 && x < y
    ensures x + q <= y
  {
    var i, j := x / q, y / q;
    assert x == i * q && y == j * q;
    if j <= i {
      assert false;
    }
    assert (i + 1) * q <= j * q;
  }

  /**
   * Storing one level at position b of an accumulator whose bits lie above b
   * adds 2^b exactly when the level is high; the result has its bits in
   * [b, top].
   */
  lemma StoreBit(acc: int, b: int, top: int, level: bool)
    requires 0 <= b <= top <= MaxChannel && WordBits(acc, b, top)
    ensures Store(acc, level, b) == acc + (if level then Pow2(b) else 0)
    ensures Store(acc, level, b) % Pow2(b) == 0 && 0 <= Store(acc, level, b) < Pow2(top + 1)
  {
    var p, q, bound := Pow2(b), Pow2(b + 1), Pow2(top + 1);
    assert q == 2 * p;
    EvenMultiple(acc, p);
    BitOfMultiple(acc, b);
    Pow2Split(b + 1, top + 1);
    var rest := Pow2(top + 1 - (b + 1));
    assert bound == q * rest;
    MulDiv(rest, q);
    assert q * rest == rest * q;
    assert bound % q == 0;
    MultipleBelow(acc, bound, q);
  }

  /** Storing a level above bit 0 leaves the accumulator with its bits above the next lower position. */
  lemma ShiftBits(acc: int, b: int, top: int, level: bool)
    requires 0 < b <= top <= MaxChannel && WordBits(acc, b, top)
    ensures WordBits(acc + (if level then Pow2(b) else 0), b - 1, top)
  {
    StoreBit(acc, b, top, level);
  }

  /**
   * With CS honoured and the slave deselected after the CS edge, an iteration
   * records the CS level and the deselection, reports a CS rise if there was
   * one, and changes nothing else.
   */
  lemma StepSkipped(c: Settings, values: seq<int>, s: Scan, idx: int, convert: (int, BitOrder) -> int)
    requires 0 < idx < |values| && InRange(c, s)
    requires Skipped(c, values, s, idx)
    ensures Step(c, values, s, idx, convert).0 == s.(oldCs := Masked(values[idx], c.csIdx), slaveSelected := false)
    ensures Step(c, values, s, idx, convert).1 == CsEvents(c, values, s, idx)
  {
  }

  /**
   * A CS fall selects the slave and re-arms the wait for a data-change edge:
   * afterwards a data-change edge counts as seen only if the clock makes one
   * at this very sample. The bit counter and the accumulators are kept.
   */
  lemma StepCsFall(c: Settings, values: seq<int>, s: Scan, idx: int, convert: (int, BitOrder) -> int)
    requires 0 < idx < |values| && InRange(c, s)
    requires CsEdgeAt(c, values, s, idx) == Falling
    ensures var r := Step(c, values, s, idx, convert).0;
      && r.slaveSelected
      && (r.dataEdgeSeen <==> ClockEdgeAt(c, values, s, idx) == DataChangeEdge(c.mode))
      && r.bitIdx == s.bitIdx && r.misoValue == s.misoValue && r.mosiValue == s.mosiValue
  {
  }

  /**
   * Away from a qualifying sample edge an iteration neither moves the bit
   * counter nor touches the accumulators, and reports at most its CS event.
   */
  lemma StepNoSample(c: Settings, values: seq<int>, s: Scan, idx: int, convert: (int, BitOrder) -> int)
    requires 0 < idx < |values| && InRange(c, s)
    requires !IsSamplePoint(c, values, s, idx)
    ensures var r := Step(c, values, s, idx, convert);
      && r.0.bitIdx == s.bitIdx && r.0.misoValue == s.misoValue && r.0.mosiValue == s.mosiValue
      && r.1 == CsEvents(c, values, s, idx)
  {
    var csEdge := CsEdgeAt(c, values, s, idx);
    var cs := CsPhase(c, values, s, idx);
    if c.honourCS && !cs.0.slaveSelected {
    } else {
      var clockEdge := ClockEdgeAt(c, values, s, idx);
      if csEdge == Falling {
        assert !cs.0.dataEdgeSeen;
      } else {
        assert cs.0.dataEdgeSeen == s.dataEdgeSeen;
      }
      assert cs.1 == CsEvents(c, values, s, idx);
      if clockEdge == SampleEdge(c.mode) {
        assert !cs.0.dataEdgeSeen;
      }
    }
  }

  /**
   * A qualifying sample edge above bit 0 stores both data levels at position
   * bitIdx, MSB first: each accumulator grows by 2^bitIdx exactly when its
   * line is high. The counter moves down by one and no word is reported.
   */
  lemma StepShift(c: Settings, values: seq<int>, s: Scan, idx: int, convert: (int, BitOrder) -> int)
    requires 0 < idx < |values| && BitsInv(c, s)
    requires IsSamplePoint(c, values, s, idx) && s.bitIdx > 0
    ensures var r := Step(c, values, s, idx, convert);
      && r.0.bitIdx == s.bitIdx - 1
      && r.0.mosiValue == s.mosiValue + (if High(values[idx], c.mosiIdx) then Pow2(s.bitIdx) else 0)
      && r.0.misoValue == s.misoValue + (if High(values[idx], c.misoIdx) then Pow2(s.bitIdx) else 0)
      && r.1 == CsEvents(c, values, s, idx)
  {
    var cs := CsPhase(c, values, s, idx);
    assert cs.0.bitIdx == s.bitIdx && cs.0.misoValue == s.misoValue && cs.0.mosiValue == s.mosiValue;
    assert cs.0.dataEdgeSeen && cs.1 == CsEvents(c, values, s, idx);
    StoreBit(s.mosiValue, s.bitIdx, c.bitCount, High(values[idx], c.mosiIdx));
    StoreBit(s.misoValue, s.bitIdx, c.bitCount, High(values[idx], c.misoIdx));
  }

  /**
   * A qualifying sample edge at bit 0 completes the word: its last level is
   * added as bit 0, the word is reported over the span from lastIdx to idx,
   * and the counter and both accumulators restart.
   */
  lemma StepWord(c: Settings, values: seq<int>, s: Scan, idx: int, convert: (int, BitOrder) -> int)
    requires 0 < idx < |values| && BitsInv(c, s)
    requires IsSamplePoint(c, values, s, idx) && s.bitIdx == 0
    ensures var r := Step(c, values, s, idx, convert);
      && r.0.bitIdx == c.bitCount && r.0.misoValue == 0 && r.0.mosiValue == 0
      && r.1 == CsEvents(c, values, s, idx) + DataEvents(c, r.0.lastIdx, idx,
           s.mosiValue + (if High(values[idx], c.mosiIdx) then 1 else 0),
           s.misoValue + (if High(values[idx], c.misoIdx) then 1 else 0), convert)
  {
    var cs := CsPhase(c, values, s, idx);
    assert cs.0.bitIdx == s.bitIdx && cs.0.misoValue == s.misoValue && cs.0.mosiValue == s.mosiValue;
    assert cs.0.dataEdgeSeen && cs.1 == CsEvents(c, values, s, idx);
    StoreBit(s.mosiValue, 0, c.bitCount, High(values[idx], c.mosiIdx));
    StoreBit(s.misoValue, 0, c.bitCount, High(values[idx], c.misoIdx));
  }

  /** One iteration keeps the bit counter in range and both accumulators' bits above it. */
  lemma StepBits(c: Settings, values: seq<int>, s: Scan, idx: int, convert: (int, BitOrder) -> int)
    requires 0 < idx < |values| && BitsInv(c, s)
    ensures BitsInv(c, Step(c, values, s, idx, convert).0)
  {
    if !IsSamplePoint(c, values, s, idx) {
      StepNoSample(c, values, s, idx, convert);
    } else if s.bitIdx > 0 {
      StepShift(c, values, s, idx, convert);
      ShiftBits(s.mosiValue, s.bitIdx, c.bitCount, High(values[idx], c.mosiIdx));
      ShiftBits(s.misoValue, s.bitIdx, c.bitCount, High(values[idx], c.misoIdx));
    } else {
      StepWord(c, values, s, idx, convert);
    }
  }

  /**
   * One iteration keeps the scan invariant: the counter stays in
   * [0, bitCount], both accumulators keep their bits above the counter, and
   * the start of the current word stays inside the window and before the
   * next sample.
   */
  lemma StepInv(c: Settings, values: seq<int>, start: int, s: Scan, idx: int, convert: (int, BitOrder) -> int)
    requires 0 <= start < idx < |values| && ScanInv(c, start, idx, s)
    ensures ScanInv(c, start, idx + 1, Step(c, values, s, idx, convert).0)
  {
    StepBits(c, values, s, idx, convert);
    StepLastIdx(c, values, s, idx, convert);
  }

  /**
   * Every iteration that is not skipped, is armed after its clock part and
   * has the counter at bitCount sets lastIdx to the sample before; every
   * other iteration keeps it. The last such iteration before a word's first
   * qualifying sample edge is that edge's own, so a word's span starts at
   * the sample just before the word's first qualifying sample edge.
   */
  lemma StepLastIdx(c: Settings, values: seq<int>, s: Scan, idx: int, convert: (int, BitOrder) -> int)
    requires 0 < idx < |values| && InRange(c, s)
    ensures Step(c, values, s, idx, convert).0.lastIdx
         == if !Skipped(c, values, s, idx) && Armed(c, values, s, idx) && s.bitIdx == c.bitCount
            then idx - 1 else s.lastIdx
  {
    var cs := CsPhase(c, values, s, idx);
    assert cs.0.lastIdx == s.lastIdx && cs.0.bitIdx == s.bitIdx && cs.0.oldSck == s.oldSck;
    assert cs.0.dataEdgeSeen == (s.dataEdgeSeen && CsEdgeAt(c, values, s, idx) != Falling);
  }

  /**
   * Sampling becomes armed only through the clock: after an iteration that
   * is not skipped the flag is `Armed`, and a skipped iteration keeps it.
   */
  lemma StepArmed(c: Settings, values: seq<int>, s: Scan, idx: int, convert: (int, BitOrder) -> int)
    requires 0 < idx < |values| && InRange(c, s)
    ensures Step(c, values, s, idx, convert).0.dataEdgeSeen
         == if Skipped(c, values, s, idx) then s.dataEdgeSeen else Armed(c, values, s, idx)
  {
    var cs := CsPhase(c, values, s, idx);
    assert cs.0.oldSck == s.oldSck && cs.0.bitIdx == s.bitIdx;
    assert cs.0.dataEdgeSeen == (s.dataEdgeSeen && CsEdgeAt(c, values, s, idx) != Falling);
  }

  /** The events of the iteration at idx: all at idx, a word spanning from inside the window up to idx. */
  lemma StepEvents(c: Settings, values: seq<int>, start: int, s: Scan, idx: int, convert: (int, BitOrder) -> int)
    requires 0 <= start < idx < |values| && ScanInv(c, start, idx, s)
    ensures var evs := Step(c, values, s, idx, convert).1;
      forall k :: 0 <= k < |evs| ==>
        evs[k].At() == idx && (evs[k].IsData() ==> start <= evs[k].startIdx < idx)
  {
    StepInv(c, values, start, s, idx, convert);
    var r := Step(c, values, s, idx, convert);
    if !IsSamplePoint(c, values, s, idx) {
      StepNoSample(c, values, s, idx, convert);
    } else if s.bitIdx > 0 {
      StepShift(c, values, s, idx, convert);
    } else {
      StepWord(c, values, s, idx, convert);
      assert ScanInv(c, start, idx + 1, r.0);
    }
  }

  /** The scan invariant holds before every iteration of the decoder loop. */
  lemma {:induction false} RunInv(c: Settings, values: seq<int>, start: int, hi: int, convert: (int, BitOrder) -> int)
    requires 0 <= start < hi <= |values|
    ensures ScanInv(c, start, hi, Run(c, values, start, hi, convert).0)
    decreases hi
  {
    if hi > start + 1 {
      RunInv(c, values, start, hi - 1, convert);
      StepInv(c, values, start, Run(c, values, start, hi - 1, convert).0, hi - 1, convert);
    }
  }

  /** The events lie strictly inside (start, hi); a word spans from inside the window to its last sample. */
  predicate EventsWithin(evs: seq<SpiEvent>, start: int, hi: int) {
    forall k :: 0 <= k < |evs| ==>
      start < evs[k].At() < hi && (evs[k].IsData() ==> start <= evs[k].startIdx < evs[k].At())
  }

  /** The events are reported in the order of the samples they belong to. */
  predicate Ordered(evs: seq<SpiEvent>) {
    forall i, j :: 0 <= i < j < |evs| ==> evs[i].At() <= evs[j].At()
  }

  /**
   * The decoder loop reports its events in sample order, every one of them
   * strictly after the window start and before the sample being reached, and
   * every word over a span [startIdx, endIdx) that starts inside the window.
   */
  lemma {:induction false} RunEvents(c: Settings, values: seq<int>, start: int, hi: int, convert: (int, BitOrder) -> int)
    requires 0 <= start < hi <= |values|
    ensures Ordered(Run(c, values, start, hi, convert).1)
    ensures EventsWithin(Run(c, values, start, hi, convert).1, start, hi)
    decreases hi
  {
    if hi > start + 1 {
      var prev := Run(c, values, start, hi - 1, convert);
      RunEvents(c, values, start, hi - 1, convert);
      RunInv(c, values, start, hi - 1, convert);
      StepEvents(c, values, start, prev.0, hi - 1, convert);
      var evs := Step(c, values, prev.0, hi - 1, convert).1;
      assert Run(c, values, start, hi, convert).1 == prev.1 + evs;
    }
  }

  /**
   * The whole output of a decode run: the CS assertion at the window start
   * (when CS events are reported) comes first, and every event lies in the
   * window [start, end) in sample order.
   */
  lemma DecodeOrdered(c: Settings, values: seq<int>, start: int, end: int, convert: (int, BitOrder) -> int)
    requires 0 <= start < end <= |values|
    ensures var evs := ReportCs(c, CsLow(c.csIdx, start)) + DecodedEvents(c, values, start, end, convert);
      && Ordered(evs)
      && (c.reportCS ==> evs[0] == CsLow(c.csIdx, start))
      && (forall k :: 0 <= k < |evs| ==> start <= evs[k].At() < end)
  {
    RunEvents(c, values, start, end, convert);
  }

  lemma {:induction false} MosiEventsAppend(a: seq<SpiEvent>, b: seq<SpiEvent>)
    ensures MosiEvents(a + b) == MosiEvents(a) + MosiEvents(b)
    decreases |b|
  {
    if b != [] {
      assert (a + b)[..|a + b| - 1] == a + b[..|b| - 1];
      MosiEventsAppend(a, b[..|b| - 1]);
    } else {
      assert a + b == a;
    }
  }

  lemma CsEventsNoMosi(c: Settings, values: seq<int>, s: Scan, idx: int)
    requires 0 <= idx < |values|
    ensures MosiEvents(CsEvents(c, values, s, idx)) == 0
  {
    var cse := CsEvents(c, values, s, idx);
    if cse != [] {
      assert cse[..0] == [];
    }
  }

  /** An iteration reports one MOSI word exactly when it samples bit 0, and moves the counter as it samples. */
  lemma StepCount(c: Settings, values: seq<int>, s: Scan, idx: int, convert: (int, BitOrder) -> int)
    requires 0 < idx < |values| && BitsInv(c, s)
    ensures var r := Step(c, values, s, idx, convert);
      && MosiEvents(r.1) == (if IsSamplePoint(c, values, s, idx) && s.bitIdx == 0 then 1 else 0)
      && r.0.bitIdx == (if !IsSamplePoint(c, values, s, idx) then s.bitIdx
                        else if s.bitIdx > 0 then s.bitIdx - 1 else c.bitCount)
  {
    var cse := CsEvents(c, values, s, idx);
    CsEventsNoMosi(c, values, s, idx);
    if !IsSamplePoint(c, values, s, idx) {
      StepNoSample(c, values, s, idx, convert);
    } else if s.bitIdx > 0 {
      StepShift(c, values, s, idx, convert);
    } else {
      StepWord(c, values, s, idx, convert);
      var step := Step(c, values, s, idx, convert);
      var data := step.1[|cse|..];
      assert step.1 == cse + data;
      MosiEventsAppend(cse, data);
      assert data[..1][..0] == [];
      assert data[..|data| - 1] == data[..1];
    }
  }

  /** The number of qualifying sample edges that `words` complete words of bitCount + 1 bits take. */
  function WordSamples(words: nat, bitCount: nat): nat {
    if words == 0 then 0 else WordSamples(words - 1, bitCount) + bitCount + 1
  }

  lemma {:induction false} WordSamplesIsProduct(words: nat, bitCount: nat)
    ensures WordSamples(words, bitCount) == words * (bitCount + 1)
  {
    if words > 0 {
      WordSamplesIsProduct(words - 1, bitCount);
    }
  }

  /** The fold, one sample further, with the events so far in front. */
  lemma RunStep(c: Settings, values: seq<int>, start: int, hi: int, convert: (int, BitOrder) -> int, pre: seq<SpiEvent>)
    requires 0 <= start < hi - 1 && hi <= |values|
    ensures var prev := Run(c, values, start, hi - 1, convert);
      var step := Step(c, values, prev.0, hi - 1, convert);
      && Run(c, values, start, hi, convert).0 == step.0
      && pre + Run(c, values, start, hi, convert).1 == pre + prev.1 + step.1
  {
    var prev := Run(c, values, start, hi - 1, convert);
    var step := Step(c, values, prev.0, hi - 1, convert);
    assert pre + (prev.1 + step.1) == pre + prev.1 + step.1;
  }

  /** The fold and the edge count, one sample further. */
  lemma RunUnfold(c: Settings, values: seq<int>, start: int, hi: int, convert: (int, BitOrder) -> int)
    requires 0 <= start < hi - 1 && hi <= |values|
    ensures var prev := Run(c, values, start, hi - 1, convert);
      var step := Step(c, values, prev.0, hi - 1, convert);
      && Run(c, values, start, hi, convert) == (step.0, prev.1 + step.1)
      && SamplePoints(c, values, start, hi, convert)
         == SamplePoints(c, values, start, hi - 1, convert) + (if IsSamplePoint(c, values, prev.0, hi - 1) then 1 else 0)
  {
  }

  /**
   * One iteration keeps the word count: after a qualifying sample edge the
   * edges counted so far grow by one, and otherwise they stay the same.
   */
  lemma StepAdvance(c: Settings, values: seq<int>, s: Scan, evs: seq<SpiEvent>, idx: int,
                    convert: (int, BitOrder) -> int, points: int, r: (Scan, seq<SpiEvent>), total: int)
    requires 0 < idx < |values| && BitsInv(c, s)
    requires WordSamples(MosiEvents(evs), c.bitCount) + (c.bitCount - s.bitIdx) == points
    requires var step := Step(c, values, s, idx, convert);
      && r == (step.0, evs + step.1)
      && total == points + (if IsSamplePoint(c, values, s, idx) then 1 else 0)
    ensures WordSamples(MosiEvents(r.1), c.bitCount) + (c.bitCount - r.0.bitIdx) == total
  {
    var step := Step(c, values, s, idx, convert);
    MosiEventsAppend(evs, step.1);
    StepCount(c, values, s, idx, convert);
  }

  /** Before the first iteration no sample edge is counted and no word is reported. */
  lemma WordCountInit(c: Settings, values: seq<int>, start: int, convert: (int, BitOrder) -> int)
    requires 0 <= start < |values|
    ensures var r := Run(c, values, start, start + 1, convert);
      WordSamples(MosiEvents(r.1), c.bitCount) + (c.bitCount - r.0.bitIdx) == SamplePoints(c, values, start, start + 1, convert)
  {
  }

  /** The word count, carried over one more iteration of the fold. */
  lemma WordCountNext(c: Settings, values: seq<int>, start: int, hi: int, convert: (int, BitOrder) -> int)
    requires 0 <= start < hi - 1 && hi <= |values|
    requires var r := Run(c, values, start, hi - 1, convert);
      WordSamples(MosiEvents(r.1), c.bitCount) + (c.bitCount - r.0.bitIdx) == SamplePoints(c, values, start, hi - 1, convert)
    ensures var r := Run(c, values, start, hi, convert);
      WordSamples(MosiEvents(r.1), c.bitCount) + (c.bitCount - r.0.bitIdx) == SamplePoints(c, values, start, hi, convert)
  {
    var prev := Run(c, values, start, hi - 1, convert);
    RunInv(c, values, start, hi - 1, convert);
    RunUnfold(c, values, start, hi, convert);
    assert 0 < hi - 1 < |values| && BitsInv(c, prev.0);
    assert WordSamples(MosiEvents(prev.1), c.bitCount) + (c.bitCount - prev.0.bitIdx) == SamplePoints(c, values, start, hi - 1, convert);
    assert Run(c, values, start, hi, convert) == (Step(c, values, prev.0, hi - 1, convert).0, prev.1 + Step(c, values, prev.0, hi - 1, convert).1);
    assert SamplePoints(c, values, start, hi, convert) == SamplePoints(c, values, start, hi - 1, convert) + (if IsSamplePoint(c, values, prev.0, hi - 1) then 1 else 0);
    StepAdvance(c, values, prev.0, prev.1, hi - 1, convert, SamplePoints(c, values, start, hi - 1, convert),
                Run(c, values, start, hi, convert), SamplePoints(c, values, start, hi, convert));
  }

  /**
   * Words are counted in sample edges: every reported MOSI word took
   * bitCount + 1 qualifying sample edges (WordSamples), and the edges of the word in
   * progress are the ones the counter has moved down from bitCount. In
   * particular no partial word is ever reported.
   */
  lemma {:induction false} RunWordCount(c: Settings, values: seq<int>, start: int, hi: int, convert: (int, BitOrder) -> int)
    requires 0 <= start < hi <= |values|
    ensures var r := Run(c, values, start, hi, convert);
      WordSamples(MosiEvents(r.1), c.bitCount) + (c.bitCount - r.0.bitIdx) == SamplePoints(c, values, start, hi, convert)
    decreases hi
  {
    if hi > start + 1 {
      RunWordCount(c, values, start, hi - 1, convert);
      WordCountNext(c, values, start, hi, convert);
    } else {
      WordCountInit(c, values, start, convert);
    }
  }

  /** The clock makes the data-change edge at sample j of the loop, on a sample that is not skipped. */
  predicate DataChangeAt(c: Settings, values: seq<int>, start: int, j: int, convert: (int, BitOrder) -> int)
    requires 0 <= start < j < |values|
  {
    var s := Run(c, values, start, j, convert).0;
    !Skipped(c, values, s, j) && ClockEdgeAt(c, values, s, j) == DataChangeEdge(c.mode)
  }

  /** CS falls at sample k of the loop. */
  predicate CsFallAt(c: Settings, values: seq<int>, start: int, k: int, convert: (int, BitOrder) -> int)
    requires 0 <= start < k < |values|
  {
    CsEdgeAt(c, values, Run(c, values, start, k, convert).0, k) == Falling
  }

  /** CS does not fall at any sample in (j, hi). */
  predicate NoFallBetween(c: Settings, values: seq<int>, start: int, j: int, hi: int, convert: (int, BitOrder) -> int)
    requires 0 <= start < j && hi <= |values|
    decreases hi - j
  {
    hi <= j + 1 || (!CsFallAt(c, values, start, hi - 1, convert) && NoFallBetween(c, values, start, j, hi - 1, convert))
  }

  /** The recursive form says what it promises: no CS fall strictly between j and hi. */
  lemma {:induction false} NoFallBetweenAll(c: Settings, values: seq<int>, start: int, j: int, hi: int, convert: (int, BitOrder) -> int)
    requires 0 <= start < j && hi <= |values| && NoFallBetween(c, values, start, j, hi, convert)
    ensures forall k :: j < k < hi ==> !CsFallAt(c, values, start, k, convert)
    decreases hi - j
  {
    if hi > j + 1 {
      NoFallBetweenAll(c, values, start, j, hi - 1, convert);
      forall k | j < k < hi
        ensures !CsFallAt(c, values, start, k, convert)
      {
        if k == hi - 1 {
          // the unfolded recursive predicate rules out the fall at hi - 1
          assert !CsFallAt(c, values, start, hi - 1, convert);
        }
      }
    }
  }

  /** The armed flag before sample hi comes from a data-change edge with no CS fall after it. */
  predicate ArmedBy(c: Settings, values: seq<int>, start: int, hi: int, convert: (int, BitOrder) -> int)
    requires 0 <= start < hi <= |values|
  {
    exists j :: start < j < hi && DataChangeAt(c, values, start, j, convert) && NoFallBetween(c, values, start, j, hi, convert)
  }

  /** The fold over the window start alone is the initial state, with nothing reported. */
  lemma RunFirst(c: Settings, values: seq<int>, start: int, convert: (int, BitOrder) -> int)
    requires 0 <= start < |values|
    ensures Run(c, values, start, start + 1, convert) == (Init(c, values, start), [])
  {
  }

  /** One iteration of the loop keeps the armed flag explained by a data-change edge. */
  lemma ArmedNext(c: Settings, values: seq<int>, start: int, hi: int, convert: (int, BitOrder) -> int)
    requires 0 <= start < hi - 1 && hi <= |values|
    requires Run(c, values, start, hi - 1, convert).0.dataEdgeSeen ==> ArmedBy(c, values, start, hi - 1, convert)
    ensures Run(c, values, start, hi, convert).0.dataEdgeSeen ==> ArmedBy(c, values, start, hi, convert)
  {
    var idx := hi - 1;
    var prev := Run(c, values, start, idx, convert).0;
    RunStep(c, values, start, hi, convert, []);
    RunInv(c, values, start, idx, convert);
    StepArmed(c, values, prev, idx, convert);
    if Run(c, values, start, hi, convert).0.dataEdgeSeen {
      if !Skipped(c, values, prev, idx) && ClockEdgeAt(c, values, prev, idx) == DataChangeEdge(c.mode) {
        assert DataChangeAt(c, values, start, idx, convert) && NoFallBetween(c, values, start, idx, hi, convert);
      } else {
        assert prev.dataEdgeSeen && !CsFallAt(c, values, start, idx, convert);
        var j :| start < j < idx && DataChangeAt(c, values, start, j, convert) && NoFallBetween(c, values, start, j, idx, convert);
        assert NoFallBetween(c, values, start, j, hi, convert);
      }
    }
  }

  /**
   * Before every iteration of the loop, a set armed flag was set by a
   * data-change edge of the clock at an earlier sample that was not
   * skipped, with no CS fall since.
   */
  lemma {:induction false} RunArmed(c: Settings, values: seq<int>, start: int, hi: int, convert: (int, BitOrder) -> int)
    requires 0 <= start < hi <= |values|
    ensures Run(c, values, start, hi, convert).0.dataEdgeSeen ==> ArmedBy(c, values, start, hi, convert)
    decreases hi
  {
    if hi > start + 1 {
      RunArmed(c, values, start, hi - 1, convert);
      ArmedNext(c, values, start, hi, convert);
    } else {
      RunFirst(c, values, start, convert);
    }
  }

  /**
   * No bit is sampled until the clock has made its data-change edge: a
   * qualifying sample edge at idx follows a data-change edge at some
   * earlier sample j of the window that was not skipped, and CS does not
   * fall at any sample after j up to idx.
   */
  lemma SampleNeedsDataChange(c: Settings, values: seq<int>, start: int, idx: int, convert: (int, BitOrder) -> int)
    requires 0 <= start < idx < |values|
    requires IsSamplePoint(c, values, Run(c, values, start, idx, convert).0, idx)
    ensures exists j :: start < j < idx && DataChangeAt(c, values, start, j, convert)
                     && NoFallBetween(c, values, start, j, idx + 1, convert)
  {
    RunArmed(c, values, start, idx, convert);
    var j :| start < j < idx && DataChangeAt(c, values, start, j, convert) && NoFallBetween(c, values, start, j, idx, convert);
    assert !CsFallAt(c, values, start, idx, convert);
    assert NoFallBetween(c, values, start, j, idx + 1, convert);
  }
}

/**
 * The SPI analyser worker: its settings, the search for the chip-select
 * assertion, the decoder loop and the decode run that ties them together.
 */
module SpiAnalyser {
  import opened Signals
  import opened DataSet
  import opened FrameDecoder
  import opened DecoderProperties
  import opened SlaveSelect

  /** The result of a decode run: the decoded data set, or the exception that aborts it. */
  datatype Outcome = Decoded(data: SpiDataSet) | Aborted(message: string)

  const NoStartCondition := "No CS start-condition found!"

  class SpiAnalyserWorker {
    /** The captured samples. */
    const values: seq<int>
    /** The cursor and trigger positions of the capture. */
    const markers: Markers
    /** Converts a word sampled MSB first to the configured bit order. */
    const convert: (int, BitOrder) -> int

    var csIdx: int
    var sckIdx: int
    var mosiIdx: int
    var misoIdx: int
    var mode: SpiMode
    var bitCount: int
    var bitOrder: BitOrder
    var reportCS: bool
    var honourCS: bool

    /** The settings as one value. */
    function Config(): Config
      reads this
    {
      FrameDecoder.Config(csIdx, sckIdx, mosiIdx, misoIdx, mode, bitCount, bitOrder, reportCS, honourCS)
    }

    constructor (values: seq<int>, markers: Markers, convert: (int, BitOrder) -> int)
      ensures this.values == values && this.markers == markers && this.convert == convert
      ensures Config() == FrameDecoder.Config(0, 0, 0, 0, Mode0, 0, MsbFirst, false, false)
    {
      this.values, this.markers, this.convert := values, markers, convert;
      csIdx, sckIdx, mosiIdx, misoIdx := 0, 0, 0, 0;
      mode, bitCount, bitOrder := Mode0, 0, MsbFirst;
      reportCS, honourCS := false, false;
    }

    method SetBitCount(n: int)
      modifies this
      ensures Config() == old(Config()).(bitCount := n)
    {
      bitCount := n;
    }

    method SetCSIndex(i: int)
      modifies this
      ensures Config() == old(Config()).(csIdx := i)
    {
      csIdx := i;
    }

    method SetHonourCS(b: bool)
      modifies this
      ensures Config() == old(Config()).(honourCS := b)
    {
      honourCS := b;
    }

    method SetMisoIndex(i: int)
      modifies this
      ensures Config() == old(Config()).(misoIdx := i)
    {
      misoIdx := i;
    }

    method SetMode(m: SpiMode)
      modifies this
      ensures Config() == old(Config()).(mode := m)
    {
      mode := m;
    }

    method SetMosiIndex(i: int)
      modifies this
      ensures Config() == old(Config()).(mosiIdx := i)
    {
      mosiIdx := i;
    }

    method SetOrder(order: BitOrder)
      modifies this
      ensures Config() == old(Config()).(bitOrder := order)
    {
      bitOrder := order;
    }

    method SetReportCS(b: bool)
      modifies this
      ensures Config() == old(Config()).(reportCS := b)
    {
      reportCS := b;
    }

    method SetSCKIndex(i: int)
      modifies this
      ensures Config() == old(Config()).(sckIdx := i)
    {
      sckIdx := i;
    }

    /**
     * Looks for a CS fall: backwards from start down to end when start > end,
     * forwards from start up to end otherwise.
     */
    method SearchSlaveSelected(start: int, end: int) returns (r: int)
      requires SearchArgs(values, csIdx, start, end)
      ensures r == Search(values, csIdx, start, end)
    {
      if start > end {
        var oldCsValue := Masked(values[start], csIdx);
        var i := start;
        while i >= end
          invariant end - 1 <= i <= start
          invariant oldCsValue == Masked(values[if i < start then i + 1 else start], csIdx)
          invariant forall j :: i + 1 < j <= start ==> !IsFall(values, csIdx, j)
          decreases i
        {
          var csValue := Masked(values[i], csIdx);
          if oldCsValue < csValue {
            FindDropIsLast(values, csIdx, end, start, i);
            return i;
          }
          oldCsValue := csValue;
          i := i - 1;
        }
      } else {
        var oldCsValue := Masked(values[start], csIdx);
        var i := start + 1;
        while i < end
          invariant start + 1 <= i <= if end < start + 1 then start + 1 else end
          invariant oldCsValue == Masked(values[i - 1], csIdx)
          invariant forall j :: start < j < i ==> !IsFall(values, csIdx, j)
        {
          var csValue := Masked(values[i], csIdx);
          if oldCsValue > csValue {
            FindFallIsFirst(values, csIdx, start, end, i);
            return i;
          }
          oldCsValue := csValue;
          i := i + 1;
        }
      }
      return -1;
    }
  
    /** Reports a CS fall at index, when CS events are reported. */
    method ReportCsLow(dataSet: SpiDataSet, index: int)
      modifies dataSet
      ensures dataSet.events == old(dataSet.events) + ReportCs(Config(), CsLow(csIdx, index))
    {
      if reportCS {
        dataSet.ReportCSLow(csIdx, index);
      }
    }

    /** Reports a CS rise at index, when CS events are reported. */
    method ReportCsHigh(dataSet: SpiDataSet, index: int)
      modifies dataSet
      ensures dataSet.events == old(dataSet.events) + ReportCs(Config(), CsHigh(csIdx, index))
    {
      if reportCS {
        dataSet.ReportCSHigh(csIdx, index);
      }
    }

    /** Reports a completed word on both data lines, each converted to the configured bit order. */
    method ReportData(dataSet: SpiDataSet, startIdx: int, endIdx: int, mosiValue: int, misoValue: int)
      modifies dataSet
      ensures dataSet.events == old(dataSet.events) + DataEvents(Config(), startIdx, endIdx, mosiValue, misoValue, convert)
    {
      var mosi := convert(mosiValue, bitOrder);
      var miso := convert(misoValue, bitOrder);
      dataSet.ReportMosiData(mosiIdx, startIdx, endIdx, mosi);
      dataSet.ReportMisoData(misoIdx, startIdx, endIdx, miso);
    }

    /**
     * The chip-select part of a loop iteration: records the CS level and
     * reports a CS fall (selecting the slave and re-arming the wait for a
     * data-change edge) or a CS rise (deselecting it).
     */
    method ChipSelectEdge(dataSet: SpiDataSet, idx: int, s: Scan) returns (r: Scan)
      requires ValidConfig(Config()) && 0 < idx < |values|
      modifies dataSet
      ensures var p := CsPhase(Config(), values, s, idx);
        r == p.0 && dataSet.events == old(dataSet.events) + p.1
    {
      var csValue := Masked(values[idx], csIdx);
      var slaveSelectEdge := ToEdge(s.oldCs, csValue);
      r := s.(oldCs := csValue);
      if slaveSelectEdge == Falling {
        ReportCsLow(dataSet, idx);
        r := r.(slaveSelected := true, dataEdgeSeen := false);
      } else if slaveSelectEdge == Rising {
        ReportCsHigh(dataSet, idx);
        r := r.(slaveSelected := false);
      }
    }

    /**
     * The sampling part of a loop iteration, at a qualifying sample edge:
     * stores both data levels at bitIdx, and at bitIdx 0 reports the word
     * and restarts the counter and the accumulators.
     */
    method SampleData(dataSet: SpiDataSet, idx: int, s: Scan) returns (r: Scan)
      requires ValidConfig(Config()) && 0 < idx < |values| && InRange(Config(), s)
      modifies dataSet
      ensures var p := SamplePhase(Config(), values, s, idx, convert);
        r == p.0 && dataSet.events == old(dataSet.events) + p.1
    {
      var misoMask := Mask(misoIdx);
      var mosiMask := Mask(mosiIdx);
      var misoValue := s.misoValue;
      var mosiValue := s.mosiValue;
      if Masked(values[idx], misoIdx) == misoMask {
        misoValue := SetBit(misoValue, s.bitIdx);
      }
      if Masked(values[idx], mosiIdx) == mosiMask {
        mosiValue := SetBit(mosiValue, s.bitIdx);
      }
      r := s.(misoValue := misoValue, mosiValue := mosiValue);
      if s.bitIdx > 0 {
        r := r.(bitIdx := s.bitIdx - 1);
      } else if s.bitIdx == 0 {
        ReportData(dataSet, s.lastIdx, idx, mosiValue, misoValue);
        r := r.(bitIdx := bitCount, misoValue := 0, mosiValue := 0);
      }
    }

    /**
     * The clock part of a loop iteration, for a sample that is not skipped:
     * a data-change edge arms sampling, lastIdx keeps the sample before the
     * first clocked bit of a word, and a sample edge after arming samples.
     */
    method ClockEdge(dataSet: SpiDataSet, idx: int, s: Scan) returns (r: Scan)
      requires ValidConfig(Config()) && 0 < idx < |values| && InRange(Config(), s)
      modifies dataSet
      ensures var p := ClockPhase(Config(), values, s, idx, convert);
        r == p.0 && dataSet.events == old(dataSet.events) + p.1
    {
      var sckValue := Masked(values[idx], sckIdx);
      var clockEdge := ToEdge(s.oldSck, sckValue);
      var dataEdgeSeen := s.dataEdgeSeen;
      if DataChangeEdge(mode) == clockEdge {
        dataEdgeSeen := true;
      }
      var lastIdx := s.lastIdx;
      if dataEdgeSeen {
        if s.bitIdx == bitCount {
          lastIdx := idx - 1;
        }
      }
      r := s.(oldSck := sckValue, dataEdgeSeen := dataEdgeSeen, lastIdx := lastIdx);
      var sampleEdgeSeen := dataEdgeSeen && SampleEdge(mode) == clockEdge;
      if sampleEdgeSeen {
        r := SampleData(dataSet, idx, r);
      }
    }

    /** One iteration of the decoder loop: the CS part, then, unless the sample is skipped, the clock part. */
    method DecodeSample(dataSet: SpiDataSet, idx: int, s: Scan, ghost c: Settings) returns (r: Scan)
      requires Config() == c && 0 < idx < |values| && InRange(c, s)
      modifies dataSet
      ensures var p := Step(c, values, s, idx, convert);
        r == p.0 && dataSet.events == old(dataSet.events) + p.1
    {
      r := ChipSelectEdge(dataSet, idx, s);
      assert Config() == c;
      if honourCS && !r.slaveSelected {
        // the slave is not selected: nothing but the CS level changes
      } else {
        r := ClockEdge(dataSet, idx, r);
        assert dataSet.events == old(dataSet.events) + (CsPhase(c, values, s, idx).1 + ClockPhase(c, values, CsPhase(c, values, s, idx).0, idx, convert).1);
      }
    }

    /** The loop variables before the first iteration: the fold over the window start alone. */
    method StartScan(startOfDecode: int, ghost c: Settings) returns (r: Scan)
      requires Config() == c && 0 <= startOfDecode < |values|
      ensures r == Run(c, values, startOfDecode, startOfDecode + 1, convert).0
      ensures r == Init(c, values, startOfDecode)
    {
      r := Scan(Masked(values[startOfDecode], sckIdx), Masked(values[startOfDecode], csIdx),
                true, false, startOfDecode, bitCount, 0, 0);
    }

    /** One more iteration of the decoder loop carries the fold one sample further. */
    method DecodeNext(dataSet: SpiDataSet, start: int, idx: int, s: Scan, ghost c: Settings, ghost pre: seq<SpiEvent>)
      returns (r: Scan)
      requires Config() == c && 0 <= start < idx < |values|
      requires s == Run(c, values, start, idx, convert).0
      requires dataSet.events == pre + Run(c, values, start, idx, convert).1
      modifies dataSet
      ensures r == Run(c, values, start, idx + 1, convert).0
      ensures dataSet.events == pre + Run(c, values, start, idx + 1, convert).1
    {
      RunStep(c, values, start, idx + 1, convert, pre);
      r := DecodeSample(dataSet, idx, s, c);
    }

    /**
     * The decoder loop over the samples after the window start: it reports
     * exactly the events of the specification fold `Run`.
     */
    method ClockDataOnEdge(dataSet: SpiDataSet)
      requires ValidConfig(Config()) && 0 <= dataSet.startOfDecode < dataSet.endOfDecode <= |values|
      modifies dataSet
      ensures dataSet.events == old(dataSet.events)
        + DecodedEvents(Config(), values, dataSet.startOfDecode, dataSet.endOfDecode, convert)
    {
      ghost var c: Settings := Config();
      ghost var pre := dataSet.events;
      var startOfDecode := dataSet.startOfDecode;
      var endOfDecode := dataSet.endOfDecode;
      var state := StartScan(startOfDecode, c);

      for idx := startOfDecode + 1 to endOfDecode
        invariant Config() == c
        invariant state == Run(c, values, startOfDecode, idx, convert).0
        invariant dataSet.events == pre + Run(c, values, startOfDecode, idx, convert).1
      {
        state := DecodeNext(dataSet, startOfDecode, idx, state, c, pre);
      }
      assert dataSet.events == pre + DecodedEvents(c, values, startOfDecode, endOfDecode, convert);
    }

    /**
     * A decode run: chooses the decode window, aborts when it has no CS
     * start condition, and otherwise reports the CS assertion at the window
     * start followed by the events of the decoder loop.
     */
    method DoInBackground() returns (outcome: Outcome)
      requires ValidConfig(Config()) && ValidMarkers(values, markers)
      ensures DecodeWindow(values, csIdx, markers).None? ==> outcome == Aborted(NoStartCondition)
      ensures DecodeWindow(values, csIdx, markers).Some? ==>
        var w := DecodeWindow(values, csIdx, markers).value;
        && outcome.Decoded? && fresh(outcome.data)
        && outcome.data.startOfDecode == w.0 && outcome.data.endOfDecode == w.1
        && outcome.data.events
           == ReportCs(Config(), CsLow(csIdx, w.0)) + DecodedEvents(Config(), values, w.0, w.1, convert)
    {
      var startOfDecode: int;
      var endOfDecode: int;
      var slaveSelected := false;

      if markers.cursors.Some? {
        startOfDecode := markers.cursors.value.0;
        endOfDecode := markers.cursors.value.1;
        var found := SearchSlaveSelected(startOfDecode, 0);
        slaveSelected := found >= 0;
        if !slaveSelected {
          found := SearchSlaveSelected(startOfDecode, endOfDecode);
          slaveSelected := found >= 0;
        }
      } else if markers.trigger.Some? {
        startOfDecode := markers.trigger.value;
        endOfDecode := |values|;
        var found := SearchSlaveSelected(startOfDecode, 0);
        slaveSelected := found >= 0;
        if !slaveSelected {
          found := SearchSlaveSelected(startOfDecode, endOfDecode);
          slaveSelected := found >= 0;
        }
      } else {
        endOfDecode := |values|;
        startOfDecode := SearchSlaveSelected(0, endOfDecode);
        slaveSelected := startOfDecode > 0;
      }

      if !slaveSelected || startOfDecode >= endOfDecode {
        return Aborted(NoStartCondition);
      }

      assert DecodeWindow(values, csIdx, markers) == Some((startOfDecode, endOfDecode));
      ghost var c: Settings := Config();
      var decodedData := new SpiDataSet(startOfDecode, endOfDecode);
      assert Config() == c;
      if slaveSelected {
        ReportCsLow(decodedData, startOfDecode);
      }
      assert decodedData.events == ReportCs(c, CsLow(csIdx, startOfDecode));
      ClockDataOnEdge(decodedData);
      return Decoded(decodedData);
    }
  }
}

/**
 * The decoded data set: an append-only sequence of chip-select and data
 * events over the decode window [startOfDecode, endOfDecode).
 */
module DataSet {
  import opened Signals

  /** The events a decode run reports, in the order they are reported. */
  datatype SpiEvent =
    | CsLow(channel: int, index: int)
    | CsHigh(channel: int, index: int)
    | MosiData(channel: int, startIdx: int, endIdx: int, value: int)
    | MisoData(channel: int, startIdx: int, endIdx: int, value: int)
  {
    /** The sample index at which the event was reported. */
    function At(): int {
      match this
      case CsLow(_, i) => i
      case CsHigh(_, i) => i
      case MosiData(_, _, e, _) => e
      case MisoData(_, _, e, _) => e
    }

    predicate IsData() {
      MosiData? || MisoData?
    }
  }

  class SpiDataSet {
    const startOfDecode: int
    const endOfDecode: int
    var events: seq<SpiEvent>

    constructor (start: int, end: int)
      ensures startOfDecode == start && endOfDecode == end && events == []
    {
      startOfDecode, endOfDecode := start, end;
      events := [];
    }

    method ReportCSLow(channel: int, index: int)
      modifies this
      ensures events == old(events) + [CsLow(channel, index)]
    {
      events := events + [CsLow(channel, index)];
    }

    method ReportCSHigh(channel: int, index: int)
      modifies this
      ensures events == old(events) + [CsHigh(channel, index)]
    {
      events := events + [CsHigh(channel, index)];
    }

    method ReportMosiData(channel: int, startIdx: int, endIdx: int, value: int)
      modifies this
      ensures events == old(events) + [MosiData(channel, startIdx, endIdx, value)]
    {
      events := events + [MosiData(channel, startIdx, endIdx, value)];
    }

    method ReportMisoData(channel: int, startIdx: int, endIdx: int, value: int)
      modifies this
      ensures events == old(events) + [MisoData(channel, startIdx, endIdx, value)]
    {
      events := events + [MisoData(channel, startIdx, endIdx, value)];
    }
  }
}

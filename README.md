# SPI analyser decoder, modelled in Dafny

This project models the decoding core of the SPI analyser tool of the OLS
logic-analyser client (`SPIAnalyserWorker`). A capture is a sequence of
samples. Each sample is a Java `int` whose bit `ch` is the level of channel
`ch`. The worker decodes in three steps:

- It chooses a decode window: between the two cursors, from the trigger to
  the end of the capture, or from the first chip-select (CS) fall of the
  capture to its end.
- It aborts with "No CS start-condition found!" when no CS fall supports
  that window or when the window is empty.
- It runs a single forward pass over the window. The pass follows the CS
  and SCK edges and waits for the data-change clock edge of the SPI mode.
  On each sample edge it shifts the MOSI and MISO levels into two
  accumulators, MSB first, and counts the bit counter down. The word on
  both data lines is reported at the sample edge taken while the counter
  is already zero, one edge after it reached zero; the counter then
  starts again at bitCount. CS falls and rises are reported as events as
  well.

Modules:

- `Signals` (`edges.dfy`): masking of one channel (`value & (1 << ch)`)
  written in integer arithmetic, edge classification by comparing masked
  values, and the SPI mode table.
- `DataSet` (`dataset.dfy`): the decoded data set, a class holding an
  append-only sequence of events.
- `SlaveSelect` (`search.dfy`): the forward and backward CS-fall walks as
  functions, and the window choice `DecodeWindow`.
- `FrameDecoder` (`decoder.dfy`): one loop iteration as the function
  `Step`, split into a CS phase, a clock phase and a sample phase, and the
  fold `Run` of `Step` over the window.
- `DecoderProperties` (`decoder_props.dfy`): what the fold guarantees.
  - The invariant of the bit counter and the accumulators.
  - The effect of each kind of iteration.
  - The order and spans of the events.
  - The count of completed words.
- `SpiAnalyser` (`worker.dfy`): the worker class.
  - Its settings are fields, changed by its setters.
  - `SearchSlaveSelected` has both walking loops.
  - `ClockDataOnEdge` is the decoder loop, proved to report exactly the
    events of `Run`.
  - `DoInBackground` is the decode run, proved against `DecodeWindow` and
    `Run`.

What the code does, where a reader might expect otherwise:

- A word takes `bitCount + 1` qualifying sample edges, at bit positions
  `bitCount` down to 0, although the setter's Javadoc
  (`SPIAnalyserWorker.java:74`) calls `bitCount` "the number of bits in a
  SPI datagram".
- A skipped sample does not update the previous SCK level.
- With cursors or a trigger, the window start stays at the marker. It is
  not moved to the CS fall that was found.
- The backward walk returns the last sample at which CS is still high,
  the sample before the fall, although its comment
  (`SPIAnalyserWorker.java:476`) speaks of the falling edge itself.

## Model

| member | source | states |
|---|---|---|
| Signals.Masked | tool.spi/src/main/java/nl/lxtreme/ols/tool/spi/SPIAnalyserWorker.java:308-310 | A masked sample is 0 or the channel mask, and it is the mask exactly when the channel's bit is set. |
| Signals.EdgeOrder | tool.spi/src/main/java/nl/lxtreme/ols/tool/spi/SPIAnalyserWorker.java:312 | The edge classification follows the order of the two values (rising when the value grows, falling when it drops, no edge when equal), and swapping the values swaps rising and falling. |
| Signals.MaskedEdge | tool.spi/src/main/java/nl/lxtreme/ols/tool/spi/SPIAnalyserWorker.java:312-313 | Comparing two masked values classifies the level change: falling is high-to-low, rising is low-to-high, no edge means the level is unchanged. |
| Signals.SampleEdge | tool.spi/src/main/java/nl/lxtreme/ols/tool/spi/SPIAnalyserWorker.java:256-262 | Modes 0 and 3 sample on the rising clock edge, modes 1 and 2 on the falling one. |
| Signals.DataChangeEdge | tool.spi/src/main/java/nl/lxtreme/ols/tool/spi/SPIAnalyserWorker.java:283-284 | The data-change edge is a real edge, the opposite of the sample edge. |
| DataSet.SpiDataSet.constructor | tool.spi/src/main/java/nl/lxtreme/ols/tool/spi/SPIAnalyserWorker.java:245 | A new data set has the given window and no events. |
| DataSet.SpiDataSet.ReportCSLow | tool.spi/src/main/java/nl/lxtreme/ols/tool/spi/SPIAnalyserWorker.java:419 | Appends one CS-low event and keeps the earlier ones. |
| DataSet.SpiDataSet.ReportCSHigh | tool.spi/src/main/java/nl/lxtreme/ols/tool/spi/SPIAnalyserWorker.java:402 | Appends one CS-high event and keeps the earlier ones. |
| DataSet.SpiDataSet.ReportMosiData | tool.spi/src/main/java/nl/lxtreme/ols/tool/spi/SPIAnalyserWorker.java:445 | Appends one MOSI word event and keeps the earlier ones. |
| DataSet.SpiDataSet.ReportMisoData | tool.spi/src/main/java/nl/lxtreme/ols/tool/spi/SPIAnalyserWorker.java:448 | Appends one MISO word event and keeps the earlier ones. |
| SlaveSelect.FallIsHighToLow | tool.spi/src/main/java/nl/lxtreme/ols/tool/spi/SPIAnalyserWorker.java:490-494 | The forward walk's test (the previous masked CS value is greater) holds exactly when CS goes from high to low. |
| SlaveSelect.FindFall | tool.spi/src/main/java/nl/lxtreme/ols/tool/spi/SPIAnalyserWorker.java:487-508 | The forward walk returns -1 exactly when CS does not fall in (lo, hi). Otherwise it returns a fall in (lo, hi) with no earlier fall after lo. |
| SlaveSelect.FindDrop | tool.spi/src/main/java/nl/lxtreme/ols/tool/spi/SPIAnalyserWorker.java:467-486 | The backward walk returns -1 exactly when CS does not fall in (lo, hi]. Otherwise it returns r in [lo, hi), never hi, with CS falling at r + 1 and at no later sample up to hi. |
| SlaveSelect.FindFallIsFirst | tool.spi/src/main/java/nl/lxtreme/ols/tool/spi/SPIAnalyserWorker.java:491-502 | The first fall after lo is the forward walk's only possible answer. |
| SlaveSelect.FindDropIsLast | tool.spi/src/main/java/nl/lxtreme/ols/tool/spi/SPIAnalyserWorker.java:471-482 | The sample before the last fall up to hi is the backward walk's only possible answer. |
| SlaveSelect.Search | tool.spi/src/main/java/nl/lxtreme/ols/tool/spi/SPIAnalyserWorker.java:467-508 | Walks backwards when start > end and forwards otherwise: -1 exactly when CS does not fall in (end, start] or (start, end); otherwise the sample before a backward fall, or a forward fall, strictly inside the range. |
| SlaveSelect.Anchored | tool.spi/src/main/java/nl/lxtreme/ols/tool/spi/SPIAnalyserWorker.java:203-227 | A kept cursor or trigger window is exactly the marker's window, and it is not empty. |
| SlaveSelect.DecodeWindow | tool.spi/src/main/java/nl/lxtreme/ols/tool/spi/SPIAnalyserWorker.java:199-243 | A chosen window is a non-empty range of samples inside the capture. |
| SlaveSelect.AnchoredWindow | tool.spi/src/main/java/nl/lxtreme/ols/tool/spi/SPIAnalyserWorker.java:203-243 | A cursor or trigger window is kept unchanged exactly when it is not empty and CS falls somewhere before its end. Otherwise the run aborts. |
| SlaveSelect.WindowSelection | tool.spi/src/main/java/nl/lxtreme/ols/tool/spi/SPIAnalyserWorker.java:199-243 | The cursors win over the trigger, and the trigger over the full scan. Only the full scan moves the start, to the first CS fall of the capture, and it aborts exactly when CS never falls. |
| FrameDecoder.Init | tool.spi/src/main/java/nl/lxtreme/ols/tool/spi/SPIAnalyserWorker.java:292-302 | The loop starts with the slave selected, no data-change edge seen, the counter at bitCount, empty accumulators and the scan invariant holding. |
| FrameDecoder.CsPhase | tool.spi/src/main/java/nl/lxtreme/ols/tool/spi/SPIAnalyserWorker.java:312-327 | The CS part of an iteration leaves the bit counter unchanged. |
| FrameDecoder.SamplePhase | tool.spi/src/main/java/nl/lxtreme/ols/tool/spi/SPIAnalyserWorker.java:356-383 | Sampling keeps the bit counter in [0, bitCount]. |
| FrameDecoder.ClockPhase | tool.spi/src/main/java/nl/lxtreme/ols/tool/spi/SPIAnalyserWorker.java:336-383 | The clock part of an iteration keeps the bit counter in [0, bitCount]. |
| FrameDecoder.Step | tool.spi/src/main/java/nl/lxtreme/ols/tool/spi/SPIAnalyserWorker.java:305-386 | One loop iteration keeps the bit counter in [0, bitCount]. |
| FrameDecoder.Run | tool.spi/src/main/java/nl/lxtreme/ols/tool/spi/SPIAnalyserWorker.java:305-386 | The loop state after any number of iterations has its bit counter in [0, bitCount]. |
| FrameDecoder.SamplePoints | tool.spi/src/main/java/nl/lxtreme/ols/tool/spi/SPIAnalyserWorker.java:356-357 | At most one qualifying sample edge per processed sample. |
| DecoderProperties.StoreBit | tool.spi/src/main/java/nl/lxtreme/ols/tool/spi/SPIAnalyserWorker.java:360-368 | OR-ing `1 << bitIdx` into an accumulator whose bits lie above bitIdx adds 2^bitIdx exactly when the line is high, and the bits stay below 2^(bitCount+1). |
| DecoderProperties.StepSkipped | tool.spi/src/main/java/nl/lxtreme/ols/tool/spi/SPIAnalyserWorker.java:312-334 | With CS honoured and the slave deselected, only the CS level and the selection change, at most a CS event is reported, and the SCK level, counter and accumulators are untouched. |
| DecoderProperties.StepCsFall | tool.spi/src/main/java/nl/lxtreme/ols/tool/spi/SPIAnalyserWorker.java:315-321 | A CS fall selects the slave and clears dataEdgeSeen, which is set again only by a data-change edge at that same sample. The counter and accumulators are kept. |
| DecoderProperties.StepNoSample | tool.spi/src/main/java/nl/lxtreme/ols/tool/spi/SPIAnalyserWorker.java:343-357 | Without a qualifying sample edge (no data-change edge seen yet, wrong clock edge, or skipped), no bit is sampled, no word is reported, and the counter and accumulators are unchanged. |
| DecoderProperties.StepShift | tool.spi/src/main/java/nl/lxtreme/ols/tool/spi/SPIAnalyserWorker.java:358-373 | A sample edge above bit 0 adds 2^bitIdx to each accumulator whose line is high, moves the counter down by one, and reports no word. |
| DecoderProperties.StepWord | tool.spi/src/main/java/nl/lxtreme/ols/tool/spi/SPIAnalyserWorker.java:374-382 | A sample edge at bit 0 adds the last bit, reports the MOSI and MISO words over [lastIdx, idx], and resets the counter to bitCount and both accumulators to 0. |
| DecoderProperties.StepBits | tool.spi/src/main/java/nl/lxtreme/ols/tool/spi/SPIAnalyserWorker.java:356-382 | An iteration keeps 0 <= bitIdx <= bitCount and keeps both accumulators' bits in (bitIdx, bitCount]. |
| DecoderProperties.StepLastIdx | tool.spi/src/main/java/nl/lxtreme/ols/tool/spi/SPIAnalyserWorker.java:347-354 | An iteration moves lastIdx to idx - 1 exactly when it is not skipped, is armed after its clock part and has bitIdx == bitCount; otherwise lastIdx is kept. Since the last such iteration before a word's first qualifying sample edge is that edge's own, a word's span starts at the sample just before the word's first qualifying sample edge. |
| DecoderProperties.StepArmed | tool.spi/src/main/java/nl/lxtreme/ols/tool/spi/SPIAnalyserWorker.java:315-346 | After an iteration that is not skipped, dataEdgeSeen is true exactly when it was already true with no CS fall at this sample, or the clock makes the data-change edge here; a skipped iteration keeps it. |
| DecoderProperties.StepInv | tool.spi/src/main/java/nl/lxtreme/ols/tool/spi/SPIAnalyserWorker.java:299-382 | An iteration keeps 0 <= bitIdx <= bitCount, keeps the accumulator bits in (bitIdx, bitCount], and keeps start <= lastIdx < idx + 1. |
| DecoderProperties.StepEvents | tool.spi/src/main/java/nl/lxtreme/ols/tool/spi/SPIAnalyserWorker.java:317-377 | Every event of the iteration at idx is reported at idx, and a word spans from inside the window to idx. |
| DecoderProperties.RunInv | tool.spi/src/main/java/nl/lxtreme/ols/tool/spi/SPIAnalyserWorker.java:296-386 | The counter and accumulator invariant and start <= lastIdx < idx hold before every iteration. |
| DecoderProperties.RunEvents | tool.spi/src/main/java/nl/lxtreme/ols/tool/spi/SPIAnalyserWorker.java:305-386 | The loop's events come in sample order and lie strictly inside the window, and each word satisfies start <= lastIdx < idx < end. |
| DecoderProperties.DecodeOrdered | tool.spi/src/main/java/nl/lxtreme/ols/tool/spi/SPIAnalyserWorker.java:245-262 | A run's whole output is ordered and lies in [start, end), and with CS reporting on it opens with the CS-low at the window start. |
| DecoderProperties.StepCount | tool.spi/src/main/java/nl/lxtreme/ols/tool/spi/SPIAnalyserWorker.java:356-382 | An iteration reports one MOSI word exactly when it is a sample edge at bit 0, and it moves the counter exactly at sample edges. |
| DecoderProperties.RunWordCount | tool.spi/src/main/java/nl/lxtreme/ols/tool/spi/SPIAnalyserWorker.java:356-386 | The qualifying sample edges equal (bitCount + 1) per reported word plus the bits of the word in progress (`WordSamplesIsProduct`: n words take n * (bitCount + 1) edges). So a word is reported only after bitCount + 1 sample edges, and a partial word at the window end is never reported. |
| DecoderProperties.NoFallBetweenAll | tool.spi/src/main/java/nl/lxtreme/ols/tool/spi/SPIAnalyserWorker.java:315-321 | The recursive "no CS fall between j and hi" means that CS falls at no sample strictly between them. |
| DecoderProperties.RunArmed | tool.spi/src/main/java/nl/lxtreme/ols/tool/spi/SPIAnalyserWorker.java:296-346 | Before every iteration, a set dataEdgeSeen was set by a data-change clock edge at an earlier sample that was not skipped, with no CS fall since. |
| DecoderProperties.SampleNeedsDataChange | tool.spi/src/main/java/nl/lxtreme/ols/tool/spi/SPIAnalyserWorker.java:340-357 | No bit is sampled before the clock's data-change edge: a qualifying sample edge at idx follows a data-change edge at some j in (start, idx) on a sample that was not skipped, with no CS fall in (j, idx]. |
| SpiAnalyser.SpiAnalyserWorker.constructor | tool.spi/src/main/java/nl/lxtreme/ols/tool/spi/SPIAnalyserWorker.java:63-66 | A new worker holds the capture, its markers and default settings. |
| SpiAnalyser.SpiAnalyserWorker.SetBitCount | tool.spi/src/main/java/nl/lxtreme/ols/tool/spi/SPIAnalyserWorker.java:76-79 | Changes the bit count and no other setting. |
| SpiAnalyser.SpiAnalyserWorker.SetCSIndex | tool.spi/src/main/java/nl/lxtreme/ols/tool/spi/SPIAnalyserWorker.java:87-90 | Changes the CS channel and no other setting. |
| SpiAnalyser.SpiAnalyserWorker.SetHonourCS | tool.spi/src/main/java/nl/lxtreme/ols/tool/spi/SPIAnalyserWorker.java:99-102 | Changes whether CS is honoured and no other setting. |
| SpiAnalyser.SpiAnalyserWorker.SetMisoIndex | tool.spi/src/main/java/nl/lxtreme/ols/tool/spi/SPIAnalyserWorker.java:110-113 | Changes the MISO channel and no other setting. |
| SpiAnalyser.SpiAnalyserWorker.SetMode | tool.spi/src/main/java/nl/lxtreme/ols/tool/spi/SPIAnalyserWorker.java:121-124 | Changes the SPI mode and no other setting. |
| SpiAnalyser.SpiAnalyserWorker.SetMosiIndex | tool.spi/src/main/java/nl/lxtreme/ols/tool/spi/SPIAnalyserWorker.java:132-135 | Changes the MOSI channel and no other setting. |
| SpiAnalyser.SpiAnalyserWorker.SetOrder | tool.spi/src/main/java/nl/lxtreme/ols/tool/spi/SPIAnalyserWorker.java:143-146 | Changes the bit order and no other setting. |
| SpiAnalyser.SpiAnalyserWorker.SetReportCS | tool.spi/src/main/java/nl/lxtreme/ols/tool/spi/SPIAnalyserWorker.java:155-159 | Changes whether CS events are reported and no other setting. |
| SpiAnalyser.SpiAnalyserWorker.SetSCKIndex | tool.spi/src/main/java/nl/lxtreme/ols/tool/spi/SPIAnalyserWorker.java:167-170 | Changes the SCK channel and no other setting. |
| SpiAnalyser.SpiAnalyserWorker.SearchSlaveSelected | tool.spi/src/main/java/nl/lxtreme/ols/tool/spi/SPIAnalyserWorker.java:456-509 | Both walking loops return what `Search` specifies: the backward walk when start > end, the forward walk otherwise, and -1 when nothing is found. |
| SpiAnalyser.SpiAnalyserWorker.ReportCsLow | tool.spi/src/main/java/nl/lxtreme/ols/tool/spi/SPIAnalyserWorker.java:415-421 | Appends a CS-low event on the CS channel exactly when CS reporting is on. |
| SpiAnalyser.SpiAnalyserWorker.ReportCsHigh | tool.spi/src/main/java/nl/lxtreme/ols/tool/spi/SPIAnalyserWorker.java:398-404 | Appends a CS-high event on the CS channel exactly when CS reporting is on. |
| SpiAnalyser.SpiAnalyserWorker.ReportData | tool.spi/src/main/java/nl/lxtreme/ols/tool/spi/SPIAnalyserWorker.java:437-449 | Appends the MOSI word, then the MISO word, over the same span, each converted to the bit order. |
| SpiAnalyser.SpiAnalyserWorker.ChipSelectEdge | tool.spi/src/main/java/nl/lxtreme/ols/tool/spi/SPIAnalyserWorker.java:310-327 | The loop's CS handling computes `CsPhase`'s new state and appends its events. |
| SpiAnalyser.SpiAnalyserWorker.SampleData | tool.spi/src/main/java/nl/lxtreme/ols/tool/spi/SPIAnalyserWorker.java:356-383 | The loop's sampling computes `SamplePhase`'s new state and appends its events. |
| SpiAnalyser.SpiAnalyserWorker.ClockEdge | tool.spi/src/main/java/nl/lxtreme/ols/tool/spi/SPIAnalyserWorker.java:336-383 | The loop's clock handling computes `ClockPhase`'s new state and appends its events. |
| SpiAnalyser.SpiAnalyserWorker.DecodeSample | tool.spi/src/main/java/nl/lxtreme/ols/tool/spi/SPIAnalyserWorker.java:307-386 | One loop iteration computes `Step`'s new state and appends its events; a skipped sample runs the CS part only. |
| SpiAnalyser.SpiAnalyserWorker.StartScan | tool.spi/src/main/java/nl/lxtreme/ols/tool/spi/SPIAnalyserWorker.java:292-299 | The loop variables before the first iteration are the fold over the window start alone. |
| SpiAnalyser.SpiAnalyserWorker.DecodeNext | tool.spi/src/main/java/nl/lxtreme/ols/tool/spi/SPIAnalyserWorker.java:305-386 | After the iteration at idx, the loop state and the appended events are those of the fold up to idx + 1. |
| SpiAnalyser.SpiAnalyserWorker.ClockDataOnEdge | tool.spi/src/main/java/nl/lxtreme/ols/tool/spi/SPIAnalyserWorker.java:276-387 | The decoder loop appends exactly the events of the fold `Run` over the window. |
| SpiAnalyser.SpiAnalyserWorker.DoInBackground | tool.spi/src/main/java/nl/lxtreme/ols/tool/spi/SPIAnalyserWorker.java:181-265 | The run aborts with "No CS start-condition found!" exactly when `DecodeWindow` finds no window. Otherwise it returns a fresh data set over that window holding the CS-low at the start (when reported), then the loop's events. |

## Left out

- Progress reporting (`setProgress`, a floating-point percentage), logging, channel labels and channel annotations are left out. They produce no decoded data.
- `NumberUtils.convertByteOrder` is not part of this model. It is the function-typed parameter `convert` of the worker, applied to the raw accumulator when a word is reported.
- `SPIDataSet` is modelled only as its window and the sequence of reported events. Its other internals are not part of this model.
- Cancellation of the background worker and the Swing worker plumbing are left out.
- The cursor and trigger accessors (`isCursorsEnabled`, `getCursorPosition`, `getSampleIndex`, `hasTriggerData`, `getTriggerIndex`) are replaced by the `Markers` value. It holds the two cursor sample indices, the second one past the cursor's position, and the trigger index.
- Channel indices and the bit count are restricted to 0..30 (`ValidConfig`). This keeps `1 << n` a positive power of two. Channel 31, whose masked value is negative and inverts the comparisons, and the wrap-around of `1 << n` at 32 are not modelled.
- `ValidMarkers` requires markers inside the capture and a non-empty capture. Java would throw an index exception there; that path is not modelled.
- The thrown `IllegalStateException` is modelled as the `Aborted` outcome carrying its message.
- The worker constructor's defaults: Java leaves the mode and the bit order `null`. The model starts with mode 0 and MSB first, because its mode and bit order cannot be absent.
- The `int[]` of samples is a `seq<int>`, read-only as in the source.
- `Edge` and its `toEdge` are not part of this model. `ToEdge` classifies by comparing the two values, which is what the loops of this file rely on.
- SpiAnalyser.SpiAnalyserWorker.ClockDataOnEdge: the loop body is split into the methods `DecodeNext` and `DecodeSample`, which call `ChipSelectEdge`, `ClockEdge` and `SampleData`; the initial loop variables come from `StartScan`, and the loop variables are gathered in one `Scan` value. The `aMode` parameter is replaced by the `mode` field, which is what its only caller passes.
- FrameDecoder.CsPhase, FrameDecoder.SamplePhase, FrameDecoder.ClockPhase, FrameDecoder.Step and FrameDecoder.Run: their own contracts state only the counter range. What they compute is stated by the lemmas in `DecoderProperties` and by the methods proved equal to them.

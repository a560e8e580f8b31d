# Sensor data processor: a verified model

This project models `SensorDataProcessor`, a fixed-allocation window of raw
sensor samples with an exponential smoothing pass. The window holds up to
`maxBufferSize` samples, unless the threshold is later lowered below the
current length (see below). A new sample is appended while there is room.
Once the window is full, the oldest sample is shifted out and the new one is
written into the last slot. On request, `processAllData` rebuilds the output
buffer from the window. The first output is the first sample. Each later
output is `raw[i]*α + out[i-1]*(1-α)`. That is single-pole exponential
smoothing, even though a comment in the code calls it a moving average.
Outputs past `max(1, maxBufferSize)` are dropped: the first output is always
stored. `setConfig` changes the threshold and the coefficient, but never the
allocation.

Layout:

- `smoothing.dfy`, module `Smoothing`: reference definitions on sequences,
  with their lemmas.
  - `Blend` is one smoothing step.
  - `Smoothed` is the smoothed series of a window.
  - `IsRecurrence` states the recurrence pointwise.
  - `ProcessedCount` is how many outputs a pass keeps.
  - `AfterProcessing` is the whole output buffer after a pass.
  - `Slide` is the window after one insertion.
  - `Fill` is the window after a stream of insertions.
  - `Newest` is the last `m` elements of a sequence.
- `sensor_data_processor.dfy`, module `SensorData`: the class.
  - It has two `array<real>` buffers of 1000 slots each, the threshold, the
    coefficient and the two counters, as fields.
  - `AddDataPoint` and `ProcessAllData` update the arrays in place, with the
    code's own loops and their invariants.
  - The postconditions of `AddDataPoint` and `ProcessAllData` tie the new
    state to the reference definitions; the constructor, `SetConfig` and the
    accessors state their effect field by field.

Samples and the coefficient are `real`. The array lengths are the true storage.
`InsertInBounds` is the condition under which an insertion touches only slots
inside the allocation. `SlotsAccessed` lists those slots: slot `size` for an
append; for a shift, the slots the loop writes and reads, and then slot
`threshold - 1`. The condition holds exactly when every one of them lies in
`[0, 1000)`. `AddDataPoint` requires
it, so the out-of-bounds write becomes an explicit precondition. It fails in
exactly two situations: a threshold above 1000 once the window holds 1000
samples, and any threshold of 0 or below. `ProcessAllData`
needs no such precondition. At loop step `i` the output counter is at most
`i`, and `i` stays below the window length, which stays within the
allocation. So every write of the pass is in bounds, whatever the threshold.

In three places the code behaves differently from what its names suggest; the
model follows the code:

- The code compares the output counter with the logical threshold
  `maxBufferSize`, not with the storage size. Outputs are therefore dropped
  when the threshold has been lowered below the window length. They are never
  dropped because the threshold was raised past the storage.
- The shift loop moves only the first `maxBufferSize` slots. When the window
  holds more samples than the threshold (the threshold was lowered), the
  samples past the threshold stay where they are, and the window length does
  not change.
- The constructor takes no arguments. It allocates 1000 slots, sets the
  threshold to 1000 and the coefficient to 0.5.

The outputs that a pass computes from stale leftover values of
`processedData[i-1]` are only ones it drops. The first dropped value is still
computed from an output this pass stored. Once one value is dropped, every
later value is dropped too, and from then on each is computed from an old slot. So the stored result is fully determined by
the window, the threshold and the coefficient (`AfterProcessing`).

## Model

| member | source | states |
|---|---|---|
| `Smoothing.Blend` | NeuroElectricsCodeReview.cpp:52-53 | one smoothing step: with coefficient 1 it yields the new sample, with coefficient 0 the previous output, and a constant signal is left unchanged |
| `Smoothing.Smoothed` | NeuroElectricsCodeReview.cpp:44-57 | the smoothed series is as long as the window, and its first output is the first sample, whatever the coefficient |
| `Smoothing.SmoothedPrefix` | NeuroElectricsCodeReview.cpp:49-57 | smoothing a prefix of the window gives the same prefix of the smoothed series; each output depends only on samples up to its own index |
| `Smoothing.SmoothedStep` | NeuroElectricsCodeReview.cpp:52-53 | every output after the first is `raw[i]*α + out[i-1]*(1-α)` |
| `Smoothing.SmoothedSnoc` | NeuroElectricsCodeReview.cpp:49-56 | unfolds the definition of Smoothed at a prefix: extending the window by one sample extends the smoothed series by exactly one smoothing step over its last output |
| `Smoothing.SmoothedIsRecurrence` | NeuroElectricsCodeReview.cpp:45-57 | the smoothed series satisfies the first-element passthrough and the recurrence along its whole length |
| `Smoothing.SmoothedUnique` | NeuroElectricsCodeReview.cpp:45-57 | any series of the window's length that satisfies the passthrough and the recurrence is the smoothed series (the converse of SmoothedIsRecurrence) |
| `Smoothing.ProcessedCount` | NeuroElectricsCodeReview.cpp:44-62 | a pass keeps no more outputs than samples, no more than `max(1, maxBufferSize)`, at least one for a non-empty window, and cuts the series short only at the threshold |
| `Smoothing.AfterProcessing` | NeuroElectricsCodeReview.cpp:44-62 | a pass leaves the output buffer's size unchanged |
| `Smoothing.StoreStep` | NeuroElectricsCodeReview.cpp:52-56 | storing one smoothing step just past the stored prefix extends the smoothed prefix by one and leaves the rest of the buffer alone |
| `Smoothing.PassResult` | NeuroElectricsCodeReview.cpp:44-62 | a buffer holding the smoothed prefix of the kept length, with the rest untouched, is AfterProcessing and satisfies the passthrough and the recurrence |
| `Smoothing.AfterProcessingIdempotent` | NeuroElectricsCodeReview.cpp:44-63 | a second pass over the same window, threshold and coefficient leaves the output buffer exactly as the first pass left it |
| `Smoothing.Slide` | NeuroElectricsCodeReview.cpp:26-38 | one insertion leaves a window of `min(len+1, capacity)` samples, whose last sample is the new one |
| `Smoothing.SlideKeepsNewest` | NeuroElectricsCodeReview.cpp:30-38 | one insertion keeps the most recent `capacity` samples in arrival order; when full, exactly the oldest is evicted |
| `Smoothing.Fill` | NeuroElectricsCodeReview.cpp:24-38 | after N insertions into an empty window, its length is `min(N, capacity)` |
| `Smoothing.FillIsNewest` | NeuroElectricsCodeReview.cpp:24-38 | after any stream of insertions, the window is exactly the last `min(N, capacity)` samples, oldest first |
| `Smoothing.SlideChainIsFill` | NeuroElectricsCodeReview.cpp:24-38 | a run of windows from empty, each the previous one with the next sample slid in, ends in Fill; this links repeated AddDataPoint calls to Fill |
| `Smoothing.WindowScenario` | NeuroElectricsCodeReview.cpp:26-57 | capacity 4, α = 0.5: samples 10, 20, 30, 40 smooth to 10, 15, 22.5, 31.25; sample 50 evicts 10, and 20, 30, 40, 50 smooth to 20, 25, 32.5, 41.25 |
| `SensorData.InsertInBounds` | NeuroElectricsCodeReview.cpp:26-37 | an insertion stays inside the allocation exactly when every slot in `SlotsAccessed` (the ghost function listing the slots lines 28-37 touch) lies in `[0, storage)`: slot `size` written by the append (line 28), or, for the shift, slots `0..threshold-2` written and `1..threshold-1` read by the loop (lines 33-36) and slot `threshold - 1` written at line 37 |
| `SensorData.ThresholdWithinStorageIsSafe` | NeuroElectricsCodeReview.cpp:26-37 | a threshold between 1 and the allocation keeps every insertion inside the allocation |
| `SensorData.UnsafeThresholds` | NeuroElectricsCodeReview.cpp:26-37 | for every window length within the allocation: a threshold above the allocation is safe while the window is not full, and once it is full the append touches slot 1000, outside the storage; every threshold of 0 or below makes the insertion a shift that writes slot `threshold - 1`, below slot 0 |
| `SensorData.SensorDataProcessor.constructor` | NeuroElectricsCodeReview.cpp:8-16 | both buffers are fresh, distinct and 1000 slots long; the threshold is 1000, the coefficient 0.5, and both counters are 0 |
| `SensorData.SensorDataProcessor.AddDataPoint` | NeuroElectricsCodeReview.cpp:24-39 | below the threshold, the sample lands at the old length, the length grows by exactly one, and no other slot changes. At or above it, slot `i` takes old slot `i+1` for `i < maxBufferSize-1`, slot `maxBufferSize-1` takes the sample, slots from `maxBufferSize` on and the length are unchanged. A window within the threshold stays within it and becomes `Slide` of the old window. The output buffer, its counter and the configuration are untouched |
| `SensorData.SensorDataProcessor.ProcessAllData` | NeuroElectricsCodeReview.cpp:42-64 | returns the output buffer. Its counter becomes ProcessedCount of the window length and threshold, which equals the window length when that is within the threshold. The buffer becomes AfterProcessing of its old contents. Its kept prefix satisfies the passthrough and the recurrence. The window and the configuration are untouched |
| `SensorData.SensorDataProcessor.GetLatestProcessedData` | NeuroElectricsCodeReview.cpp:66-69 | returns the output buffer itself, without recomputing and without changing any state |
| `SensorData.SensorDataProcessor.GetProcessedDataSize` | NeuroElectricsCodeReview.cpp:71-74 | returns the output counter and changes no state |
| `SensorData.SensorDataProcessor.SetConfig` | NeuroElectricsCodeReview.cpp:76-80 | sets the threshold and the coefficient to the given values; both buffers, their allocation and both counters are unchanged |

## Left out

- The demonstration driver `main` (NeuroElectricsCodeReview.cpp:91-111) is not modelled: it generates samples and prints lengths, which is console output. The stream of insertions it performs is covered by `Fill` and `SlideChainIsFill`.
- The warning printed to the error stream when an output is dropped (line 60) is modelled only as "the value is not stored"; no output is modelled.
- The destructor and `new`/`delete` (lines 12-13, 18-22) are replaced by Dafny arrays allocated in the constructor.
- IEEE-754 `double` rounding is not modelled: samples and the coefficient are `real`, so the recurrence holds exactly. The coefficient is not validated, as in the code.
- The pointers returned by `processAllData` and `getLatestProcessedData` are modelled as the `processedData` array itself. The model does not describe what a caller may do through the pointer.
- Freshly allocated `double` arrays are uninitialised; the verifier likewise treats the elements of a new Dafny array as arbitrary values. No contract depends on the initial contents of a slot: untouched slots are only stated to be unchanged.
- The 32-bit range of `int` is not modelled. The counters never exceed 1000. `maxBufferSize` is an unbounded integer in the model. The one place where the code could overflow, `maxBufferSize - 1` at the minimum `int`, lies inside the case the insertion precondition excludes.
- `ProcessAllData` computes each step through `Blend`, which is the expression of lines 52-53. Its postcondition states the recurrence through `Blend` rather than spelling out the product.

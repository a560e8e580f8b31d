/**
 * The sensor data processor: a window of raw samples held in a fixed array,
 * and an output array rebuilt in place by an exponential smoothing pass.
 * The allocation is fixed when the object is built; the logical threshold
 * `maxBufferSize` can later be set to anything, so the insertion precondition
 * spells out when the insertion stays inside the allocation.
 */
module SensorData {
  import opened Smoothing

  /** The number of slots each buffer is allocated with. */
  const StorageCapacity: nat := 1000

  /** The filter coefficient a new processor starts with. */
  const DefaultCoefficient: real := 0.5

  /** Every slot an insertion into a window of `size` samples under logical
      threshold `threshold` reads or writes: the append writes slot `size`;
      the shift writes slots 0 to `threshold - 2`, reads slots 1 to
      `threshold - 1`, and then writes slot `threshold - 1`. */
  ghost function SlotsAccessed(size: int, threshold: int): set<int>
  {
    if size < threshold then {size}
    else Interval(0, threshold - 1) + Interval(1, threshold) + {threshold - 1}
  }

  /** The slots from `lo` up to, but not including, `hi`. */
  ghost function Interval(lo: int, hi: int): (r: set<int>)
    ensures forall k :: k in r <==> lo <= k < hi
    decreases hi - lo
  {
    if hi <= lo then {} else {lo} + Interval(lo + 1, hi)
  }

  /** An insertion into a window of `size` samples under logical threshold
      `threshold` touches only slots inside an allocation of `storage` slots. */
  predicate InsertInBounds(size: int, threshold: int, storage: int)
    ensures InsertInBounds(size, threshold, storage)
            <==> forall k :: k in SlotsAccessed(size, threshold) ==> 0 <= k < storage
  {
    if size < threshold then
      assert size in SlotsAccessed(size, threshold);
      0 <= size < storage
    else
      assert threshold - 1 in SlotsAccessed(size, threshold);
      1 <= threshold <= storage
  }

  /** A threshold between 1 and the allocation keeps every insertion in bounds. */
  lemma ThresholdWithinStorageIsSafe(size: nat, threshold: int, storage: nat)
    requires size <= storage && 1 <= threshold <= storage
    ensures InsertInBounds(size, threshold, storage)
  {
  }

  /** Which thresholds make an insertion leave the allocation. A threshold
      raised past the allocation is harmless until the window is full, and
      then the append touches slot `StorageCapacity`; a threshold of 0 or
      below makes every insertion a shift that writes slot `threshold - 1`,
      below slot 0. */
  lemma UnsafeThresholds(size: nat, threshold: int)
    requires size <= StorageCapacity
    ensures StorageCapacity < threshold && size < StorageCapacity ==>
              InsertInBounds(size, threshold, StorageCapacity)
    ensures StorageCapacity < threshold && size == StorageCapacity ==>
              && !InsertInBounds(size, threshold, StorageCapacity)
              && StorageCapacity in SlotsAccessed(size, threshold)
    ensures threshold <= 0 ==>
              && !InsertInBounds(size, threshold, StorageCapacity)
              && threshold - 1 in SlotsAccessed(size, threshold)
  {
  }

  class SensorDataProcessor {
    var rawDataBuffer: array<real>
    var processedData: array<real>
    var maxBufferSize: int
    var filterCoefficient: real
    var currentRawSize: nat
    var currentProcessedSize: nat

    /** Both buffers keep their allocation, are distinct, and both counters
        stay inside it; the output never holds more values than the window. */
    ghost predicate Valid()
      reads this
    {
      && rawDataBuffer.Length == StorageCapacity
      && processedData.Length == StorageCapacity
      && rawDataBuffer != processedData
      && currentProcessedSize <= currentRawSize <= rawDataBuffer.Length
    }

    /** The raw samples currently held, oldest first. */
    ghost function RawWindow(): (w: seq<real>)
      requires Valid()
      reads this, rawDataBuffer
      ensures |w| == currentRawSize
    {
      rawDataBuffer[..currentRawSize]
    }

    constructor ()
      ensures Valid() && fresh(rawDataBuffer) && fresh(processedData)
      ensures maxBufferSize == StorageCapacity && filterCoefficient == DefaultCoefficient
      ensures currentRawSize == 0 && currentProcessedSize == 0
    {
      maxBufferSize := StorageCapacity;
      filterCoefficient := DefaultCoefficient;
      rawDataBuffer := new real[StorageCapacity];
      processedData := new real[StorageCapacity];
      currentRawSize := 0;
      currentProcessedSize := 0;
    }

    /** Appends a sample while the window is below the threshold; otherwise
        shifts the first `maxBufferSize` slots left by one, dropping the
        oldest sample, and writes the new one into the last of them. */
    method AddDataPoint(dataPoint: real)
      requires Valid()
      requires InsertInBounds(currentRawSize, maxBufferSize, rawDataBuffer.Length)
      modifies this`currentRawSize, rawDataBuffer
      ensures Valid()
      ensures old(currentRawSize) < maxBufferSize ==>
                && currentRawSize == old(currentRawSize) + 1
                && rawDataBuffer[..] == old(rawDataBuffer[..])[old(currentRawSize) := dataPoint]
      ensures maxBufferSize <= old(currentRawSize) ==>
                && currentRawSize == old(currentRawSize)
                && (forall i :: 0 <= i < maxBufferSize - 1 ==> rawDataBuffer[i] == old(rawDataBuffer[i + 1]))
                && rawDataBuffer[maxBufferSize - 1] == dataPoint
                && (forall i :: maxBufferSize <= i < rawDataBuffer.Length ==> rawDataBuffer[i] == old(rawDataBuffer[i]))
      ensures old(currentRawSize) <= maxBufferSize ==>
                && currentRawSize <= maxBufferSize
                && RawWindow() == Slide(old(RawWindow()), maxBufferSize, dataPoint)
      ensures unchanged(processedData)
    {
      if currentRawSize < maxBufferSize {
        rawDataBuffer[currentRawSize] := dataPoint;
        currentRawSize := currentRawSize + 1;
        assert RawWindow() == old(RawWindow()) + [dataPoint];
      } else {
        var i := 0;
        while i < maxBufferSize - 1
          invariant 0 <= i <= maxBufferSize - 1
          invariant currentRawSize == old(currentRawSize)
          invariant forall k :: 0 <= k < i ==> rawDataBuffer[k] == old(rawDataBuffer[k + 1])
          invariant forall k :: i <= k < rawDataBuffer.Length ==> rawDataBuffer[k] == old(rawDataBuffer[k])
        {
          rawDataBuffer[i] := rawDataBuffer[i + 1];
          i := i + 1;
        }
        rawDataBuffer[maxBufferSize - 1] := dataPoint;
        if currentRawSize == maxBufferSize {
          assert RawWindow() == old(RawWindow())[1..] + [dataPoint];
        }
      }
    }

    /** Rebuilds the output from the window: the first output is the first
        sample, each later one is the smoothing step over the previous output;
        a value is stored only while fewer than `maxBufferSize` are stored
        (the first one always is), and an overflowing value is dropped. */
    method ProcessAllData() returns (result: array<real>)
      requires Valid()
      modifies this`currentProcessedSize, processedData
      ensures Valid() && result == processedData
      ensures currentProcessedSize == ProcessedCount(currentRawSize, maxBufferSize)
      ensures processedData[..]
           == AfterProcessing(old(processedData[..]), RawWindow(), maxBufferSize, filterCoefficient)
      ensures IsRecurrence(processedData[..], RawWindow(), currentProcessedSize, filterCoefficient)
      ensures unchanged(rawDataBuffer)
    {
      currentProcessedSize := 0;
      if currentRawSize > 0 {
        processedData[currentProcessedSize] := rawDataBuffer[0];
        currentProcessedSize := currentProcessedSize + 1;
      }
      var i := 1;
      while i < currentRawSize
        invariant 1 <= i && (currentRawSize == 0 || i <= currentRawSize)
        invariant currentRawSize == 0 ==> currentProcessedSize == 0
        invariant currentRawSize > 0 ==> currentProcessedSize == ProcessedCount(i, maxBufferSize)
        invariant processedData[..]
               == Smoothed(rawDataBuffer[..currentProcessedSize], filterCoefficient)
                + old(processedData[..])[currentProcessedSize..]
      {
        var filteredValue := Blend(rawDataBuffer[i], processedData[i - 1], filterCoefficient);
        if currentProcessedSize < maxBufferSize {
          assert currentProcessedSize == i;
          StoreStep(rawDataBuffer[..], old(processedData[..]), filterCoefficient, i);
          processedData[currentProcessedSize] := filteredValue;
          currentProcessedSize := currentProcessedSize + 1;
        }
        i := i + 1;
      }
      assert RawWindow()[..currentProcessedSize] == rawDataBuffer[..currentProcessedSize];
      PassResult(old(processedData[..]), processedData[..], RawWindow(), maxBufferSize, filterCoefficient);
      result := processedData;
    }

    /** The output buffer as the last pass left it, without recomputing. */
    method GetLatestProcessedData() returns (data: array<real>)
      ensures data == processedData
    {
      data := processedData;
    }

    /** The number of outputs the last pass stored. */
    method GetProcessedDataSize() returns (size: int)
      ensures size == currentProcessedSize
    {
      size := currentProcessedSize;
    }

    /** Sets the logical threshold and the coefficient; neither buffer, nor
        its allocation, nor either counter changes. */
    method SetConfig(newSize: int, newCoeff: real)
      requires Valid()
      modifies this`maxBufferSize, this`filterCoefficient
      ensures Valid()
      ensures maxBufferSize == newSize && filterCoefficient == newCoeff
      ensures unchanged(rawDataBuffer) && unchanged(processedData)
    {
      maxBufferSize := newSize;
      filterCoefficient := newCoeff;
    }
  }
}

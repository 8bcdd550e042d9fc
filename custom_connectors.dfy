/**
 * The simulation source: a file source whose partitions ask the runtime to
 * wait `delay` between batches. Each partition keeps one wake-up time. It
 * starts at the moment the partition is built, and every batch pushes it
 * one delay further.
 *
 * Times are whole microseconds, the resolution of `datetime` and
 * `timedelta`. The clock reading at construction is a parameter. The
 * batches themselves come from the inherited file partition, whose code is
 * not part of this model, so each call receives the batch that partition
 * produced.
 */
module CustomConnectors {
  import opened Text
  import opened Values

  /** A point in time or a duration, in microseconds. */
  type Micros = int

  const DefaultBatchSize: nat := 10
  /** `timedelta(seconds=5)`. */
  const DefaultDelay: Micros := 5_000_000
  /** Separates the filesystem id from the path in a partition key. */
  const PartSeparator: string := "::"

  /** A partition of the simulation source: the file reader plus the pacing state. */
  class SimulationPartition {
    const path: string
    const batchSize: nat
    const resumeState: Option<nat>
    const delay: Micros
    var nextAwake: Micros

    /** The wake-up time starts at the moment of construction. */
    constructor (path: string, batchSize: nat, resumeState: Option<nat>, delay: Micros, now: Micros)
      ensures this.path == path && this.batchSize == batchSize && this.resumeState == resumeState
      ensures this.delay == delay && nextAwake == now
    {
      this.path := path;
      this.batchSize := batchSize;
      this.resumeState := resumeState;
      this.delay := delay;
      nextAwake := now;
    }

    /**
     * `next_batch`: a non-zero delay moves the wake-up time one delay on; a
     * zero delay is falsy and skips the update. The file partition's batch
     * is passed through unchanged.
     */
    method NextBatch(fileBatch: seq<string>) returns (batch: seq<string>)
      modifies this
      ensures nextAwake == old(nextAwake) + delay
      ensures delay >= 0 ==> nextAwake >= old(nextAwake)
      ensures batch == fileBatch
    {
      if delay != 0 {
        nextAwake := nextAwake + delay;
      }
      batch := fileBatch;
    }

    /** `next_awake`: reports the wake-up time and changes nothing. */
    method NextAwake() returns (t: Micros)
      ensures t == nextAwake
    {
      t := nextAwake;
    }
  }

  /** The wake-up time after `n` batches of a partition built at `start`. */
  function AwakeAfter(start: Micros, delay: Micros, n: nat): (t: Micros)
    ensures n == 0 ==> t == start
    ensures delay == 0 ==> t == start
    ensures delay > 0 && n > 0 ==> t > start
  {
    if n == 0 then start else AwakeAfter(start, delay, n - 1) + delay
  }

  /** The wake-up time moves linearly: it is always `start + n * delay`. */
  lemma {:induction false} AwakeAfterLinear(start: Micros, delay: Micros, n: nat)
    ensures AwakeAfter(start, delay, n) == start + n * delay
  {
    if n > 0 {
      AwakeAfterLinear(start, delay, n - 1);
    }
  }

  /**
   * The runtime calling `next_batch` once per batch the file partition
   * yields: the batches come out unchanged and in order, and the wake-up
   * time has moved one delay per batch.
   */
  method Poll(part: SimulationPartition, fileBatches: seq<seq<string>>) returns (batches: seq<seq<string>>)
    modifies part
    ensures batches == fileBatches
    ensures part.nextAwake == AwakeAfter(old(part.nextAwake), part.delay, |fileBatches|)
  {
    batches := [];
    ghost var start := part.nextAwake;
    for i := 0 to |fileBatches|
      invariant batches == fileBatches[..i]
      invariant part.nextAwake == AwakeAfter(start, part.delay, i)
    {
      var batch := part.NextBatch(fileBatches[i]);
      batches := batches + [batch];
    }
  }

  /** `s.split(sep, 1)` when `sep` occurs: the text before its first occurrence and the text after it. */
  function SplitFirst(s: string, sep: string): (r: Option<(string, string)>)
    requires |sep| > 0
    ensures r.Some? ==> r.value.0 + sep + r.value.1 == s
  {
    match IndexOf(s, sep)
    case None => None
    case Some(i) =>
      assert s == s[..i] + s[i..i + |sep|] + s[i + |sep|..];
      IndexOfSpec(s, sep);
      Some((s[..i], s[i + |sep|..]))
  }

  /** The split finds nothing exactly when the separator does not occur, and otherwise cuts at its first occurrence. */
  lemma SplitFirstSpec(s: string, sep: string)
    requires |sep| > 0
    ensures SplitFirst(s, sep).None? <==> !Contains(s, sep)
    ensures SplitFirst(s, sep).Some? ==> forall j :: 0 <= j < |SplitFirst(s, sep).value.0| ==> !OccursAt(s, sep, j)
  {
    IndexOfSpec(s, sep);
    ContainsAt(s, sep);
  }

  /** A key built from an id without `:` splits back into that id and the path. */
  lemma PartKeyRoundTrip(fsId: string, path: string)
    requires ':' !in fsId
    ensures SplitFirst(fsId + PartSeparator + path, PartSeparator) == Some((fsId, path))
  {
    var key := fsId + PartSeparator + path;
    IndexOfSpec(key, PartSeparator);
    assert OccursAt(key, PartSeparator, |fsId|) by {
      assert key[|fsId|..|fsId| + 2] == PartSeparator;
    }
    forall j | 0 <= j < |fsId| ensures !OccursAt(key, PartSeparator, j) {
      assert key[j] == fsId[j];
    }
    assert key[..|fsId|] == fsId;
    assert key[|fsId| + 2..] == path;
  }

  /** The simulation source: a path, a batch size and a delay. */
  class SimulationSource {
    const path: string
    const batchSize: nat
    const delay: Micros

    /** Defaults: ten lines per batch and five seconds between batches. */
    constructor (path: string, batchSize: nat := DefaultBatchSize, delay: Micros := DefaultDelay)
      ensures this.path == path && this.batchSize == batchSize && this.delay == delay
    {
      this.path := path;
      this.batchSize := batchSize;
      this.delay := delay;
    }

    /**
     * `build_part`: a key without `::` fails to unpack (ValueError); a key
     * for another file fails the assertion; otherwise a fresh partition
     * for this source's file, batch size and delay, awake at `now`.
     */
    method BuildPart(stepId: string, forPart: string, resumeState: Option<nat>, now: Micros)
      returns (r: Result<SimulationPartition>)
      ensures SplitFirst(forPart, PartSeparator).None? ==> r == Err(ValueError)
      ensures SplitFirst(forPart, PartSeparator).Some? && SplitFirst(forPart, PartSeparator).value.1 != path ==>
                r == Err(AssertionError)
      ensures r.Ok? <==> SplitFirst(forPart, PartSeparator).Some? && SplitFirst(forPart, PartSeparator).value.1 == path
      ensures r.Ok? ==> fresh(r.value) && r.value.path == path && r.value.batchSize == batchSize
                        && r.value.resumeState == resumeState && r.value.delay == delay && r.value.nextAwake == now
    {
      var parts := SplitFirst(forPart, PartSeparator);
      if parts.None? {
        return Err(ValueError);
      }
      var (_, partPath) := parts.value;
      if partPath != path {
        return Err(AssertionError);
      }
      var part := new SimulationPartition(path, batchSize, resumeState, delay, now);
      r := Ok(part);
    }
  }
}

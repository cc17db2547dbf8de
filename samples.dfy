/**
 * What the two collectors share: the six measures emitted per direction, the
 * order of the twelve samples of one block, and the value each sample takes.
 */
module Samples {
  import opened Dbus

  datatype Measure = Requested | Transfered | Operations | Errors | Latency | QueueWait

  /** The order of the six samples of one direction. */
  const Measures: seq<Measure> := [Requested, Transfered, Operations, Errors, Latency, QueueWait]

  const NanosPerSecond: real := 1_000_000_000.0

  /** The counter of one direction that feeds a measure. */
  function Raw(c: DataOp, m: Measure): nat {
    match m
    case Requested => c.Requested
    case Transfered => c.Transfered
    case Operations => c.Total
    case Errors => c.Errors
    case Latency => c.Latency
    case QueueWait => c.QueueWait
  }

  /** Latency and queue wait are reported in seconds; the others are counts. */
  predicate InSeconds(m: Measure) {
    m == Latency || m == QueueWait
  }

  /** The sample value of a measure: the raw counter, or nanoseconds converted to seconds. */
  function Reading(c: DataOp, m: Measure): (r: real)
    ensures 0.0 <= r
    ensures (r == 0.0) == (Raw(c, m) == 0)
    ensures InSeconds(m) ==> r * NanosPerSecond == Raw(c, m) as real
    ensures !InSeconds(m) ==> r == Raw(c, m) as real
  {
    if InSeconds(m) then Raw(c, m) as real / NanosPerSecond else Raw(c, m) as real
  }

  /** Position k of a block (0 to 11): the first six are reads, the last six writes. */
  function MeasureAt(k: nat): Measure
    requires k < 12
  {
    Measures[k % 6]
  }

  function Direction(k: nat): string {
    if k < 6 then "read" else "write"
  }

  function Side(s: BasicStats, k: nat): DataOp {
    if k < 6 then s.Read else s.Write
  }
}

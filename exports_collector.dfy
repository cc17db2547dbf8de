/**
 * The export-scoped collector: on each scrape it lists the daemon's exports and,
 * when NFSv4.1 statistics are enabled, sends a block of twelve counter samples
 * per export into the channel.
 */
module Exports {
  import opened Wrappers
  import opened Dbus
  import opened Prometheus
  import opened Samples
  import opened Strconv

  const ExportsPrefix: string := "ganesha_exports_nfs_v41_"
  const ExportLabels: seq<string> := ["direction", "exportid", "path"]

  const NfsV41RequestedDesc := Desc(ExportsPrefix + "requested_bytes" + "_total", ExportLabels)
  const NfsV41TransferedDesc := Desc(ExportsPrefix + "transfered_bytes" + "_total", ExportLabels)
  const NfsV41OperationsDesc := Desc(ExportsPrefix + "operations" + "_total", ExportLabels)
  const NfsV41ErrorsDesc := Desc(ExportsPrefix + "operations_errors" + "_total", ExportLabels)
  const NfsV41LatencyDesc := Desc(ExportsPrefix + "operations_latency_seconds" + "_total", ExportLabels)
  const NfsV41QueueWaitDesc := Desc(ExportsPrefix + "operations_queue_wait_seconds" + "_total", ExportLabels)

  /** The descriptor table: every descriptor is an exports NFSv4.1 counter named
      ganesha_exports_nfs_v41_<measure>_total and labelled by direction, exportid and path. */
  function ExportDesc(m: Measure): (d: Desc)
    ensures d.variableLabels == ["direction", "exportid", "path"]
    ensures IsCounterName(d.fqName, "ganesha_exports_nfs_v41_")
  {
    match m
    case Requested => NfsV41RequestedDesc
    case Transfered => NfsV41TransferedDesc
    case Operations => NfsV41OperationsDesc
    case Errors => NfsV41ErrorsDesc
    case Latency => NfsV41LatencyDesc
    case QueueWait => NfsV41QueueWaitDesc
  }

  /** Each measure has a metric name of its own. */
  lemma ExportDescDistinct(m1: Measure, m2: Measure)
    ensures ExportDesc(m1).fqName == ExportDesc(m2).fqName ==> m1 == m2
  {
  }

  /** The six samples of one direction, in the order the source sends them:
      requested, transferred, operations, errors, latency, queue wait. */
  function DirectionSamples(direction: string, exportid: string, path: string, op: DataOp): (b: seq<Metric>)
    ensures |b| == 6
    ensures forall k :: 0 <= k < 6 ==> |b[k].labelValues| == |b[k].desc.variableLabels|
  {
    seq(6, k requires 0 <= k < 6 =>
      ConstCounter(ExportDesc(Measures[k]), Reading(op, Measures[k]), [direction, exportid, path]))
  }

  /** The twelve samples of one export: the read samples, then the write samples. */
  function ExportBlock(exportid: string, path: string, s: BasicStats): (b: seq<Metric>)
    ensures |b| == 12
  {
    DirectionSamples("read", exportid, path, s.Read) + DirectionSamples("write", exportid, path, s.Write)
  }

  /** Sample k of a block: measure k mod 6 of the read side for k < 6 and of the
      write side after, every one carrying the same exportid and path. */
  lemma ExportBlockLayout(exportid: string, path: string, s: BasicStats, k: nat)
    requires k < 12
    ensures ExportBlock(exportid, path, s)[k]
      == ConstCounter(ExportDesc(MeasureAt(k)), Reading(Side(s, k), MeasureAt(k)), [Direction(k), exportid, path])
  {
    var readSide := DirectionSamples("read", exportid, path, s.Read);
    var writeSide := DirectionSamples("write", exportid, path, s.Write);
    if k < 6 {
      assert ExportBlock(exportid, path, s)[k] == readSide[k];
    } else {
      assert k % 6 == k - 6;
      assert ExportBlock(exportid, path, s)[k] == writeSide[k - 6];
    }
  }

  /** The stats a block is built from: fetched when the export has NFSv4.1 active
      (None when that fetch faults), all zero otherwise. */
  function ExportStats(e: Export, io: nat -> Option<BasicStats>): (r: Option<BasicStats>)
    ensures e.NFSv41 ==> r == io(e.ExportID)
    ensures r.None? ==> e.NFSv41
    ensures !e.NFSv41 ==> forall m :: Reading(r.value.Read, m) == 0.0 && Reading(r.value.Write, m) == 0.0
  {
    if e.NFSv41 then io(e.ExportID) else Some(ZeroStats)
  }

  /** The samples one scrape sends for a listing. A faulting fetch ends the scrape:
      nothing more is sent for that export or any later one. */
  function Emitted(nfsv41: bool, exports: seq<Export>, io: nat -> Option<BasicStats>): (r: seq<Metric>)
    ensures |r| % 12 == 0 && |r| <= 12 * |exports|
    decreases |exports|
  {
    if exports == [] then []
    else if !nfsv41 then Emitted(nfsv41, exports[1..], io)
    else match ExportStats(exports[0], io)
      case None => []
      case Some(s) => Block(exports[0], s) + Emitted(nfsv41, exports[1..], io)
  }

  /** The block of one export, labelled by its decimal id and its path. */
  function Block(e: Export, s: BasicStats): seq<Metric> {
    ExportBlock(FormatUint(e.ExportID), e.Path, s)
  }

  /** The export ids one scrape passes to GetNFSv41IO, in call order. */
  function Queried(nfsv41: bool, exports: seq<Export>, io: nat -> Option<BasicStats>): (r: seq<nat>)
    ensures nfsv41 ==> r <= EnabledIds(exports)
    decreases |exports|
  {
    if exports == [] then []
    else if !nfsv41 || !exports[0].NFSv41 then Queried(nfsv41, exports[1..], io)
    else if io(exports[0].ExportID).None? then [exports[0].ExportID]
    else [exports[0].ExportID] + Queried(nfsv41, exports[1..], io)
  }

  /** The ids of the listed exports that have NFSv4.1 active, in listing order. */
  function EnabledIds(exports: seq<Export>): seq<nat>
    decreases |exports|
  {
    if exports == [] then []
    else (if exports[0].NFSv41 then [exports[0].ExportID] else []) + EnabledIds(exports[1..])
  }

  /** How many exports get their block before the first faulting fetch. */
  function Reached(exports: seq<Export>, io: nat -> Option<BasicStats>): (k: nat)
    ensures k <= |exports|
    ensures forall i :: 0 <= i < k ==> ExportStats(exports[i], io).Some?
    ensures k < |exports| ==> ExportStats(exports[k], io).None?
    decreases |exports|
  {
    if exports == [] || ExportStats(exports[0], io).None? then 0
    else 1 + Reached(exports[1..], io)
  }

  /** With the instance-level NFSv4.1 flag off, a scrape sends nothing and fetches
      nothing, whatever the exports and their own flags are. */
  lemma {:induction false} DisabledEmitsNothing(exports: seq<Export>, io: nat -> Option<BasicStats>)
    ensures Emitted(false, exports, io) == []
    ensures Queried(false, exports, io) == []
    decreases |exports|
  {
    if exports != [] {
      DisabledEmitsNothing(exports[1..], io);
    }
  }

  /** With the flag on, the output is one block per export reached, in listing order. */
  lemma {:induction false} EmittedBlocks(exports: seq<Export>, io: nat -> Option<BasicStats>)
    ensures |Emitted(true, exports, io)| == 12 * Reached(exports, io)
    ensures forall i :: 0 <= i < Reached(exports, io) ==>
      Emitted(true, exports, io)[12 * i..12 * i + 12] == Block(exports[i], ExportStats(exports[i], io).value)
    decreases |exports|
  {
    if exports != [] && ExportStats(exports[0], io).Some? {
      var b := Block(exports[0], ExportStats(exports[0], io).value);
      var rest := Emitted(true, exports[1..], io);
      EmittedBlocks(exports[1..], io);
      assert Emitted(true, exports, io) == b + rest;
      forall i | 0 <= i < Reached(exports, io)
        ensures (b + rest)[12 * i..12 * i + 12] == Block(exports[i], ExportStats(exports[i], io).value)
      {
        if i == 0 {
          assert (b + rest)[..12] == b;
        } else {
          assert exports[1..][i - 1] == exports[i];
          assert (b + rest)[12 * i..12 * i + 12] == rest[12 * (i - 1)..12 * (i - 1) + 12];
        }
      }
    }
  }

  /** Sample j of a scrape with the flag on: it belongs to export j / 12, sits at
      position j % 12 of that export's block, carries the export's id in decimal and
      its path unchanged, and is 0 when the export has NFSv4.1 inactive. */
  lemma EmittedSample(exports: seq<Export>, io: nat -> Option<BasicStats>, j: nat)
    requires j < |Emitted(true, exports, io)|
    ensures j / 12 < Reached(exports, io)
    ensures var e, k := exports[j / 12], j % 12;
      Emitted(true, exports, io)[j]
        == ConstCounter(ExportDesc(MeasureAt(k)), Reading(Side(ExportStats(e, io).value, k), MeasureAt(k)),
                        [Direction(k), FormatUint(e.ExportID), e.Path])
    ensures !exports[j / 12].NFSv41 ==> Emitted(true, exports, io)[j].value == 0.0
  {
    EmittedBlocks(exports, io);
    var i, k := j / 12, j % 12;
    var s := ExportStats(exports[i], io).value;
    ExportBlockLayout(FormatUint(exports[i].ExportID), exports[i].Path, s, k);
    assert Emitted(true, exports, io)[j] == Emitted(true, exports, io)[12 * i..12 * i + 12][k];
  }

  /** With the flag on and no fetch faulting, every export yields exactly twelve
      samples and GetNFSv41IO is called once per export with NFSv4.1 active. */
  lemma {:induction false} FullScrape(exports: seq<Export>, io: nat -> Option<BasicStats>)
    requires forall i :: 0 <= i < |exports| ==> ExportStats(exports[i], io).Some?
    ensures |Emitted(true, exports, io)| == 12 * |exports|
    ensures Queried(true, exports, io) == EnabledIds(exports)
  {
    EmittedBlocks(exports, io);
    QueriedEnabledIds(exports, io);
  }

  /** GetNFSv41IO is called exactly for the active exports up to and including
      the one whose fetch faults, each with its own id. */
  lemma {:induction false} QueriedEnabledIds(exports: seq<Export>, io: nat -> Option<BasicStats>)
    ensures Reached(exports, io) == |exports| ==> Queried(true, exports, io) == EnabledIds(exports)
    ensures Reached(exports, io) < |exports| ==>
      Queried(true, exports, io) == EnabledIds(exports[..Reached(exports, io) + 1])
    decreases |exports|
  {
    if exports != [] {
      var e := exports[0];
      if ExportStats(e, io).None? {
        assert exports[..1][1..] == [];
      } else {
        QueriedEnabledIds(exports[1..], io);
        var k := Reached(exports, io);
        if k < |exports| {
          assert exports[..k + 1][1..] == exports[1..][..k];
        }
      }
    }
  }

  /** A faulting fetch leaves a prefix of what a fault-free daemon that agrees on
      every answered fetch would have produced, and it ends on a block boundary. */
  lemma {:induction false} FaultLeavesBlockPrefix(nfsv41: bool, exports: seq<Export>,
                                                  io: nat -> Option<BasicStats>, complete: nat -> Option<BasicStats>)
    requires forall id :: complete(id).Some?
    requires forall id :: io(id).Some? ==> complete(id) == io(id)
    ensures |Emitted(nfsv41, exports, io)| % 12 == 0
    ensures Emitted(nfsv41, exports, io) <= Emitted(nfsv41, exports, complete)
    decreases |exports|
  {
    if exports != [] {
      FaultLeavesBlockPrefix(nfsv41, exports[1..], io, complete);
      var rest, full := Emitted(nfsv41, exports[1..], io), Emitted(nfsv41, exports[1..], complete);
      if nfsv41 {
        var e := exports[0];
        match ExportStats(e, io)
        case None =>
        case Some(s) =>
          assert ExportStats(e, complete) == Some(s);
          var b := Block(e, s);
          assert Emitted(nfsv41, exports, io) == b + rest;
          assert Emitted(nfsv41, exports, complete) == b + full;
          assert |b + rest| == 12 + |rest|;
      }
    }
  }

  /** One turn of Collect's loop: how the output and the fetches for the exports
      from i on split into those of export i and those of the rest. */
  lemma CollectStep(nfsv41: bool, exports: seq<Export>, io: nat -> Option<BasicStats>, i: nat)
    requires i < |exports|
    ensures !nfsv41 ==>
      Emitted(nfsv41, exports[i..], io) == Emitted(nfsv41, exports[i + 1..], io) &&
      Queried(nfsv41, exports[i..], io) == Queried(nfsv41, exports[i + 1..], io)
    ensures nfsv41 && ExportStats(exports[i], io).None? ==>
      Emitted(nfsv41, exports[i..], io) == [] && Queried(nfsv41, exports[i..], io) == [exports[i].ExportID]
    ensures nfsv41 && ExportStats(exports[i], io).Some? ==>
      Emitted(nfsv41, exports[i..], io)
        == Block(exports[i], ExportStats(exports[i], io).value) + Emitted(nfsv41, exports[i + 1..], io)
    ensures nfsv41 && !exports[i].NFSv41 ==> Queried(nfsv41, exports[i..], io) == Queried(nfsv41, exports[i + 1..], io)
    ensures nfsv41 && exports[i].NFSv41 && io(exports[i].ExportID).Some? ==>
      Queried(nfsv41, exports[i..], io) == [exports[i].ExportID] + Queried(nfsv41, exports[i + 1..], io)
  {
    assert exports[i..][0] == exports[i] && exports[i..][1..] == exports[i + 1..];
  }

  /** The collector: fixed at construction, it holds the daemon handle and the three
      protocol flags; only nfsv41 influences what Collect sends. */
  class ExportsCollector {
    const exportMgr: ExportMgr
    const nfsv40: bool
    const nfsv41: bool
    const nfsv42: bool

    constructor (exportMgr: ExportMgr, v40: bool, v41: bool, v42: bool)
      ensures this.exportMgr == exportMgr
      ensures nfsv40 == v40 && nfsv41 == v41 && nfsv42 == v42
    {
      this.exportMgr := exportMgr;
      nfsv40, nfsv41, nfsv42 := v40, v41, v42;
    }

    /** One scrape. A fault of ShowExports or GetNFSv41IO is recovered here: the
        samples sent before it stay sent and Collect returns normally. */
    method Collect(ch: Channel)
      modifies ch, exportMgr
      ensures exportMgr.listing == old(exportMgr.listing) && exportMgr.io == old(exportMgr.io)
      ensures old(exportMgr.listing).None? ==> ch.sent == old(ch.sent) && exportMgr.queried == old(exportMgr.queried)
      ensures old(exportMgr.listing).Some? ==>
        ch.sent == old(ch.sent) + Emitted(nfsv41, old(exportMgr.listing).value, old(exportMgr.io)) &&
        exportMgr.queried == old(exportMgr.queried) + Queried(nfsv41, old(exportMgr.listing).value, old(exportMgr.io))
    {
      var listing := exportMgr.ShowExports();
      if listing.None? {
        // ShowExports faulted; the deferred recover swallows it and nothing is sent.
        return;
      }
      var exports := listing.value;
      ghost var io := exportMgr.io;
      var i := 0;
      while i < |exports|
        invariant i <= |exports|
        invariant exportMgr.listing == old(exportMgr.listing) && exportMgr.io == io
        invariant ch.sent + Emitted(nfsv41, exports[i..], io) == old(ch.sent) + Emitted(nfsv41, exports, io)
        invariant exportMgr.queried + Queried(nfsv41, exports[i..], io)
               == old(exportMgr.queried) + Queried(nfsv41, exports, io)
      {
        var ex := exports[i];
        var exportid := FormatUint(ex.ExportID);
        var path := ex.Path;
        CollectStep(nfsv41, exports, io, i);
        ghost var sent, queried := ch.sent, exportMgr.queried;
        if nfsv41 {
          var stats := ZeroStats;
          if ex.NFSv41 {
            var fetched := exportMgr.GetNFSv41IO(ex.ExportID);
            if fetched.None? {
              // The deferred recover swallows the fault: the scrape ends here.
              return;
            }
            stats := fetched.value;
            LoggedInGroups(queried, ex.ExportID, Queried(nfsv41, exports[i + 1..], io));
          }
          SendDirection(ch, "read", exportid, path, stats.Read);
          SendDirection(ch, "write", exportid, path, stats.Write);
          SentInGroups(sent, DirectionSamples("read", exportid, path, stats.Read), DirectionSamples("write", exportid, path, stats.Write));
          SentInGroups(sent, ExportBlock(exportid, path, stats), Emitted(nfsv41, exports[i + 1..], io));
        }
        i := i + 1;
      }
      assert exports[i..] == [];
    }

    /** The six sends of one direction for one export. */
    static method SendDirection(ch: Channel, direction: string, exportid: string, path: string, op: DataOp)
      modifies ch
      ensures ch.sent == old(ch.sent) + DirectionSamples(direction, exportid, path, op)
    {
      ch.Send(ConstCounter(NfsV41RequestedDesc, op.Requested as real, [direction, exportid, path]));
      ch.Send(ConstCounter(NfsV41TransferedDesc, op.Transfered as real, [direction, exportid, path]));
      ch.Send(ConstCounter(NfsV41OperationsDesc, op.Total as real, [direction, exportid, path]));
      ch.Send(ConstCounter(NfsV41ErrorsDesc, op.Errors as real, [direction, exportid, path]));
      ch.Send(ConstCounter(NfsV41LatencyDesc, op.Latency as real / 1_000_000_000.0, [direction, exportid, path]));
      ch.Send(ConstCounter(NfsV41QueueWaitDesc, op.QueueWait as real / 1_000_000_000.0, [direction, exportid, path]));
    }
  }
}

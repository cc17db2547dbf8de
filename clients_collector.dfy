/**
 * The client-scoped collector: on each scrape it lists the clients connected to
 * the daemon and, when NFSv4.1 statistics are enabled, sends a block of twelve
 * counter samples per client into the channel.
 */
module Clients {
  import opened Wrappers
  import opened Dbus
  import opened Prometheus
  import opened Samples

  const ClientsPrefix: string := "ganesha_clients_nfs_v41_"
  const ClientLabels: seq<string> := ["direction", "clientip"]

  const ClientsNfsV41RequestedDesc := Desc(ClientsPrefix + "requested_bytes" + "_total", ClientLabels)
  const ClientsNfsV41TransferedDesc := Desc(ClientsPrefix + "transfered_bytes" + "_total", ClientLabels)
  const ClientsNfsV41OperationsDesc := Desc(ClientsPrefix + "operations" + "_total", ClientLabels)
  const ClientsNfsV41ErrorsDesc := Desc(ClientsPrefix + "operations_errors" + "_total", ClientLabels)
  const ClientsNfsV41LatencyDesc := Desc(ClientsPrefix + "operations_latency_seconds" + "_total", ClientLabels)
  const ClientsNfsV41QueueWaitDesc := Desc(ClientsPrefix + "operations_queue_wait_seconds" + "_total", ClientLabels)

  /** The descriptor table: every descriptor is a client NFSv4.1 counter named
      ganesha_clients_nfs_v41_<measure>_total and labelled by direction and clientip. */
  function ClientDesc(m: Measure): (d: Desc)
    ensures d.variableLabels == ["direction", "clientip"]
    ensures IsCounterName(d.fqName, "ganesha_clients_nfs_v41_")
  {
    match m
    case Requested => ClientsNfsV41RequestedDesc
    case Transfered => ClientsNfsV41TransferedDesc
    case Operations => ClientsNfsV41OperationsDesc
    case Errors => ClientsNfsV41ErrorsDesc
    case Latency => ClientsNfsV41LatencyDesc
    case QueueWait => ClientsNfsV41QueueWaitDesc
  }

  /** Each measure has a metric name of its own. */
  lemma ClientDescDistinct(m1: Measure, m2: Measure)
    ensures ClientDesc(m1).fqName == ClientDesc(m2).fqName ==> m1 == m2
  {
  }

  /** The six samples of one direction, in the order the source sends them:
      requested, transferred, operations, errors, latency, queue wait. */
  function DirectionSamples(direction: string, clientip: string, op: DataOp): (b: seq<Metric>)
    ensures |b| == 6
    ensures forall k :: 0 <= k < 6 ==> |b[k].labelValues| == |b[k].desc.variableLabels|
  {
    seq(6, k requires 0 <= k < 6 =>
      ConstCounter(ClientDesc(Measures[k]), Reading(op, Measures[k]), [direction, clientip]))
  }

  /** The twelve samples of one client: the read samples, then the write samples. */
  function ClientBlock(clientip: string, s: BasicStats): (b: seq<Metric>)
    ensures |b| == 12
  {
    DirectionSamples("read", clientip, s.Read) + DirectionSamples("write", clientip, s.Write)
  }

  /** Sample k of a block: measure k mod 6 of the read side for k < 6 and of the
      write side after, every one carrying the same clientip. */
  lemma ClientBlockLayout(clientip: string, s: BasicStats, k: nat)
    requires k < 12
    ensures ClientBlock(clientip, s)[k]
      == ConstCounter(ClientDesc(MeasureAt(k)), Reading(Side(s, k), MeasureAt(k)), [Direction(k), clientip])
  {
    var readSide := DirectionSamples("read", clientip, s.Read);
    var writeSide := DirectionSamples("write", clientip, s.Write);
    if k < 6 {
      assert ClientBlock(clientip, s)[k] == readSide[k];
    } else {
      assert k % 6 == k - 6;
      assert ClientBlock(clientip, s)[k] == writeSide[k - 6];
    }
  }

  /** The stats a block is built from: fetched when the client has NFSv4.1 active
      (None when that fetch faults), all zero otherwise. */
  function ClientStats(c: Client, io: string -> Option<BasicStats>): (r: Option<BasicStats>)
    ensures c.NFSv41 ==> r == io(c.Client)
    ensures r.None? ==> c.NFSv41
    ensures !c.NFSv41 ==> forall m :: Reading(r.value.Read, m) == 0.0 && Reading(r.value.Write, m) == 0.0
  {
    if c.NFSv41 then io(c.Client) else Some(ZeroStats)
  }

  /** The samples one scrape sends for a listing. A faulting fetch ends the scrape:
      nothing more is sent for that client or any later one. */
  function Emitted(nfsv41: bool, clients: seq<Client>, io: string -> Option<BasicStats>): (r: seq<Metric>)
    ensures |r| % 12 == 0 && |r| <= 12 * |clients|
    decreases |clients|
  {
    if clients == [] then []
    else if !nfsv41 then Emitted(nfsv41, clients[1..], io)
    else match ClientStats(clients[0], io)
      case None => []
      case Some(s) => Block(clients[0], s) + Emitted(nfsv41, clients[1..], io)
  }

  /** The block of one client, labelled by its address as listed. */
  function Block(c: Client, s: BasicStats): seq<Metric> {
    ClientBlock(c.Client, s)
  }

  /** The client addresses one scrape passes to GetNFSv41IO, in call order. */
  function Queried(nfsv41: bool, clients: seq<Client>, io: string -> Option<BasicStats>): (r: seq<string>)
    ensures nfsv41 ==> r <= EnabledAddresses(clients)
    decreases |clients|
  {
    if clients == [] then []
    else if !nfsv41 || !clients[0].NFSv41 then Queried(nfsv41, clients[1..], io)
    else if io(clients[0].Client).None? then [clients[0].Client]
    else [clients[0].Client] + Queried(nfsv41, clients[1..], io)
  }

  /** The addresses of the listed clients that have NFSv4.1 active, in listing order. */
  function EnabledAddresses(clients: seq<Client>): seq<string>
    decreases |clients|
  {
    if clients == [] then []
    else (if clients[0].NFSv41 then [clients[0].Client] else []) + EnabledAddresses(clients[1..])
  }

  /** How many clients get their block before the first faulting fetch. */
  function Reached(clients: seq<Client>, io: string -> Option<BasicStats>): (k: nat)
    ensures k <= |clients|
    ensures forall i :: 0 <= i < k ==> ClientStats(clients[i], io).Some?
    ensures k < |clients| ==> ClientStats(clients[k], io).None?
    decreases |clients|
  {
    if clients == [] || ClientStats(clients[0], io).None? then 0
    else 1 + Reached(clients[1..], io)
  }

  /** With the instance-level NFSv4.1 flag off, a scrape sends nothing and fetches
      nothing, whatever the clients and their own flags are. */
  lemma {:induction false} DisabledEmitsNothing(clients: seq<Client>, io: string -> Option<BasicStats>)
    ensures Emitted(false, clients, io) == []
    ensures Queried(false, clients, io) == []
    decreases |clients|
  {
    if clients != [] {
      DisabledEmitsNothing(clients[1..], io);
    }
  }

  /** With the flag on, the output is one block per client reached, in listing order. */
  lemma {:induction false} EmittedBlocks(clients: seq<Client>, io: string -> Option<BasicStats>)
    ensures |Emitted(true, clients, io)| == 12 * Reached(clients, io)
    ensures forall i :: 0 <= i < Reached(clients, io) ==>
      Emitted(true, clients, io)[12 * i..12 * i + 12] == Block(clients[i], ClientStats(clients[i], io).value)
    decreases |clients|
  {
    if clients != [] && ClientStats(clients[0], io).Some? {
      var b := Block(clients[0], ClientStats(clients[0], io).value);
      var rest := Emitted(true, clients[1..], io);
      EmittedBlocks(clients[1..], io);
      assert Emitted(true, clients, io) == b + rest;
      forall i | 0 <= i < Reached(clients, io)
        ensures (b + rest)[12 * i..12 * i + 12] == Block(clients[i], ClientStats(clients[i], io).value)
      {
        if i == 0 {
          assert (b + rest)[..12] == b;
        } else {
          assert clients[1..][i - 1] == clients[i];
          assert (b + rest)[12 * i..12 * i + 12] == rest[12 * (i - 1)..12 * (i - 1) + 12];
        }
      }
    }
  }

  /** Sample j of a scrape with the flag on: it belongs to client j / 12, sits at
      position j % 12 of that client's block, carries the client's address verbatim
      as clientip, and is 0 when the client has NFSv4.1 inactive. */
  lemma EmittedSample(clients: seq<Client>, io: string -> Option<BasicStats>, j: nat)
    requires j < |Emitted(true, clients, io)|
    ensures j / 12 < Reached(clients, io)
    ensures var c, k := clients[j / 12], j % 12;
      Emitted(true, clients, io)[j]
        == ConstCounter(ClientDesc(MeasureAt(k)), Reading(Side(ClientStats(c, io).value, k), MeasureAt(k)),
                        [Direction(k), c.Client])
    ensures !clients[j / 12].NFSv41 ==> Emitted(true, clients, io)[j].value == 0.0
  {
    EmittedBlocks(clients, io);
    var i, k := j / 12, j % 12;
    var s := ClientStats(clients[i], io).value;
    ClientBlockLayout(clients[i].Client, s, k);
    assert Emitted(true, clients, io)[j] == Emitted(true, clients, io)[12 * i..12 * i + 12][k];
  }

  /** With the flag on and no fetch faulting, every client yields exactly twelve
      samples and GetNFSv41IO is called once per client with NFSv4.1 active. */
  lemma {:induction false} FullScrape(clients: seq<Client>, io: string -> Option<BasicStats>)
    requires forall i :: 0 <= i < |clients| ==> ClientStats(clients[i], io).Some?
    ensures |Emitted(true, clients, io)| == 12 * |clients|
    ensures Queried(true, clients, io) == EnabledAddresses(clients)
  {
    EmittedBlocks(clients, io);
    QueriedEnabledAddresses(clients, io);
  }

  /** GetNFSv41IO is called exactly for the active clients up to and including
      the one whose fetch faults, each with its own address. */
  lemma {:induction false} QueriedEnabledAddresses(clients: seq<Client>, io: string -> Option<BasicStats>)
    ensures Reached(clients, io) == |clients| ==> Queried(true, clients, io) == EnabledAddresses(clients)
    ensures Reached(clients, io) < |clients| ==>
      Queried(true, clients, io) == EnabledAddresses(clients[..Reached(clients, io) + 1])
    decreases |clients|
  {
    if clients != [] {
      var c := clients[0];
      if ClientStats(c, io).None? {
        assert clients[..1][1..] == [];
      } else {
        QueriedEnabledAddresses(clients[1..], io);
        var k := Reached(clients, io);
        if k < |clients| {
          assert clients[..k + 1][1..] == clients[1..][..k];
        }
      }
    }
  }

  /** A faulting fetch leaves a prefix of what a fault-free daemon that agrees on
      every answered fetch would have produced, and it ends on a block boundary. */
  lemma {:induction false} FaultLeavesBlockPrefix(nfsv41: bool, clients: seq<Client>,
                                                  io: string -> Option<BasicStats>, complete: string -> Option<BasicStats>)
    requires forall id :: complete(id).Some?
    requires forall id :: io(id).Some? ==> complete(id) == io(id)
    ensures |Emitted(nfsv41, clients, io)| % 12 == 0
    ensures Emitted(nfsv41, clients, io) <= Emitted(nfsv41, clients, complete)
    decreases |clients|
  {
    if clients != [] {
      FaultLeavesBlockPrefix(nfsv41, clients[1..], io, complete);
      var rest, full := Emitted(nfsv41, clients[1..], io), Emitted(nfsv41, clients[1..], complete);
      if nfsv41 {
        var c := clients[0];
        match ClientStats(c, io)
        case None =>
        case Some(s) =>
          assert ClientStats(c, complete) == Some(s);
          var b := Block(c, s);
          assert Emitted(nfsv41, clients, io) == b + rest;
          assert Emitted(nfsv41, clients, complete) == b + full;
          assert |b + rest| == 12 + |rest|;
      }
    }
  }

  /** One turn of Collect's loop: how the output and the fetches for the clients
      from i on split into those of client i and those of the rest. */
  lemma CollectStep(nfsv41: bool, clients: seq<Client>, io: string -> Option<BasicStats>, i: nat)
    requires i < |clients|
    ensures !nfsv41 ==>
      Emitted(nfsv41, clients[i..], io) == Emitted(nfsv41, clients[i + 1..], io) &&
      Queried(nfsv41, clients[i..], io) == Queried(nfsv41, clients[i + 1..], io)
    ensures nfsv41 && ClientStats(clients[i], io).None? ==>
      Emitted(nfsv41, clients[i..], io) == [] && Queried(nfsv41, clients[i..], io) == [clients[i].Client]
    ensures nfsv41 && ClientStats(clients[i], io).Some? ==>
      Emitted(nfsv41, clients[i..], io)
        == Block(clients[i], ClientStats(clients[i], io).value) + Emitted(nfsv41, clients[i + 1..], io)
    ensures nfsv41 && !clients[i].NFSv41 ==> Queried(nfsv41, clients[i..], io) == Queried(nfsv41, clients[i + 1..], io)
    ensures nfsv41 && clients[i].NFSv41 && io(clients[i].Client).Some? ==>
      Queried(nfsv41, clients[i..], io) == [clients[i].Client] + Queried(nfsv41, clients[i + 1..], io)
  {
    assert clients[i..][0] == clients[i] && clients[i..][1..] == clients[i + 1..];
  }

  /** The collector: fixed at construction, it holds the daemon handle and the three
      protocol flags; only nfsv41 influences what Collect sends. */
  class ClientsCollector {
    const clientMgr: ClientMgr
    const nfsv40: bool
    const nfsv41: bool
    const nfsv42: bool

    constructor (clientMgr: ClientMgr, v40: bool, v41: bool, v42: bool)
      ensures this.clientMgr == clientMgr
      ensures nfsv40 == v40 && nfsv41 == v41 && nfsv42 == v42
    {
      this.clientMgr := clientMgr;
      nfsv40, nfsv41, nfsv42 := v40, v41, v42;
    }

    /** One scrape. A fault of ShowClients or GetNFSv41IO is recovered here: the
        samples sent before it stay sent and Collect returns normally. */
    method Collect(ch: Channel)
      modifies ch, clientMgr
      ensures clientMgr.listing == old(clientMgr.listing) && clientMgr.io == old(clientMgr.io)
      ensures old(clientMgr.listing).None? ==> ch.sent == old(ch.sent) && clientMgr.queried == old(clientMgr.queried)
      ensures old(clientMgr.listing).Some? ==>
        ch.sent == old(ch.sent) + Emitted(nfsv41, old(clientMgr.listing).value, old(clientMgr.io)) &&
        clientMgr.queried == old(clientMgr.queried) + Queried(nfsv41, old(clientMgr.listing).value, old(clientMgr.io))
    {
      var listing := clientMgr.ShowClients();
      if listing.None? {
        // ShowClients faulted; the deferred recover swallows it and nothing is sent.
        return;
      }
      var clients := listing.value;
      ghost var io := clientMgr.io;
      var i := 0;
      while i < |clients|
        invariant i <= |clients|
        invariant clientMgr.listing == old(clientMgr.listing) && clientMgr.io == io
        invariant ch.sent + Emitted(nfsv41, clients[i..], io) == old(ch.sent) + Emitted(nfsv41, clients, io)
        invariant clientMgr.queried + Queried(nfsv41, clients[i..], io)
               == old(clientMgr.queried) + Queried(nfsv41, clients, io)
      {
        var client := clients[i];
        var clientip := client.Client;
        CollectStep(nfsv41, clients, io, i);
        ghost var sent, queried := ch.sent, clientMgr.queried;
        if nfsv41 {
          var stats := ZeroStats;
          if client.NFSv41 {
            var fetched := clientMgr.GetNFSv41IO(client.Client);
            if fetched.None? {
              // The deferred recover swallows the fault: the scrape ends here.
              return;
            }
            stats := fetched.value;
            LoggedInGroups(queried, client.Client, Queried(nfsv41, clients[i + 1..], io));
          }
          SendDirection(ch, "read", clientip, stats.Read);
          SendDirection(ch, "write", clientip, stats.Write);
          SentInGroups(sent, DirectionSamples("read", clientip, stats.Read), DirectionSamples("write", clientip, stats.Write));
          SentInGroups(sent, ClientBlock(clientip, stats), Emitted(nfsv41, clients[i + 1..], io));
        }
        i := i + 1;
      }
      assert clients[i..] == [];
    }

    /** The six sends of one direction for one client. */
    static method SendDirection(ch: Channel, direction: string, clientip: string, op: DataOp)
      modifies ch
      ensures ch.sent == old(ch.sent) + DirectionSamples(direction, clientip, op)
    {
      ch.Send(ConstCounter(ClientsNfsV41RequestedDesc, op.Requested as real, [direction, clientip]));
      ch.Send(ConstCounter(ClientsNfsV41TransferedDesc, op.Transfered as real, [direction, clientip]));
      ch.Send(ConstCounter(ClientsNfsV41OperationsDesc, op.Total as real, [direction, clientip]));
      ch.Send(ConstCounter(ClientsNfsV41ErrorsDesc, op.Errors as real, [direction, clientip]));
      ch.Send(ConstCounter(ClientsNfsV41LatencyDesc, op.Latency as real / 1_000_000_000.0, [direction, clientip]));
      ch.Send(ConstCounter(ClientsNfsV41QueueWaitDesc, op.QueueWait as real / 1_000_000_000.0, [direction, clientip]));
    }
  }
}

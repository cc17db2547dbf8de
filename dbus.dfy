/**
 * The daemon's management interface as the two collectors consume it.
 * The IPC itself is not part of this model: each manager holds the daemon's
 * current state (its listing and its per-key statistics), which may change
 * between scrapes but is not changed by the manager's own calls, and records
 * the keys it is asked for.
 */
module Dbus {
  import opened Wrappers

  /** Counters of one direction (read or write) of one export or client.
      Latency and QueueWait are cumulative nanoseconds. */
  datatype DataOp = DataOp(Requested: nat, Transfered: nat, Total: nat, Errors: nat, Latency: nat, QueueWait: nat)

  datatype BasicStats = BasicStats(Read: DataOp, Write: DataOp)

  /** Go's zero value `dbus.BasicStats{}`: every counter 0. */
  const ZeroStats: BasicStats := BasicStats(DataOp(0, 0, 0, 0, 0, 0), DataOp(0, 0, 0, 0, 0, 0))

  /** An export as listed by ShowExports; only the NFSv4.1 activity flag is consumed. */
  datatype Export = Export(ExportID: nat, Path: string, NFSv41: bool)

  /** A client as listed by ShowClients, identified by its address. */
  datatype Client = Client(Client: string, NFSv41: bool)

  class ExportMgr {
    /** What ShowExports currently answers; None when the call faults. */
    var listing: Option<seq<Export>>
    /** What GetNFSv41IO currently answers for an export id; None when the call faults. */
    var io: nat -> Option<BasicStats>
    /** The export ids passed to GetNFSv41IO so far, in call order. */
    var queried: seq<nat>

    constructor (listing: Option<seq<Export>>, io: nat -> Option<BasicStats>)
      ensures this.listing == listing && this.io == io && queried == []
    {
      this.listing := listing;
      this.io := io;
      queried := [];
    }

    method ShowExports() returns (r: Option<seq<Export>>)
      ensures r == listing
    {
      r := listing;
    }

    method GetNFSv41IO(id: nat) returns (r: Option<BasicStats>)
      modifies this
      ensures r == io(id)
      ensures queried == old(queried) + [id]
      ensures listing == old(listing) && io == old(io)
    {
      r := io(id);
      queried := queried + [id];
    }
  }

  class ClientMgr {
    /** What ShowClients currently answers; None when the call faults. */
    var listing: Option<seq<Client>>
    /** What GetNFSv41IO currently answers for a client address; None when the call faults. */
    var io: string -> Option<BasicStats>
    /** The client addresses passed to GetNFSv41IO so far, in call order. */
    var queried: seq<string>

    constructor (listing: Option<seq<Client>>, io: string -> Option<BasicStats>)
      ensures this.listing == listing && this.io == io && queried == []
    {
      this.listing := listing;
      this.io := io;
      queried := [];
    }

    method ShowClients() returns (r: Option<seq<Client>>)
      ensures r == listing
    {
      r := listing;
    }

    method GetNFSv41IO(address: string) returns (r: Option<BasicStats>)
      modifies this
      ensures r == io(address)
      ensures queried == old(queried) + [address]
      ensures listing == old(listing) && io == old(io)
    {
      r := io(address);
      queried := queried + [address];
    }
  }

  /** A manager's call log does not depend on how its calls are grouped: one
      call followed by later ones leaves what the whole run of calls leaves. */
  lemma LoggedInGroups<K>(log: seq<K>, key: K, later: seq<K>)
    ensures (log + [key]) + later == log + ([key] + later)
  {
  }
}

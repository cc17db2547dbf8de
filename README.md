# NFS-Ganesha Prometheus collectors

This is a model of the two Prometheus collectors that the NFS-Ganesha exporter
registers: the exports collector and the clients collector. On every scrape each
one does the following:

- asks the daemon, over D-Bus, for its list of exports (or clients);
- when NFSv4.1 statistics are enabled for the collector, fetches the NFSv4.1 I/O
  statistics of every entry that has NFSv4.1 active;
- sends twelve counter samples per entry into the scrape channel, in a fixed
  order: the six read measures, then the six write measures. The measures are
  requested bytes, transferred bytes, operations, errors, latency and queue wait.

The samples of an export are labelled `direction`, `exportid` and `path`. The
exportid is the export's numeric id written in decimal. The samples of a client
are labelled `direction` and `clientip`, and clientip is the client's address as
the daemon lists it. Latency and queue wait arrive in nanoseconds and are sent in
seconds: the raw value divided by 10^9.

Each `Collect` recovers from a fault of the daemon call itself, through its own
deferred `recover`. Samples sent before the fault stay sent, nothing is sent
after it, and `Collect` returns normally. No collector fault reaches
`recoverHandler` in `cmd/nfs-provisioner/ganesha_exporter.go`, because each
`Collect` recovers it itself.

Layout:

- `wrappers.dfy`: `Option`. `None` stands for a daemon call that faults.
- `dbus.dfy`: the daemon's records (`DataOp`, `BasicStats`, `Export`, `Client`)
  and the two D-Bus managers. A manager is a class holding the daemon's current
  state: the listing, and a function from key to statistics. Both are mutable
  fields, so the state may differ from one scrape to the next, but the manager's
  own calls do not change it. It logs every `GetNFSv41IO` call it receives.
- `prometheus.dfy`: descriptors, constant counter samples, and the channel, which
  is a class holding the sequence of samples sent so far.
- `strconv.dfy`: decimal formatting of unsigned integers (`FormatUint`). Its
  parse inverse exists only for stating the round trip.
- `samples.dfy`: the six measures, their order, and the value of each sample.
- `exports_collector.dfy` and `clients_collector.dfy`: the descriptor tables, the
  collectors, their `Collect` loops, and the specification functions `Emitted` and
  `Queried`. These give the samples one scrape sends and the keys it fetches. The
  lemmas about them follow.

## Model

| member | source | states |
|---|---|---|
| Exports.ExportDesc | pkg/exporter/exports_collector.go:12-43 | every export descriptor is named ganesha_exports_nfs_v41_<measure>_total and has the variable labels direction, exportid, path |
| Exports.ExportDescDistinct | pkg/exporter/exports_collector.go:13-42 | the six export descriptors have pairwise distinct metric names |
| Exports.DirectionSamples | pkg/exporter/exports_collector.go:92-121 | one direction yields exactly six samples, each with as many label values as its descriptor has variable labels |
| Exports.ExportBlock | pkg/exporter/exports_collector.go:92-151 | one export yields exactly twelve samples |
| Exports.ExportBlockLayout | pkg/exporter/exports_collector.go:92-151 | sample k of an export's block uses descriptor k mod 6 and is read for k < 6, write after; its value is that side's counter for the measure (seconds for latency and queue wait); its labels are direction, exportid, path |
| Exports.ExportStats | pkg/exporter/exports_collector.go:88-91 | the statistics an export's block is built from: the fetched ones when the export has NFSv4.1 active; only that fetch can fault; an inactive export reads 0 for every measure in both directions |
| Exports.Emitted | pkg/exporter/exports_collector.go:83-153 | the samples one scrape sends for a listing: a whole number of 12-sample blocks, at most one per listed export |
| Exports.Queried | pkg/exporter/exports_collector.go:87-91 | the ids one scrape passes to GetNFSv41IO: with nfsv41 on, a prefix of the NFSv4.1-active export ids in listing order |
| Exports.Reached | pkg/exporter/exports_collector.go:84-91 | the number of exports whose statistics are obtained before the first faulting fetch: all earlier ones succeed, the one at that index faults |
| Exports.DisabledEmitsNothing | pkg/exporter/exports_collector.go:84-152 | with nfsv41 off, a scrape sends no sample and calls GetNFSv41IO for no export, whatever the listing and the per-export flags |
| Exports.EmittedBlocks | pkg/exporter/exports_collector.go:84-153 | with nfsv41 on, the output holds 12 samples per export reached, and slice [12i, 12i+12) is the block of export i, in listing order |
| Exports.EmittedSample | pkg/exporter/exports_collector.go:84-151 | sample j belongs to export j/12: descriptor, value and labels as in its block; exportid is FormatUint of the id, path is unchanged; its value is 0 when the export has NFSv4.1 inactive |
| Exports.FullScrape | pkg/exporter/exports_collector.go:84-153 | with no fetch faulting, the output has exactly 12 samples per export, and GetNFSv41IO is called exactly for the NFSv4.1-active exports, in order |
| Exports.QueriedEnabledIds | pkg/exporter/exports_collector.go:87-91 | GetNFSv41IO is called for the active exports up to and including the first faulting one, and for no other |
| Exports.FaultLeavesBlockPrefix | pkg/exporter/exports_collector.go:74-91 | a fault leaves a whole number of blocks, and they are a prefix of what a fault-free daemon giving the same answers would have produced |
| Exports.CollectStep | pkg/exporter/exports_collector.go:84-153 | one loop turn: the output and the fetches from export i on split into export i's part and the rest, under each of the flag/fault cases |
| Exports.ExportsCollector.constructor | pkg/exporter/exports_collector.go:54-61 | the collector keeps the manager and the three protocol flags it is given |
| Exports.ExportsCollector.Collect | pkg/exporter/exports_collector.go:73-154 | leaves the daemon state unchanged; if ShowExports faults on the state at the call, nothing is sent; otherwise the channel gains exactly Emitted and the manager receives exactly the Queried fetches, in order, both computed from that state |
| Exports.ExportsCollector.SendDirection | pkg/exporter/exports_collector.go:92-151 | the six sends of one direction append that direction's samples to the channel, in source order |
| Clients.ClientDesc | pkg/exporter/clients_collector.go:11-42 | every client descriptor is named ganesha_clients_nfs_v41_<measure>_total and has the variable labels direction, clientip |
| Clients.ClientDescDistinct | pkg/exporter/clients_collector.go:12-41 | the six client descriptors have pairwise distinct metric names |
| Clients.DirectionSamples | pkg/exporter/clients_collector.go:84-113 | one direction yields exactly six samples, each with as many label values as its descriptor has variable labels |
| Clients.ClientBlock | pkg/exporter/clients_collector.go:84-143 | one client yields exactly twelve samples |
| Clients.ClientBlockLayout | pkg/exporter/clients_collector.go:84-143 | sample k of a client's block uses descriptor k mod 6 and is read for k < 6, write after; its value is that side's counter for the measure; its labels are direction, clientip |
| Clients.ClientStats | pkg/exporter/clients_collector.go:80-83 | the statistics a client's block is built from: the fetched ones when the client has NFSv4.1 active; only that fetch can fault; an inactive client reads 0 for every measure in both directions |
| Clients.Emitted | pkg/exporter/clients_collector.go:76-145 | the samples one scrape sends for a listing: a whole number of 12-sample blocks, at most one per listed client |
| Clients.Queried | pkg/exporter/clients_collector.go:79-83 | the addresses one scrape passes to GetNFSv41IO: with nfsv41 on, a prefix of the NFSv4.1-active client addresses in listing order |
| Clients.Reached | pkg/exporter/clients_collector.go:77-83 | the number of clients whose statistics are obtained before the first faulting fetch |
| Clients.DisabledEmitsNothing | pkg/exporter/clients_collector.go:77-144 | with nfsv41 off, a scrape sends no sample and fetches no client's statistics |
| Clients.EmittedBlocks | pkg/exporter/clients_collector.go:77-145 | with nfsv41 on, the output holds 12 samples per client reached, and slice [12i, 12i+12) is the block of client i, in listing order |
| Clients.EmittedSample | pkg/exporter/clients_collector.go:77-143 | sample j belongs to client j/12, and its clientip is the client's address verbatim; its value is 0 when the client has NFSv4.1 inactive |
| Clients.FullScrape | pkg/exporter/clients_collector.go:77-145 | with no fetch faulting, there are exactly 12 samples per client, and GetNFSv41IO is called exactly for the NFSv4.1-active clients, in order |
| Clients.QueriedEnabledAddresses | pkg/exporter/clients_collector.go:79-83 | GetNFSv41IO is called for the active clients up to and including the first faulting one, and for no other |
| Clients.FaultLeavesBlockPrefix | pkg/exporter/clients_collector.go:67-83 | a fault leaves a whole number of blocks, and they are a prefix of the fault-free output |
| Clients.CollectStep | pkg/exporter/clients_collector.go:77-145 | one loop turn: the output and the fetches from client i on split into client i's part and the rest |
| Clients.ClientsCollector.constructor | pkg/exporter/clients_collector.go:51-58 | the collector keeps the manager and the three protocol flags it is given |
| Clients.ClientsCollector.Collect | pkg/exporter/clients_collector.go:66-146 | leaves the daemon state unchanged; if ShowClients faults on the state at the call, nothing is sent; otherwise the channel gains exactly Emitted and the manager receives exactly the Queried fetches, in order, both computed from that state |
| Clients.ClientsCollector.SendDirection | pkg/exporter/clients_collector.go:84-143 | the six sends of one direction append that direction's samples to the channel, in source order |
| Samples.Reading | pkg/exporter/exports_collector.go:95-150 | a sample value is non-negative and is 0 exactly when its counter is 0; latency and queue wait are the counter divided by 10^9, the others are the counter itself |
| Strconv.FormatUint | pkg/exporter/exports_collector.go:85 | the exportid label is a non-empty string of decimal digits with no leading zero, and it is "0" exactly for 0 |
| Strconv.DigitChar | pkg/exporter/exports_collector.go:85 | each decimal digit is written as the matching character '0' to '9' |
| Strconv.ParseFormatUint | pkg/exporter/exports_collector.go:85 | reading the decimal label back gives the export id |
| Strconv.FormatUintInjective | pkg/exporter/exports_collector.go:85 | distinct export ids get distinct exportid labels |
| Dbus.ExportMgr.ShowExports | pkg/exporter/exports_collector.go:83 | the current export listing, or a fault |
| Dbus.ExportMgr.GetNFSv41IO | pkg/exporter/exports_collector.go:90 | the current statistics for the id (or a fault); the call is appended to the manager's call log and the daemon state is unchanged |
| Dbus.ClientMgr.ShowClients | pkg/exporter/clients_collector.go:76 | the current client listing, or a fault |
| Dbus.ClientMgr.GetNFSv41IO | pkg/exporter/clients_collector.go:82 | the current statistics for the address (or a fault); the call is appended to the manager's call log and the daemon state is unchanged |
| Prometheus.Channel.Send | pkg/exporter/exports_collector.go:92-96 | a send appends exactly that sample to the channel |

## Left out

- The HTTP-level `recoverHandler` and the exporter's start-up code in `cmd/nfs-provisioner/ganesha_exporter.go`: they are not reached by a collector fault, which each `Collect` recovers itself.
- `Describe` and `GetExportMgr`. `Describe` calls `prometheus.DescribeByCollect`, which runs a full `Collect`, daemon calls included, when `MustRegister` registers the collector (`cmd/nfs-provisioner/ganesha_exporter.go:25,28`). It forwards only the descriptors of the samples, which are the ones in the two tables modelled here. `GetExportMgr` only returns the manager.
- Descriptor help strings and the unused variable `t`: they have no effect on the samples sent.
- The `log.Println` and `spew.Dump` calls in the recovery: logging only.
- The D-Bus transport. Each manager holds the daemon's state as a listing and a function from key to statistics. The state may change between scrapes, but not during one: two fetches of the same key in one scrape get the same answer.
- `NewExportsCollector` and `NewClientsCollector` build their managers with `dbus.NewExportMgr` and `dbus.NewClientMgr`. The model's constructors take the manager as a parameter instead. The dbus package is not part of this model.
- Samples.Reading: values are exact reals. The rounding of the uint64-to-float64 conversion and of the division by 1e9 is not modelled.
- Integer widths: export ids and counters are unbounded naturals. The source's fixed-width fields and the `uint64` widening before formatting lose nothing for values in range.
- The first result of ShowExports and ShowClients, which the source discards: a listing is either given or faults.
- Concurrency: the channel is a sequence of samples appended in order. A scrape that blocks on a channel nobody reads is not modelled.
- Exports.ExportsCollector.SendDirection and Clients.ClientsCollector.SendDirection: the twelve sends of one loop turn are grouped as two calls of a six-send helper. The order and the values are those of the source.
- `MustNewConstMetric` panics on a label-count mismatch. DirectionSamples proves that every send passes as many label values as its descriptor has variable labels, so that panic cannot happen.

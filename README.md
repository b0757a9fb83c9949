# scale-chat core, modelled in Dafny

scale-chat is a horizontally scaled websocket chat. Each server instance
keeps a registry of connected clients. It relays every message it reads to
the clients in the same room, and it optionally bridges the message to other
instances through a publish/subscribe backbone (Redis). A load-test client
logs message events to CSV files, and several post-processors turn those
logs into latency, round-trip and delivery-count tables.

This project models two parts of that system and proves properties of them.

1. **The relay.** Module `Relay` covers the global registry, the history,
   the dispatcher `BroadcastMessages`, each client's read and write loops,
   and client registration and removal. Its classes `Server` and `Client`
   are updated in place, as the Go globals and structs are. Module
   `Distribution` covers the distribution bridge: the conversions, the
   self-id loop guard in `Subscribe`, the `Publish` loop, and the
   two-attempt ping.
2. **The load-test post-processing.** This part is:
   - `CsvMessages`: de-duplication and sent/received selection.
   - `Latency`: the latency table.
   - `CountComparison`: the sent-vs-received count table.
   - `EventEntries`: the CSV row parser shared by both event-log processors.
   - `LatencyProcessor` and `RttProcessor`: the two event-log processors.
   - `Rooms`: the room layout `getRooms` of the load-test client.

Helper modules:
- `Wrappers`: Option and Result.
- `GoNum`: `int64`/`uint64`, wrap-around, saturation, truncating division, and `strconv` decimal parsing and formatting, with round-trip lemmas.
- `GoStrings`: `HasSuffix` and `TrimSuffix`/`TrimPrefix`.
- `Seqs`: filter, map and subsequence lemmas.
- `Sorting`: an insertion sort by an integer key, proved sorted and a permutation.
- `Tables`: the index-by-index filling of a result table.

Modelling conventions:
- **Time.** Times are integers in microseconds since the Unix epoch, the
  resolution the CSV files store. `t.Sub(s).Nanoseconds()` is
  `(t - s) * 1000`, saturated to the int64 range as Go's `Duration`
  arithmetic does (`EventEntries.ElapsedNs`). The micro difference in
  csv-processor/latency.go is int64 subtraction, which wraps
  (`GoNum.Wrap64`).
- **Transport.** Websocket reads are a finite sequence of frames, each a
  payload or a read error. Writes, publishes and pings succeed or fail
  according to a function parameter indexed by the attempt.
- **JSON.** JSON decoding and encoding are function parameters
  (`decode`, `marshal`, `encode`).
- **Goroutines.** The goroutines of the relay run as sequential method
  calls on the shared state. The fan-out in `convertToMessageLatencies` and
  `compareExpectedAndActual` runs as a loop. Since the goroutines may
  append in any order, the contracts promise only the multiset of results.
- **Sorting.** `sort.Slice` is not stable. The tables are therefore
  specified as "the header, then the rows of *some* ordering of the results
  that is sorted by send time and is a permutation of them".

The source is inconsistent in three places, and the model reconciles them:
- The wrapper's provenance is a `sourceDistributor bool` field
  (src/server/client.go:22), but the dispatcher reads it as
  `wrapper.source != DISTRIBUTOR` (src/server/clientsManager.go:59). The
  model uses a two-valued tag `Local | Distributor`.
- `chat.Message` (src/chat/message.go:10-15) has no `MessageId` or
  `Room`, yet the server code reads both. The model's `Chat.Message` has
  them.
- `client.MessageEventEntry` (src/client/MessageMonitor.go:5-10) has no
  `SenderId`, yet both parsers set it. The model's entry has it.

The model follows the code where the code and the design description
differ:
- The incoming counter counts frames read, including frames that then
  fail to decode (`Relay.CounterCountsFrames`).
- The write loop ends only on a failed write, because the outgoing channel
  is never closed.

## Model

| member | source | states |
|---|---|---|
| Relay.Server.constructor | src/server/clientsManager.go:13-20 | the server starts with an empty history, an empty registry, an empty inbound queue and zero counters |
| Relay.Client.constructor | src/server/clientsManager.go:25-35 | a new client has its room, an empty outgoing queue and a wait group expecting two handlers, neither of which has exited |
| Relay.Server.StartClient | src/server/clientsManager.go:24-36 | registration appends exactly one fresh client, with the given room and an empty queue, at the end of the registry; no client is registered twice |
| Relay.Server.FinishClient | src/server/clientsManager.go:43-49 | once both handlers have exited, the wait group is at zero, the client is removed from the registry and its connection is closed |
| Relay.Server.RemoveClient | src/server/clientsManager.go:80-89 | the new registry is the old one filtered by "is not this client", in the original order |
| Relay.RemoveClientProperties | src/server/clientsManager.go:80-89 | after removal the client is absent, every other client is still there, the result is a subsequence of the old registry, and removing twice equals removing once |
| Relay.Server.Broadcast | src/server/clientsManager.go:56-75 | one dispatcher step: the message is appended to the history; it goes to the bridge iff distribution is on and the wrapper is local; each client's queue becomes its non-blocking offer (same room and below capacity 100, else unchanged); the registry is unchanged |
| Relay.Server.BroadcastMessages | src/server/clientsManager.go:55-77 | the dispatcher drains the inbound queue: the history gains the messages in order, the bridge gets the forwarded ones, each client's queue is the fan-out of all wrappers, and the registry is unchanged |
| Relay.FanOutRoomIsolation | src/server/clientsManager.go:63-66 | a client whose room no wrapper is addressed to keeps its queue unchanged |
| Relay.FanOutBounded | src/server/clientsManager.go:11 | a queue only grows at its end and never beyond capacity 100 |
| Relay.FanOutDeliversInOrder | src/server/clientsManager.go:63-74 | a client with enough free capacity receives exactly the wrappers of its room, in arrival order |
| Relay.FanOutSubseq | src/server/clientsManager.go:63-74 | even when a full queue drops wrappers, a client's queue only grows at its end, and what it gains is a subsequence of its room's wrappers, in arrival order |
| Relay.ForwardedOnlyLocal | src/server/clientsManager.go:59-61 | with distribution on the bridge gets exactly the messages of the local wrappers, in arrival order; with it off nothing is forwarded; everything forwarded comes from a local wrapper |
| Relay.NoRepublish | src/server/clientsManager.go:59-61 | wrappers that came from the bridge are never forwarded back to it |
| Relay.Client.HandleIncoming | src/server/client.go:51-80 | the inbound queue gains exactly the decoded frames as local wrappers, in read order, up to the first read error; the counter grows by the frames read; the read handler can run only until it has exited, is marked exited iff a read failed, and the wait group then counts one handler fewer; the registry invariant survives |
| Relay.Server.Ingest | src/server/client.go:57-79 | the read loop pushes exactly the decoded frames as local wrappers, in read order, up to the first read error, counts every frame read, and ends early iff a read fails |
| Relay.IngestedAreLocal | src/server/client.go:76 | every wrapper the read loop creates is tagged as local |
| Relay.IngestedStopsAtReadError | src/server/client.go:57-62 | nothing after the first read error is counted or pushed |
| Relay.MalformedFrameIsSkipped | src/server/client.go:70-74 | a frame that fails to decode is skipped and the frames after it are still delivered, in order |
| Relay.CounterCountsFrames | src/server/client.go:64-74 | the incoming counter is never below the number of wrappers pushed, because it counts frames before decoding |
| Relay.Client.HandleOutgoing | src/server/client.go:26-47 | the written frames, the rest of the queue and the outgoing counter are those of the write loop's specification; the write handler can run only until it has exited, is marked exited iff a write failed, and the wait group then counts one handler fewer; the registry invariant survives |
| Relay.Client.WriteLoop | src/server/client.go:32-46 | the write loop's written frames, rest of the queue, counter and exit are those of its specification, and the queue never grows |
| Relay.DrainStopsAtFirstFailure | src/server/client.go:38-42 | every write before the stop succeeded; a stop is caused by a failed write; without a failure the queue is emptied |
| Relay.DrainWritesMarshalled | src/server/client.go:32-46 | with a transport that accepts every write, the frames written are exactly the messages that marshal, in queue order, and messages that fail to marshal are skipped |
| Relay.SameRoomDelivery | src/server/clientsManager.go:55-77 | with clients A and B in one room and C in another, a message A sends reaches A and B once each and C not at all |
| Distribution.ToDistribution | src/server/distributor.go:124-131 | Publish's message carries this instance's server id |
| Distribution.Admit | src/server/distributor.go:102-114 | a backbone message is discarded iff it carries this instance's id; otherwise it is re-injected tagged as from the distributor |
| Distribution.ConversionRoundTrip | src/server/distributor.go:106-112 | Subscribe's conversion undoes Publish's, and conversely, up to the server id |
| Distribution.ForeignMessageReinjected | src/server/distributor.go:102-114 | a message published by another instance is re-injected with all five fields unchanged |
| Distribution.OwnMessageDiscarded | src/server/distributor.go:102-104 | an instance discards its own published message |
| Distribution.SubscribeRunProperties | src/server/distributor.go:89-117 | Subscribe panics iff some payload fails to decode; everything it injects is tagged as from the distributor; it counts every payload when it does not panic |
| Distribution.OnlyEchoesInjectNothing | src/server/distributor.go:102-104 | an instance that hears only its own echoes injects nothing |
| Distribution.Subscribe | src/server/distributor.go:86-118 | the inbound queue, the counter and the panic flag are those of the Subscribe specification |
| Distribution.PublishAllProperties | src/server/distributor.go:121-140 | Publish sends a prefix of the queue, each message converted with this instance's id; after a failed publish nothing more is sent |
| Distribution.Publish | src/server/distributor.go:121-140 | the topic gains the encoded converted messages, and the queue and the fatal flag are those of the Publish specification |
| Distribution.PingServer | src/server/distributor.go:70-83 | one attempt when the first ping succeeds, two otherwise; success iff either attempt succeeds |
| Distribution.TwoInstanceDelivery | src/server/distributor.go:102-131 | with two instances in one room, the topic carries a message once, the remote client gets it once, the remote instance does not republish it, and the origin discards its echo |
| CsvMessages.RemoveDuplicates | csv-processor/messages.go:13-26 | the loop with its key map computes the keep-first-of-each-key filter |
| CsvMessages.DedupIsSubseq | csv-processor/messages.go:17-23 | the result is a subsequence of the input |
| CsvMessages.DedupKeysDistinct | csv-processor/messages.go:17-23 | no two kept messages share a key |
| CsvMessages.DedupKeepsFirst | csv-processor/messages.go:13-26 | each key's first message is kept, and every kept message is the first of its key |
| CsvMessages.DedupIdempotent | csv-processor/messages.go:13-26 | de-duplicating twice equals de-duplicating once |
| CsvMessages.KeyCollision | csv-processor/messages.go:18 | the key concatenates id and sender with no separator, so ("1","2ab") and ("12","ab") collide and the second is dropped |
| CsvMessages.FilterSentMessages | csv-processor/messages.go:28-38 | the result is the de-duplicated Sent messages |
| CsvMessages.SentMessagesAreSent | csv-processor/messages.go:28-38 | every selected message is a Sent message of the input |
| CsvMessages.SentMessagesCovered | csv-processor/messages.go:28-38 | every Sent message of the input has a selected message with its key |
| CsvMessages.NoSentMessages | csv-processor/messages.go:28-38 | the selection is empty iff the input has no Sent message |
| CsvMessages.FindReceivedMessages | csv-processor/messages.go:40-50 | the result is exactly the Received messages with the sent message's id and sender, in input order |
| Latency.CalcLatency | csv-processor/latency.go:32-41 | id, sender and receiver come from the receipt; both times are kept; the latency is the micro difference, exact when it fits int64 and congruent modulo 2^64 otherwise |
| Latency.StringArray | csv-processor/latency.go:21-30 | a row has six columns: id, sender, receiver, formatted send time, formatted receive time, and the latency in decimal, which parses back to the latency |
| Latency.LatenciesOf | csv-processor/latency.go:59-64 | one goroutine's partial result is one latency per receipt, in receipt order |
| Latency.ConvertToMessageLatencies | csv-processor/latency.go:43-75 | the call fails iff there is no Sent message; otherwise, as a multiset, the result holds one latency per receipt of each de-duplicated sent message |
| Latency.AllLatenciesLength | csv-processor/latency.go:55-72 | the number of latencies is the total number of receipts of the sent messages |
| Latency.LatencyHasReceipt | csv-processor/latency.go:55-72 | every latency is calcLatency of a sent message and one of its receipts |
| Latency.ReceiptHasLatency | csv-processor/latency.go:55-72 | every receipt of a sent message yields its latency |
| Tables.Tabulate | csv-processor/latency.go:87-93 | the table is the header followed by one row per result, in order (the same loop fills the count table at csv-processor/count-comparison.go:78-83) |
| Latency.CalculateLatency | csv-processor/latency.go:77-95 | with no Sent message the program ends; otherwise the table has one more row than there are latencies, the header first, and its rows are those of an ordering of the latencies that is a permutation and sorted by send time |
| Latency.SingleReceiptTable | csv-processor/latency.go:32-75 | one Sent message with one receipt yields exactly one latency, the receive time minus the send time |
| CountComparison.CompareMessageCounts | csv-processor/count-comparison.go:30-36 | the comparison keeps the send time, takes the client count as expected, and takes the number of receipts as actual |
| CountComparison.StringArray | csv-processor/count-comparison.go:22-28 | a row has three columns: the formatted send time, then actual under "received", then expected under "sent"; both counts read back when below 2^63 |
| CountComparison.CompareExpectedAndActual | csv-processor/count-comparison.go:38-66 | the call fails iff there is no Sent message; otherwise there is one comparison per de-duplicated sent message, and as a multiset they are the comparisons of those messages |
| CountComparison.ComparisonOfSent | csv-processor/count-comparison.go:50-61 | each comparison has its message's send time, the client count given, and the number of its receipts |
| CountComparison.CompareCount | csv-processor/count-comparison.go:68-86 | with no Sent message the program ends; otherwise the room size is the expected count, the table has one row per sent message plus the header, and the rows are those of a permutation of the comparisons sorted by send time |
| CountComparison.CountsReceiptsOnly | csv-processor/count-comparison.go:38-61 | a repeated Sent line is counted once; two receipts count 2; a receipt for another sender does not count |
| Sorting.SortByCorrect | csv-processor/latency.go:83-85 | the sort's result is ordered by send time and is a permutation of its input |
| EventEntries.ElapsedNs | src/load-test-client/csv-processor/main.go:194 | the elapsed nanoseconds are 1000 times the micro difference, saturated at the int64 bounds |
| EventEntries.SetField | src/load-test-client/csv-processor/main.go:131-157 | one column step succeeds iff the column is valid: column 0 an unsigned decimal, column 3 "Sent" or "Received", column 4 a signed decimal, any other column anything |
| EventEntries.ParseMessageEventEntries | src/load-test-client/csv-processor/main.go:119-164 | the nested loops compute the row parser's specification, including its first error |
| EventEntries.EntriesProperties | src/load-test-client/csv-processor/main.go:122-125 | the header row is skipped; parsing succeeds iff every other row parses; then there is one entry per row, in order; otherwise the result is the first bad row's error |
| EventEntries.RowFails | src/loadtest-client/csv-processor/main.go:106-131 | a row fails iff one of its first five columns is invalid |
| EventEntries.RowColumns | src/load-test-client/csv-processor/main.go:129-158 | a parsed row holds its columns 0 to 4, with zero values for the columns it lacks |
| EventEntries.ExtraColumnsIgnored | src/load-test-client/csv-processor/main.go:129-158 | columns past index 4 do not affect the entry |
| LatencyProcessor.FilterFilePaths | src/load-test-client/csv-processor/main.go:80-88 | exactly the paths ending in ".csv" are kept, in order |
| LatencyProcessor.SplitEvents | src/load-test-client/csv-processor/main.go:174-180 | the Sent and the Received events are each selected in log order |
| LatencyProcessor.PairReceipts | src/load-test-client/csv-processor/main.go:185-201 | the inner loop computes the pairing specification of one Sent event |
| LatencyProcessor.CalculateMessageLatency | src/load-test-client/csv-processor/main.go:167-207 | the result has one entry per Sent event, in log order, each paired with all Received events |
| LatencyProcessor.PairIdentifies | src/load-test-client/csv-processor/main.go:185-189 | each entry carries its Sent event, its client as sender and its message id |
| LatencyProcessor.PairLatencies | src/load-test-client/csv-processor/main.go:191-200 | the latencies hold one elapsed time per Received event with the same message id, in order, whoever received it |
| LatencyProcessor.PairRttWithoutMatch | src/load-test-client/csv-processor/main.go:192-195 | the round trip is 0 when no receipt has the message id and the SenderId of the Sent event |
| LatencyProcessor.PairRttFromLastMatch | src/load-test-client/csv-processor/main.go:192-195 | otherwise the round trip is taken from the last such receipt, whichever client logged it |
| LatencyProcessor.RttFromOtherReceiver | src/load-test-client/csv-processor/main.go:193-195 | as written, a receipt logged by another client sets the sender's round trip, where the intended pairing gives 0 |
| LatencyProcessor.LatenciesMixSenders | src/load-test-client/csv-processor/main.go:192-200 | as written, a receipt of another sender's message with the same id counts as a latency, where the intended pairing counts none |
| LatencyProcessor.IntendedLatencies | src/load-test-client/csv-processor/main.go:191-200 | matching on id and sender, the latencies hold one elapsed time per receipt of this very message, in order |
| LatencyProcessor.IntendedRttWithoutOwnReceipt | src/load-test-client/csv-processor/main.go:192-195 | matching on id, sender and receiving client, the round trip is 0 unless the sender received its own message |
| LatencyProcessor.IntendedRttFromLastOwnReceipt | src/load-test-client/csv-processor/main.go:192-195 | matching on id, sender and receiving client, the round trip comes from the sender's last receipt of its own message |
| LatencyProcessor.TrimFilePathOfResultFile | src/load-test-client/csv-processor/main.go:209-211 | the path of a result file "../results/NAME.csv" trims to NAME |
| LatencyProcessor.TrimFilePathOfOther | src/load-test-client/csv-processor/main.go:209-211 | a path without the suffix and the prefix is left unchanged |
| RttProcessor.FilterFileNames | src/loadtest-client/csv-processor/main.go:65-73 | exactly the names ending in ".csv" are kept, in order |
| RttProcessor.SplitEvents | src/loadtest-client/csv-processor/main.go:148-154 | the Sent events are selected, and the Received events logged by their own sender, each in log order |
| RttProcessor.PairReceipts | src/loadtest-client/csv-processor/main.go:159-168 | the inner loop overwrites the round trip with each matching receipt |
| RttProcessor.CalculateRtts | src/loadtest-client/csv-processor/main.go:141-174 | the result is one entry per Sent event, in log order, against the own receipts |
| RttProcessor.RttWithoutReceipt | src/loadtest-client/csv-processor/main.go:159-168 | without a matching receipt the round trip is 0 |
| RttProcessor.RttFromLastReceipt | src/loadtest-client/csv-processor/main.go:164-168 | the round trip comes from the last matching receipt |
| RttProcessor.RttsPerSentEvent | src/loadtest-client/csv-processor/main.go:157-171 | there is one entry per Sent event, with its client and message id |
| RttProcessor.ForeignReceiptsIgnored | src/loadtest-client/csv-processor/main.go:151 | a receipt logged by a client other than the sender changes no round trip |
| RttProcessor.RttFromOtherSender | src/loadtest-client/csv-processor/main.go:164-166 | as written, another sender's own receipt of its message with the same id sets the round trip, where the intended matching gives 0 |
| RttProcessor.IntendedRttWithoutReceipt | src/loadtest-client/csv-processor/main.go:164-166 | matching on id and sender, the round trip is 0 without a receipt of this message |
| RttProcessor.IntendedRttFromLastReceipt | src/loadtest-client/csv-processor/main.go:164-166 | matching on id and sender, the round trip comes from the last receipt of this message |
| Rooms.RoomOfClient | src/load-test-client/main.go:151-169 | a client's room is its block, capped at the last room, so it is always below the chat count |
| Rooms.GetRooms | src/load-test-client/main.go:146-171 | the call fails iff there are more chats than clients; otherwise there is one room per client; with positive chats client i is in room RoomOfClient(i); with negative chats every client gets a room of its own |
| Rooms.RoomBlocks | src/load-test-client/main.go:151-169 | each of the first chats-1 rooms holds exactly the clients of one contiguous block of size clients/chats, and the last room holds every client from its block start on |
| Rooms.AllRoomsUsed | src/load-test-client/main.go:155-169 | with 1 <= chats <= clients every room 0..chats-1 has at least one client, so exactly chats distinct rooms appear |
| Rooms.BlockStartIsProduct | src/load-test-client/main.go:151 | block k starts at client k * (clients / chats) |
| Rooms.BlockOfIsQuotient | src/load-test-client/main.go:151-169 | client i lies in block i / (clients / chats) |

## Findings

| source | as written | input that shows it | evidently intended | confidence | as-written member | corrected member |
|---|---|---|---|---|---|---|
| src/load-test-client/csv-processor/main.go:193 | the round trip is set by any receipt whose SenderId is the sender's; every receiver logs the message's sender as SenderId (src/client/client.go:132-138), so the last receiver's latency becomes the round trip | X sends message 1 at time 0 and never receives it back; Y logs its receipt 5 microseconds later; X's round trip is 5000 ns instead of 0 | the round trip is taken only from the sender's own receipt (ClientId equal to the sender) | high, not executed | LatencyProcessor.RttFromOtherReceiver | LatencyProcessor.IntendedRttFromLastOwnReceipt |
| src/load-test-client/csv-processor/main.go:192 | receipts are matched to a Sent event on the message id alone, but ids count from 1 per client (src/client/client.go:152), so another sender's message with the same id is counted as a latency | X and Z each send a message 1 at time 0; Y receives Z's 7 microseconds later; X's latencies hold 7000 ns | receipts are matched on message id and sender | high, not executed | LatencyProcessor.LatenciesMixSenders | LatencyProcessor.IntendedLatencies |
| src/loadtest-client/csv-processor/main.go:165 | the own receipts are matched to a Sent event on the message id alone, so another client's receipt of its own message with the same id sets the round trip | X sends message 1 at time 0 and never receives it back; Z receives its own message 1 at 3 microseconds; X's round trip is 3000 ns instead of 0 | receipts are matched on message id and sender | high, not executed | RttProcessor.RttFromOtherSender | RttProcessor.IntendedRttFromLastReceipt |

The models of `calculateMessageLatency` and `calculateRtts` follow the code
as written. The corrected pairings `LatencyProcessor.PairIntended` and
`RttProcessor.RttIntended` sit beside them, with their properties proved.

## Left out

- Websocket, HTTP and Redis I/O (connection upgrade, routing, dialing,
  console input, `redis.Client` calls). Reads, writes, publishes and pings
  are finite sequences or outcome functions.
- Goroutines, the wait group's blocking and channel blocking. The relay
  runs as sequential steps, and a blocking push onto a full inbound channel
  is not modelled. The wait group is a counter of pending handlers.
- Relay.Client.HandleOutgoing: the Go loop blocks on an empty channel
  forever, because the channel is never closed. The model drains the queue
  as it stands and returns.
- JSON encoding and decoding: these are partial function parameters.
- CSV reading and writing, the file system walk, `parseFile`,
  `loadResultFiles`, `writeResults` and the `processMessageEvents`
  functions. These are library I/O.
- `CountComparison.Percent`, the percentiles and the charts (floating
  point and charting libraries).
- RFC 3339 timestamp formatting: this is an opaque `format` parameter.
- Go strings are byte strings, while the model's strings are sequences of
  characters. Every key, suffix and digit string the core handles is
  ASCII, so the two agree on everything the proofs use.
- Latency.CalculateLatency: `sort.Slice` sorts the slice in place, and its
  order among equal send times is unspecified. The model sorts a value with
  an insertion sort, and its contract promises only a sorted permutation.
  The same holds for CountComparison.CompareCount.
- Latency.ConvertToMessageLatencies: the goroutines' append order is not
  modelled. The contract promises the multiset of results. The same holds
  for CountComparison.CompareExpectedAndActual.
- Rooms.GetRooms: the source divides by zero (a run-time panic) when the
  chat count is 0 and at most the client count. The precondition excludes
  that input. Room names are indices instead of fresh UUIDs.
- Prometheus metrics: only the two message counters are modelled; the
  timers are left out. The `time.Sleep` before the second ping and all log
  output are left out.
- The demo programs under implementation/ are not part of this model.

/** The load-test client's result post-processor
    (load-test-client/csv-processor): it selects the CSV files, parses their
    event logs and pairs each Sent event with the receipts that carry its
    message id. */
module LatencyProcessor {
  import opened GoNum
  import opened GoStrings
  import Seqs
  import opened EventEntries

  /** The directory the result files are read from. */
  const ResultsDir: string := "../results/"

  /** The round trip of a message and its latency to every receiver. */
  datatype MessageLatencyEntry = MessageLatencyEntry(
    SenderMsgEvent: MessageEventEntry, SenderId: string, MessageId: uint64,
    RttInNs: int64, LatenciesInNs: seq<int64>)

  /** filterFilePaths */
  method FilterFilePaths(files: seq<string>) returns (res: seq<string>)
    ensures res == Seqs.Filter(files, IsCsv)
  {
    res := [];
    for i := 0 to |files|
      invariant res == Seqs.Filter(files[..i], IsCsv)
    {
      Seqs.FilterSnoc(files, i, IsCsv);
      if HasSuffix(files[i], ".csv") {
        res := res + [files[i]];
      }
    }
    assert files[..|files|] == files;
  }

  function IsSentEvent(e: MessageEventEntry): bool {
    e.Type == Sent
  }

  function IsReceivedEvent(e: MessageEventEntry): bool {
    e.Type == Received
  }

  /** The entry for `sent` after scanning the receipts `received` in order. */
  function Pair(sent: MessageEventEntry, received: seq<MessageEventEntry>): MessageLatencyEntry
    decreases |received|
  {
    if received == [] then MessageLatencyEntry(sent, sent.ClientId, sent.MessageId, 0, [])
    else
      var acc := Pair(sent, received[..|received| - 1]);
      var r := received[|received| - 1];
      if sent.MessageId != r.MessageId then acc
      else
        var d := ElapsedNs(sent.TimeStamp, r.TimeStamp);
        if sent.SenderId == r.SenderId then acc.(RttInNs := d, LatenciesInNs := acc.LatenciesInNs + [d])
        else acc.(LatenciesInNs := acc.LatenciesInNs + [d])
  }

  function PairWith(received: seq<MessageEventEntry>): MessageEventEntry -> MessageLatencyEntry {
    (s: MessageEventEntry) => Pair(s, received)
  }

  /** One entry per Sent event, in log order, paired with all Received events. */
  function MessageLatencies(entries: seq<MessageEventEntry>): seq<MessageLatencyEntry> {
    Seqs.Map(PairWith(Seqs.Filter(entries, IsReceivedEvent)), Seqs.Filter(entries, IsSentEvent))
  }

  /** calculateMessageLatency */
  method CalculateMessageLatency(entries: seq<MessageEventEntry>) returns (latencies: seq<MessageLatencyEntry>)
    ensures latencies == MessageLatencies(entries)
  {
    var sent, received := SplitEvents(entries);
    latencies := [];
    for k := 0 to |sent|
      invariant latencies == Seqs.Map(PairWith(received), sent[..k])
    {
      var entry := PairReceipts(sent[k], received);
      Seqs.MapSnoc(PairWith(received), sent, k);
      latencies := latencies + [entry];
    }
    assert sent[..|sent|] == sent;
  }

  /** The first loop of calculateMessageLatency: the Sent and the Received
      events, each in log order. */
  method SplitEvents(entries: seq<MessageEventEntry>) returns (sent: seq<MessageEventEntry>, received: seq<MessageEventEntry>)
    ensures sent == Seqs.Filter(entries, IsSentEvent)
    ensures received == Seqs.Filter(entries, IsReceivedEvent)
  {
    sent := [];
    received := [];
    for i := 0 to |entries|
      invariant sent == Seqs.Filter(entries[..i], IsSentEvent)
      invariant received == Seqs.Filter(entries[..i], IsReceivedEvent)
    {
      Seqs.FilterSnoc(entries, i, IsSentEvent);
      Seqs.FilterSnoc(entries, i, IsReceivedEvent);
      if entries[i].Type == Sent {
        sent := sent + [entries[i]];
      } else if entries[i].Type == Received {
        received := received + [entries[i]];
      }
    }
    assert entries[..|entries|] == entries;
  }

  /** The inner loop of calculateMessageLatency: one Sent event against all
      receipts. */
  method PairReceipts(s: MessageEventEntry, received: seq<MessageEventEntry>) returns (entry: MessageLatencyEntry)
    ensures entry == Pair(s, received)
  {
    entry := MessageLatencyEntry(s, s.ClientId, s.MessageId, 0, []);
    for j := 0 to |received|
      invariant entry == Pair(s, received[..j])
    {
      var r := received[j];
      assert received[..j + 1][..j] == received[..j];
      if s.MessageId == r.MessageId {
        if s.SenderId == r.SenderId {
          entry := entry.(RttInNs := ElapsedNs(s.TimeStamp, r.TimeStamp));
          entry := entry.(LatenciesInNs := entry.LatenciesInNs + [entry.RttInNs]);
        } else {
          var latency := ElapsedNs(s.TimeStamp, r.TimeStamp);
          entry := entry.(LatenciesInNs := entry.LatenciesInNs + [latency]);
        }
      }
    }
    assert received[..|received|] == received;
  }

  /** trimFilePathAndCsvSuffix */
  function TrimFilePathAndCsvSuffix(path: string): string {
    TrimPrefix(TrimSuffix(path, ".csv"), ResultsDir)
  }

  // ---------------------------------------------------------------------
  // Properties

  /** A result file's path maps back to its name. */
  lemma TrimFilePathOfResultFile(name: string)
    ensures TrimFilePathAndCsvSuffix(ResultsDir + name + ".csv") == name
  {
    TrimSuffixOfAppend(ResultsDir + name, ".csv");
    TrimPrefixOfPrepend(ResultsDir, name);
  }

  /** A path neither inside the results directory nor ending in ".csv" is
      kept as it is. */
  lemma TrimFilePathOfOther(path: string)
    requires !HasSuffix(path, ".csv") && !HasPrefix(path, ResultsDir)
    ensures TrimFilePathAndCsvSuffix(path) == path
  {
  }

  /** Every entry belongs to its Sent event and carries its id and client. */
  lemma {:induction false} PairIdentifies(sent: MessageEventEntry, received: seq<MessageEventEntry>)
    ensures var e := Pair(sent, received);
      e.SenderMsgEvent == sent && e.SenderId == sent.ClientId && e.MessageId == sent.MessageId
    decreases |received|
  {
    if received != [] {
      PairIdentifies(sent, received[..|received| - 1]);
    }
  }

  /** The receipts of the same message, regardless of who received it. */
  function SameMessage(sent: MessageEventEntry): MessageEventEntry -> bool {
    (r: MessageEventEntry) => r.MessageId == sent.MessageId
  }

  function ElapsedSince(sent: MessageEventEntry): MessageEventEntry -> int64 {
    (r: MessageEventEntry) => ElapsedNs(sent.TimeStamp, r.TimeStamp)
  }

  /** LatenciesInNs holds one elapsed time per receipt of the message, in
      order, whoever received it. */
  lemma {:induction false} PairLatencies(sent: MessageEventEntry, received: seq<MessageEventEntry>)
    ensures Pair(sent, received).LatenciesInNs
      == Seqs.Map(ElapsedSince(sent), Seqs.Filter(received, SameMessage(sent)))
    decreases |received|
  {
    if received != [] {
      var n := |received| - 1;
      PairLatencies(sent, received[..n]);
      Seqs.FilterSnoc(received, n, SameMessage(sent));
      assert received[..n + 1] == received;
      var r := received[n];
      Seqs.MapAppend(ElapsedSince(sent), Seqs.Filter(received[..n], SameMessage(sent)),
        if SameMessage(sent)(r) then [r] else []);
    }
  }

  /** A receipt whose message id and SenderId are those of the Sent event.
      Every receiver logs a receipt with the message's sender as SenderId,
      so this holds for the receipts of all receivers, not only for the
      sender's own receipt; and since message ids count from 1 per client,
      the id alone does not single out one message. */
  predicate SameSenderReceipt(sent: MessageEventEntry, r: MessageEventEntry) {
    r.MessageId == sent.MessageId && r.SenderId == sent.SenderId
  }

  /** RttInNs is 0 when no receipt has the message id and the SenderId of
      the Sent event. */
  lemma {:induction false} PairRttWithoutMatch(sent: MessageEventEntry, received: seq<MessageEventEntry>)
    requires forall k :: 0 <= k < |received| ==> !SameSenderReceipt(sent, received[k])
    ensures Pair(sent, received).RttInNs == 0
    decreases |received|
  {
    if received != [] {
      PairRttWithoutMatch(sent, received[..|received| - 1]);
    }
  }

  /** RttInNs is taken from the last receipt with the message id and the
      SenderId of the Sent event, whichever client logged it. */
  lemma {:induction false} PairRttFromLastMatch(sent: MessageEventEntry, received: seq<MessageEventEntry>, k: nat)
    requires k < |received| && SameSenderReceipt(sent, received[k])
    requires forall l :: k < l < |received| ==> !SameSenderReceipt(sent, received[l])
    ensures Pair(sent, received).RttInNs == ElapsedNs(sent.TimeStamp, received[k].TimeStamp)
    decreases |received|
  {
    var n := |received| - 1;
    if k < n {
      var prefix := received[..n];
      assert prefix[k] == received[k];
      PairRttFromLastMatch(sent, prefix, k);
    }
  }

  // ---------------------------------------------------------------------
  // The pairing as evidently intended: a message is identified by its id
  // and its sender, and its round trip is the time until the sender itself
  // received it.

  /** The sender's own receipt of the message: the round trip proper. */
  predicate OwnReceipt(sent: MessageEventEntry, r: MessageEventEntry) {
    SameSenderReceipt(sent, r) && r.ClientId == sent.ClientId
  }

  /** Pair, matching receipts on message id and sender, and taking the
      round trip only from the sender's own receipt. */
  function PairIntended(sent: MessageEventEntry, received: seq<MessageEventEntry>): MessageLatencyEntry
    decreases |received|
  {
    if received == [] then MessageLatencyEntry(sent, sent.ClientId, sent.MessageId, 0, [])
    else
      var acc := PairIntended(sent, received[..|received| - 1]);
      var r := received[|received| - 1];
      if !SameSenderReceipt(sent, r) then acc
      else
        var d := ElapsedNs(sent.TimeStamp, r.TimeStamp);
        if r.ClientId == sent.ClientId then acc.(RttInNs := d, LatenciesInNs := acc.LatenciesInNs + [d])
        else acc.(LatenciesInNs := acc.LatenciesInNs + [d])
  }

  function OfSentMessage(sent: MessageEventEntry): MessageEventEntry -> bool {
    (r: MessageEventEntry) => SameSenderReceipt(sent, r)
  }

  /** As intended, the latencies are those of the receipts of this very
      message, one per receipt, in order. */
  lemma {:induction false} IntendedLatencies(sent: MessageEventEntry, received: seq<MessageEventEntry>)
    ensures PairIntended(sent, received).LatenciesInNs
      == Seqs.Map(ElapsedSince(sent), Seqs.Filter(received, OfSentMessage(sent)))
    decreases |received|
  {
    if received != [] {
      var n := |received| - 1;
      IntendedLatencies(sent, received[..n]);
      Seqs.FilterSnoc(received, n, OfSentMessage(sent));
      assert received[..n + 1] == received;
      var r := received[n];
      Seqs.MapAppend(ElapsedSince(sent), Seqs.Filter(received[..n], OfSentMessage(sent)),
        if OfSentMessage(sent)(r) then [r] else []);
    }
  }

  /** As intended, the round trip is 0 unless the sender received its own
      message. */
  lemma {:induction false} IntendedRttWithoutOwnReceipt(sent: MessageEventEntry, received: seq<MessageEventEntry>)
    requires forall k :: 0 <= k < |received| ==> !OwnReceipt(sent, received[k])
    ensures PairIntended(sent, received).RttInNs == 0
    decreases |received|
  {
    if received != [] {
      IntendedRttWithoutOwnReceipt(sent, received[..|received| - 1]);
    }
  }

  /** As intended, the round trip is taken from the sender's last receipt
      of its own message. */
  lemma {:induction false} IntendedRttFromLastOwnReceipt(sent: MessageEventEntry, received: seq<MessageEventEntry>, k: nat)
    requires k < |received| && OwnReceipt(sent, received[k])
    requires forall l :: k < l < |received| ==> !OwnReceipt(sent, received[l])
    ensures PairIntended(sent, received).RttInNs == ElapsedNs(sent.TimeStamp, received[k].TimeStamp)
    decreases |received|
  {
    var n := |received| - 1;
    if k < n {
      var prefix := received[..n];
      assert prefix[k] == received[k];
      IntendedRttFromLastOwnReceipt(sent, prefix, k);
    }
  }

  /** As written, another client's receipt sets the round trip: X sends
      message 1 at time 0 and never receives it back; Y receives it 5
      microseconds later. X's round trip is Y's latency of 5000 ns, where
      the intended pairing gives 0. */
  lemma RttFromOtherReceiver()
    ensures var x := MessageEventEntry(1, "X", "X", Sent, 0);
      var y := MessageEventEntry(1, "X", "Y", Received, 5);
      Pair(x, [y]).RttInNs == 5000 && PairIntended(x, [y]).RttInNs == 0
  {
    var x := MessageEventEntry(1, "X", "X", Sent, 0);
    var y := MessageEventEntry(1, "X", "Y", Received, 5);
    assert [y][..0] == [];
  }

  /** As written, another sender's message with the same id counts as a
      receipt: X and Z both send a message 1 at time 0, and Y receives Z's
      7 microseconds later. X's latencies hold 7000 ns, where the intended
      pairing holds none. */
  lemma LatenciesMixSenders()
    ensures var x := MessageEventEntry(1, "X", "X", Sent, 0);
      var y := MessageEventEntry(1, "Z", "Y", Received, 7);
      Pair(x, [y]).LatenciesInNs == [7000] && PairIntended(x, [y]).LatenciesInNs == []
  {
    var x := MessageEventEntry(1, "X", "X", Sent, 0);
    var y := MessageEventEntry(1, "Z", "Y", Received, 7);
    assert [y][..0] == [];
  }
}

/** The earlier result post-processor (loadtest-client/csv-processor): it
    selects the CSV files and computes, for every Sent event, a round trip
    from the own receipts (those logged by the message's sender) that carry
    its message id. Its row parser is the one in EventEntries. */
module RttProcessor {
  import opened GoNum
  import opened GoStrings
  import Seqs
  import opened EventEntries

  /** The round trip of one sent message, in nanoseconds (0 when no own
      receipt carries its message id). */
  datatype RoundTripTimeEntry = RoundTripTimeEntry(ClientId: string, MessageId: uint64, rttInNs: int64)

  /** filterFileNames. The program carries its own copy of the other
      processor's filterFilePaths, and so does the model, loop and all. */
  method FilterFileNames(files: seq<string>) returns (res: seq<string>)
    ensures res == Seqs.Filter(files, IsCsv)
  {
    res := [];
    for i := 0 to |files|
      invariant res == Seqs.Filter(files[..i], IsCsv)
    {
      Seqs.FilterSnoc(files, i, IsCsv);
      if HasSuffix(files[i], ".csv") {
        res := res + [files[i]];
      }
    }
    assert files[..|files|] == files;
  }

  function IsSentEvent(e: MessageEventEntry): bool {
    e.Type == Sent
  }

  /** A receipt logged by the client that sent the message. */
  function IsOwnReceipt(e: MessageEventEntry): bool {
    e.SenderId == e.ClientId && e.Type == Received
  }

  /** The round trip of `sent` after scanning `received` in order: each
      receipt with the same message id overwrites the previous value,
      whoever sent the message it acknowledges. */
  function Rtt(sent: MessageEventEntry, received: seq<MessageEventEntry>): int64
    decreases |received|
  {
    if received == [] then 0
    else
      var r := received[|received| - 1];
      if sent.MessageId == r.MessageId then ElapsedNs(sent.TimeStamp, r.TimeStamp)
      else Rtt(sent, received[..|received| - 1])
  }

  function RttEntryWith(received: seq<MessageEventEntry>): MessageEventEntry -> RoundTripTimeEntry {
    (s: MessageEventEntry) => RoundTripTimeEntry(s.ClientId, s.MessageId, Rtt(s, received))
  }

  /** One entry per Sent event, in log order, against the own receipts. */
  function Rtts(entries: seq<MessageEventEntry>): seq<RoundTripTimeEntry> {
    Seqs.Map(RttEntryWith(Seqs.Filter(entries, IsOwnReceipt)), Seqs.Filter(entries, IsSentEvent))
  }

  /** calculateRtts */
  method CalculateRtts(msgEventEntries: seq<MessageEventEntry>) returns (rttEntries: seq<RoundTripTimeEntry>)
    ensures rttEntries == Rtts(msgEventEntries)
  {
    var sent, received := SplitEvents(msgEventEntries);
    rttEntries := [];
    for k := 0 to |sent|
      invariant rttEntries == Seqs.Map(RttEntryWith(received), sent[..k])
    {
      var rttEntry := PairReceipts(sent[k], received);
      Seqs.MapSnoc(RttEntryWith(received), sent, k);
      rttEntries := rttEntries + [rttEntry];
    }
    assert sent[..|sent|] == sent;
  }

  /** The first loop of calculateRtts: the Sent events and the own receipts,
      each in log order. */
  method SplitEvents(entries: seq<MessageEventEntry>) returns (sent: seq<MessageEventEntry>, received: seq<MessageEventEntry>)
    ensures sent == Seqs.Filter(entries, IsSentEvent)
    ensures received == Seqs.Filter(entries, IsOwnReceipt)
  {
    sent := [];
    received := [];
    for i := 0 to |entries|
      invariant sent == Seqs.Filter(entries[..i], IsSentEvent)
      invariant received == Seqs.Filter(entries[..i], IsOwnReceipt)
    {
      Seqs.FilterSnoc(entries, i, IsSentEvent);
      Seqs.FilterSnoc(entries, i, IsOwnReceipt);
      var e := entries[i];
      if e.Type == Sent {
        sent := sent + [e];
      } else if e.SenderId == e.ClientId && e.Type == Received {
        received := received + [e];
      }
    }
    assert entries[..|entries|] == entries;
  }

  /** The inner loop of calculateRtts: one Sent event against the own
      receipts. */
  method PairReceipts(s: MessageEventEntry, received: seq<MessageEventEntry>) returns (rttEntry: RoundTripTimeEntry)
    ensures rttEntry == RoundTripTimeEntry(s.ClientId, s.MessageId, Rtt(s, received))
  {
    rttEntry := RoundTripTimeEntry(s.ClientId, s.MessageId, 0);
    for j := 0 to |received|
      invariant rttEntry == RoundTripTimeEntry(s.ClientId, s.MessageId, Rtt(s, received[..j]))
    {
      assert received[..j + 1][..j] == received[..j];
      if s.MessageId == received[j].MessageId {
        rttEntry := rttEntry.(rttInNs := ElapsedNs(s.TimeStamp, received[j].TimeStamp));
      }
    }
    assert received[..|received|] == received;
  }

  // ---------------------------------------------------------------------
  // Properties

  /** Without a receipt of the message the round trip is 0. */
  lemma {:induction false} RttWithoutReceipt(sent: MessageEventEntry, received: seq<MessageEventEntry>)
    requires forall k :: 0 <= k < |received| ==> received[k].MessageId != sent.MessageId
    ensures Rtt(sent, received) == 0
    decreases |received|
  {
    if received != [] {
      RttWithoutReceipt(sent, received[..|received| - 1]);
    }
  }

  /** The round trip is taken from the last receipt of the message. */
  lemma {:induction false} RttFromLastReceipt(sent: MessageEventEntry, received: seq<MessageEventEntry>, k: nat)
    requires k < |received| && received[k].MessageId == sent.MessageId
    requires forall l :: k < l < |received| ==> received[l].MessageId != sent.MessageId
    ensures Rtt(sent, received) == ElapsedNs(sent.TimeStamp, received[k].TimeStamp)
    decreases |received|
  {
    var n := |received| - 1;
    if k < n {
      var prefix := received[..n];
      assert prefix[k] == received[k];
      RttFromLastReceipt(sent, prefix, k);
    }
  }

  /** There is one entry per Sent event, with its client and message id. */
  lemma RttsPerSentEvent(entries: seq<MessageEventEntry>)
    ensures |Rtts(entries)| == |Seqs.Filter(entries, IsSentEvent)|
    ensures forall k :: 0 <= k < |Rtts(entries)| ==>
              var s := Seqs.Filter(entries, IsSentEvent)[k];
              Rtts(entries)[k].ClientId == s.ClientId && Rtts(entries)[k].MessageId == s.MessageId
  {
  }

  /** Receipts logged by a client other than the message's sender never
      influence a round trip. */
  lemma {:induction false} ForeignReceiptsIgnored(entries: seq<MessageEventEntry>, e: MessageEventEntry)
    requires e.Type == Received && e.SenderId != e.ClientId
    ensures Rtts(entries + [e]) == Rtts(entries)
  {
    Seqs.FilterAppend(entries, [e], IsSentEvent);
    Seqs.FilterAppend(entries, [e], IsOwnReceipt);
    assert Seqs.Filter([e], IsSentEvent) == [] && Seqs.Filter([e], IsOwnReceipt) == [];
    assert Seqs.Filter(entries, IsSentEvent) + [] == Seqs.Filter(entries, IsSentEvent);
    assert Seqs.Filter(entries, IsOwnReceipt) + [] == Seqs.Filter(entries, IsOwnReceipt);
  }

  // ---------------------------------------------------------------------
  // The round trip as evidently intended: message ids count from 1 per
  // client, so a receipt belongs to a Sent event only when it carries both
  // its id and its sender.

  /** The receipt of the very message `sent` logged. */
  predicate ReceiptOf(sent: MessageEventEntry, r: MessageEventEntry) {
    r.MessageId == sent.MessageId && r.SenderId == sent.ClientId
  }

  /** Rtt, matching receipts on message id and sender. */
  function RttIntended(sent: MessageEventEntry, received: seq<MessageEventEntry>): int64
    decreases |received|
  {
    if received == [] then 0
    else
      var r := received[|received| - 1];
      if ReceiptOf(sent, r) then ElapsedNs(sent.TimeStamp, r.TimeStamp)
      else RttIntended(sent, received[..|received| - 1])
  }

  /** As intended, the round trip is 0 without a receipt of this message. */
  lemma {:induction false} IntendedRttWithoutReceipt(sent: MessageEventEntry, received: seq<MessageEventEntry>)
    requires forall k :: 0 <= k < |received| ==> !ReceiptOf(sent, received[k])
    ensures RttIntended(sent, received) == 0
    decreases |received|
  {
    if received != [] {
      IntendedRttWithoutReceipt(sent, received[..|received| - 1]);
    }
  }

  /** As intended, the round trip comes from the last receipt of this
      message; receipts of other senders' messages play no part. */
  lemma {:induction false} IntendedRttFromLastReceipt(sent: MessageEventEntry, received: seq<MessageEventEntry>, k: nat)
    requires k < |received| && ReceiptOf(sent, received[k])
    requires forall l :: k < l < |received| ==> !ReceiptOf(sent, received[l])
    ensures RttIntended(sent, received) == ElapsedNs(sent.TimeStamp, received[k].TimeStamp)
    decreases |received|
  {
    var n := |received| - 1;
    if k < n {
      var prefix := received[..n];
      assert prefix[k] == received[k];
      IntendedRttFromLastReceipt(sent, prefix, k);
    }
  }

  /** As written, another sender's message with the same id sets the round
      trip: X sends message 1 at time 0 and never receives it back; Z
      receives its own message 1 at 3 microseconds. X's round trip is
      3000 ns, where the intended matching gives 0. */
  lemma RttFromOtherSender()
    ensures var x := MessageEventEntry(1, "X", "X", Sent, 0);
      var z := MessageEventEntry(1, "Z", "Z", Received, 3);
      IsOwnReceipt(z) && Rtt(x, [z]) == 3000 && RttIntended(x, [z]) == 0
  {
    var x := MessageEventEntry(1, "X", "X", Sent, 0);
    var z := MessageEventEntry(1, "Z", "Z", Received, 3);
    assert [z][..0] == [];
  }
}

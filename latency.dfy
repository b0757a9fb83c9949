/** The `latency` command of csv-processor: every receipt of a sent message
    becomes one latency row, and the rows are ordered by send time. */
module Latency {
  import opened Wrappers
  import opened GoNum
  import Seqs
  import Sorting
  import Tables
  import opened CsvMessages

  /** The latency of one receipt; times are microseconds since the epoch
      and `latency` is in microseconds too. */
  datatype MessageLatency = MessageLatency(
    id: string, sender: string, receiver: string, sentAt: int64, receivedAt: int64, latency: int64)

  /** The header row of the latency table. */
  const Header: seq<string> := ["id", "sender", "receiver", "sent_at", "received_at", "latency"]

  /** calcLatency: the identity of the receipt, both times, and the
      difference of the microsecond timestamps in int64 arithmetic. */
  function CalcLatency(sent: Message, received: Message): (l: MessageLatency)
    ensures l.id == received.id && l.sender == received.sender && l.receiver == received.receiver
    ensures l.sentAt == sent.timestamp && l.receivedAt == received.timestamp
    ensures -TwoTo63 <= received.timestamp - sent.timestamp < TwoTo63 ==>
              l.sentAt + l.latency == l.receivedAt
    ensures (l.latency - (received.timestamp - sent.timestamp)) % TwoTo64 == 0
  {
    MessageLatency(received.id, received.sender, received.receiver, sent.timestamp, received.timestamp,
                   Wrap64(received.timestamp - sent.timestamp))
  }

  /** StringArray: the six columns of a row; `format` is the RFC 3339
      formatting of a timestamp. The latency column reads back as the
      latency. */
  function StringArray(m: MessageLatency, format: int64 -> string): (row: seq<string>)
    ensures |row| == |Header|
    ensures row[0] == m.id && row[1] == m.sender && row[2] == m.receiver
    ensures row[3] == format(m.sentAt) && row[4] == format(m.receivedAt)
    ensures ParseInt(row[5]) == Some(m.latency)
  {
    ParseIntOfFormat(m.latency);
    [m.id, m.sender, m.receiver, format(m.sentAt), format(m.receivedAt), FormatInt(m.latency)]
  }

  function LatencyFrom(sent: Message): Message -> MessageLatency {
    (r: Message) => CalcLatency(sent, r)
  }

  /** The latencies of the sent messages `sent`, each with all its receipts,
      in the order a sequential run of the goroutines produces them. */
  function AllLatencies(sent: seq<Message>, messages: seq<Message>): seq<MessageLatency>
    decreases |sent|
  {
    if sent == [] then []
    else
      var s := sent[|sent| - 1];
      AllLatencies(sent[..|sent| - 1], messages) + Seqs.Map(LatencyFrom(s), Receipts(s, messages))
  }

  /** The number of receipts of the messages `sent`. */
  function MatchCount(sent: seq<Message>, messages: seq<Message>): nat
    decreases |sent|
  {
    if sent == [] then 0
    else MatchCount(sent[..|sent| - 1], messages) + |Receipts(sent[|sent| - 1], messages)|
  }

  /** convertToMessageLatencies. The goroutines append their partial results
      in any order, so only the multiset of latencies is promised. */
  method ConvertToMessageLatencies(messages: seq<Message>) returns (r: Result<seq<MessageLatency>, string>)
    ensures r.Failure? <==> forall i :: 0 <= i < |messages| ==> messages[i].msgType != "Sent"
    ensures r.Success? ==> multiset(r.value) == multiset(AllLatencies(SentMessages(messages), messages))
  {
    NoSentMessages(messages);
    var sent := FilterSentMessages(messages);
    if |sent| < 1 {
      return Failure("did not find any sent messages");
    }
    var results: seq<MessageLatency> := [];
    for k := 0 to |sent|
      invariant results == AllLatencies(sent[..k], messages)
    {
      var received := FindReceivedMessages(sent[k], messages);
      var partialResults := LatenciesOf(sent[k], received);
      AllLatenciesSnoc(sent, k, messages);
      results := results + partialResults;
    }
    assert sent[..|sent|] == sent;
    r := Success(results);
  }

  /** The body of one goroutine of convertToMessageLatencies: the latency
      of each receipt of `sent`, in receipt order. */
  method LatenciesOf(sent: Message, received: seq<Message>) returns (partialResults: seq<MessageLatency>)
    ensures partialResults == Seqs.Map(LatencyFrom(sent), received)
  {
    partialResults := [];
    for j := 0 to |received|
      invariant partialResults == Seqs.Map(LatencyFrom(sent), received[..j])
    {
      Seqs.MapSnoc(LatencyFrom(sent), received, j);
      partialResults := partialResults + [CalcLatency(sent, received[j])];
    }
    assert received[..|received|] == received;
  }

  function SentAt(m: MessageLatency): int {
    m.sentAt
  }

  /** `rows` is the header followed by one row per latency of `order`. */
  ghost predicate TableOf(rows: seq<seq<string>>, order: seq<MessageLatency>, format: int64 -> string) {
    |rows| == |order| + 1 && rows[0] == Header
    && forall i :: 0 <= i < |order| ==> rows[i + 1] == StringArray(order[i], format)
  }

  /** `order` holds the latencies `lats`, ordered by send time. */
  ghost predicate SortedPermutation(order: seq<MessageLatency>, lats: seq<MessageLatency>) {
    multiset(order) == multiset(lats) && Sorting.SortedBy(order, SentAt)
  }

  /** CalculateLatency: the table of all latencies of the load test, by
      send time; a file without Sent messages ends the program (Failure). */
  method CalculateLatency(loadTest: LoadTest, messages: seq<Message>, format: int64 -> string)
    returns (r: Result<seq<seq<string>>, string>)
    ensures r.Failure? <==> forall i :: 0 <= i < |messages| ==> messages[i].msgType != "Sent"
    ensures r.Success? ==>
      var lats := AllLatencies(SentMessages(messages), messages);
      |r.value| == |lats| + 1 && r.value[0] == Header
      && exists order :: SortedPermutation(order, lats) && TableOf(r.value, order, format)
  {
    var received := ConvertToMessageLatencies(messages);
    if received.Failure? {
      return Failure("Did not find any sent messages in " + loadTest.filename);
    }
    var sorted := Sorting.SortBy(received.value, SentAt);
    Sorting.SortByCorrect(received.value, SentAt);
    var results := Tables.Tabulate(Header, sorted, (x: MessageLatency) => StringArray(x, format));
    ghost var lats := AllLatencies(SentMessages(messages), messages);
    assert |sorted| == |multiset(sorted)| == |multiset(lats)| == |lats|;
    assert SortedPermutation(sorted, lats);
    r := Success(results);
  }

  // ---------------------------------------------------------------------
  // Properties

  /** The step of the loop over the sent messages. */
  lemma AllLatenciesSnoc(sent: seq<Message>, k: nat, messages: seq<Message>)
    requires k < |sent|
    ensures AllLatencies(sent[..k + 1], messages)
            == AllLatencies(sent[..k], messages) + Seqs.Map(LatencyFrom(sent[k]), Receipts(sent[k], messages))
  {
    assert sent[..k + 1][..k] == sent[..k];
  }

  /** There is one latency per receipt of a sent message. */
  lemma {:induction false} AllLatenciesLength(sent: seq<Message>, messages: seq<Message>)
    ensures |AllLatencies(sent, messages)| == MatchCount(sent, messages)
    decreases |sent|
  {
    if sent != [] {
      AllLatenciesLength(sent[..|sent| - 1], messages);
    }
  }

  /** Every latency belongs to a sent message and one of its receipts. */
  lemma {:induction false} LatencyHasReceipt(sent: seq<Message>, messages: seq<Message>, l: MessageLatency)
    requires l in AllLatencies(sent, messages)
    ensures exists i, j :: 0 <= i < |sent| && 0 <= j < |messages|
              && messages[j].msgType == "Received" && messages[j].id == sent[i].id && messages[j].sender == sent[i].sender
              && l == CalcLatency(sent[i], messages[j])
    decreases |sent|
  {
    var n := |sent| - 1;
    var init := sent[..n];
    if l in AllLatencies(init, messages) {
      LatencyHasReceipt(init, messages, l);
      var i, j :| 0 <= i < |init| && 0 <= j < |messages|
              && messages[j].msgType == "Received" && messages[j].id == init[i].id && messages[j].sender == init[i].sender
              && l == CalcLatency(init[i], messages[j]);
      assert init[i] == sent[i];
    } else {
      var rs := Receipts(sent[n], messages);
      var k :| 0 <= k < |rs| && l == Seqs.Map(LatencyFrom(sent[n]), rs)[k];
      assert rs[k] in messages && ReceiptOf(sent[n])(rs[k]);
      var j :| 0 <= j < |messages| && messages[j] == rs[k];
    }
  }

  /** Every receipt of a sent message gives a latency. */
  lemma {:induction false} ReceiptHasLatency(sent: seq<Message>, messages: seq<Message>, i: nat, j: nat)
    requires i < |sent| && j < |messages|
    requires messages[j].msgType == "Received" && messages[j].id == sent[i].id && messages[j].sender == sent[i].sender
    ensures CalcLatency(sent[i], messages[j]) in AllLatencies(sent, messages)
    decreases |sent|
  {
    var n := |sent| - 1;
    if i < n {
      ReceiptHasLatency(sent[..n], messages, i, j);
    } else {
      var rs := Receipts(sent[n], messages);
      assert messages[j] in rs;
      var k :| 0 <= k < |rs| && rs[k] == messages[j];
      assert Seqs.Map(LatencyFrom(sent[n]), rs)[k] == CalcLatency(sent[n], messages[j]);
    }
  }

  /** With one sent message and one receipt, the table has the header and
      one row whose latency is the difference of the two timestamps. */
  lemma SingleReceiptTable(s: Message, rcv: Message)
    requires s.msgType == "Sent" && rcv.msgType == "Received" && rcv.id == s.id && rcv.sender == s.sender
    requires 0 <= rcv.timestamp - s.timestamp < TwoTo63
    ensures AllLatencies(SentMessages([s, rcv]), [s, rcv]) == [CalcLatency(s, rcv)]
    ensures CalcLatency(s, rcv).latency == rcv.timestamp - s.timestamp
  {
    var ms := [s, rcv];
    assert ms[1..] == [rcv] && [rcv][1..] == [];
    assert Seqs.Filter(ms, IsSent) == [s];
    assert [s][1..] == [];
    assert Dedup([s], {}) == [s] + Dedup([], {Key(s)});
    assert SentMessages(ms) == [s];
    assert Receipts(s, ms) == [rcv];
    assert [s][..0] == [];
  }
}

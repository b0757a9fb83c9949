/** The `sent-vs-received` command of csv-processor: for every sent
    message, the number of clients that should have received it against
    the number of receipts logged, ordered by send time. */
module CountComparison {
  import opened Wrappers
  import opened GoNum
  import Seqs
  import Sorting
  import Tables
  import opened CsvMessages

  /** One sent message: its send time (microseconds), the room size it was
      expected to reach and the receipts found. */
  datatype CountComparison = CountComparison(sentAt: int64, expected: uint64, actual: nat)

  /** The header row of the comparison table. */
  const Header: seq<string> := ["sent_at", "received", "sent"]

  /** compareMessageCounts */
  function CompareMessageCounts(sent: Message, clientCount: uint64, received: seq<Message>): (c: CountComparison)
    ensures c.sentAt == sent.timestamp && c.expected == clientCount && c.actual == |received|
  {
    CountComparison(sent.timestamp, clientCount, |received|)
  }

  /** StringArray: send time, then the receipts found under "received" and
      the expected count under "sent", each written with
      strconv.Itoa(int(...)) and so read back as written below 2^63. */
  function StringArray(c: CountComparison, format: int64 -> string): (row: seq<string>)
    ensures |row| == |Header| && row[0] == format(c.sentAt)
    ensures c.actual < TwoTo63 ==> ParseUint(row[1]) == Some(c.actual)
    ensures c.expected < TwoTo63 ==> ParseUint(row[2]) == Some(c.expected)
  {
    ItoaReadsBack(c.actual);
    ItoaReadsBack(c.expected);
    [format(c.sentAt), FormatInt(Wrap64(c.actual)), FormatInt(Wrap64(c.expected))]
  }

  /** strconv.Itoa(int(n)) reads back as n when n fits an int. */
  lemma ItoaReadsBack(n: nat)
    ensures n < TwoTo63 ==> ParseUint(FormatInt(Wrap64(n))) == Some(n)
  {
    if n < TwoTo63 {
      ParseUintOfFormat(n);
    }
  }

  function CompareWith(clientCount: uint64, messages: seq<Message>): Message -> CountComparison {
    (s: Message) => CompareMessageCounts(s, clientCount, Receipts(s, messages))
  }

  /** One comparison per sent message, in the order of `sent`. */
  function Comparisons(sent: seq<Message>, clientCount: uint64, messages: seq<Message>): seq<CountComparison> {
    Seqs.Map(CompareWith(clientCount, messages), sent)
  }

  /** compareExpectedAndActual. The goroutines append in any order, so only
      the multiset of comparisons is promised. */
  method CompareExpectedAndActual(clientCount: uint64, messages: seq<Message>)
    returns (r: Result<seq<CountComparison>, string>)
    ensures r.Failure? <==> forall i :: 0 <= i < |messages| ==> messages[i].msgType != "Sent"
    ensures r.Success? ==> |r.value| == |SentMessages(messages)|
    ensures r.Success? ==> multiset(r.value) == multiset(Comparisons(SentMessages(messages), clientCount, messages))
  {
    NoSentMessages(messages);
    var sent := FilterSentMessages(messages);
    if |sent| < 1 {
      return Failure("did not find any sent messages");
    }
    var comparisons: seq<CountComparison> := [];
    for k := 0 to |sent|
      invariant comparisons == Comparisons(sent[..k], clientCount, messages)
    {
      var received := FindReceivedMessages(sent[k], messages);
      var comparison := CompareMessageCounts(sent[k], clientCount, received);
      ComparisonsSnoc(sent, k, clientCount, messages);
      comparisons := comparisons + [comparison];
    }
    assert sent[..|sent|] == sent;
    r := Success(comparisons);
  }

  function SentAt(c: CountComparison): int {
    c.sentAt
  }

  /** `rows` is the header followed by one row per comparison of `order`. */
  ghost predicate TableOf(rows: seq<seq<string>>, order: seq<CountComparison>, format: int64 -> string) {
    |rows| == |order| + 1 && rows[0] == Header
    && forall i :: 0 <= i < |order| ==> rows[i + 1] == StringArray(order[i], format)
  }

  /** `order` holds the comparisons `cs`, ordered by send time. */
  ghost predicate SortedPermutation(order: seq<CountComparison>, cs: seq<CountComparison>) {
    multiset(order) == multiset(cs) && Sorting.SortedBy(order, SentAt)
  }

  /** CompareCount: the comparison table of a load test, by send time, with
      the room size as the expected count; a file without Sent messages
      ends the program (Failure). */
  method CompareCount(loadTest: LoadTest, messages: seq<Message>, format: int64 -> string)
    returns (r: Result<seq<seq<string>>, string>)
    ensures r.Failure? <==> forall i :: 0 <= i < |messages| ==> messages[i].msgType != "Sent"
    ensures r.Success? ==>
      var cs := Comparisons(SentMessages(messages), loadTest.roomSize, messages);
      |r.value| == |SentMessages(messages)| + 1 && r.value[0] == Header
      && exists order :: SortedPermutation(order, cs) && TableOf(r.value, order, format)
  {
    var comparisons := CompareExpectedAndActual(loadTest.roomSize, messages);
    if comparisons.Failure? {
      return Failure("Did not find any sent messages in " + loadTest.filename);
    }
    var sorted := Sorting.SortBy(comparisons.value, SentAt);
    Sorting.SortByCorrect(comparisons.value, SentAt);
    var results := Tables.Tabulate(Header, sorted, (x: CountComparison) => StringArray(x, format));
    ghost var cs := Comparisons(SentMessages(messages), loadTest.roomSize, messages);
    assert SortedPermutation(sorted, cs);
    r := Success(results);
  }

  // ---------------------------------------------------------------------
  // Properties

  /** The step of the loop over the sent messages. */
  lemma ComparisonsSnoc(sent: seq<Message>, k: nat, clientCount: uint64, messages: seq<Message>)
    requires k < |sent|
    ensures Comparisons(sent[..k + 1], clientCount, messages)
            == Comparisons(sent[..k], clientCount, messages)
               + [CompareMessageCounts(sent[k], clientCount, Receipts(sent[k], messages))]
  {
    assert sent[..k + 1] == sent[..k] + [sent[k]];
    Seqs.MapAppend(CompareWith(clientCount, messages), sent[..k], [sent[k]]);
  }

  /** Each comparison belongs to one sent message: its send time, the
      expected count given, and the number of its receipts. */
  lemma ComparisonOfSent(sent: seq<Message>, clientCount: uint64, messages: seq<Message>, k: nat)
    requires k < |sent|
    ensures var c := Comparisons(sent, clientCount, messages)[k];
      c.sentAt == sent[k].timestamp && c.expected == clientCount
      && c.actual == |Seqs.Filter(messages, ReceiptOf(sent[k]))|
  {
  }

  /** Two receipts of one sent message count twice; a receipt by another
      sender, or a repeated Sent line, does not count. */
  lemma CountsReceiptsOnly(s: Message, r1: Message, r2: Message, other: Message)
    requires s.msgType == "Sent"
    requires r1.msgType == "Received" && r1.id == s.id && r1.sender == s.sender
    requires r2.msgType == "Received" && r2.id == s.id && r2.sender == s.sender
    requires other.msgType == "Received" && other.sender != s.sender
    ensures Comparisons(SentMessages([s, r1, s, other, r2]), 3, [s, r1, s, other, r2])
            == [CountComparison(s.timestamp, 3, 2)]
  {
    var ms := [s, r1, s, other, r2];
    ExampleSent(s, r1, r2, other);
    ExampleReceipts(s, r1, r2, other);
    assert Comparisons([s], 3, ms)[0] == CompareMessageCounts(s, 3, [r1, r2]);
  }

  /** The Sent line appears twice in the example and is kept once. */
  lemma ExampleSent(s: Message, r1: Message, r2: Message, other: Message)
    requires s.msgType == "Sent" && r1.msgType == "Received"
    requires r2.msgType == "Received" && other.msgType == "Received"
    ensures SentMessages([s, r1, s, other, r2]) == [s]
  {
    var ms := [s, r1, s, other, r2];
    assert ms[1..] == [r1, s, other, r2];
    assert ms[1..][1..] == [s, other, r2];
    assert ms[1..][1..][1..] == [other, r2];
    assert ms[1..][1..][1..][1..] == [r2];
    assert [r2][1..] == [];
    assert Seqs.Filter([r2], IsSent) == [];
    assert Seqs.Filter([other, r2], IsSent) == [];
    assert Seqs.Filter([s, other, r2], IsSent) == [s];
    assert Seqs.Filter([r1, s, other, r2], IsSent) == [s];
    assert Seqs.Filter(ms, IsSent) == [s, s];
    assert [s, s][1..] == [s] && [s][1..] == [];
    assert Dedup([s], {Key(s)}) == Dedup([], {Key(s)});
    assert Dedup([s, s], {}) == [s] + Dedup([s], {} + {Key(s)});
  }

  /** The receipts of the example's message are r1 and r2. */
  lemma ExampleReceipts(s: Message, r1: Message, r2: Message, other: Message)
    requires s.msgType == "Sent"
    requires r1.msgType == "Received" && r1.id == s.id && r1.sender == s.sender
    requires r2.msgType == "Received" && r2.id == s.id && r2.sender == s.sender
    requires other.sender != s.sender
    ensures Receipts(s, [s, r1, s, other, r2]) == [r1, r2]
  {
    var ms := [s, r1, s, other, r2];
    assert ms[1..] == [r1, s, other, r2];
    assert ms[1..][1..] == [s, other, r2];
    assert ms[1..][1..][1..] == [other, r2];
    assert ms[1..][1..][1..][1..] == [r2];
    assert [r2][1..] == [];
    var rc := ReceiptOf(s);
    assert Seqs.Filter([r2], rc) == [r2];
    assert Seqs.Filter([other, r2], rc) == [r2];
    assert Seqs.Filter([s, other, r2], rc) == [r2];
    assert Seqs.Filter([r1, s, other, r2], rc) == [r1, r2];
  }
}

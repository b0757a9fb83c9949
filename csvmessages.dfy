/** The message events of a load-test result file as csv-processor reads
    them, and the selection helpers of csv-processor/messages.go. */
module CsvMessages {
  import opened GoNum
  import Seqs

  /** One CSV line: id, sender, receiver, type ("Sent"/"Received") and the
      timestamp in microseconds. */
  datatype Message = Message(id: string, sender: string, receiver: string, msgType: string, timestamp: int64)

  /** One line of the meta file: a result file and the test's room layout. */
  datatype LoadTest = LoadTest(roomCount: uint64, roomSize: uint64, filename: string)

  /** The de-duplication key: id and sender concatenated, with no separator. */
  function Key(m: Message): string {
    m.id + m.sender
  }

  /** The messages of `ms` whose key is neither in `seen` nor the key of an
      earlier message, in input order. */
  function Dedup(ms: seq<Message>, seen: set<string>): seq<Message>
    decreases |ms|
  {
    if ms == [] then []
    else if Key(ms[0]) in seen then Dedup(ms[1..], seen)
    else [ms[0]] + Dedup(ms[1..], seen + {Key(ms[0])})
  }

  /** removeDuplicates */
  method RemoveDuplicates(messages: seq<Message>) returns (filtered: seq<Message>)
    ensures filtered == Dedup(messages, {})
  {
    var keys: map<string, bool> := map[];
    filtered := [];
    var i := 0;
    assert messages[0..] == messages;
    assert keys.Keys == {};
    while i < |messages|
      invariant 0 <= i <= |messages|
      invariant filtered + Dedup(messages[i..], keys.Keys) == Dedup(messages, {})
    {
      assert messages[i..][1..] == messages[i + 1..];
      var key := messages[i].id + messages[i].sender;
      assert key == Key(messages[i]);
      if key !in keys {
        assert keys[key := true].Keys == keys.Keys + {key};
        keys := keys[key := true];
        filtered := filtered + [messages[i]];
      }
      i := i + 1;
    }
  }

  function IsSent(m: Message): bool {
    m.msgType == "Sent"
  }

  /** filterSentMessages: the Sent messages, de-duplicated. */
  method FilterSentMessages(messages: seq<Message>) returns (sent: seq<Message>)
    ensures sent == Dedup(Seqs.Filter(messages, IsSent), {})
  {
    var all: seq<Message> := [];
    var i := 0;
    while i < |messages|
      invariant 0 <= i <= |messages|
      invariant all == Seqs.Filter(messages[..i], IsSent)
    {
      Seqs.FilterSnoc(messages, i, IsSent);
      if messages[i].msgType == "Sent" {
        all := all + [messages[i]];
      }
      i := i + 1;
    }
    assert messages[..i] == messages;
    sent := RemoveDuplicates(all);
  }

  /** The receipts findReceivedMessages looks for: Received events with the
      id and sender of `sent`. */
  function ReceiptOf(sent: Message): Message -> bool {
    (m: Message) => m.msgType == "Received" && m.id == sent.id && m.sender == sent.sender
  }

  /** findReceivedMessages */
  method FindReceivedMessages(sent: Message, messages: seq<Message>) returns (received: seq<Message>)
    ensures received == Seqs.Filter(messages, ReceiptOf(sent))
  {
    received := [];
    var i := 0;
    while i < |messages|
      invariant 0 <= i <= |messages|
      invariant received == Seqs.Filter(messages[..i], ReceiptOf(sent))
    {
      Seqs.FilterSnoc(messages, i, ReceiptOf(sent));
      var m := messages[i];
      if m.msgType == "Received" && m.id == sent.id && m.sender == sent.sender {
        received := received + [m];
      }
      i := i + 1;
    }
    assert messages[..i] == messages;
  }

  // ---------------------------------------------------------------------
  // Properties of Dedup

  /** `ms[q]` is the first message of `ms` with its key. */
  ghost predicate FirstOfKey(ms: seq<Message>, q: nat) {
    q < |ms| && forall j :: 0 <= j < q ==> Key(ms[j]) != Key(ms[q])
  }

  /** The result is a subsequence of the input. */
  lemma {:induction false} DedupIsSubseq(ms: seq<Message>, seen: set<string>)
    ensures Seqs.IsSubseq(Dedup(ms, seen), ms)
    decreases |ms|
  {
    if ms != [] {
      if Key(ms[0]) in seen {
        DedupIsSubseq(ms[1..], seen);
        Seqs.SubseqDropHead(Dedup(ms[1..], seen), ms);
      } else {
        var rest := Dedup(ms[1..], seen + {Key(ms[0])});
        DedupIsSubseq(ms[1..], seen + {Key(ms[0])});
        assert ([ms[0]] + rest)[1..] == rest;
      }
    }
  }

  /** No two kept messages share a key, and no kept key was already seen. */
  lemma {:induction false} DedupKeysDistinct(ms: seq<Message>, seen: set<string>)
    ensures forall i :: 0 <= i < |Dedup(ms, seen)| ==> Key(Dedup(ms, seen)[i]) !in seen
    ensures forall i, j :: 0 <= i < j < |Dedup(ms, seen)| ==> Key(Dedup(ms, seen)[i]) != Key(Dedup(ms, seen)[j])
    decreases |ms|
  {
    if ms != [] {
      if Key(ms[0]) in seen {
        DedupKeysDistinct(ms[1..], seen);
      } else {
        DedupKeysDistinct(ms[1..], seen + {Key(ms[0])});
      }
    }
  }

  /** Every key of the input that was not already seen is kept, by the first
      message that carries it. */
  lemma {:induction false} DedupKeepsFirst(ms: seq<Message>, seen: set<string>)
    ensures forall i :: 0 <= i < |ms| && Key(ms[i]) !in seen && FirstOfKey(ms, i) ==> ms[i] in Dedup(ms, seen)
    ensures forall x :: x in Dedup(ms, seen) ==> exists i: nat :: FirstOfKey(ms, i) && ms[i] == x
    decreases |ms|
  {
    if ms != [] {
      var seen' := if Key(ms[0]) in seen then seen else seen + {Key(ms[0])};
      DedupKeepsFirst(ms[1..], seen');
      var r := Dedup(ms, seen);
      assert Dedup(ms[1..], seen') <= r || r == [ms[0]] + Dedup(ms[1..], seen');
      forall i | 0 <= i < |ms| && Key(ms[i]) !in seen && FirstOfKey(ms, i)
        ensures ms[i] in r
      {
        if i > 0 {
          assert ms[i] == ms[1..][i - 1];
          assert Key(ms[0]) != Key(ms[i]);
          assert Key(ms[i]) !in seen';
          forall j | 0 <= j < i - 1 ensures Key(ms[1..][j]) != Key(ms[1..][i - 1]) {
            assert ms[1..][j] == ms[j + 1];
          }
          assert FirstOfKey(ms[1..], i - 1);
        } else {
          assert FirstOfKey(ms, 0);
        }
      }
      forall x | x in r
        ensures exists i: nat :: FirstOfKey(ms, i) && ms[i] == x
      {
        if Key(ms[0]) !in seen && x == ms[0] {
          assert FirstOfKey(ms, 0);
        } else {
          assert x in Dedup(ms[1..], seen');
          var k: nat :| FirstOfKey(ms[1..], k) && ms[1..][k] == x;
          DedupMembersNotSeen(ms[1..], seen', x);
          assert Key(x) != Key(ms[0]);
          assert ms[k + 1] == x;
          forall j | 0 <= j < k + 1 ensures Key(ms[j]) != Key(ms[k + 1]) {
            if j > 0 {
              assert ms[j] == ms[1..][j - 1];
            }
          }
          assert FirstOfKey(ms, k + 1);
        }
      }
    }
  }

  lemma DedupMembersNotSeen(ms: seq<Message>, seen: set<string>, x: Message)
    requires x in Dedup(ms, seen)
    ensures Key(x) !in seen
  {
    DedupKeysDistinct(ms, seen);
  }

  /** A sequence whose keys are distinct and unseen passes unchanged. */
  lemma {:induction false} DedupOfDistinct(ms: seq<Message>, seen: set<string>)
    requires forall i :: 0 <= i < |ms| ==> Key(ms[i]) !in seen
    requires forall i, j :: 0 <= i < j < |ms| ==> Key(ms[i]) != Key(ms[j])
    ensures Dedup(ms, seen) == ms
    decreases |ms|
  {
    if ms != [] {
      DedupOfDistinct(ms[1..], seen + {Key(ms[0])});
    }
  }

  /** removeDuplicates is idempotent. */
  lemma DedupIdempotent(ms: seq<Message>)
    ensures Dedup(Dedup(ms, {}), {}) == Dedup(ms, {})
  {
    DedupKeysDistinct(ms, {});
    DedupOfDistinct(Dedup(ms, {}), {});
  }

  /** Because the key concatenates without a separator, two messages with
      different ids and senders can share a key, and the second is dropped. */
  lemma KeyCollision()
    ensures var a := Message("1", "2ab", "r", "Sent", 0);
      var b := Message("12", "ab", "r", "Sent", 0);
      (a.id, a.sender) != (b.id, b.sender) && Dedup([a, b], {}) == [a]
  {
    var a := Message("1", "2ab", "r", "Sent", 0);
    var b := Message("12", "ab", "r", "Sent", 0);
    assert Key(a) == Key(b);
    assert [a, b][1..] == [b];
    assert [b][1..] == [];
    var ms := [a, b];
    assert ms[1..] == [b];
    assert Dedup([b], {Key(a)}) == Dedup([], {Key(a)}) == [];
    assert {} + {Key(a)} == {Key(a)};
    assert Dedup(ms, {}) == [a] + Dedup(ms[1..], {} + {Key(a)});
  }

  /** Every element of filterSentMessages is a Sent message of the input. */
  lemma SentMessagesAreSent(messages: seq<Message>)
    ensures forall x :: x in Dedup(Seqs.Filter(messages, IsSent), {}) ==> x in messages && x.msgType == "Sent"
  {
    var all := Seqs.Filter(messages, IsSent);
    DedupIsSubseq(all, {});
    Seqs.SubseqMembers(Dedup(all, {}), all);
  }

  /** Every Sent message of the input has a representative with its key in
      filterSentMessages. */
  lemma SentMessagesCovered(messages: seq<Message>, i: nat)
    requires i < |messages| && IsSent(messages[i])
    ensures exists x :: x in Dedup(Seqs.Filter(messages, IsSent), {}) && Key(x) == Key(messages[i])
  {
    var all := Seqs.Filter(messages, IsSent);
    assert messages[i] in all;
    var p :| 0 <= p < |all| && all[p] == messages[i];
    FirstWithKey(all, p);
    var q: nat :| q <= p && Key(all[q]) == Key(all[p]) && FirstOfKey(all, q);
    DedupKeepsFirst(all, {});
    assert all[q] in Dedup(all, {});
  }

  /** Some index at or before `p` is the first to carry the key of `ms[p]`. */
  lemma {:induction false} FirstWithKey(ms: seq<Message>, p: nat)
    requires p < |ms|
    ensures exists q: nat :: q <= p && Key(ms[q]) == Key(ms[p]) && FirstOfKey(ms, q)
    decreases p
  {
    if exists j :: 0 <= j < p && Key(ms[j]) == Key(ms[p]) {
      var j :| 0 <= j < p && Key(ms[j]) == Key(ms[p]);
      FirstWithKey(ms, j);
    } else {
      assert FirstOfKey(ms, p);
    }
  }

  // ---------------------------------------------------------------------
  // The selections the latency and count tools start from

  /** What filterSentMessages returns for `messages`. */
  function SentMessages(messages: seq<Message>): seq<Message> {
    Dedup(Seqs.Filter(messages, IsSent), {})
  }

  /** What findReceivedMessages returns for `sent` and `messages`. */
  function Receipts(sent: Message, messages: seq<Message>): seq<Message> {
    Seqs.Filter(messages, ReceiptOf(sent))
  }

  /** filterSentMessages comes back empty exactly when the input holds no
      Sent message. */
  lemma NoSentMessages(messages: seq<Message>)
    ensures SentMessages(messages) == [] <==> forall i :: 0 <= i < |messages| ==> messages[i].msgType != "Sent"
  {
    var all := Seqs.Filter(messages, IsSent);
    if exists i :: 0 <= i < |messages| && messages[i].msgType == "Sent" {
      var i :| 0 <= i < |messages| && messages[i].msgType == "Sent";
      assert messages[i] in all;
    }
  }
}

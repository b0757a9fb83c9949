/** The distribution bridge: the conversions between chat messages and the
    backbone's DistributionMessage, the self-id loop guard of Subscribe, the
    Publish loop and the two-attempt ping of Connect. The backbone itself
    (Redis) is a topic of payloads; encoding and decoding are parameters. */
module Distribution {
  import opened Wrappers
  import opened GoNum
  import opened Chat
  import Relay
  import Seqs

  datatype DistributionMessage = DistributionMessage(
    MessageId: uint64, Text: string, Sender: string, SentAt: int, Room: string, ServerId: string)

  /** The message Publish builds: the five message fields and this instance's id. */
  function ToDistribution(m: Message, serverId: string): (d: DistributionMessage)
    ensures d.ServerId == serverId
  {
    DistributionMessage(m.MessageId, m.Text, m.Sender, m.SentAt, m.Room, serverId)
  }

  /** The message Subscribe rebuilds from a backbone message. */
  function FromDistribution(d: DistributionMessage): Message
  {
    Message(d.MessageId, d.Text, d.Sender, d.SentAt, d.Room)
  }

  /** Subscribe's treatment of one decoded backbone message: discarded when
      it carries this instance's id, otherwise re-injected as a wrapper
      tagged as coming from the distributor. */
  function Admit(d: DistributionMessage, serverId: string): (r: Option<MessageWrapper>)
    ensures r.None? <==> d.ServerId == serverId
    ensures r.Some? ==> r.value.source == Distributor
  {
    if d.ServerId == serverId then None
    else Some(MessageWrapper(FromDistribution(d), Distributor))
  }

  /** The two conversions are inverse: nothing but the server id is added
      or lost on the way through the backbone. */
  lemma ConversionRoundTrip(m: Message, d: DistributionMessage, serverId: string)
    ensures FromDistribution(ToDistribution(m, serverId)) == m
    ensures ToDistribution(FromDistribution(d), d.ServerId) == d
  {
  }

  /** A message published by another instance is re-injected unchanged. */
  lemma ForeignMessageReinjected(m: Message, publisher: string, subscriber: string)
    requires publisher != subscriber
    ensures Admit(ToDistribution(m, publisher), subscriber) == Some(MessageWrapper(m, Distributor))
  {
  }

  /** The self-loop guard: an instance discards its own published message. */
  lemma OwnMessageDiscarded(m: Message, serverId: string)
    ensures Admit(ToDistribution(m, serverId), serverId) == None
  {
  }

  // ---------------------------------------------------------------------
  // Subscribe

  /** What Subscribe did with a run of backbone payloads: the wrappers it
      pushed, the payloads it counted, and whether it panicked. */
  datatype Subscribed = Subscribed(injected: seq<MessageWrapper>, received: nat, panicked: bool)

  /** Subscribe over `payloads`: each payload is counted, a payload that does
      not decode panics (ending the loop), the others pass the guard. */
  function SubscribeRun(payloads: seq<Payload>, decode: Payload -> Option<DistributionMessage>, serverId: string): Subscribed
    decreases |payloads|
  {
    if payloads == [] then Subscribed([], 0, false)
    else match decode(payloads[0])
      case None => Subscribed([], 1, true)
      case Some(d) =>
        var r := SubscribeRun(payloads[1..], decode, serverId);
        var here := match Admit(d, serverId) case None => [] case Some(w) => [w];
        Subscribed(here + r.injected, 1 + r.received, r.panicked)
  }

  /** Subscribe panics exactly when some payload fails to decode; it never
      injects a wrapper that is not tagged as distributor-sourced, nor one
      that carries no foreign id. */
  lemma {:induction false} SubscribeRunProperties(payloads: seq<Payload>, decode: Payload -> Option<DistributionMessage>, serverId: string)
    ensures var r := SubscribeRun(payloads, decode, serverId);
      && (r.panicked <==> exists i :: 0 <= i < |payloads| && decode(payloads[i]).None?)
      && (forall i :: 0 <= i < |r.injected| ==> r.injected[i].source == Distributor)
      && r.received <= |payloads|
      && (!r.panicked ==> r.received == |payloads|)
    decreases |payloads|
  {
    if payloads != [] {
      SubscribeRunProperties(payloads[1..], decode, serverId);
      var r := SubscribeRun(payloads, decode, serverId);
      if decode(payloads[0]).Some? {
        if r.panicked {
          var i :| 0 <= i < |payloads[1..]| && decode(payloads[1..][i]).None?;
          assert decode(payloads[i + 1]).None?;
        }
        if exists i :: 0 <= i < |payloads| && decode(payloads[i]).None? {
          var i :| 0 <= i < |payloads| && decode(payloads[i]).None?;
          assert i > 0 && decode(payloads[1..][i - 1]).None?;
        }
      }
    }
  }

  /** An instance that only hears its own echoes injects nothing. */
  lemma {:induction false} OnlyEchoesInjectNothing(payloads: seq<Payload>, decode: Payload -> Option<DistributionMessage>, serverId: string)
    requires forall i :: 0 <= i < |payloads| ==>
               decode(payloads[i]).Some? && decode(payloads[i]).value.ServerId == serverId
    ensures SubscribeRun(payloads, decode, serverId).injected == []
    decreases |payloads|
  {
    if payloads != [] {
      OnlyEchoesInjectNothing(payloads[1..], decode, serverId);
    }
  }

  /** One payload of the Subscribe loop: a decode failure ends the run,
      otherwise the admitted wrapper, if any, comes before the rest. */
  lemma SubscribeRunStep(payloads: seq<Payload>, decode: Payload -> Option<DistributionMessage>, serverId: string, i: nat)
    requires i < |payloads|
    ensures decode(payloads[i]).None? ==> SubscribeRun(payloads[i..], decode, serverId) == Subscribed([], 1, true)
    ensures decode(payloads[i]).Some? ==>
      var d := decode(payloads[i]).value;
      var rest := SubscribeRun(payloads[i + 1..], decode, serverId);
      var here := if d.ServerId == serverId then [] else [MessageWrapper(FromDistribution(d), Distributor)];
      SubscribeRun(payloads[i..], decode, serverId) == Subscribed(here + rest.injected, 1 + rest.received, rest.panicked)
  {
    assert payloads[i..][1..] == payloads[i + 1..];
  }

  /** Subscribe: reads payloads from the backbone topic and pushes the
      admitted ones onto the server's shared inbound queue. */
  method Subscribe(srv: Relay.Server, serverId: string, payloads: seq<Payload>, decode: Payload -> Option<DistributionMessage>)
    returns (panicked: bool)
    modifies srv`incoming, srv`incomingCount
    ensures var r := SubscribeRun(payloads, decode, serverId);
      && srv.incoming == old(srv.incoming) + r.injected
      && srv.incomingCount == old(srv.incomingCount) + r.received
      && panicked == r.panicked
  {
    var i := 0;
    panicked := false;
    while i < |payloads|
      invariant 0 <= i <= |payloads|
      invariant var whole := SubscribeRun(payloads, decode, serverId);
        var rest := SubscribeRun(payloads[i..], decode, serverId);
        && old(srv.incoming) + whole.injected == srv.incoming + rest.injected
        && old(srv.incomingCount) + whole.received == srv.incomingCount + rest.received
        && whole.panicked == rest.panicked
    {
      SubscribeRunStep(payloads, decode, serverId, i);
      srv.incomingCount := srv.incomingCount + 1;
      var decoded := decode(payloads[i]);
      if decoded.None? {
        panicked := true;
        return;
      }
      var d := decoded.value;
      if d.ServerId != serverId {
        var message := Message(d.MessageId, d.Text, d.Sender, d.SentAt, d.Room);
        srv.incoming := srv.incoming + [MessageWrapper(message, Distributor)];
      }
      i := i + 1;
    }
  }

  // ---------------------------------------------------------------------
  // Publish

  /** The backbone topic all instances publish to and subscribe on. */
  class Backbone {
    var topic: seq<Payload>

    constructor ()
      ensures topic == []
    {
      topic := [];
    }
  }

  /** What Publish did: the messages it published, what it left in the
      queue, and whether a failed publish ended the process. */
  datatype PublishRun = PublishRun(sent: seq<DistributionMessage>, rest: seq<Message>, fatal: bool)

  /** Publish over the queued messages `ms`; `publishOk(k)` is the outcome of
      publishing when the topic already holds `k` payloads. */
  function PublishAll(ms: seq<Message>, serverId: string, publishOk: nat -> bool, n: nat): PublishRun
    decreases |ms|
  {
    if ms == [] then PublishRun([], [], false)
    else if !publishOk(n) then PublishRun([], ms[1..], true)
    else
      var r := PublishAll(ms[1..], serverId, publishOk, n + 1);
      PublishRun([ToDistribution(ms[0], serverId)] + r.sent, r.rest, r.fatal)
  }

  /** Publish stamps every message with this instance's id and otherwise
      copies it; it publishes a prefix of the queue, and after a failed
      publish nothing more. */
  lemma {:induction false} PublishAllProperties(ms: seq<Message>, serverId: string, publishOk: nat -> bool, n: nat)
    ensures var r := PublishAll(ms, serverId, publishOk, n);
      && |r.sent| <= |ms|
      && (forall i :: 0 <= i < |r.sent| ==> r.sent[i] == ToDistribution(ms[i], serverId) && publishOk(n + i))
      && (r.fatal ==> |r.sent| < |ms| && !publishOk(n + |r.sent|) && r.rest == ms[|r.sent| + 1..])
      && (!r.fatal ==> |r.sent| == |ms| && r.rest == [])
    decreases |ms|
  {
    if ms != [] && publishOk(n) {
      PublishAllProperties(ms[1..], serverId, publishOk, n + 1);
      var r := PublishAll(ms[1..], serverId, publishOk, n + 1);
      var whole := PublishAll(ms, serverId, publishOk, n);
      assert whole.sent == [ToDistribution(ms[0], serverId)] + r.sent;
      forall i | 0 <= i < |whole.sent|
        ensures whole.sent[i] == ToDistribution(ms[i], serverId) && publishOk(n + i)
      {
        if i > 0 {
          assert whole.sent[i] == r.sent[i - 1];
          assert ms[1..][i - 1] == ms[i];
        }
      }
      if r.fatal {
        assert ms[1..][|r.sent| + 1..] == ms[|r.sent| + 2..];
      }
    }
  }

  /** One successful publish: the first message, converted, comes before
      what the rest of the queue publishes. */
  lemma PublishAllStep(ms: seq<Message>, serverId: string, publishOk: nat -> bool, n: nat)
    requires ms != [] && publishOk(n)
    ensures var r := PublishAll(ms[1..], serverId, publishOk, n + 1);
      PublishAll(ms, serverId, publishOk, n) == PublishRun([ToDistribution(ms[0], serverId)] + r.sent, r.rest, r.fatal)
  {
  }

  /** Publish: drains the dispatcher's distribution queue onto the topic;
      a failed publish is fatal and stops the loop. */
  method Publish(srv: Relay.Server, backbone: Backbone, serverId: string,
                 encode: DistributionMessage -> Payload, publishOk: nat -> bool)
    returns (fatal: bool)
    modifies srv`distributionOutgoing, backbone`topic
    ensures var r := PublishAll(old(srv.distributionOutgoing), serverId, publishOk, |old(backbone.topic)|);
      && backbone.topic == old(backbone.topic) + Seqs.Map(encode, r.sent)
      && srv.distributionOutgoing == r.rest
      && fatal == r.fatal
  {
    ghost var n0 := |backbone.topic|;
    ghost var whole := PublishAll(srv.distributionOutgoing, serverId, publishOk, n0);
    ghost var sent: seq<DistributionMessage> := [];
    fatal := false;
    while srv.distributionOutgoing != []
      invariant backbone.topic == old(backbone.topic) + Seqs.Map(encode, sent)
      invariant var rest := PublishAll(srv.distributionOutgoing, serverId, publishOk, n0 + |sent|);
        whole == PublishRun(sent + rest.sent, rest.rest, rest.fatal)
      decreases |srv.distributionOutgoing|
    {
      var message := srv.distributionOutgoing[0];
      ghost var rest := PublishAll(srv.distributionOutgoing[1..], serverId, publishOk, n0 + |sent| + 1);
      var distMsg := DistributionMessage(message.MessageId, message.Text, message.Sender,
                                         message.SentAt, message.Room, serverId);
      if !publishOk(|backbone.topic|) {
        srv.distributionOutgoing := srv.distributionOutgoing[1..];
        fatal := true;
        return;
      }
      PublishAllStep(srv.distributionOutgoing, serverId, publishOk, n0 + |sent|);
      assert sent + ([distMsg] + rest.sent) == (sent + [distMsg]) + rest.sent;
      Seqs.MapAppend(encode, sent, [distMsg]);
      srv.distributionOutgoing := srv.distributionOutgoing[1..];
      backbone.topic := backbone.topic + [encode(distMsg)];
      sent := sent + [distMsg];
    }
  }

  // ---------------------------------------------------------------------
  // Connect

  /** pingServer: one ping, and one more after a failure; `ping(k)` is the
      outcome of attempt k. */
  method PingServer(ping: nat -> bool) returns (ok: bool, attempts: nat)
    ensures attempts == (if ping(0) then 1 else 2)
    ensures ok <==> ping(0) || ping(1)
  {
    attempts := 1;
    ok := ping(0);
    if !ok {
      attempts := 2;
      ok := ping(1);
    }
  }

  // ---------------------------------------------------------------------
  // End to end

  /** A backbone on which every publish succeeds. */
  function AlwaysOk(k: nat): bool { true }

  /** The values S1's side of TwoInstanceDelivery computes. */
  lemma SingleMessageRun(m: Message, frame: Payload, decode: Payload -> Option<Message>,
                         encode: DistributionMessage -> Payload,
                         decodeDist: Payload -> Option<DistributionMessage>)
    requires decode(frame) == Some(m) && m.Room == "r1"
    requires decodeDist(encode(ToDistribution(m, "S1"))) == Some(ToDistribution(m, "S1"))
    ensures Relay.Ingested([Relay.Frame(frame)], decode) == [MessageWrapper(m, Local)]
    ensures Relay.Forwarded(true, [MessageWrapper(m, Local)]) == [m]
    ensures Relay.FanOut([], "r1", [MessageWrapper(m, Local)]) == [MessageWrapper(m, Local)]
    ensures PublishAll([m], "S1", AlwaysOk, 0) == PublishRun([ToDistribution(m, "S1")], [], false)
    ensures SubscribeRun([encode(ToDistribution(m, "S1"))], decodeDist, "S1") == Subscribed([], 1, false)
  {
    assert [Relay.Frame(frame)][1..] == [];
    assert [MessageWrapper(m, Local)][..0] == [];
    assert [m][1..] == [];
    assert [encode(ToDistribution(m, "S1"))][1..] == [];
  }

  /** S1's side of TwoInstanceDelivery, which it only sets up: client A
      sends `m`, the dispatcher forwards it, Publish puts it on the topic,
      and S1's own subscription discards the echo. */
  method OriginInstance(m: Message, frame: Payload, decode: Payload -> Option<Message>,
                        encode: DistributionMessage -> Payload,
                        decodeDist: Payload -> Option<DistributionMessage>)
    returns (topic: seq<Payload>, echoed: seq<MessageWrapper>)
    requires decode(frame) == Some(m) && m.Room == "r1"
    requires decodeDist(encode(ToDistribution(m, "S1"))) == Some(ToDistribution(m, "S1"))
    ensures topic == [encode(ToDistribution(m, "S1"))]
    ensures echoed == []
  {
    SingleMessageRun(m, frame, decode, encode, decodeDist);
    var s1 := new Relay.Server();
    var backbone := new Backbone();
    var a := s1.StartClient("r1");
    var exited := a.HandleIncoming(s1, [Relay.Frame(frame)], decode);
    assert s1.incoming == [MessageWrapper(m, Local)] && s1.distributionOutgoing == [];
    s1.BroadcastMessages(true);
    assert s1.distributionOutgoing == [m] && backbone.topic == [];
    var fatal := Publish(s1, backbone, "S1", encode, AlwaysOk);
    topic := backbone.topic;
    var panicked := Subscribe(s1, "S1", topic, decodeDist);
    echoed := s1.incoming;
  }

  /** The values S2's side of TwoInstanceDelivery computes. */
  lemma RemoteRun(m: Message, payload: Payload, decodeDist: Payload -> Option<DistributionMessage>)
    requires m.Room == "r1"
    requires decodeDist(payload) == Some(ToDistribution(m, "S1"))
    ensures SubscribeRun([payload], decodeDist, "S2") == Subscribed([MessageWrapper(m, Distributor)], 1, false)
    ensures Relay.Forwarded(true, [MessageWrapper(m, Distributor)]) == []
    ensures Relay.FanOut([], "r1", [MessageWrapper(m, Distributor)]) == [MessageWrapper(m, Distributor)]
  {
    assert [payload][1..] == [];
    assert [MessageWrapper(m, Distributor)][..0] == [];
  }

  /** S2's side of TwoInstanceDelivery, which it only sets up: the payload
      from the topic reaches client B once and is not handed back to the
      bridge. */
  method RemoteInstance(m: Message, payload: Payload, decodeDist: Payload -> Option<DistributionMessage>)
    returns (toB: seq<MessageWrapper>, republished: seq<Message>)
    requires m.Room == "r1"
    requires decodeDist(payload) == Some(ToDistribution(m, "S1"))
    ensures toB == [MessageWrapper(m, Distributor)]
    ensures republished == []
  {
    var remote := MessageWrapper(m, Distributor);
    RemoteRun(m, payload, decodeDist);
    var s2 := new Relay.Server();
    var b := s2.StartClient("r1");
    var panicked := Subscribe(s2, "S2", [payload], decodeDist);
    assert s2.incoming == [remote] && s2.distributionOutgoing == [];
    s2.BroadcastMessages(true);
    assert s2.clients[0] == b;
    toB, republished := b.outgoing, s2.distributionOutgoing;
  }

  /** Two instances S1 and S2 share a topic; client A on S1 and client B on
      S2 are both in room "r1"; A sends a message. B receives it exactly
      once, the topic carries it exactly once, S2 does not republish it, and
      S1 discards its own echo. */
  method TwoInstanceDelivery(m: Message, frame: Payload, decode: Payload -> Option<Message>,
                             encode: DistributionMessage -> Payload,
                             decodeDist: Payload -> Option<DistributionMessage>)
    returns (toB: seq<MessageWrapper>, topic: seq<Payload>, republished: seq<Message>, echoed: seq<MessageWrapper>)
    requires decode(frame) == Some(m) && m.Room == "r1"
    requires decodeDist(encode(ToDistribution(m, "S1"))) == Some(ToDistribution(m, "S1"))
    ensures toB == [MessageWrapper(m, Distributor)]
    ensures topic == [encode(ToDistribution(m, "S1"))]
    ensures republished == []
    ensures echoed == []
  {
    topic, echoed := OriginInstance(m, frame, decode, encode, decodeDist);
    toB, republished := RemoteInstance(m, topic[0], decodeDist);
  }
}

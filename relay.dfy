/** The server's relay: the registry of connected clients, the history,
    the broadcast dispatcher (BroadcastMessages), and each client's read and
    write loops (HandleIncoming, HandleOutgoing). The Go code runs these as
    goroutines over channels; the model runs them as sequential steps on the
    same state. */
module Relay {
  import opened Wrappers
  import opened Chat
  import Seqs

  /** Capacity of each client's outgoing channel (and of the inbound one). */
  const MessageBufferSize: nat := 100

  // ---------------------------------------------------------------------
  // Dispatcher specification

  /** A non-blocking push of `w` onto the queue of a client in room `room`:
      other rooms are skipped, a full queue drops the wrapper. */
  function Offer(queue: seq<MessageWrapper>, room: string, w: MessageWrapper): seq<MessageWrapper>
  {
    if w.message.Room == room && |queue| < MessageBufferSize then queue + [w] else queue
  }

  /** The queue of a client in `room` once the dispatcher has handled `ws`. */
  function FanOut(queue: seq<MessageWrapper>, room: string, ws: seq<MessageWrapper>): seq<MessageWrapper>
    decreases |ws|
  {
    if ws == [] then queue
    else Offer(FanOut(queue, room, ws[..|ws| - 1]), room, ws[|ws| - 1])
  }

  /** The messages the dispatcher hands to the distribution bridge for `ws`. */
  function Forwarded(enableDistribution: bool, ws: seq<MessageWrapper>): seq<Message>
    decreases |ws|
  {
    if ws == [] then []
    else
      var last := ws[|ws| - 1];
      Forwarded(enableDistribution, ws[..|ws| - 1])
        + (if enableDistribution && last.source == Local then [last.message] else [])
  }

  /** The messages carried by `ws`, in order. */
  function Messages(ws: seq<MessageWrapper>): (ms: seq<Message>)
    ensures |ms| == |ws|
    ensures forall i :: 0 <= i < |ws| ==> ms[i] == ws[i].message
    decreases |ws|
  {
    if ws == [] then [] else Messages(ws[..|ws| - 1]) + [ws[|ws| - 1].message]
  }

  /** A client whose room no wrapper is addressed to keeps its queue. */
  lemma {:induction false} FanOutRoomIsolation(queue: seq<MessageWrapper>, room: string, ws: seq<MessageWrapper>)
    requires forall i :: 0 <= i < |ws| ==> ws[i].message.Room != room
    ensures FanOut(queue, room, ws) == queue
    decreases |ws|
  {
    if ws != [] {
      FanOutRoomIsolation(queue, room, ws[..|ws| - 1]);
    }
  }

  /** Fan-out never grows a queue beyond its capacity, and only appends. */
  lemma {:induction false} FanOutBounded(queue: seq<MessageWrapper>, room: string, ws: seq<MessageWrapper>)
    requires |queue| <= MessageBufferSize
    ensures |FanOut(queue, room, ws)| <= MessageBufferSize
    ensures queue <= FanOut(queue, room, ws)
    decreases |ws|
  {
    if ws != [] {
      FanOutBounded(queue, room, ws[..|ws| - 1]);
    }
  }

  /** A client with room to spare receives every wrapper of its room, in
      arrival order, and nothing else. */
  lemma {:induction false} FanOutDeliversInOrder(queue: seq<MessageWrapper>, room: string, ws: seq<MessageWrapper>)
    requires |queue| + |ws| <= MessageBufferSize
    ensures FanOut(queue, room, ws) == queue + Seqs.Filter(ws, InRoom(room))
    decreases |ws|
  {
    if ws != [] {
      var init := ws[..|ws| - 1];
      FanOutDeliversInOrder(queue, room, init);
      Seqs.FilterSnoc(ws, |ws| - 1, InRoom(room));
      assert ws[..|ws| - 1 + 1] == ws;
      assert |Seqs.Filter(init, InRoom(room))| <= |init|;
    }
  }

  function InRoom(room: string): MessageWrapper -> bool {
    (w: MessageWrapper) => w.message.Room == room
  }

  /** Even when a full queue drops wrappers, a client only ever gains
      wrappers of its own room, in arrival order. */
  lemma {:induction false} FanOutSubseq(queue: seq<MessageWrapper>, room: string, ws: seq<MessageWrapper>)
    ensures queue <= FanOut(queue, room, ws)
    ensures Seqs.IsSubseq(FanOut(queue, room, ws)[|queue|..], Seqs.Filter(ws, InRoom(room)))
    decreases |ws|
  {
    if ws == [] {
      assert FanOut(queue, room, ws)[|queue|..] == [];
    } else {
      var n := |ws| - 1;
      FanOutSubseq(queue, room, ws[..n]);
      Seqs.FilterSnoc(ws, n, InRoom(room));
      assert ws[..n + 1] == ws;
      OfferSubseq(queue, FanOut(queue, room, ws[..n]), room, ws[n], Seqs.Filter(ws[..n], InRoom(room)));
    }
  }

  /** The step of FanOutSubseq: one offer keeps the gained wrappers a
      subsequence of the room's wrappers. */
  lemma OfferSubseq(queue: seq<MessageWrapper>, before: seq<MessageWrapper>, room: string,
                    w: MessageWrapper, inRoom: seq<MessageWrapper>)
    requires queue <= before && Seqs.IsSubseq(before[|queue|..], inRoom)
    ensures queue <= Offer(before, room, w)
    ensures Seqs.IsSubseq(Offer(before, room, w)[|queue|..], inRoom + (if InRoom(room)(w) then [w] else []))
  {
    var added := before[|queue|..];
    if w.message.Room == room {
      if |before| < MessageBufferSize {
        assert (before + [w])[|queue|..] == added + [w];
        Seqs.SubseqSnoc(added, inRoom, w);
      } else {
        Seqs.SubseqSnocRight(added, inRoom, w);
      }
    } else {
      assert inRoom + [] == inRoom;
    }
  }

  function IsLocal(w: MessageWrapper): bool {
    w.source == Local
  }

  /** The bridge gets exactly the messages of the local wrappers, in
      arrival order, when distribution is enabled, and nothing otherwise;
      in particular everything forwarded comes from a local wrapper. */
  lemma ForwardedOnlyLocal(enableDistribution: bool, ws: seq<MessageWrapper>)
    ensures Forwarded(enableDistribution, ws)
            == (if enableDistribution then Messages(Seqs.Filter(ws, IsLocal)) else [])
    ensures !enableDistribution ==> Forwarded(enableDistribution, ws) == []
    ensures forall m :: m in Forwarded(enableDistribution, ws) ==>
              exists i :: 0 <= i < |ws| && ws[i].source == Local && ws[i].message == m
  {
    ForwardedLocalMessages(enableDistribution, ws);
    if enableDistribution {
      var locals := Seqs.Filter(ws, IsLocal);
      forall m | m in Messages(locals)
        ensures exists i :: 0 <= i < |ws| && ws[i].source == Local && ws[i].message == m
      {
        var j :| 0 <= j < |locals| && Messages(locals)[j] == m;
        assert locals[j] in ws && IsLocal(locals[j]);
        var i :| 0 <= i < |ws| && ws[i] == locals[j];
      }
    }
  }

  lemma {:induction false} ForwardedLocalMessages(enableDistribution: bool, ws: seq<MessageWrapper>)
    ensures Forwarded(enableDistribution, ws)
            == (if enableDistribution then Messages(Seqs.Filter(ws, IsLocal)) else [])
    decreases |ws|
  {
    if ws != [] {
      var n := |ws| - 1;
      var w := ws[n];
      ForwardedLocalMessages(enableDistribution, ws[..n]);
      Seqs.FilterSnoc(ws, n, IsLocal);
      assert ws[..n + 1] == ws;
      var locals := Seqs.Filter(ws[..n], IsLocal);
      if IsLocal(w) {
        assert (locals + [w])[..|locals|] == locals;
      } else {
        assert locals + [] == locals;
      }
    }
  }

  /** No republish loop: wrappers injected by the bridge are never
      forwarded back to it. */
  lemma {:induction false} NoRepublish(enableDistribution: bool, ws: seq<MessageWrapper>)
    requires forall i :: 0 <= i < |ws| ==> ws[i].source == Distributor
    ensures Forwarded(enableDistribution, ws) == []
    decreases |ws|
  {
    if ws != [] {
      NoRepublish(enableDistribution, ws[..|ws| - 1]);
    }
  }

  // ---------------------------------------------------------------------
  // Read loop specification

  /** One read from the websocket: a frame, or a transport error. */
  datatype Frame = Frame(data: Payload) | ReadError

  /** The wrappers the read loop pushes for the frames it reads: it stops at
      the first read error and skips frames that do not decode. */
  function Ingested(frames: seq<Frame>, decode: Payload -> Option<Message>): seq<MessageWrapper>
    decreases |frames|
  {
    if frames == [] then []
    else match frames[0]
      case ReadError => []
      case Frame(data) =>
        (match decode(data)
         case None => []
         case Some(m) => [MessageWrapper(m, Local)])
        + Ingested(frames[1..], decode)
  }

  /** The number of frames read successfully before the first read error. */
  function FramesRead(frames: seq<Frame>): nat
    decreases |frames|
  {
    if frames == [] || frames[0].ReadError? then 0 else 1 + FramesRead(frames[1..])
  }

  /** Every wrapper the read loop creates is tagged as local. */
  lemma {:induction false} IngestedAreLocal(frames: seq<Frame>, decode: Payload -> Option<Message>)
    ensures forall i :: 0 <= i < |Ingested(frames, decode)| ==> Ingested(frames, decode)[i].source == Local
    decreases |frames|
  {
    if frames != [] && frames[0].Frame? {
      IngestedAreLocal(frames[1..], decode);
    }
  }

  /** Nothing after the first read error is read or pushed. */
  lemma {:induction false} IngestedStopsAtReadError(frames: seq<Frame>, k: nat, decode: Payload -> Option<Message>)
    requires k < |frames| && frames[k] == ReadError
    ensures Ingested(frames, decode) == Ingested(frames[..k], decode)
    ensures FramesRead(frames) == FramesRead(frames[..k])
    decreases k
  {
    if k > 0 {
      assert frames[..k][1..] == frames[1..][..k - 1];
      IngestedStopsAtReadError(frames[1..], k - 1, decode);
    }
  }

  /** Decode-failure isolation: a malformed frame followed by N frames that
      all decode yields exactly N wrappers, those of the N frames in order. */
  lemma {:induction false} MalformedFrameIsSkipped(bad: Payload, good: seq<Payload>, decode: Payload -> Option<Message>)
    requires decode(bad).None?
    requires forall i :: 0 <= i < |good| ==> decode(good[i]).Some?
    ensures |Ingested([Frame(bad)] + Seqs.Map(p => Frame(p), good), decode)| == |good|
    ensures forall i :: 0 <= i < |good| ==>
              Ingested([Frame(bad)] + Seqs.Map(p => Frame(p), good), decode)[i] == MessageWrapper(decode(good[i]).value, Local)
  {
    var frames := [Frame(bad)] + Seqs.Map(p => Frame(p), good);
    assert frames[1..] == Seqs.Map(p => Frame(p), good);
    AllDecode(good, decode);
  }

  lemma {:induction false} AllDecode(good: seq<Payload>, decode: Payload -> Option<Message>)
    requires forall i :: 0 <= i < |good| ==> decode(good[i]).Some?
    ensures |Ingested(Seqs.Map(p => Frame(p), good), decode)| == |good|
    ensures forall i :: 0 <= i < |good| ==>
              Ingested(Seqs.Map(p => Frame(p), good), decode)[i] == MessageWrapper(decode(good[i]).value, Local)
    decreases |good|
  {
    var frames := Seqs.Map(p => Frame(p), good);
    if good != [] {
      assert frames[1..] == Seqs.Map(p => Frame(p), good[1..]);
      AllDecode(good[1..], decode);
    }
  }

  /** The read counter counts frames, including those that fail to decode,
      so it is never below the number of wrappers pushed. */
  lemma {:induction false} CounterCountsFrames(frames: seq<Frame>, decode: Payload -> Option<Message>)
    ensures |Ingested(frames, decode)| <= FramesRead(frames)
    decreases |frames|
  {
    if frames != [] && frames[0].Frame? {
      CounterCountsFrames(frames[1..], decode);
    }
  }

  // ---------------------------------------------------------------------
  // Write loop specification

  /** The outcome of draining a client's outgoing queue: the frames written,
      what is left in the channel, and whether a write failed. */
  datatype Drained = Drained(written: seq<Payload>, rest: seq<MessageWrapper>, failed: bool)

  /** The write loop over `queue`, where `n` writes were made before and
      `writeOk(k)` is the outcome of the k-th write on the connection. */
  function Drain(queue: seq<MessageWrapper>, marshal: Message -> Option<Payload>, writeOk: nat -> bool, n: nat): Drained
    decreases |queue|
  {
    if queue == [] then Drained([], [], false)
    else match marshal(queue[0].message)
      case None => Drain(queue[1..], marshal, writeOk, n)
      case Some(data) =>
        if !writeOk(n) then Drained([], queue[1..], true)
        else
          var d := Drain(queue[1..], marshal, writeOk, n + 1);
          Drained([data] + d.written, d.rest, d.failed)
  }

  /** The write loop writes until the first failed write and no further;
      without a failure it empties the channel. */
  lemma {:induction false} DrainStopsAtFirstFailure(queue: seq<MessageWrapper>, marshal: Message -> Option<Payload>, writeOk: nat -> bool, n: nat)
    ensures var d := Drain(queue, marshal, writeOk, n);
      (forall k :: n <= k < n + |d.written| ==> writeOk(k))
      && (d.failed ==> !writeOk(n + |d.written|))
      && (!d.failed ==> d.rest == [])
      && |d.written| + |d.rest| <= |queue|
    decreases |queue|
  {
    if queue != [] {
      DrainStopsAtFirstFailure(queue[1..], marshal, writeOk, n + 1);
      DrainStopsAtFirstFailure(queue[1..], marshal, writeOk, n);
    }
  }

  /** With a transport that accepts every write, the frames written are
      exactly the marshalled messages that marshal, in queue order. */
  lemma {:induction false} DrainWritesMarshalled(queue: seq<MessageWrapper>, marshal: Message -> Option<Payload>, writeOk: nat -> bool, n: nat)
    requires forall k :: n <= k ==> writeOk(k)
    ensures Drain(queue, marshal, writeOk, n) == Drained(Marshalled(queue, marshal), [], false)
    decreases |queue|
  {
    if queue != [] {
      DrainWritesMarshalled(queue[1..], marshal, writeOk, n + 1);
      DrainWritesMarshalled(queue[1..], marshal, writeOk, n);
    }
  }

  function Marshalled(queue: seq<MessageWrapper>, marshal: Message -> Option<Payload>): seq<Payload>
    decreases |queue|
  {
    if queue == [] then []
    else (match marshal(queue[0].message) case None => [] case Some(d) => [d]) + Marshalled(queue[1..], marshal)
  }

  // ---------------------------------------------------------------------
  // State

  /** A connected client: its fixed room, its outgoing channel, the wait
      group its two handlers share, and the frames written to its socket.
      Each handler is one goroutine that leaves its loop at most once;
      `readerDone` and `writerDone` record whether it has. */
  class Client {
    const room: string
    var outgoing: seq<MessageWrapper>
    var pendingHandlers: nat
    var written: seq<Payload>
    var closed: bool
    ghost var readerDone: bool
    ghost var writerDone: bool

    /** The wait group counts the handlers that have not yet exited. */
    ghost predicate Valid()
      reads this`pendingHandlers, this`readerDone, this`writerDone
    {
      pendingHandlers == 2 - (if readerDone then 1 else 0) - (if writerDone then 1 else 0)
    }

    constructor (room: string)
      ensures Valid() && !readerDone && !writerDone
      ensures this.room == room && outgoing == [] && pendingHandlers == 2
      ensures written == [] && !closed
    {
      this.room := room;
      outgoing := [];
      pendingHandlers := 2;
      written := [];
      closed := false;
      readerDone := false;
      writerDone := false;
    }

    /** The read handler: runs the read loop (Server.Ingest) on the shared
        state and signals the wait group when (and only when) a read fails. */
    method HandleIncoming(srv: Server, frames: seq<Frame>, decode: Payload -> Option<Message>) returns (exited: bool)
      requires Valid() && !readerDone
      modifies this`pendingHandlers, this`readerDone, srv`incoming, srv`incomingCount
      ensures Valid() && readerDone == exited
      ensures old(srv.Valid()) ==> srv.Valid()
      ensures srv.incoming == old(srv.incoming) + Ingested(frames, decode)
      ensures srv.incomingCount == old(srv.incomingCount) + FramesRead(frames)
      ensures exited <==> ReadError in frames
      ensures pendingHandlers == old(pendingHandlers) - (if exited then 1 else 0)
    {
      exited := srv.Ingest(frames, decode);
      if exited {
        pendingHandlers := pendingHandlers - 1;
        readerDone := true;
      }
    }

    /** The write handler: runs the write loop (WriteLoop) and signals the
        wait group when (and only when) a write fails. */
    method HandleOutgoing(srv: Server, marshal: Message -> Option<Payload>, writeOk: nat -> bool) returns (exited: bool)
      requires Valid() && !writerDone
      modifies this`outgoing, this`written, this`pendingHandlers, this`writerDone, srv`outgoingCount
      ensures Valid() && writerDone == exited
      ensures old(srv.Valid()) ==> srv.Valid()
      ensures var d := Drain(old(outgoing), marshal, writeOk, |old(written)|);
        && written == old(written) + d.written
        && outgoing == d.rest
        && exited == d.failed
        && srv.outgoingCount == old(srv.outgoingCount) + |d.written|
      ensures pendingHandlers == old(pendingHandlers) - (if exited then 1 else 0)
    {
      exited := WriteLoop(srv, marshal, writeOk);
      if exited {
        pendingHandlers := pendingHandlers - 1;
        writerDone := true;
      }
    }

    /** The write loop: takes wrappers from the outgoing channel, skips those
        whose message does not marshal, writes the others, and stops at the
        first failed write. */
    method WriteLoop(srv: Server, marshal: Message -> Option<Payload>, writeOk: nat -> bool) returns (exited: bool)
      modifies this`outgoing, this`written, srv`outgoingCount
      ensures |outgoing| <= |old(outgoing)|
      ensures var d := Drain(old(outgoing), marshal, writeOk, |old(written)|);
        && written == old(written) + d.written
        && outgoing == d.rest
        && exited == d.failed
        && srv.outgoingCount == old(srv.outgoingCount) + |d.written|
    {
      ghost var d0 := Drain(outgoing, marshal, writeOk, |written|);
      exited := false;
      while outgoing != []
        invariant var d := Drain(outgoing, marshal, writeOk, |written|);
          && old(written) + d0.written == written + d.written
          && d0.rest == d.rest && d0.failed == d.failed
          && srv.outgoingCount - old(srv.outgoingCount) == |written| - |old(written)|
        invariant |outgoing| <= |old(outgoing)|
        decreases |outgoing|
      {
        var wrapper := outgoing[0];
        outgoing := outgoing[1..];
        match marshal(wrapper.message) {
          case None =>
          case Some(data) =>
            if !writeOk(|written|) {
              exited := true;
              break;
            }
            written := written + [data];
            srv.outgoingCount := srv.outgoingCount + 1;
        }
      }
    }
  }

  /** The server's shared state: the global `clients` registry and
      `chatHistory`, the shared inbound queue, the queue towards the
      distribution bridge and the two message counters. */
  class Server {
    var chatHistory: seq<Message>
    var clients: seq<Client>
    var incoming: seq<MessageWrapper>
    var distributionOutgoing: seq<Message>
    var incomingCount: nat
    var outgoingCount: nat

    /** No client is registered twice and no outgoing channel is over capacity. */
    ghost predicate Valid()
      reads this`clients, clients`outgoing
    {
      Seqs.Distinct(clients)
      && forall i :: 0 <= i < |clients| ==> |clients[i].outgoing| <= MessageBufferSize
    }

    constructor ()
      ensures Valid()
      ensures chatHistory == [] && clients == [] && incoming == [] && distributionOutgoing == []
      ensures incomingCount == 0 && outgoingCount == 0
    {
      chatHistory := [];
      clients := [];
      incoming := [];
      distributionOutgoing := [];
      incomingCount := 0;
      outgoingCount := 0;
    }

    /** The loop of a client's read handler: reads frames until a read
        error, counts each frame read, and pushes one local wrapper per
        frame that decodes onto the inbound queue. */
    method Ingest(frames: seq<Frame>, decode: Payload -> Option<Message>) returns (exited: bool)
      modifies this`incoming, this`incomingCount
      ensures incoming == old(incoming) + Ingested(frames, decode)
      ensures incomingCount == old(incomingCount) + FramesRead(frames)
      ensures exited <==> ReadError in frames
    {
      var i := 0;
      exited := false;
      while i < |frames|
        invariant 0 <= i <= |frames|
        invariant ReadError !in frames[..i]
        invariant old(incoming) + Ingested(frames, decode) == incoming + Ingested(frames[i..], decode)
        invariant old(incomingCount) + FramesRead(frames) == incomingCount + FramesRead(frames[i..])
      {
        assert frames[i..][1..] == frames[i + 1..];
        assert frames[..i + 1] == frames[..i] + [frames[i]];
        if frames[i].ReadError? {
          exited := true;
          break;
        }
        incomingCount := incomingCount + 1;
        match decode(frames[i].data) {
          case None =>
          case Some(m) =>
            incoming := incoming + [MessageWrapper(m, Local)];
        }
        i := i + 1;
      }
      if !exited {
        assert frames[..i] == frames;
      }
    }

    /** Registration in StartClient: a new client with an empty outgoing
        channel is appended to the registry. */
    method StartClient(room: string) returns (c: Client)
      requires Valid()
      modifies this`clients
      ensures Valid() && fresh(c)
      ensures clients == old(clients) + [c]
      ensures c.Valid() && !c.readerDone && !c.writerDone
      ensures c.room == room && c.outgoing == [] && c.pendingHandlers == 2
      ensures c.written == [] && !c.closed
    {
      c := new Client(room);
      clients := clients + [c];
      assert clients[..|clients| - 1] == old(clients);
    }

    /** StartClient after both handlers have exited and so signalled the
        wait group: the client leaves the registry and its socket is closed. */
    method FinishClient(c: Client)
      requires Valid() && c.Valid() && c.readerDone && c.writerDone
      modifies this`clients, c`closed
      ensures Valid() && c.closed && c.pendingHandlers == 0
      ensures clients == Seqs.Filter(old(clients), Other(c))
    {
      RemoveClient(c);
      c.closed := true;
    }

    /** removeClient: rebuilds the registry without `c`. */
    method RemoveClient(c: Client)
      requires Valid()
      modifies this`clients
      ensures Valid()
      ensures clients == Seqs.Filter(old(clients), Other(c))
    {
      var filtered: seq<Client> := [];
      var i := 0;
      while i < |clients|
        invariant 0 <= i <= |clients| && clients == old(clients)
        invariant filtered == Seqs.Filter(clients[..i], Other(c))
      {
        Seqs.FilterSnoc(clients, i, Other(c));
        if clients[i] != c {
          filtered := filtered + [clients[i]];
        }
        i := i + 1;
      }
      assert clients[..i] == clients;
      Seqs.FilterDistinct(clients, Other(c));
      clients := filtered;
    }

    /** One step of BroadcastMessages for the wrapper `w`. */
    method Broadcast(enableDistribution: bool, w: MessageWrapper)
      requires Valid()
      modifies this`chatHistory, this`distributionOutgoing, clients`outgoing
      ensures Valid() && clients == old(clients) && incoming == old(incoming)
      ensures chatHistory == old(chatHistory) + [w.message]
      ensures distributionOutgoing == old(distributionOutgoing) + Forwarded(enableDistribution, [w])
      ensures forall i :: 0 <= i < |clients| ==>
                clients[i].outgoing == Offer(old(clients[i].outgoing), clients[i].room, w)
    {
      chatHistory := chatHistory + [w.message];
      assert [w][..0] == [];
      if enableDistribution && w.source == Local {
        distributionOutgoing := distributionOutgoing + [w.message];
      }
      var k := 0;
      while k < |clients|
        invariant 0 <= k <= |clients|
        invariant Seqs.Distinct(clients)
        invariant chatHistory == old(chatHistory) + [w.message]
        invariant distributionOutgoing == old(distributionOutgoing) + Forwarded(enableDistribution, [w])
        invariant forall i :: 0 <= i < k ==>
                    clients[i].outgoing == Offer(old(clients[i].outgoing), clients[i].room, w)
        invariant forall i :: k <= i < |clients| ==> clients[i].outgoing == old(clients[i].outgoing)
      {
        var client := clients[k];
        if w.message.Room == client.room {
          if |client.outgoing| < MessageBufferSize {
            client.outgoing := client.outgoing + [w];
          }
        }
        k := k + 1;
      }
    }

    /** BroadcastMessages: handles every wrapper waiting in the inbound
        queue, in arrival order. */
    method BroadcastMessages(enableDistribution: bool)
      requires Valid()
      modifies this`chatHistory, this`distributionOutgoing, this`incoming, clients`outgoing
      ensures Valid() && incoming == [] && clients == old(clients)
      ensures chatHistory == old(chatHistory) + Messages(old(incoming))
      ensures distributionOutgoing == old(distributionOutgoing) + Forwarded(enableDistribution, old(incoming))
      ensures forall i :: 0 <= i < |clients| ==>
                clients[i].outgoing == FanOut(old(clients[i].outgoing), clients[i].room, old(incoming))
    {
      ghost var ws := incoming;
      ghost var k := 0;
      while incoming != []
        invariant Valid()
        invariant 0 <= k <= |ws| && incoming == ws[k..]
        invariant chatHistory == old(chatHistory) + Messages(ws[..k])
        invariant distributionOutgoing == old(distributionOutgoing) + Forwarded(enableDistribution, ws[..k])
        invariant forall i :: 0 <= i < |clients| ==>
                    clients[i].outgoing == FanOut(old(clients[i].outgoing), clients[i].room, ws[..k])
        decreases |incoming|
      {
        var w := incoming[0];
        assert w == ws[k] && incoming[1..] == ws[k + 1..];
        incoming := incoming[1..];
        DispatchStep(enableDistribution, ws, k);
        Broadcast(enableDistribution, w);
        k := k + 1;
      }
      assert ws[..k] == ws;
    }
  }

  /** The step of the dispatcher loop: handling `ws[k]` after `ws[..k]`. */
  lemma DispatchStep(enableDistribution: bool, ws: seq<MessageWrapper>, k: nat)
    requires k < |ws|
    ensures Messages(ws[..k + 1]) == Messages(ws[..k]) + [ws[k].message]
    ensures Forwarded(enableDistribution, ws[..k + 1])
            == Forwarded(enableDistribution, ws[..k]) + Forwarded(enableDistribution, [ws[k]])
    ensures forall queue, room :: FanOut(queue, room, ws[..k + 1]) == Offer(FanOut(queue, room, ws[..k]), room, ws[k])
  {
    assert ws[..k + 1][..k] == ws[..k];
    assert [ws[k]][..0] == [];
  }

  /** The filter removeClient applies. */
  function Other(c: Client): Client -> bool {
    (x: Client) => x != c
  }

  /** removeClient leaves no entry for `c`, keeps the others in order, and a
      second removal changes nothing. */
  lemma RemoveClientProperties(clients: seq<Client>, c: Client)
    ensures c !in Seqs.Filter(clients, Other(c))
    ensures Seqs.IsSubseq(Seqs.Filter(clients, Other(c)), clients)
    ensures forall i :: 0 <= i < |clients| && clients[i] != c ==> clients[i] in Seqs.Filter(clients, Other(c))
    ensures Seqs.Filter(Seqs.Filter(clients, Other(c)), Other(c)) == Seqs.Filter(clients, Other(c))
  {
    Seqs.FilterIsSubseq(clients, Other(c));
    Seqs.FilterIdempotent(clients, Other(c));
  }

  /** The values SameRoomDelivery computes. */
  lemma SameRoomRun(m: Message, frame: Payload, decode: Payload -> Option<Message>)
    requires decode(frame) == Some(m) && m.Room == "r1"
    ensures Ingested([Frame(frame)], decode) == [MessageWrapper(m, Local)]
    ensures FanOut([], "r1", [MessageWrapper(m, Local)]) == [MessageWrapper(m, Local)]
    ensures FanOut([], "r2", [MessageWrapper(m, Local)]) == []
    ensures Forwarded(false, [MessageWrapper(m, Local)]) == []
  {
    var w := MessageWrapper(m, Local);
    assert [Frame(frame)][1..] == [];
    assert [w][..0] == [];
    assert FanOut([], "r1", [w]) == Offer([], "r1", w);
    assert FanOut([], "r2", [w]) == Offer([], "r2", w);
  }

  /** Set-up for SameRoomDelivery only, not a model of its own: clients A
      and B registered in room "r1", C in "r2", and A's read loop has
      pushed its one frame. */
  method ThreeClients(m: Message, frame: Payload, decode: Payload -> Option<Message>)
    returns (srv: Server, a: Client, b: Client, c: Client)
    requires decode(frame) == Some(m)
    ensures fresh(srv) && fresh(a) && fresh(b) && fresh(c)
    ensures srv.Valid() && srv.clients == [a, b, c]
    ensures a.room == "r1" && b.room == "r1" && c.room == "r2"
    ensures a.outgoing == [] && b.outgoing == [] && c.outgoing == []
    ensures srv.incoming == Ingested([Frame(frame)], decode) && srv.distributionOutgoing == []
  {
    srv := new Server();
    a := srv.StartClient("r1");
    b := srv.StartClient("r1");
    c := srv.StartClient("r2");
    var exited := a.HandleIncoming(srv, [Frame(frame)], decode);
  }

  /** Clients A and B are in room "r1", C in "r2"; A sends one message.
      A and B receive it verbatim (the sender is in its own room), C receives
      nothing, and with distribution off nothing goes to the bridge. */
  method SameRoomDelivery(m: Message, frame: Payload, decode: Payload -> Option<Message>)
    returns (toA: seq<MessageWrapper>, toB: seq<MessageWrapper>, toC: seq<MessageWrapper>, bridged: seq<Message>)
    requires decode(frame) == Some(m) && m.Room == "r1"
    ensures toA == [MessageWrapper(m, Local)] && toB == toA
    ensures toC == [] && bridged == []
  {
    var w := MessageWrapper(m, Local);
    SameRoomRun(m, frame, decode);
    var srv, a, b, c := ThreeClients(m, frame, decode);
    srv.BroadcastMessages(false);
    assert srv.clients[0] == a && srv.clients[1] == b && srv.clients[2] == c;
    toA, toB, toC, bridged := a.outgoing, b.outgoing, c.outgoing, srv.distributionOutgoing;
  }
}

/** The room layout of a load test (getRooms in load-test-client/main.go):
    the clients are split into consecutive blocks, one block per chat room.
    The source names each room with a fresh UUID; here room k is the
    number k, which keeps "fresh" and "distinct" without the generator. */
module Rooms {
  import opened Wrappers
  import opened GoNum

  /** The first client of block `room` when blocks have `size` clients
      (room * size, see BlockStartIsProduct). */
  function BlockStart(room: nat, size: nat): nat
    decreases room
  {
    if room == 0 then 0 else BlockStart(room - 1, size) + size
  }

  /** The block client `i` falls in (i / size, see BlockOfIsQuotient). */
  function BlockOf(i: nat, size: nat): nat
    requires size > 0
    decreases i
  {
    if i < size then 0 else 1 + BlockOf(i - size, size)
  }

  /** The room of client `i`: its block, except that the last room also
      takes the clients left over by the division. */
  function RoomOfClient(i: nat, size: nat, chats: nat): (r: nat)
    requires size > 0 && chats > 0
    ensures r < chats
  {
    if BlockOf(i, size) < chats - 1 then BlockOf(i, size) else chats - 1
  }

  /** getRooms. Fails when there are more chats than clients; a zero chat
      count that passes that test divides by zero in the source, hence the
      precondition. */
  method GetRooms(numOfClients: int64, numOfChats: int64) returns (r: Result<seq<nat>, string>)
    requires numOfChats != 0 || numOfChats > numOfClients
    ensures r.Failure? <==> numOfChats > numOfClients
    ensures r.Success? ==> |r.value| == (if numOfClients > 0 then numOfClients as int else 0)
    ensures r.Success? && numOfChats > 0 ==>
              forall i :: 0 <= i < |r.value| ==>
                r.value[i] == RoomOfClient(i, numOfClients as int / numOfChats as int, numOfChats as int)
    ensures r.Success? && numOfChats < 0 ==> forall i :: 0 <= i < |r.value| ==> r.value[i] == i
  {
    if numOfChats > numOfClients {
      return Failure("invalid configuration: number of chats is bigger than number of clients");
    }
    var numOfClientsInChat := TruncDiv(numOfClients, numOfChats);
    if numOfChats > 0 {
      ChatSizePositive(numOfClients as int, numOfChats as int);
    }

    var rooms: seq<nat> := [];
    var currentRoom: nat := 0;
    var numOfCreatedChats := 1;
    var counter := 0;
    ghost var base: int := 0;

    var i := 0;
    while i < numOfClients
      invariant 0 <= i <= (if numOfClients > 0 then numOfClients as int else 0) && |rooms| == i
      invariant numOfCreatedChats == currentRoom + 1
      invariant numOfChats > 0 ==>
        && numOfClientsInChat == numOfClients as int / numOfChats as int >= 1
        && i == base + counter && base == BlockStart(currentRoom, numOfClientsInChat) && 0 <= counter
        && currentRoom < numOfChats
        && (currentRoom < numOfChats - 1 ==> counter < numOfClientsInChat)
        && forall j :: 0 <= j < i ==> rooms[j] == RoomOfClient(j, numOfClientsInChat, numOfChats as int)
      invariant numOfChats < 0 ==>
        (numOfClients > 0 ==> numOfClientsInChat <= 0) && currentRoom == i && forall j :: 0 <= j < i ==> rooms[j] == j
    {
      if numOfChats > 0 {
        RoomInBlock(currentRoom, numOfClientsInChat, counter, numOfChats as int);
      }
      rooms := rooms + [currentRoom];

      counter := counter + 1;
      i := i + 1;
      if counter < numOfClientsInChat || numOfCreatedChats == numOfChats {
        continue;
      }

      counter := 0;
      base := base + numOfClientsInChat;
      currentRoom := currentRoom + 1;
      numOfCreatedChats := numOfCreatedChats + 1;
    }
    return Success(rooms);
  }

  /** With 1 <= chats <= clients each room gets at least one client per
      block, and the full blocks fit in the clients. */
  lemma ChatSizePositive(clients: nat, chats: nat)
    requires 1 <= chats <= clients
    ensures clients / chats >= 1
    ensures BlockStart(chats, clients / chats) <= clients
  {
    var size := clients / chats;
    assert clients == chats * size + clients % chats;
    BlockStartIsProduct(chats, size);
  }

  lemma {:induction false} BlockStartIsProduct(room: nat, size: nat)
    ensures BlockStart(room, size) == room * size
    decreases room
  {
    if room > 0 {
      BlockStartIsProduct(room - 1, size);
      assert (room - 1) * size + size == room * size;
    }
  }

  /** Client `i` is in block i / size: the blocks are the quotient classes
      of the division in getRooms. */
  lemma {:induction false} BlockOfIsQuotient(i: nat, size: nat)
    requires size > 0
    ensures BlockOf(i, size) == i / size
  {
    var q, r := i / size, i % size;
    assert i == q * size + r && r < size;
    BlockStartIsProduct(q, size);
    BlockOfStart(q, size, r);
  }

  /** The client `counter` places into block `room` lies in that block. */
  lemma {:induction false} BlockOfStart(room: nat, size: nat, counter: nat)
    requires size > 0 && counter < size
    ensures BlockOf(BlockStart(room, size) + counter, size) == room
    decreases room
  {
    if room > 0 {
      BlockOfStart(room - 1, size, counter);
    }
  }

  /** Past the start of block `room`, no client is in an earlier block. */
  lemma {:induction false} BlockOfPastStart(room: nat, size: nat, counter: nat)
    requires size > 0
    ensures BlockOf(BlockStart(room, size) + counter, size) >= room
    decreases room
  {
    if room > 0 {
      BlockOfPastStart(room - 1, size, counter);
    }
  }

  /** The client the loop places while in room `room` belongs to it. */
  lemma RoomInBlock(room: nat, size: nat, counter: nat, chats: nat)
    requires size > 0 && room < chats
    requires room < chats - 1 ==> counter < size
    ensures RoomOfClient(BlockStart(room, size) + counter, size, chats) == room
  {
    if room < chats - 1 {
      BlockOfStart(room, size, counter);
    } else {
      BlockOfPastStart(room, size, counter);
    }
  }

  lemma {:induction false} BlockStartMonotone(a: nat, b: nat, size: nat)
    requires a <= b
    ensures BlockStart(a, size) <= BlockStart(b, size)
    decreases b
  {
    if a < b {
      BlockStartMonotone(a, b - 1, size);
    }
  }

  /** Below the start of block `room`, every client is in an earlier block. */
  lemma {:induction false} BlockOfBeforeStart(room: nat, size: nat, i: nat)
    requires size > 0 && i < BlockStart(room, size)
    ensures BlockOf(i, size) < room
    decreases room
  {
    if i >= size {
      BlockOfBeforeStart(room - 1, size, i - size);
    }
  }

  // ---------------------------------------------------------------------
  // Properties of the layout

  /** Room k < chats-1 holds exactly the `size` clients from k*size on; the
      last room holds every client from (chats-1)*size on. */
  lemma RoomBlocks(i: nat, size: nat, chats: nat, k: nat)
    requires size > 0 && chats > 0 && k < chats
    ensures k < chats - 1 ==>
              (RoomOfClient(i, size, chats) == k <==> BlockStart(k, size) <= i < BlockStart(k, size) + size)
    ensures k == chats - 1 ==> (RoomOfClient(i, size, chats) == k <==> BlockStart(k, size) <= i)
  {
    var b := BlockStart(k, size);
    if b <= i < b + size {
      BlockOfStart(k, size, i - b);
    }
    if i < b {
      BlockOfBeforeStart(k, size, i);
    }
    if b + size <= i {
      assert BlockStart(k + 1, size) == b + size;
      BlockOfPastStart(k + 1, size, i - (b + size));
    }
    if b <= i {
      BlockOfPastStart(k, size, i - b);
    }
  }

  /** With 1 <= chats <= clients every client has one of the rooms
      0..chats-1 and each of these rooms has at least one client: exactly
      `chats` distinct rooms appear. */
  lemma AllRoomsUsed(clients: nat, chats: nat)
    requires 1 <= chats <= clients
    ensures clients / chats >= 1
    ensures forall k :: 0 <= k < chats ==>
              var first := BlockStart(k, clients / chats);
              first < clients && RoomOfClient(first, clients / chats, chats) == k
  {
    var size := clients / chats;
    ChatSizePositive(clients, chats);
    forall k | 0 <= k < chats
      ensures BlockStart(k, size) < clients && RoomOfClient(BlockStart(k, size), size, chats) == k
    {
      RoomInBlock(k, size, 0, chats);
      BlockStartMonotone(k + 1, chats, size);
    }
  }
}

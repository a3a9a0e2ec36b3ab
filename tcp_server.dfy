/**
 * The connection handler of backendInC/server.c, the plain TCP chat server: recipient
 * selection in `broadcastMessage`, the name and room a client sends as its first two
 * lines, the `"exit\n"` terminator, and the whole session `handleClient` runs for one
 * connection, from the name to the leave announcement.
 */
module TcpServer {
  import opened CStrings
  import opened ClientTable
  import opened ChatLines
  import ConvoCServer

  /** `BUFFER_SIZE`: the handler's receive buffer. */
  const BufferSize := 1024

  /** The line that ends a chat. */
  const ExitLine: seq<byte> := Ascii("exit\n")

  // ---------------------------------------------------------------------------
  // Broadcast

  /**
   * The clients `broadcastMessage` writes to, in slot order: occupied slots whose socket
   * is not the sender's and whose room is `room`.
   */
  function Peers(s: seq<Client?>, senderFD: int, room: int): (r: seq<Client>)
    reads s
    ensures |r| <= |s|
  {
    if s == [] then []
    else
      var last := s[|s| - 1];
      Peers(s[..|s| - 1], senderFD, room)
        + (if last != null && last.socketFD != senderFD && last.room == room then [last] else [])
  }

  /**
   * Every recipient is a client of the table in `room` with a socket other than the
   * sender's, and every such client of the table is a recipient.
   */
  lemma {:induction false} PeersAreRoomPeers(s: seq<Client?>, senderFD: int, room: int)
    ensures var r := Peers(s, senderFD, room);
      && (forall i :: 0 <= i < |r| ==> r[i] in s && r[i].socketFD != senderFD && r[i].room == room)
      && (forall j :: 0 <= j < |s| && s[j] != null && s[j].socketFD != senderFD && s[j].room == room ==> s[j] in r)
  {
    if s != [] {
      var front := s[..|s| - 1];
      PeersAreRoomPeers(front, senderFD, room);
      forall j | 0 <= j < |s| - 1 ensures s[j] == front[j] { }
    }
  }

  lemma {:induction false} PeersStep(s: seq<Client?>, i: nat, senderFD: int, room: int)
    requires i < |s|
    ensures Peers(s[..i + 1], senderFD, room)
      == Peers(s[..i], senderFD, room)
         + (if s[i] != null && s[i].socketFD != senderFD && s[i].room == room then [s[i]] else [])
  {
    assert s[..i + 1][..i] == s[..i];
  }

  /**
   * The WebSocket server compares clients by object and this one by socket: they pick
   * the same recipients for a sender whose socket no other client of the table shares.
   */
  lemma {:induction false} PeersAgreeWithWebSocketServer(s: seq<Client?>, sender: Client)
    requires forall j :: 0 <= j < |s| && s[j] != null && s[j] != sender ==> s[j].socketFD != sender.socketFD
    ensures Peers(s, sender.socketFD, sender.room) == ConvoCServer.Recipients(s, sender)
  {
    if s != [] {
      var front := s[..|s| - 1];
      forall j | 0 <= j < |front| && front[j] != null && front[j] != sender
        ensures front[j].socketFD != sender.socketFD
      {
        assert front[j] == s[j];
      }
      PeersAgreeWithWebSocketServer(front, sender);
    }
  }

  /** The sends of several broadcasts to the same recipients, one after the other. */
  function BroadcastAll(r: seq<Client>, messages: seq<seq<byte>>): seq<Send>
  {
    if messages == [] then [] else Copies(r, messages[0]) + BroadcastAll(r, messages[1..])
  }

  lemma {:induction false} BroadcastAllCons(r: seq<Client>, m: seq<byte>, rest: seq<seq<byte>>)
    ensures BroadcastAll(r, [m] + rest) == Copies(r, m) + BroadcastAll(r, rest)
  {
    assert ([m] + rest)[0] == m && ([m] + rest)[1..] == rest;
  }

  /**
   * `broadcastMessage` (lines 26-37): the `length` bytes of `message` go to every peer
   * of `room`. The ghost `r` names the peers the table holds when the call starts;
   * sending changes none of them.
   */
  method BroadcastMessage(clients: array<Client?>, senderFD: int, message: seq<byte>, room: int, ghost r: seq<Client>)
    returns (sent: seq<Send>)
    requires clients.Length == MaxClients
    requires r == Peers(clients[..], senderFD, room)
    ensures sent == Copies(r, message)
    ensures r == Peers(clients[..], senderFD, room)
  {
    ghost var table := clients[..];
    sent := [];
    for i := 0 to MaxClients
      invariant sent == Copies(Peers(table[..i], senderFD, room), message)
    {
      var c := clients[i];
      assert table[i] == c;
      PeersStep(table, i, senderFD, room);
      if c != null && c.socketFD != senderFD && c.room == room {
        CopiesAppend(Peers(table[..i], senderFD, room), c, message);
        sent := sent + [Send(c.socketFD, message)];
      } else {
        assert Peers(table[..i + 1], senderFD, room) == Peers(table[..i], senderFD, room);
      }
    }
    assert table[..MaxClients] == table;
  }

  // ---------------------------------------------------------------------------
  // The lines of a session

  /**
   * What the buffer holds as a C string after a chunk of the name or room phase: the
   * handler overwrites the chunk's last byte, taken to be the newline, with a NUL.
   */
  function LineOf(chunk: seq<byte>): seq<byte>
    requires chunk != []
  {
    CString(chunk[..|chunk| - 1])
  }

  /** The `strcmp(buffer, "exit\n") == 0` test on a chat chunk. */
  predicate IsExit(chunk: seq<byte>) {
    CString(chunk) == ExitLine
  }

  /** Line 59: `sprintf(buffer, "%s joined room %d\n", name, room)`. */
  function JoinLine(name: seq<byte>, room: int): seq<byte> {
    CString(name) + JoinedRoom + Decimal(room) + Newline
  }

  /** Each `recv` of the handler returns at most `sizeof(buffer) - 1` bytes. */
  predicate AllFit(chunks: seq<seq<byte>>) {
    forall k :: 0 <= k < |chunks| ==> |chunks[k]| < BufferSize
  }

  /** The stream after its last chunk: the peer closed, `recv` returns 0. */
  function NextChunk(chunks: seq<seq<byte>>, k: nat): seq<byte> {
    if k < |chunks| then chunks[k] else []
  }

  /**
   * The lines the chat loop (lines 63-76) relays from chunk `k` on: one per chunk, up to
   * the first chunk that is empty (the peer closed) or reads as `"exit\n"`.
   */
  function Relays(name: seq<byte>, chunks: seq<seq<byte>>, k: nat): seq<seq<byte>>
    decreases |chunks| - k
  {
    if k >= |chunks| || chunks[k] == [] || IsExit(chunks[k]) then []
    else [RelayLine(name, chunks[k])] + Relays(name, chunks, k + 1)
  }

  /** Relaying from chunk `k + 1` of a stream is relaying from chunk `k` of its tail. */
  lemma {:induction false} RelaysShift(name: seq<byte>, c: seq<byte>, rest: seq<seq<byte>>, k: nat)
    ensures Relays(name, [c] + rest, k + 1) == Relays(name, rest, k)
    decreases |rest| - k
  {
    var chunks := [c] + rest;
    if k < |rest| {
      assert chunks[k + 1] == rest[k];
      if rest[k] != [] && !IsExit(rest[k]) {
        RelaysShift(name, c, rest, k + 1);
      }
    }
  }

  /**
   * What a session leaves behind: the name and room the client ends with, and the
   * lines broadcast while it was registered, in order.
   */
  datatype Session = Session(name: seq<byte>, room: int, announced: seq<seq<byte>>)

  /** The handler reaches the join announcement: both the name chunk and the room chunk arrived. */
  predicate Joins(chunks: seq<seq<byte>>) {
    NextChunk(chunks, 0) != [] && NextChunk(chunks, 1) != []
  }

  /**
   * The name and room `handleClient` leaves in the client: each is set once its chunk
   * arrives (`strcpy` of the line, `atoi` of the line) and keeps its initial,
   * uninitialised value otherwise.
   */
  function Identity(name0: seq<byte>, room0: int, chunks: seq<seq<byte>>): (seq<byte>, int) {
    var c0 := NextChunk(chunks, 0);
    if c0 == [] then (name0, room0)
    else
      var c1 := NextChunk(chunks, 1);
      (LineOf(c0), if c1 == [] then room0 else Atoi(LineOf(c1)))
  }

  /**
   * The session of a connection whose chunks are `chunks`, for a client whose name and
   * room start as `name0` and `room0`: with both identity chunks, the join line and
   * then the relays; otherwise nothing before the leave announcement.
   */
  function SessionOf(name0: seq<byte>, room0: int, chunks: seq<seq<byte>>): Session {
    var id := Identity(name0, room0, chunks);
    Session(id.0, id.1, if Joins(chunks) then [JoinLine(id.0, id.1)] + Relays(id.0, chunks, 2) else [])
  }

  // ---------------------------------------------------------------------------
  // The handler

  /** One `recv` into the buffer: the chunk's bytes go to its front, the rest stays. */
  method Receive(chunk: seq<byte>, buffer: array<byte>)
    requires |chunk| < buffer.Length
    modifies buffer
    ensures buffer[..|chunk|] == chunk && buffer[|chunk|..] == old(buffer[|chunk|..])
  {
    forall i | 0 <= i < |chunk| {
      buffer[i] := chunk[i];
    }
  }

  /**
   * Lines 45-48 (and 52-55): receive a chunk and overwrite its last byte with NUL.
   * `live` says whether `recv` returned a positive length.
   */
  method ReadLine(chunk: seq<byte>, buffer: array<byte>) returns (live: bool)
    requires |chunk| < BufferSize && buffer.Length == BufferSize
    modifies buffer
    ensures live == (chunk != [])
    ensures live ==> CString(buffer[..]) == LineOf(chunk)
  {
    Receive(chunk, buffer);
    live := |chunk| > 0;
    if live {
      var n := |chunk|;
      buffer[n - 1] := NUL;
      assert buffer[..n - 1] == chunk[..n - 1];
      CStringStopsAtNul(buffer[..], n - 1);
    }
  }

  /** Lines 65-68: receive a chat chunk and terminate it with NUL just after its end. */
  method ReadText(chunk: seq<byte>, buffer: array<byte>) returns (live: bool)
    requires |chunk| < BufferSize && buffer.Length == BufferSize
    modifies buffer
    ensures live == (chunk != [])
    ensures live ==> CString(buffer[..]) == CString(chunk)
  {
    Receive(chunk, buffer);
    live := |chunk| > 0;
    if live {
      var n := |chunk|;
      buffer[n] := NUL;
      assert buffer[..n] == chunk;
      CStringStopsAtNul(buffer[..], n);
    }
  }

  /**
   * Lines 44-56 of `handleClient`: the name chunk, then the room chunk, and the fields
   * they set. `joined` says whether the handler goes on to announce the join.
   */
  method ReceiveIdentity(cli: Client, chunks: seq<seq<byte>>, buffer: array<byte>) returns (joined: bool)
    requires AllFit(chunks) && buffer.Length == BufferSize
    modifies cli, buffer
    ensures joined == Joins(chunks)
    ensures (cli.name, cli.room) == Identity(old(cli.name), old(cli.room), chunks)
  {
    joined := false;
    var live := ReadLine(NextChunk(chunks, 0), buffer);
    if live {
      cli.name := CString(buffer[..]);  // strcpy(cli->name, buffer)
      live := ReadLine(NextChunk(chunks, 1), buffer);
      if live {
        cli.room := Atoi(CString(buffer[..]));
        joined := true;
      }
    }
  }

  /**
   * One pass of the chat loop: receive a chunk and, unless the peer closed or sent
   * `"exit\n"`, relay `[name]: chunk` to `r`, the room's other clients.
   */
  method RelayChunk(clients: array<Client?>, cli: Client, chunk: seq<byte>, buffer: array<byte>,
                    ghost r: seq<Client>, ghost name: seq<byte>)
    returns (go: bool, sent: seq<Send>)
    requires clients.Length == MaxClients && buffer.Length == BufferSize
    requires |chunk| < BufferSize
    requires r == Peers(clients[..], cli.socketFD, cli.room) && name == cli.name
    modifies buffer
    ensures r == Peers(clients[..], cli.socketFD, cli.room) && name == cli.name
    ensures go == (chunk != [] && !IsExit(chunk))
    ensures go ==> sent == Copies(r, RelayLine(name, chunk))
  {
    var live := ReadText(chunk, buffer);
    assert r == Peers(clients[..], cli.socketFD, cli.room);
    go := false;
    sent := [];
    if live && CString(buffer[..]) != ExitLine {
      go := true;
      var message := RelayLine(cli.name, buffer[..]);
      assert message == RelayLine(name, chunk);
      sent := BroadcastMessage(clients, cli.socketFD, CString(message), cli.room, r);
    }
  }

  /** The chat loop of `handleClient` (lines 63-76), from the third chunk on. */
  method RelayChunks(clients: array<Client?>, cli: Client, chunks: seq<seq<byte>>, buffer: array<byte>,
                     ghost r: seq<Client>, ghost name: seq<byte>)
    returns (sent: seq<Send>)
    requires clients.Length == MaxClients && buffer.Length == BufferSize
    requires AllFit(chunks)
    requires r == Peers(clients[..], cli.socketFD, cli.room) && name == cli.name
    modifies buffer
    ensures r == Peers(clients[..], cli.socketFD, cli.room) && name == cli.name
    ensures sent == BroadcastAll(r, Relays(name, chunks, 2))
  {
    ghost var all := BroadcastAll(r, Relays(name, chunks, 2));
    sent := [];
    var k := 2;
    while k < |chunks|
      invariant 2 <= k
      invariant sent + BroadcastAll(r, Relays(name, chunks, k)) == all
      invariant r == Peers(clients[..], cli.socketFD, cli.room) && name == cli.name
      decreases |chunks| - k
    {
      var go, out := RelayChunk(clients, cli, chunks[k], buffer, r, name);
      if !go {
        break;
      }
      ghost var later := BroadcastAll(r, Relays(name, chunks, k + 1));
      assert out + later == BroadcastAll(r, Relays(name, chunks, k)) by {
        var message := RelayLine(name, chunks[k]);
        assert Relays(name, chunks, k) == [message] + Relays(name, chunks, k + 1);
        BroadcastAllCons(r, message, Relays(name, chunks, k + 1));
      }
      Regroup(sent, out, later);
      sent := sent + out;
      k := k + 1;
    }
  }

  /** Lines 58-76: the join line, then the chat loop. */
  method Chat(clients: array<Client?>, cli: Client, chunks: seq<seq<byte>>, buffer: array<byte>)
    returns (sent: seq<Send>)
    requires clients.Length == MaxClients && buffer.Length == BufferSize
    requires AllFit(chunks)
    modifies buffer
    ensures sent == BroadcastAll(Peers(clients[..], cli.socketFD, cli.room),
                                 [JoinLine(cli.name, cli.room)] + Relays(cli.name, chunks, 2))
  {
    ghost var r := Peers(clients[..], cli.socketFD, cli.room);
    ghost var name := cli.name;
    var join := JoinLine(cli.name, cli.room);
    assert CString(join) == join;  // strlen(buffer)
    sent := BroadcastMessage(clients, cli.socketFD, CString(join), cli.room, r);
    var relays := RelayChunks(clients, cli, chunks, buffer, r, name);
    BroadcastAllCons(r, join, Relays(name, chunks, 2));
    sent := sent + relays;
  }

  /** Lines 44-76 of `handleClient`, with the name and room they leave in `cli`. */
  method Converse(clients: array<Client?>, cli: Client, chunks: seq<seq<byte>>, buffer: array<byte>)
    returns (sent: seq<Send>)
    requires clients.Length == MaxClients && buffer.Length == BufferSize
    requires AllFit(chunks)
    modifies cli, buffer
    ensures var t := SessionOf(old(cli.name), old(cli.room), chunks);
      && cli.name == t.name && cli.room == t.room
      && sent == BroadcastAll(Peers(clients[..], cli.socketFD, cli.room), t.announced)
  {
    ghost var t := SessionOf(cli.name, cli.room, chunks);
    sent := [];
    var joined := ReceiveIdentity(cli, chunks, buffer);
    if joined {
      assert t.announced == [JoinLine(cli.name, cli.room)] + Relays(cli.name, chunks, 2);
      sent := Chat(clients, cli, chunks, buffer);
    }
  }

  /**
   * Lines 78-94 of `handleClient`: clear the client's slot, then announce that it left.
   * The ghost `r`, the peers `table` held before, stays what it was.
   */
  method Leave(clients: array<Client?>, cli: Client, ghost table: seq<Client?>, ghost r: seq<Client>)
    returns (sent: seq<Send>)
    requires clients.Length == MaxClients
    requires r == Peers(table, cli.socketFD, cli.room)
    modifies clients
    ensures clients[..] == Removed(old(clients[..]), cli)
    ensures sent == Copies(Peers(clients[..], cli.socketFD, cli.room), LeaveAnnouncement(cli.name, cli.room))
    ensures r == Peers(table, cli.socketFD, cli.room)
  {
    Unregister(clients, cli);
    assert r == Peers(table, cli.socketFD, cli.room);
    var leave := LeaveAnnouncement(cli.name, cli.room);
    assert CString(leave) == leave;  // strlen(buffer)
    sent := BroadcastMessage(clients, cli.socketFD, CString(leave), cli.room, Peers(clients[..], cli.socketFD, cli.room));
  }

  /**
   * `handleClient` (lines 39-98) for client `cli`: the sends to other clients, the name
   * and room it leaves in `cli`, and the table after its slot is cleared. The client is
   * removed before the leave line goes out, so the sends of that line go to the table
   * as it is after the removal.
   */
  method HandleClient(clients: array<Client?>, cli: Client, chunks: seq<seq<byte>>)
    returns (sent: seq<Send>)
    requires clients.Length == MaxClients
    requires AllFit(chunks)
    modifies clients, cli
    ensures var t := SessionOf(old(cli.name), old(cli.room), chunks);
      && cli.name == t.name && cli.room == t.room
      && clients[..] == Removed(old(clients[..]), cli)
      && sent == BroadcastAll(Peers(old(clients[..]), cli.socketFD, cli.room), t.announced)
                 + Copies(Peers(clients[..], cli.socketFD, cli.room), LeaveAnnouncement(t.name, t.room))
  {
    ghost var table := clients[..];
    var buffer := new byte[BufferSize];
    sent := Converse(clients, cli, chunks, buffer);
    assert clients[..] == table;
    var leave := Leave(clients, cli, table, Peers(table, cli.socketFD, cli.room));
    sent := sent + leave;
  }

  // ---------------------------------------------------------------------------
  // Properties of the session

  /** The room of a join line is printed after the name and read back by `atoi`. */
  lemma {:induction false} JoinLineRoom(name: seq<byte>, room: int)
    requires NUL !in name
    ensures var line := JoinLine(name, room);
      && NUL !in line
      && line[..|name|] == name
      && line[|name|..|name| + |JoinedRoom|] == JoinedRoom
      && Atoi(line[|name| + |JoinedRoom|..]) == room
  {
    var tail := Decimal(room) + Newline;
    assert JoinLine(name, room) == name + JoinedRoom + tail;
    ThreeParts(name, JoinedRoom, tail);
    assert Newline[0] == '\n' as int;
    AtoiDecimal(room, Newline);
  }

  /** The name is the first chunk without its last byte, whatever that byte is. */
  lemma {:induction false} NameDropsLastByte(name: seq<byte>, last: byte)
    requires NUL !in name
    ensures LineOf(name + [last]) == name
  {
    assert (name + [last])[..|name|] == name;
  }

  /**
   * The room is what `atoi` reads from the second chunk without its last byte: a
   * decimal number followed by the newline reads as that number, and a line without
   * digits reads as 0.
   */
  lemma {:induction false} RoomReadsDecimal(room: int, last: byte)
    ensures Atoi(LineOf(Decimal(room) + [last])) == room
  {
    assert (Decimal(room) + [last])[..|Decimal(room)|] == Decimal(room);
    AtoiDecimal(room, []);
    assert Decimal(room) + [] == Decimal(room);
  }

  lemma {:induction false} RoomWithoutDigitsIsZero(line: seq<byte>, last: byte)
    requires NUL !in line
    requires forall i :: 0 <= i < |line| ==> !IsDigit(line[i])
    ensures Atoi(LineOf(line + [last])) == 0
  {
    assert (line + [last])[..|line|] == line;
    AtoiWithoutDigits(line);
  }

  /**
   * A client that sends a name line and a room line is named and placed in the room,
   * the join line is announced, and the chunks after the two lines are relayed.
   */
  lemma {:induction false} IdentityLinesSetIdentity(name0: seq<byte>, room0: int, name: seq<byte>, room: int,
                                                    rest: seq<seq<byte>>)
    requires NUL !in name
    ensures SessionOf(name0, room0, [name + Newline, Decimal(room) + Newline] + rest)
         == Session(name, room, [JoinLine(name, room)] + Relays(name, rest, 0))
  {
    var chunks := [name + Newline, Decimal(room) + Newline] + rest;
    IdentityOfLines(name0, room0, name, room, rest);
    JoinedSession(name0, room0, chunks, name, room);
    RelaysAfterTwo(name, chunks[0], chunks[1], rest);
  }

  /** Relaying from the third chunk of a stream is relaying its chunks after the first two. */
  lemma {:induction false} RelaysAfterTwo(name: seq<byte>, a: seq<byte>, b: seq<byte>, rest: seq<seq<byte>>)
    ensures Relays(name, [a, b] + rest, 2) == Relays(name, rest, 0)
  {
    assert [a, b] + rest == [a] + ([b] + rest);
    RelaysShift(name, a, [b] + rest, 1);
    RelaysShift(name, b, rest, 0);
  }

  lemma {:induction false} IdentityOfLines(name0: seq<byte>, room0: int, name: seq<byte>, room: int,
                                           rest: seq<seq<byte>>)
    requires NUL !in name
    ensures var chunks := [name + Newline, Decimal(room) + Newline] + rest;
      Joins(chunks) && Identity(name0, room0, chunks) == (name, room)
  {
    var chunks := [name + Newline, Decimal(room) + Newline] + rest;
    assert chunks[0] == name + ['\n' as int] && chunks[1] == Decimal(room) + ['\n' as int];
    NameDropsLastByte(name, '\n' as int);
    RoomReadsDecimal(room, '\n' as int);
  }

  /** A session that reaches the join announcement with the identity `(name, room)`. */
  lemma {:induction false} JoinedSession(name0: seq<byte>, room0: int, chunks: seq<seq<byte>>, name: seq<byte>, room: int)
    requires Joins(chunks) && Identity(name0, room0, chunks) == (name, room)
    ensures SessionOf(name0, room0, chunks) == Session(name, room, [JoinLine(name, room)] + Relays(name, chunks, 2))
  {
  }

  /** A chunk that reads as `"exit\n"` ends the chat loop: nothing from it on is relayed. */
  lemma {:induction false} ExitEndsChat(name: seq<byte>, before: seq<seq<byte>>, after: seq<seq<byte>>)
    ensures Relays(name, before + [ExitLine] + after, 0) == Relays(name, before + [ExitLine], 0)
  {
    ExitEndsChatFrom(name, before, after, 0);
  }

  lemma {:induction false} ExitEndsChatFrom(name: seq<byte>, before: seq<seq<byte>>, after: seq<seq<byte>>, k: nat)
    requires k <= |before|
    ensures Relays(name, before + [ExitLine] + after, k) == Relays(name, before + [ExitLine], k)
    decreases |before| + 1 - k
  {
    var exit := ExitLine;
    var long := before + [exit] + after;
    var short := before + [exit];
    assert IsExit(exit);
    if k < |before| {
      assert long[k] == short[k] == before[k];
      ExitEndsChatFrom(name, before, after, k + 1);
    } else {
      assert long[k] == short[k] == exit;
    }
  }

  /** A chunk with text other than the exit line is relayed, and relaying goes on with the rest. */
  lemma {:induction false} RelaysCons(name: seq<byte>, c: seq<byte>, rest: seq<seq<byte>>)
    ensures Relays(name, [c] + rest, 0)
      == if c == [] || IsExit(c) then [] else [RelayLine(name, c)] + Relays(name, rest, 0)
  {
    assert ([c] + rest)[0] == c;
    RelaysShift(name, c, rest, 0);
  }

  /**
   * The comparison is with the whole C string: `"exit"` without the newline is relayed
   * like any other chunk.
   */
  lemma {:induction false} ExitNeedsNewline(name: seq<byte>, rest: seq<seq<byte>>)
    ensures Relays(name, [Ascii("exit")] + rest, 0) == [RelayLine(name, Ascii("exit"))] + Relays(name, rest, 0)
  {
    var e := Ascii("exit");
    assert !IsExit(e) by {
      assert |CString(e)| == 4;
    }
    RelaysCons(name, e, rest);
  }

  /** The exit line with more text after it in the same chunk is relayed too. */
  lemma {:induction false} ExitWithMoreTextIsRelayed(name: seq<byte>, tail: seq<byte>, rest: seq<seq<byte>>)
    requires NUL !in tail && tail != []
    ensures Relays(name, [ExitLine + tail] + rest, 0) == [RelayLine(name, ExitLine + tail)] + Relays(name, rest, 0)
  {
    var c := ExitLine + tail;
    assert NUL !in c;
    assert !IsExit(c) by {
      assert |CString(c)| == |c| > 5;
    }
    RelaysCons(name, c, rest);
  }

  /** A NUL right after the exit line hides whatever follows it from `strcmp`. */
  lemma {:induction false} NulAfterExitLineExits(tail: seq<byte>)
    ensures IsExit(ExitLine + [NUL] + tail)
  {
    var z := ExitLine + [NUL] + tail;
    assert z[..5] == ExitLine && z[5] == NUL;
    CStringStopsAtNul(z, 5);
  }

  /** Every relayed line is `[name]: text` for the C string of one chunk, in chunk order. */
  lemma {:induction false} RelaysAreChunkLines(name: seq<byte>, chunks: seq<seq<byte>>, k: nat)
    ensures var r := Relays(name, chunks, k);
      && k + |r| <= |chunks| + (if k > |chunks| then k - |chunks| else 0)
      && forall i :: 0 <= i < |r| ==> r[i] == RelayLine(name, chunks[k + i])
    decreases |chunks| - k
  {
    if k < |chunks| && chunks[k] != [] && !IsExit(chunks[k]) {
      RelaysAreChunkLines(name, chunks, k + 1);
      var r := Relays(name, chunks, k);
      assert forall i :: 1 <= i < |r| ==> r[i] == Relays(name, chunks, k + 1)[i - 1];
    }
  }

  /** A connection that closes before its room line leaves the room as it was, and announces nothing before leaving. */
  lemma {:induction false} EarlyCloseKeepsRoom(name0: seq<byte>, room0: int, chunks: seq<seq<byte>>)
    requires NextChunk(chunks, 1) == []
    ensures var t := SessionOf(name0, room0, chunks);
      t.room == room0 && t.announced == []
      && t.name == (if NextChunk(chunks, 0) == [] then name0 else LineOf(chunks[0]))
  {
  }
}

/**
 * The connection handler of backendInC/ConvoCServer.c, the WebSocket chat server:
 * recipient selection in `broadcastMessage`, the join frame parse and the relay and
 * announcement lines of `handleClient`, and the whole session `handleClient` runs for
 * one connection, from the join frame to the leave announcement.
 */
module ConvoCServer {
  import opened Wrappers
  import opened CStrings
  import opened WebSocketFrame
  import opened ClientTable
  import opened ChatLines

  /** `BUFFER_SIZE`: the handler's frame buffer. */
  const BufferSize := 2048

  // ---------------------------------------------------------------------------
  // Broadcast

  /**
   * The clients `broadcastMessage` writes to, in slot order: occupied slots whose client
   * is another object than the sender and is in the sender's room.
   */
  function Recipients(s: seq<Client?>, sender: Client): (r: seq<Client>)
    reads s, sender
    ensures |r| <= |s|
  {
    if s == [] then []
    else
      var last := s[|s| - 1];
      Recipients(s[..|s| - 1], sender)
        + (if last != null && last != sender && last.room == sender.room then [last] else [])
  }

  /**
   * Every recipient is another client of the sender's room held in the table, and
   * every such client in the table is a recipient.
   */
  lemma {:induction false} RecipientsAreRoomPeers(s: seq<Client?>, sender: Client)
    ensures var r := Recipients(s, sender);
      && (forall i :: 0 <= i < |r| ==> r[i] in s && r[i] != sender && r[i].room == sender.room)
      && (forall j :: 0 <= j < |s| && s[j] != null && s[j] != sender && s[j].room == sender.room ==> s[j] in r)
  {
    if s != [] {
      var front := s[..|s| - 1];
      RecipientsAreRoomPeers(front, sender);
      forall j | 0 <= j < |s| - 1 ensures s[j] == front[j] { }
    }
  }

  /** Recipients keep slot order: those of a table's front part come before those of the rest. */
  lemma {:induction false} RecipientsInSlotOrder(a: seq<Client?>, b: seq<Client?>, sender: Client)
    ensures Recipients(a + b, sender) == Recipients(a, sender) + Recipients(b, sender)
  {
    if b != [] {
      assert (a + b)[..|a + b| - 1] == a + b[..|b| - 1];
      RecipientsInSlotOrder(a, b[..|b| - 1], sender);
    } else {
      assert a + b == a;
    }
  }

  lemma {:induction false} RecipientsStep(s: seq<Client?>, i: nat, sender: Client)
    requires i < |s|
    ensures Recipients(s[..i + 1], sender)
      == Recipients(s[..i], sender) + (if s[i] != null && s[i] != sender && s[i].room == sender.room then [s[i]] else [])
  {
    assert s[..i + 1][..i] == s[..i];
  }

  /** One `sendWebSocketMessage` frame of `message` to each of `r`, in order. */
  function Deliveries(r: seq<Client>, message: seq<byte>): seq<Send> {
    Copies(r, ServerFrame(message))
  }

  /** Each recipient receives exactly one server frame carrying `message`, in recipient order. */
  lemma {:induction false} DeliveriesPointwise(r: seq<Client>, message: seq<byte>)
    ensures var d := Deliveries(r, message);
      |d| == |r| && forall i :: 0 <= i < |r| ==> d[i] == Send(r[i].socketFD, ServerFrame(message))
  {
    CopiesPointwise(r, ServerFrame(message));
  }

  /** The deliveries of several broadcasts to the same recipients, one after the other. */
  function BroadcastAll(r: seq<Client>, messages: seq<seq<byte>>): seq<Send>
  {
    if messages == [] then [] else Deliveries(r, messages[0]) + BroadcastAll(r, messages[1..])
  }

  lemma {:induction false} BroadcastAllCons(r: seq<Client>, m: seq<byte>, rest: seq<seq<byte>>)
    ensures BroadcastAll(r, [m] + rest) == Deliveries(r, m) + BroadcastAll(r, rest)
  {
    assert ([m] + rest)[0] == m && ([m] + rest)[1..] == rest;
  }

  /**
   * `broadcastMessage` (lines 74-85): what it sends, and to whom. The frame that
   * `sendWebSocketMessage` builds depends on the message alone, so it is built once,
   * before the scan. The ghost `r` names the recipients the table holds when the call
   * starts; sending changes none of them.
   */
  method BroadcastMessage(clients: array<Client?>, sender: Client, message: seq<byte>, ghost r: seq<Client>)
    returns (sent: seq<Send>)
    requires clients.Length == MaxClients
    requires r == Recipients(clients[..], sender)
    ensures sent == Deliveries(r, message)
    ensures r == Recipients(clients[..], sender)
  {
    var wire := SendWebSocketMessage(message);
    assert r == Recipients(clients[..], sender);
    ghost var table := clients[..];
    sent := [];
    for i := 0 to MaxClients
      invariant sent == Copies(Recipients(table[..i], sender), wire)
    {
      var c := clients[i];
      assert table[i] == c;
      RecipientsStep(table, i, sender);
      if c != null && c != sender && c.room == sender.room {
        CopiesAppend(Recipients(table[..i], sender), c, wire);
        sent := sent + [Send(c.socketFD, wire)];
      } else {
        assert Recipients(table[..i + 1], sender) == Recipients(table[..i], sender);
      }
    }
    assert table[..MaxClients] == table;
  }

  // ---------------------------------------------------------------------------
  // The join frame

  /** What the `sscanf` at line 190 assigns: the name, then the room, each only when matched. */
  datatype JoinFields = JoinFields(name: Option<seq<byte>>, room: Option<int>)

  const JoinPrefix: seq<byte> := Ascii("{\"type\":\"join\",\"name\":\"")
  const RoomInfix: seq<byte> := Ascii("\",\"room\":\"")
  const JoinSuffix: seq<byte> := Ascii("\"}")

  predicate IsNotQuote(b: byte) {
    b != '"' as int
  }

  /**
   * The `sscanf` pattern of line 190 applied to a C string: the literal prefix must match
   * exactly; `%[^"]` then takes one or more bytes up to a quote; the literal between
   * name and room must match; `%d` reads the room. Matching stops at the first
   * failure, and what comes after the room is not looked at.
   */
  function ScanJoin(s: seq<byte>): (f: JoinFields)
    ensures f.room.Some? ==> f.name.Some?
    ensures f.name.Some? ==> f.name.value != [] && '"' as int !in f.name.value
  {
    match AfterLiteral(JoinPrefix, s)
    case None => JoinFields(None, None)
    case Some(rest) =>
      var n := Span(rest, IsNotQuote);
      SpanRun(rest, IsNotQuote);
      if n == 0 then JoinFields(None, None)
      else JoinFields(Some(rest[..n]), ScanRoom(rest[n..]))
  }

  /** The part of the pattern after the name: the literal, then `%d`. */
  function ScanRoom(s: seq<byte>): Option<int> {
    match AfterLiteral(RoomInfix, s)
    case None => None
    case Some(t) =>
      match ScanInt(t)
      case None => None
      case Some((v, _)) => Some(v)
  }

  /**
   * The join object a browser client sends, `{"type":"join","name":"N","room":"R"}`, the
   * way `JSON.stringify` writes it for a name without characters it escapes.
   */
  function JoinText(name: seq<byte>, room: seq<byte>): seq<byte> {
    JoinPrefix + name + RoomInfix + room + JoinSuffix
  }

  /**
   * A text that starts with the prefix, a non-empty quote-free name and the literal
   * before the room always yields the name; it yields a room exactly when `%d` can
   * read one from what follows.
   */
  lemma {:induction false} ScanJoinFields(name: seq<byte>, t: seq<byte>)
    requires name != [] && '"' as int !in name
    ensures ScanJoin(JoinPrefix + name + RoomInfix + t)
      == JoinFields(Some(name), if ScanInt(t).Some? then Some(ScanInt(t).value.0) else None)
  {
    var s := JoinPrefix + name + RoomInfix + t;
    var rest := name + (RoomInfix + t);
    assert s == JoinPrefix + rest;
    AfterLiteralConcat(JoinPrefix, rest);
    assert RoomInfix[0] == '"' as int;
    SpanExact(rest, IsNotQuote, |name|);
    assert rest[..|name|] == name && rest[|name|..] == RoomInfix + t;
    ScanRoomAfterInfix(t);
  }

  lemma {:induction false} ScanRoomAfterInfix(t: seq<byte>)
    ensures ScanRoom(RoomInfix + t) == if ScanInt(t).Some? then Some(ScanInt(t).value.0) else None
  {
    AfterLiteralConcat(RoomInfix, t);
  }

  /** The join frame yields the quote-free name N and the room R read as a decimal integer. */
  lemma {:induction false} ScanJoinText(name: seq<byte>, room: int)
    requires name != [] && '"' as int !in name
    ensures ScanJoin(JoinText(name, Decimal(room))) == JoinFields(Some(name), Some(room))
  {
    assert JoinText(name, Decimal(room)) == JoinPrefix + name + RoomInfix + (Decimal(room) + JoinSuffix);
    ScanJoinFields(name, Decimal(room) + JoinSuffix);
    assert JoinSuffix[0] == '"' as int;
    ScanDecimal(room, JoinSuffix);
  }

  // ---------------------------------------------------------------------------
  // The join announcement

  /**
   * Line 193: the join object rebuilt from the client's name and room, then
   * " joined room R" and a newline.
   */
  function JoinAnnouncement(name: seq<byte>, room: int): seq<byte> {
    JoinText(CString(name), Decimal(room)) + JoinedRoom + Decimal(room) + Newline
  }

  /**
   * The announcement is a join object followed by " joined room R" and a newline, and
   * holds no NUL, so `strlen` covers all of it.
   */
  lemma {:induction false} JoinAnnouncementLayout(name: seq<byte>, room: int)
    requires NUL !in name
    ensures var line := JoinAnnouncement(name, room);
      var obj := JoinText(name, Decimal(room));
      && line == obj + (JoinedRoom + Decimal(room) + Newline)
      && NUL !in line
      && line[..|obj|] == obj
      && line[|obj|..] == JoinedRoom + Decimal(room) + Newline
  {
    var line := JoinAnnouncement(name, room);
    var obj := JoinText(name, Decimal(room));
    assert line == obj + (JoinedRoom + Decimal(room) + Newline);
  }

  /** The same `sscanf` reads the announcement back as the client's name and room. */
  lemma {:induction false} JoinAnnouncementScans(name: seq<byte>, room: int)
    requires name != [] && '"' as int !in name && NUL !in name
    ensures ScanJoin(JoinAnnouncement(name, room)) == JoinFields(Some(name), Some(room))
  {
    var digits := Decimal(room);
    var after := JoinSuffix + (JoinedRoom + digits + Newline);
    JoinAnnouncementLayout(name, room);
    JoinTextThen(name, digits, JoinedRoom + digits + Newline);
    ScanJoinFields(name, digits + after);
    assert after[0] == '"' as int;
    ScanDecimal(room, after);
  }

  lemma {:induction false} JoinTextThen(name: seq<byte>, room: seq<byte>, x: seq<byte>)
    ensures JoinText(name, room) + x == JoinPrefix + name + RoomInfix + (room + (JoinSuffix + x))
  {
    var a := JoinPrefix + name + RoomInfix;
    assert ((a + room) + JoinSuffix) + x == a + (room + (JoinSuffix + x));
  }

  // ---------------------------------------------------------------------------
  // One connection's session

  /** Every frame of the connection can be read by `decodeWebSocketFrame` into the buffer. */
  predicate AllReadable(frames: seq<seq<byte>>) {
    forall k :: 0 <= k < |frames| ==> Readable(frames[k], BufferSize)
  }

  /**
   * What the handler holds after decoding `frame`: nothing when the decoder reports
   * length 0 (the peer closed, or the frame is empty), otherwise the C string the
   * payload leaves in the buffer.
   */
  function Received(frame: seq<byte>): Option<seq<byte>>
    requires Readable(frame, BufferSize)
  {
    if frame == [] || PayloadLength(frame) == 0 then None else Some(CString(Payload(frame)))
  }

  /** What the handler holds after each of the connection's frames. */
  function Texts(frames: seq<seq<byte>>): (t: seq<Option<seq<byte>>>)
    requires AllReadable(frames)
    ensures |t| == |frames|
  {
    if frames == [] then [] else [Received(frames[0])] + Texts(frames[1..])
  }

  /** Entry `k` of `Texts(frames)` is what frame `k` reads as. */
  lemma {:induction false} TextsAt(frames: seq<seq<byte>>, k: nat)
    requires AllReadable(frames) && k < |frames|
    ensures Texts(frames)[k] == Received(frames[k])
  {
    if k > 0 {
      assert frames[1..][k - 1] == frames[k];
      TextsAt(frames[1..], k - 1);
    }
  }

  /**
   * The lines the chat loop (lines 197-206) relays from frame `k` on: one per frame, up
   * to the first frame that reads as length 0 or the end of the stream.
   */
  function Relays(name: seq<byte>, texts: seq<Option<seq<byte>>>, k: nat): seq<seq<byte>>
    decreases |texts| - k
  {
    if k >= |texts| || texts[k].None? then []
    else [RelayLine(name, texts[k].value)] + Relays(name, texts, k + 1)
  }

  /** Relaying from frame `k + 1` of a stream is relaying from frame `k` of its tail. */
  lemma {:induction false} RelaysShift(name: seq<byte>, t: Option<seq<byte>>, rest: seq<Option<seq<byte>>>, k: nat)
    ensures Relays(name, [t] + rest, k + 1) == Relays(name, rest, k)
    decreases |rest| - k
  {
    var texts := [t] + rest;
    if k < |rest| {
      assert texts[k + 1] == rest[k];
      if rest[k].Some? {
        RelaysShift(name, t, rest, k + 1);
      }
    }
  }

  /**
   * What a session leaves behind: the name and room the client ends with, and the
   * lines broadcast while it was registered, in order.
   */
  datatype Session = Session(name: seq<byte>, room: int, announced: seq<seq<byte>>)

  /**
   * The session of a connection whose first `recv` delivers `handshake` (empty when the
   * peer has already closed) and whose frames read as `texts`, for a client whose name
   * and room start as `name0` and `room0`. Without a join frame of positive length
   * nothing is announced; otherwise the fields the join parse matched replace the
   * initial ones, the join announcement goes out even if nothing matched, and the
   * relays follow.
   */
  function SessionOf(name0: seq<byte>, room0: int, handshake: seq<byte>, texts: seq<Option<seq<byte>>>): Session {
    var id := Identity(name0, room0, handshake, texts);
    Session(id.0, id.1, if Joins(handshake, texts) then [JoinAnnouncement(id.0, id.1)] + Relays(id.0, texts, 1) else [])
  }

  /** The handler reaches the join announcement: a handshake arrived and the first frame has a positive length. */
  predicate Joins(handshake: seq<byte>, texts: seq<Option<seq<byte>>>) {
    handshake != [] && texts != [] && texts[0].Some?
  }

  /** The name and room the client record holds once the join frame has been parsed. */
  function Identity(name0: seq<byte>, room0: int, handshake: seq<byte>, texts: seq<Option<seq<byte>>>): (seq<byte>, int) {
    if !Joins(handshake, texts) then (name0, room0)
    else
      var fields := ScanJoin(texts[0].value);
      (fields.name.GetOr(name0), fields.room.GetOr(room0))
  }

  /** The stream after its last frame: the peer closed, `recv` returns 0. */
  function NextFrame(frames: seq<seq<byte>>, k: nat): seq<byte> {
    if k < |frames| then frames[k] else []
  }

  /** The C string the decoder leaves in the buffer is the payload up to its first NUL. */
  lemma {:induction false} DecodedText(frame: seq<byte>, buf: seq<byte>, n: nat)
    requires Complete(frame) && n < |buf| && buf[..n] == Payload(frame) && buf[n] == NUL
    ensures CString(buf) == CString(Payload(frame))
  {
    CStringStopsAtNul(buf, n);
  }

  /**
   * One `decodeWebSocketFrame` call of the handler: whether it reported a positive
   * length, and what the buffer then holds as a C string.
   */
  method ReadFrame(frame: seq<byte>, buffer: array<byte>) returns (live: bool)
    requires Readable(frame, BufferSize) && buffer.Length == BufferSize
    modifies buffer
    ensures live == Received(frame).Some?
    ensures live ==> CString(buffer[..]) == Received(frame).value
  {
    var n := DecodeWebSocketFrame(frame, buffer);
    live := n > 0;
    if live {
      DecodedText(frame, buffer[..], n);
    }
  }

  /**
   * Lines 178-193 of `handleClient`: the handshake `recv`, the first frame, the join
   * parse and the fields it sets. `joined` says whether the handler goes on to
   * announce the join (the first frame had a positive length).
   */
  method ReceiveJoin(cli: Client, handshake: seq<byte>, frames: seq<seq<byte>>, buffer: array<byte>)
    returns (joined: bool)
    requires AllReadable(frames) && buffer.Length == BufferSize
    modifies cli, buffer
    ensures joined == Joins(handshake, Texts(frames))
    ensures (cli.name, cli.room) == Identity(old(cli.name), old(cli.room), handshake, Texts(frames))
  {
    ghost var texts := Texts(frames);
    joined := false;
    if handshake != [] {
      assert Readable(NextFrame(frames, 0), BufferSize);
      var live := ReadFrame(NextFrame(frames, 0), buffer);
      if live {
        assert texts[0] == Received(frames[0]) by {
          TextsAt(frames, 0);
        }
        var fields := ScanJoin(CString(buffer[..]));
        if fields.name.Some? {
          cli.name := fields.name.value;
        }
        if fields.room.Some? {
          cli.room := fields.room.value;
        }
        joined := true;
      }
    }
  }

  /**
   * The chat loop of `handleClient` (lines 197-206): decode frames after the first and
   * broadcast `[name]: text` for each until one reads as length 0 or the stream ends.
   */
  method RelayFrames(clients: array<Client?>, cli: Client, frames: seq<seq<byte>>, buffer: array<byte>,
                     ghost r: seq<Client>, ghost name: seq<byte>)
    returns (sent: seq<Send>)
    requires clients.Length == MaxClients && buffer.Length == BufferSize
    requires AllReadable(frames) && frames != []
    requires r == Recipients(clients[..], cli) && name == cli.name
    modifies buffer
    ensures r == Recipients(clients[..], cli) && name == cli.name
    ensures sent == BroadcastAll(r, Relays(name, Texts(frames), 1))
  {
    ghost var texts := Texts(frames);
    ghost var all := BroadcastAll(r, Relays(name, texts, 1));
    sent := [];
    var k := 1;
    while k < |frames|
      invariant 1 <= k <= |frames|
      invariant sent + BroadcastAll(r, Relays(name, texts, k)) == all
      invariant r == Recipients(clients[..], cli) && name == cli.name
    {
      assert texts[k] == Received(frames[k]) by {
        TextsAt(frames, k);
      }
      var live, out := RelayFrame(clients, cli, frames[k], buffer, r, name);
      if !live {
        break;
      }
      ghost var later := BroadcastAll(r, Relays(name, texts, k + 1));
      assert out + later == BroadcastAll(r, Relays(name, texts, k)) by {
        var message := RelayLine(name, texts[k].value);
        assert Relays(name, texts, k) == [message] + Relays(name, texts, k + 1);
        BroadcastAllCons(r, message, Relays(name, texts, k + 1));
      }
      Regroup(sent, out, later);
      sent := sent + out;
      k := k + 1;
    }
  }

  /**
   * One pass of the chat loop: decode a frame and, if its length is positive, relay it
   * to `r`, the sender's room peers, as `[name]: text`.
   */
  method RelayFrame(clients: array<Client?>, cli: Client, frame: seq<byte>, buffer: array<byte>,
                    ghost r: seq<Client>, ghost name: seq<byte>)
    returns (live: bool, sent: seq<Send>)
    requires clients.Length == MaxClients && buffer.Length == BufferSize
    requires Readable(frame, BufferSize)
    requires r == Recipients(clients[..], cli) && name == cli.name
    modifies buffer
    ensures r == Recipients(clients[..], cli) && name == cli.name
    ensures live == Received(frame).Some?
    ensures live ==> sent == Deliveries(r, RelayLine(name, Received(frame).value))
  {
    live := ReadFrame(frame, buffer);
    assert r == Recipients(clients[..], cli);
    sent := [];
    if live {
      var message := RelayLine(cli.name, CString(buffer[..]));
      sent := BroadcastMessage(clients, cli, message, r);
    }
  }

  /**
   * Lines 178-206 of `handleClient`: the handshake, the join frame, the join
   * announcement and the chat loop, with the name and room they leave in `cli`.
   */
  method Converse(clients: array<Client?>, cli: Client, handshake: seq<byte>, frames: seq<seq<byte>>, buffer: array<byte>)
    returns (sent: seq<Send>)
    requires clients.Length == MaxClients && buffer.Length == BufferSize
    requires AllReadable(frames)
    modifies cli, buffer
    ensures var t := SessionOf(old(cli.name), old(cli.room), handshake, Texts(frames));
      && cli.name == t.name && cli.room == t.room
      && sent == BroadcastAll(Recipients(clients[..], cli), t.announced)
  {
    ghost var t := SessionOf(cli.name, cli.room, handshake, Texts(frames));
    sent := [];
    var joined := ReceiveJoin(cli, handshake, frames, buffer);
    if joined {
      assert t.announced == [JoinAnnouncement(cli.name, cli.room)] + Relays(cli.name, Texts(frames), 1);
      sent := Chat(clients, cli, frames, buffer);
    }
  }

  /** Lines 192-206 of `handleClient`: the join announcement, then the chat loop. */
  method Chat(clients: array<Client?>, cli: Client, frames: seq<seq<byte>>, buffer: array<byte>)
    returns (sent: seq<Send>)
    requires clients.Length == MaxClients && buffer.Length == BufferSize
    requires AllReadable(frames) && frames != []
    modifies buffer
    ensures sent == BroadcastAll(Recipients(clients[..], cli),
                                 [JoinAnnouncement(cli.name, cli.room)] + Relays(cli.name, Texts(frames), 1))
  {
    ghost var r := Recipients(clients[..], cli);
    ghost var name := cli.name;
    ghost var rest := Relays(name, Texts(frames), 1);
    var join := JoinAnnouncement(cli.name, cli.room);
    sent := BroadcastMessage(clients, cli, join, r);
    var relays := RelayFrames(clients, cli, frames, buffer, r, name);
    BroadcastAllCons(r, join, rest);
    sent := sent + relays;
  }

  /**
   * `handleClient` (lines 171-225) for client `cli`: the sends to other clients, the
   * name and room it leaves in `cli`, and the table after its slot is cleared. The
   * handshake reply goes to `cli`'s own socket and is not part of `sent`.
   */
  method HandleClient(clients: array<Client?>, cli: Client, handshake: seq<byte>, frames: seq<seq<byte>>)
    returns (sent: seq<Send>)
    requires clients.Length == MaxClients
    requires AllReadable(frames)
    modifies clients, cli
    ensures var t := SessionOf(old(cli.name), old(cli.room), handshake, Texts(frames));
      && cli.name == t.name && cli.room == t.room
      && clients[..] == Removed(old(clients[..]), cli)
      && sent == BroadcastAll(Recipients(old(clients[..]), cli), t.announced)
                 + Deliveries(Recipients(clients[..], cli), LeaveAnnouncement(t.name, t.room))
  {
    ghost var table := clients[..];
    var buffer := new byte[BufferSize];
    sent := Converse(clients, cli, handshake, frames, buffer);
    assert clients[..] == table;
    var leave := Leave(clients, cli, table, Recipients(table, cli));
    sent := sent + leave;
  }

  /**
   * Lines 208-222 of `handleClient`: clear the client's slot, then announce that it
   * left. The ghost `r`, the room peers `table` held before, stays what it was.
   */
  method Leave(clients: array<Client?>, cli: Client, ghost table: seq<Client?>, ghost r: seq<Client>)
    returns (sent: seq<Send>)
    requires clients.Length == MaxClients
    requires r == Recipients(table, cli)
    modifies clients
    ensures clients[..] == Removed(old(clients[..]), cli)
    ensures sent == Deliveries(Recipients(clients[..], cli), LeaveAnnouncement(cli.name, cli.room))
    ensures r == Recipients(table, cli)
  {
    Unregister(clients, cli);
    assert r == Recipients(table, cli);
    sent := BroadcastMessage(clients, cli, LeaveAnnouncement(cli.name, cli.room), Recipients(clients[..], cli));
  }

  // ---------------------------------------------------------------------------
  // Properties of the session

  /**
   * A masked frame from a browser, whatever its first byte, fits the buffer when its
   * payload does: an empty payload reads as length 0, any other as its C string. A close
   * frame (first byte 0x88), whose payload is a status code, reads like a text frame.
   */
  lemma {:induction false} ClientFrameReceived(first: byte, key: seq<byte>, text: seq<byte>)
    requires |key| == 4 && |text| < BufferSize
    ensures var f := ClientFrame(first, key, text);
      Readable(f, BufferSize) && Received(f) == if text == [] then None else Some(CString(text))
  {
    DecodeClientFrame(first, key, text);
  }

  /** Reading a stream frame by frame: the first frame's text, then the rest's. */
  lemma {:induction false} TextsCons(f: seq<byte>, rest: seq<seq<byte>>)
    requires Readable(f, BufferSize) && AllReadable(rest)
    ensures AllReadable([f] + rest)
    ensures Texts([f] + rest) == [Received(f)] + Texts(rest)
  {
    var frames := [f] + rest;
    forall k | 0 <= k < |frames| ensures Readable(frames[k], BufferSize) {
      if k > 0 {
        assert frames[k] == rest[k - 1];
      }
    }
    assert frames[0] == f && frames[1..] == rest;
  }

  /** A frame with text is relayed, and relaying goes on with the rest; a frame without text ends the loop. */
  lemma {:induction false} RelaysCons(name: seq<byte>, t: Option<seq<byte>>, rest: seq<Option<seq<byte>>>)
    ensures Relays(name, [t] + rest, 0)
      == if t.Some? then [RelayLine(name, t.value)] + Relays(name, rest, 0) else []
  {
    assert ([t] + rest)[0] == t;
    RelaysShift(name, t, rest, 0);
  }

  /**
   * A join line from a browser sets the client's name and room, and the session
   * announces the join before relaying what follows it.
   */
  lemma {:induction false} JoinSetsIdentity(name0: seq<byte>, room0: int, handshake: seq<byte>,
                         name: seq<byte>, room: int, rest: seq<Option<seq<byte>>>)
    requires handshake != []
    requires name != [] && '"' as int !in name
    ensures SessionOf(name0, room0, handshake, [Some(JoinText(name, Decimal(room)))] + rest)
         == Session(name, room, [JoinAnnouncement(name, room)] + Relays(name, rest, 0))
  {
    var text := JoinText(name, Decimal(room));
    var texts := [Some(text)] + rest;
    ScanJoinText(name, room);
    JoinIdentity(name0, room0, handshake, text, rest);
    assert Identity(name0, room0, handshake, texts) == (name, room);
    JoinedSession(name0, room0, handshake, texts, name, room);
    RelaysShift(name, Some(text), rest, 0);
  }

  /** A first frame of positive length sets the identity to the fields it matches. */
  lemma {:induction false} JoinIdentity(name0: seq<byte>, room0: int, handshake: seq<byte>, text: seq<byte>,
                                        rest: seq<Option<seq<byte>>>)
    requires handshake != []
    ensures Joins(handshake, [Some(text)] + rest)
    ensures Identity(name0, room0, handshake, [Some(text)] + rest)
         == (ScanJoin(text).name.GetOr(name0), ScanJoin(text).room.GetOr(room0))
  {
    assert ([Some(text)] + rest)[0] == Some(text);
  }

  /** A session that reaches the join announcement with the identity `(name, room)`. */
  lemma {:induction false} JoinedSession(name0: seq<byte>, room0: int, handshake: seq<byte>, texts: seq<Option<seq<byte>>>,
                      name: seq<byte>, room: int)
    requires Joins(handshake, texts)
    requires Identity(name0, room0, handshake, texts) == (name, room)
    ensures SessionOf(name0, room0, handshake, texts)
         == Session(name, room, [JoinAnnouncement(name, room)] + Relays(name, texts, 1))
  {
  }

  /** The frame a browser sends for its join line reads back as that line. */
  lemma {:induction false} JoinFrameReceived(first: byte, key: seq<byte>, name: seq<byte>, room: int)
    requires |key| == 4 && NUL !in name
    requires |JoinText(name, Decimal(room))| < BufferSize
    ensures var f := ClientFrame(first, key, JoinText(name, Decimal(room)));
      Readable(f, BufferSize) && Received(f) == Some(JoinText(name, Decimal(room)))
  {
    var text := JoinText(name, Decimal(room));
    assert NUL !in text;
    ClientFrameReceived(first, key, text);
  }

  /** The two facts above for a whole stream: a join frame, then any readable frames. */
  lemma {:induction false} JoinFrameSetsIdentity(name0: seq<byte>, room0: int, handshake: seq<byte>,
                              first: byte, key: seq<byte>, name: seq<byte>, room: int, rest: seq<seq<byte>>)
    requires handshake != [] && |key| == 4
    requires name != [] && '"' as int !in name && NUL !in name
    requires |JoinText(name, Decimal(room))| < BufferSize
    requires AllReadable(rest)
    ensures var frames := [ClientFrame(first, key, JoinText(name, Decimal(room)))] + rest;
      AllReadable(frames)
      && SessionOf(name0, room0, handshake, Texts(frames))
         == Session(name, room, [JoinAnnouncement(name, room)] + Relays(name, Texts(rest), 0))
  {
    var f := ClientFrame(first, key, JoinText(name, Decimal(room)));
    JoinFrameReceived(first, key, name, room);
    TextsCons(f, rest);
    JoinSetsIdentity(name0, room0, handshake, name, room, Texts(rest));
  }

  /** Every later frame with a non-empty payload is relayed as `[name]: text`, whatever its opcode. */
  lemma {:induction false} FrameRelayed(name: seq<byte>, first: byte, key: seq<byte>, text: seq<byte>, rest: seq<seq<byte>>)
    requires |key| == 4 && 0 < |text| < BufferSize
    requires AllReadable(rest)
    ensures var frames := [ClientFrame(first, key, text)] + rest;
      AllReadable(frames)
      && Relays(name, Texts(frames), 0) == [RelayLine(name, CString(text))] + Relays(name, Texts(rest), 0)
  {
    var f := ClientFrame(first, key, text);
    ClientFrameReceived(first, key, text);
    TextsCons(f, rest);
    RelaysCons(name, Received(f), Texts(rest));
  }

  /** An empty frame reads as length 0, which the loop takes for a closed connection: nothing after it is relayed. */
  lemma {:induction false} EmptyFrameEndsChat(name: seq<byte>, first: byte, key: seq<byte>, rest: seq<seq<byte>>)
    requires |key| == 4
    requires AllReadable(rest)
    ensures var frames := [ClientFrame(first, key, [])] + rest;
      AllReadable(frames) && Relays(name, Texts(frames), 0) == []
  {
    var f := ClientFrame(first, key, []);
    ClientFrameReceived(first, key, []);
    TextsCons(f, rest);
    RelaysCons(name, Received(f), Texts(rest));
  }

  /**
   * A first frame the pattern does not match leaves the uninitialised name and room in
   * place, and the join announcement is still broadcast with them.
   */
  lemma {:induction false} FailedJoinKeepsInitialFields(name0: seq<byte>, room0: int, handshake: seq<byte>, texts: seq<Option<seq<byte>>>)
    requires handshake != [] && texts != [] && texts[0].Some?
    requires !(JoinPrefix <= texts[0].value)
    ensures var t := SessionOf(name0, room0, handshake, texts);
      t.name == name0 && t.room == room0 && t.announced[0] == JoinAnnouncement(name0, room0)
  {
    AfterLiteralMatches(JoinPrefix, texts[0].value);
  }
}

/**
 * The browser client of ConvoC/src/App.tsx: the session state the component keeps, the
 * handlers that change it (`connect`, the socket's `onopen`, `onmessage` and `onclose`,
 * `sendMessage`, `goBack`, and the room and name inputs), and the rule by which
 * `onmessage` turns one inbound value into at most one transcript line.
 */
module App {
  import opened Wrappers

  // ---------------------------------------------------------------------------
  // Inbound values

  /**
   * A property of a parsed object as the handler uses it: a JSON string, or any other
   * JSON value together with what a template literal prints for it.
   */
  datatype Field = Text(s: string) | NonText(shown: string)

  /**
   * What `JSON.parse(event.data)` gives: an exception, `null`, a string, number or boolean
   * (with what `String` prints for it), an array (likewise), or an object, of which
   * only the four properties the handler reads matter.
   */
  datatype Parsed =
    | Unparseable
    | Null
    | Primitive(shown: string)
    | Array(shown: string)
    | Object(kind: Option<Field>, name: Option<Field>, room: Option<Field>, text: Option<Field>)

  /** What `${value}` prints for a property, `undefined` for one the object lacks. */
  function Show(f: Option<Field>): string {
    match f
    case None => "undefined"
    case Some(Text(s)) => s
    case Some(NonText(shown)) => shown
  }

  /** `String(data)` for an object without its own `toString`. */
  const ObjectString: string := "[object Object]"

  /**
   * The line `onmessage` (lines 77-107) appends for an inbound frame whose text is
   * `raw` and whose parse is `p`, on a socket opened for `selectedRoom`; None when it appends
   * nothing. `null` passes `typeof data === "object"` and then makes the `in`
   * test throw, so it lands in the `catch` with the text that failed to parse.
   */
  function Classify(p: Parsed, raw: string, selectedRoom: string): Option<string> {
    match p
    case Unparseable => Some(raw)
    case Null => Some(raw)
    case Primitive(shown) => Some(shown)
    case Array(shown) => Some(shown)
    case Object(kind, name, room, text) =>
      if room.Some? && room.value != Text(selectedRoom) then None
      else if kind.None? then Some(ObjectString)
      else if kind.value == Text("join") then Some(Show(name) + " joined room " + Show(room))
      else if kind.value == Text("leave") then Some(Show(name) + " left room " + Show(room))
      else if kind.value == Text("message") then Some("[" + Show(name) + "]: " + Show(text))
      else None
  }

  /** The transcript after `onmessage` handles one frame: the line, if any, goes at the end. */
  function Appended(messages: seq<string>, p: Parsed, raw: string, selectedRoom: string): seq<string> {
    match Classify(p, raw, selectedRoom)
    case None => messages
    case Some(line) => messages + [line]
  }

  /** One inbound frame: its text and what it parses as. */
  datatype Inbound = Inbound(p: Parsed, raw: string)

  /** The transcript after `onmessage` handles each of `frames` in turn. */
  function Transcript(messages: seq<string>, frames: seq<Inbound>, selectedRoom: string): seq<string>
    decreases |frames|
  {
    if frames == [] then messages
    else Transcript(Appended(messages, frames[0].p, frames[0].raw, selectedRoom), frames[1..], selectedRoom)
  }

  /** The lines `onmessage` appends for each of `frames`, in order. */
  function Lines(frames: seq<Inbound>, selectedRoom: string): seq<string>
    decreases |frames|
  {
    if frames == [] then []
    else
      var here := match Classify(frames[0].p, frames[0].raw, selectedRoom)
                  case None => []
                  case Some(line) => [line];
      here + Lines(frames[1..], selectedRoom)
  }

  /** The values `onmessage` appends nothing for. */
  predicate Ignored(p: Parsed, selectedRoom: string) {
    && p.Object?
    && ((p.room.Some? && p.room.value != Text(selectedRoom))
        || (p.kind.Some? && p.kind.value != Text("join") && p.kind.value != Text("leave")
            && p.kind.value != Text("message")))
  }

  // ---------------------------------------------------------------------------
  // Properties of the classification

  /** A present `room` that is not the selected room, as a string, drops the object. */
  lemma {:induction false} RoomMismatchDropped(messages: seq<string>, kind: Option<Field>, name: Option<Field>,
                                               room: Option<Field>, text: Option<Field>, raw: string,
                                               selectedRoom: string)
    requires room.Some? && room.value != Text(selectedRoom)
    ensures Appended(messages, Object(kind, name, room, text), raw, selectedRoom) == messages
  {
  }

  /**
   * An object the room filter passes, because it has no `room` or has the selected
   * one, is shown by its `type`: one line for join, leave and message, `String(data)`
   * without a `type`, and nothing for any other `type`.
   */
  lemma {:induction false} TypedLines(kind: Option<Field>, name: Option<Field>, room: Option<Field>,
                                      text: Option<Field>, raw: string, selectedRoom: string)
    requires room.None? || room == Some(Text(selectedRoom))
    ensures kind == Some(Text("join")) ==>
      Classify(Object(kind, name, room, text), raw, selectedRoom) == Some(Show(name) + " joined room " + Show(room))
    ensures kind == Some(Text("leave")) ==>
      Classify(Object(kind, name, room, text), raw, selectedRoom) == Some(Show(name) + " left room " + Show(room))
    ensures kind == Some(Text("message")) ==>
      Classify(Object(kind, name, room, text), raw, selectedRoom) == Some("[" + Show(name) + "]: " + Show(text))
    ensures kind.None? ==> Classify(Object(kind, name, room, text), raw, selectedRoom) == Some(ObjectString)
    ensures kind.Some? && kind.value !in {Text("join"), Text("leave"), Text("message")} ==>
      Classify(Object(kind, name, room, text), raw, selectedRoom) == None
  {
  }

  /** A join or leave line that is shown names the selected room, or `undefined` when the object has no `room`. */
  lemma {:induction false} AnnouncementShowsSelectedRoom(kind: Option<Field>, name: Option<Field>, room: Option<Field>,
                                                         text: Option<Field>, raw: string, selectedRoom: string)
    requires kind == Some(Text("join")) || kind == Some(Text("leave"))
    ensures
      var verb := if kind == Some(Text("join")) then " joined room " else " left room ";
      var shown := if room.None? then "undefined" else selectedRoom;
      Classify(Object(kind, name, room, text), raw, selectedRoom) in {None, Some(Show(name) + verb + shown)}
  {
  }

  /** A value without a `type` that parsed to a string, number, boolean or array is shown as `String(data)`. */
  lemma {:induction false} UntypedShown(p: Parsed, raw: string, selectedRoom: string)
    requires p.Primitive? || p.Array?
    ensures Classify(p, raw, selectedRoom) == Some(p.shown)
  {
  }

  /** Text that does not parse, and `null`, is appended verbatim. */
  lemma {:induction false} UnparsedVerbatim(p: Parsed, raw: string, selectedRoom: string)
    requires p.Unparseable? || p.Null?
    ensures Classify(p, raw, selectedRoom) == Some(raw)
  {
  }

  /** `onmessage` appends nothing exactly for the values that are ignored. */
  lemma {:induction false} NothingAppendedExactlyWhenIgnored(p: Parsed, raw: string, selectedRoom: string)
    ensures Classify(p, raw, selectedRoom).None? <==> Ignored(p, selectedRoom)
  {
  }

  /** One frame adds at most one entry, at the end, and leaves the earlier entries as they were. */
  lemma {:induction false} AppendOnlyAtEnd(messages: seq<string>, p: Parsed, raw: string, selectedRoom: string)
    ensures messages <= Appended(messages, p, raw, selectedRoom)
    ensures |Appended(messages, p, raw, selectedRoom)| == |messages| + (if Ignored(p, selectedRoom) then 0 else 1)
  {
    NothingAppendedExactlyWhenIgnored(p, raw, selectedRoom);
  }

  /** The transcript after a run of frames is the old one followed by the frames' lines. */
  lemma {:induction false} TranscriptIsLines(messages: seq<string>, frames: seq<Inbound>, selectedRoom: string)
    ensures Transcript(messages, frames, selectedRoom) == messages + Lines(frames, selectedRoom)
    decreases |frames|
  {
    if frames != [] {
      var next := Appended(messages, frames[0].p, frames[0].raw, selectedRoom);
      TranscriptIsLines(next, frames[1..], selectedRoom);
      var here := match Classify(frames[0].p, frames[0].raw, selectedRoom)
                  case None => []
                  case Some(line) => [line];
      assert next == messages + here;
      assert (messages + here) + Lines(frames[1..], selectedRoom) == messages + (here + Lines(frames[1..], selectedRoom));
    }
  }

  /** Each frame contributes at most one line. */
  lemma {:induction false} LinesBound(frames: seq<Inbound>, selectedRoom: string)
    ensures |Lines(frames, selectedRoom)| <= |frames|
    decreases |frames|
  {
    if frames != [] {
      LinesBound(frames[1..], selectedRoom);
    }
  }

  /** However many frames arrive, the entries already shown never change. */
  lemma {:induction false} TranscriptKeepsEarlier(messages: seq<string>, frames: seq<Inbound>, selectedRoom: string)
    ensures messages <= Transcript(messages, frames, selectedRoom)
    ensures |Transcript(messages, frames, selectedRoom)| <= |messages| + |frames|
  {
    TranscriptIsLines(messages, frames, selectedRoom);
    LinesBound(frames, selectedRoom);
  }

  // ---------------------------------------------------------------------------
  // The session

  /** The `id` of each entry of `roomOptions` (lines 39-50). */
  const RoomIds: seq<string> := ["1", "2", "3", "4", "5", "6", "7", "8", "9", "10"]

  /**
   * A socket `connect` opens. Its handlers are closures over the `name` and
   * `selectedRoom` of the render that ran `connect`; `id` tells sockets apart.
   */
  datatype Socket = Socket(id: nat, name: string, selectedRoom: string)

  /** What `JSON.stringify` is given for a frame the client sends. */
  datatype Request = Join(name: string, room: string) | Message(text: string, room: string)

  /** One `send` call: the socket and the request. */
  datatype Frame = Frame(socket: Socket, request: Request)

  /**
   * The component's state: its `useState` fields, the value of the message input
   * `messageRef` points to, and how many sockets it has opened. The message input is
   * part of the chat view (lines 204-211), which is only mounted while `connected`;
   * leaving that view discards what was typed, so the input is empty whenever the
   * client is not connected.
   */
  class AppState {
    var ws: Option<Socket>
    var name: string
    var room: string
    var connected: bool
    var messages: seq<string>
    var showModal: bool
    var selectedRoom: string
    var input: string
    var socketsOpened: nat

    /** The message input holds text only while the chat view that contains it is mounted. */
    ghost predicate Valid()
      reads this
    {
      !connected ==> input == ""
    }

    /** The initial values of lines 53-59. */
    constructor ()
      ensures ws == None && name == "" && room == "" && !connected && messages == []
      ensures !showModal && selectedRoom == "" && input == "" && socketsOpened == 0
      ensures Valid()
    {
      ws, name, room, connected, messages := None, "", "", false, [];
      showModal, selectedRoom, input, socketsOpened := false, "", "", 0;
    }

    /** Clicking room `k` of the picker (lines 144-147). */
    method SelectRoom(k: nat)
      requires k < |RoomIds|
      requires Valid()
      modifies this
      ensures Valid()
      ensures selectedRoom == RoomIds[k] && showModal
      ensures ws == old(ws) && name == old(name) && room == old(room) && connected == old(connected)
      ensures messages == old(messages) && input == old(input) && socketsOpened == old(socketsOpened)
    {
      selectedRoom, showModal := RoomIds[k], true;
    }

    /** Typing into the name field (line 163). */
    method SetName(newName: string)
      requires Valid()
      modifies this
      ensures Valid()
      ensures name == newName
      ensures ws == old(ws) && room == old(room) && connected == old(connected) && messages == old(messages)
      ensures showModal == old(showModal) && selectedRoom == old(selectedRoom) && input == old(input)
      ensures socketsOpened == old(socketsOpened)
    {
      name := newName;
    }

    /** Typing into the message field, which exists only in the chat view. */
    method SetInput(text: string)
      requires connected
      modifies this
      ensures Valid()
      ensures input == text
      ensures ws == old(ws) && name == old(name) && room == old(room) && connected == old(connected)
      ensures messages == old(messages) && showModal == old(showModal) && selectedRoom == old(selectedRoom)
      ensures socketsOpened == old(socketsOpened)
    {
      input := text;
    }

    /**
     * `connect` (lines 62-112): with an empty name nothing happens; otherwise the room
     * becomes the selected one, the dialog closes and a new socket, whose handlers
     * see this name and room, becomes `ws`.
     */
    method Connect() returns (socket: Option<Socket>)
      requires Valid()
      modifies this
      ensures Valid()
      ensures old(name) == "" ==> socket == None && ws == old(ws) && room == old(room) && showModal == old(showModal)
                                  && socketsOpened == old(socketsOpened)
      ensures old(name) != "" ==> socket == Some(Socket(old(socketsOpened), name, selectedRoom)) && ws == socket
                                  && room == selectedRoom && !showModal && socketsOpened == old(socketsOpened) + 1
      ensures name == old(name) && connected == old(connected) && messages == old(messages)
      ensures selectedRoom == old(selectedRoom) && input == old(input)
    {
      if name == "" {
        return None;
      }
      room := selectedRoom;
      showModal := false;
      socket := Some(Socket(socketsOpened, name, selectedRoom));
      socketsOpened := socketsOpened + 1;
      ws := socket;
    }

    /** `onopen` (lines 71-75): connected, and one join request sent with the captured name and room. */
    method OnOpen(socket: Socket) returns (sent: Frame)
      modifies this
      ensures Valid()
      ensures connected
      ensures sent == Frame(socket, Join(socket.name, socket.selectedRoom))
      ensures ws == old(ws) && name == old(name) && room == old(room) && messages == old(messages)
      ensures showModal == old(showModal) && selectedRoom == old(selectedRoom) && input == old(input)
      ensures socketsOpened == old(socketsOpened)
    {
      connected := true;
      sent := Frame(socket, Join(socket.name, socket.selectedRoom));
    }

    /** `onmessage` (lines 77-107): a frame with text `raw` that parses as `p`. */
    method OnMessage(socket: Socket, p: Parsed, raw: string)
      requires Valid()
      modifies this
      ensures Valid()
      ensures messages == Appended(old(messages), p, raw, socket.selectedRoom)
      ensures ws == old(ws) && name == old(name) && room == old(room) && connected == old(connected)
      ensures showModal == old(showModal) && selectedRoom == old(selectedRoom) && input == old(input)
      ensures socketsOpened == old(socketsOpened)
    {
      match Classify(p, raw, socket.selectedRoom)
      case None =>
      case Some(line) =>
        messages := messages + [line];
    }

    /**
     * `onclose` (lines 109-111): `connected` becomes false, which unmounts the chat view
     * and with it the text typed into the message field; transcript, name and room stay.
     */
    method OnClose(socket: Socket)
      modifies this
      ensures !connected && input == ""
      ensures ws == old(ws) && name == old(name) && room == old(room) && messages == old(messages)
      ensures showModal == old(showModal) && selectedRoom == old(selectedRoom)
      ensures socketsOpened == old(socketsOpened)
      ensures Valid()
    {
      connected, input := false, "";
    }

    /**
     * `sendMessage` (lines 114-124): with a socket and a non-empty input, whitespace
     * included, one message request for the current room is sent and the input is
     * cleared; nothing is added to the transcript.
     */
    method SendMessage() returns (sent: Option<Frame>)
      requires Valid()
      modifies this
      ensures Valid()
      ensures old(ws).Some? && old(input) != "" ==>
        sent == Some(Frame(old(ws).value, Message(old(input), room))) && input == ""
      ensures !(old(ws).Some? && old(input) != "") ==> sent == None && input == old(input)
      ensures ws == old(ws) && name == old(name) && room == old(room) && connected == old(connected)
      ensures messages == old(messages) && showModal == old(showModal) && selectedRoom == old(selectedRoom)
      ensures socketsOpened == old(socketsOpened)
    {
      sent := None;
      if ws.Some? && input != "" {
        sent := Some(Frame(ws.value, Message(input, room)));
        input := "";
      }
    }

    /**
     * `goBack` (lines 126-133): the socket, if any, is closed and returned; the client
     * is disconnected and loses its transcript, socket, name and room, and the chat view
     * unmounts with the text typed into the message field.
     */
    method GoBack() returns (closed: Option<Socket>)
      modifies this
      ensures closed == old(ws)
      ensures !connected && messages == [] && ws == None && name == "" && room == "" && input == ""
      ensures showModal == old(showModal) && selectedRoom == old(selectedRoom)
      ensures socketsOpened == old(socketsOpened)
      ensures Valid()
    {
      closed := ws;
      connected, messages, ws, name, room, input := false, [], None, "", "", "";
    }
  }
}

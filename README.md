# ConvoC chat, modelled in Dafny

ConvoC is a room-based chat. A browser client (ConvoC/src/App.tsx) picks one of ten
rooms and a name, opens a WebSocket to the WebSocket server (backendInC/ConvoCServer.c)
and sends a join object. It then sends message objects and shows what the server relays.
A second server (backendInC/server.c) runs the same rooms over plain TCP for console
clients. Those clients send their name and their room as the first two lines, then chat
lines, and end with `exit`.

Both servers keep a fixed table of 100 client slots. A new connection takes the first
free slot. Every message goes to the other clients of the sender's room, and the slot is
cleared when the connection ends. The WebSocket server also builds the server-to-client
frame header and decodes the masked frames clients send.

The model has eight modules:

- `Wrappers` (wrappers.dfy): the `Option` type.
- `CStrings` (cstrings.dfy): the C library behaviour the servers rely on:
  - `strlen`/`strcpy`/`%s` as `CString`, the bytes up to the first NUL;
  - `atoi` and `sscanf`'s `%d` as `ScanInt`/`Atoi`;
  - `sprintf`'s `%d` as `Decimal`;
  - the byte XOR of the unmasking loop.
- `WebSocketFrame` (websocket.dfy): `sendWebSocketMessage` and `decodeWebSocketFrame`.
- `ClientTable` (client_table.dfy): the `struct Client` record and the slot table. Both
  servers register and unregister clients the same way.
- `ChatLines` (chat_lines.dfy): the relay line `[name]: text` and the leave line
  `name left room R`. Both servers write them with the same `sprintf` formats.
- `ConvoCServer` (convoc_server.dfy): the WebSocket server's `broadcastMessage` and
  `handleClient`.
- `TcpServer` (tcp_server.dfy): the TCP server's `broadcastMessage` and `handleClient`.
- `App` (app.dfy): the browser client's session state and its handlers.

Mechanisms:

- **Buffers and the table.** The servers' buffers and the client table are Dafny
  arrays that the methods write in place. Each method is proved against a function of
  its inputs. For example, `HandleClient` promises the client's final name and room,
  the table with its slot cleared, and the exact list of broadcast sends. The
  WebSocket server's handshake reply (ConvoCServer.c line 167) is not recorded.
- **Sockets.** A connection's traffic is a parameter: the handshake and the sequence of
  frames (WebSocket) or chunks (TCP) its `recv` calls return. An empty frame or chunk
  stands for `recv` reporting that the peer closed. Sends are recorded as
  `Send(fd, bytes)` values, which the methods return. On the TCP server each value is
  one `send` call. On the WebSocket server each value is one `sendWebSocketMessage`
  call, whose bytes are the header followed by the message; the code writes these
  with two `send` calls (ConvoCServer.c lines 69-70).
- **The browser client.** It is a class whose fields are the component's `useState`
  values. Its handlers are methods, and each one states the whole new state. The
  classification of an inbound value into a transcript line is a pure function, and the
  lemmas about it are proved separately.

### Where the code and its description differ

The model follows the code in each of these cases:

- **The WebSocket join announcement.** The server announces a join as the join object
  itself followed by ` joined room R` (ConvoCServer.c line 193), not as `N joined room R`.
  `ConvoCServer.JoinAnnouncement` states it exactly as written.
- **What the client shows.** The client has no avatars and no whitespace check, and it
  does not recover the JSON inside `[name]: {...}` relay lines. A relay line is not
  JSON, so it reaches the `catch` and is shown as sent.
- **Join requests.** The client always sends its join request from `onopen`, with the
  name and room that `connect` saw.

## Model

| member | source | states |
|---|---|---|
| CStrings.CString | backendInC/ConvoCServer.c:44 | `strlen`/`%s`: the result has no NUL, is no longer than the buffer, and is the whole buffer when the buffer has no NUL |
| CStrings.CStringPrefix | backendInC/server.c:49 | the string `strcpy` copies is a prefix of the buffer, followed by a NUL when it is shorter |
| CStrings.CStringUnique | backendInC/server.c:49 | any NUL-free prefix followed by NUL (or the end) is exactly the C string |
| CStrings.CStringStopsAtNul | backendInC/server.c:48 | writing a NUL at index m cuts the C string at m |
| CStrings.XorCancel | backendInC/ConvoCServer.c:132 | XOR-ing a byte twice with the same mask byte gives the byte back |
| CStrings.XorBitsCancel | backendInC/ConvoCServer.c:132 | the bitwise XOR of n-bit numbers is an involution |
| CStrings.AfterLiteralMatches | backendInC/ConvoCServer.c:190 | matching a literal in a `sscanf` format succeeds exactly when the input starts with it, and leaves the rest |
| CStrings.AfterLiteralConcat | backendInC/ConvoCServer.c:190 | a literal followed by t always matches and leaves t |
| CStrings.SpanRun | backendInC/ConvoCServer.c:190 | the `%[^"]` run holds only accepted bytes and stops at the first rejected one |
| CStrings.SpanExact | backendInC/ConvoCServer.c:190 | a run of accepted bytes ended by a rejected byte or by the end is exactly the span |
| CStrings.DigitsValueOf | backendInC/ConvoCServer.c:193 | the digits `%d` prints for n read back as n |
| CStrings.ScanDecimal | backendInC/ConvoCServer.c:190 | `%d` reads back any integer `sprintf`'s `%d` wrote, sign included, consuming exactly its digits |
| CStrings.ScanUnsignedDigits | backendInC/ConvoCServer.c:190 | `%d` on a digit run not followed by a digit reads that run's value |
| CStrings.ScanSignedDigits | backendInC/ConvoCServer.c:190 | `%d` on a minus sign and a digit run reads the negated value |
| CStrings.ScanDigitsFrom | backendInC/ConvoCServer.c:190 | the digit span of digits-then-non-digit is exactly the digits |
| CStrings.ScanDigits | backendInC/ConvoCServer.c:190 | the digit span of a digit run followed by a non-digit ends at the run's end |
| CStrings.AtoiDecimal | backendInC/server.c:56 | `atoi` reads back the decimal text of any integer, whatever non-digit follows |
| CStrings.AtoiSkipsSpace | backendInC/server.c:56 | `atoi` skips leading white space |
| CStrings.AtoiNoDigits | backendInC/server.c:56 | `atoi` is 0 when no digit follows the white space and the optional sign |
| CStrings.AtoiWithoutDigits | backendInC/server.c:56 | `atoi` of a text without digits is 0 |
| WebSocketFrame.BigEndianBytesAt | backendInC/ConvoCServer.c:64-65 | byte i of the 64-bit length field is `(len >> (56 - 8i)) & 0xFF` |
| WebSocketFrame.BigEndianRoundTrip | backendInC/ConvoCServer.c:112-113 | the receiver's shift-or loop reads back the sender's big-endian bytes of any length that fits |
| WebSocketFrame.BigEndianPrefix | backendInC/ConvoCServer.c:112-113 | a prefix of a big-endian field reads as no more than the whole field |
| WebSocketFrame.HeaderLayout | backendInC/ConvoCServer.c:48-67 | the header is `0x81` and then the length: one byte up to 125, 126 and 2 bytes up to 65535, else 127 and 8 bytes, big-endian |
| WebSocketFrame.FillHeader | backendInC/ConvoCServer.c:45-67 | the header array's first `headerSize` bytes are the header for `len`; the rest is untouched |
| WebSocketFrame.FillLength64 | backendInC/ConvoCServer.c:63-66 | the loop writes the 8 big-endian length bytes after the first two header bytes |
| WebSocketFrame.SendWebSocketMessage | backendInC/ConvoCServer.c:42-71 | the bytes sent are the header for `strlen(message)` followed by the message up to its NUL |
| WebSocketFrame.UnmaskTwice | backendInC/ConvoCServer.c:130-133 | unmasking is its own inverse: masking with the same key and unmasking gives the data back |
| WebSocketFrame.ReadPayloadLength | backendInC/ConvoCServer.c:98-115 | the length the decoder reads (7-bit, 16-bit or 64-bit) and the mask offset match the frame's layout |
| WebSocketFrame.Unmask | backendInC/ConvoCServer.c:130-133 | the buffer's first bytes become the unmasked payload; the rest is untouched |
| WebSocketFrame.DecodeWebSocketFrame | backendInC/ConvoCServer.c:88-136 | a closed connection gives length 0 and leaves the buffer alone; otherwise the buffer holds the unmasked payload, a NUL, and its old bytes after that |
| WebSocketFrame.ReadsLengthField | backendInC/ConvoCServer.c:98-115 | a length field written in any of the three forms, with or without the mask bit, reads back as the length with the right mask offset |
| WebSocketFrame.DecodeClientFrame | backendInC/ConvoCServer.c:98-135 | a masked client frame built from any payload decodes to that payload, with its key and length |
| WebSocketFrame.LengthRoundTrip | backendInC/ConvoCServer.c:98-115 | the length the decoder reads from a header `sendWebSocketMessage` wrote is the length that was sent |
| WebSocketFrame.IgnoresOpcodeAndMaskBit | backendInC/ConvoCServer.c:98 | the decoder ignores the first byte and the mask bit: frames that differ only there decode alike |
| ClientTable.Client.constructor | backendInC/ConvoCServer.c:253-254 | a new record holds its socket and whatever `malloc` left in name and room |
| ClientTable.FirstIndex | backendInC/ConvoCServer.c:257-264 | the index found is the first slot holding the value, or the table's length when none does |
| ClientTable.InsertFillsLowestFree | backendInC/ConvoCServer.c:257-264 | registering fills the lowest-index free slot and changes no other |
| ClientTable.InsertIntoFullTable | backendInC/server.c:135-142 | with all 100 slots taken the table is unchanged |
| ClientTable.RemoveClearsFirst | backendInC/ConvoCServer.c:211-218 | unregistering clears only the first slot holding the client |
| ClientTable.RemoveAbsent | backendInC/server.c:82-89 | unregistering a client the table does not hold changes nothing |
| ClientTable.RemoveUndoesInsert | backendInC/ConvoCServer.c:211-218 | unregistering undoes registering for a client not yet in the table |
| ClientTable.Register | backendInC/ConvoCServer.c:256-265 | the loop leaves the table registered as `Inserted` says (also server.c 134-143) |
| ClientTable.Unregister | backendInC/ConvoCServer.c:210-219 | the loop leaves the table unregistered as `Removed` says (also server.c 81-90) |
| ChatLines.RelayLineParts | backendInC/ConvoCServer.c:204 | `[name]: text` is NUL-free, 4 bytes longer than name and text, with `[`, the name, `]: ` and the text at fixed offsets (also server.c 74) |
| ChatLines.LeaveAnnouncementRoom | backendInC/ConvoCServer.c:221 | `name left room R` starts with the name and the literal, and `atoi` of what follows gives R back (also server.c 93) |
| ConvoCServer.RecipientsAreRoomPeers | backendInC/ConvoCServer.c:79 | a recipient is exactly an occupied slot whose client is not the sender object and is in the sender's room, both directions |
| ConvoCServer.RecipientsInSlotOrder | backendInC/ConvoCServer.c:77-83 | recipients follow slot order: the recipients of a split table are those of each part, in order |
| ConvoCServer.RecipientsStep | backendInC/ConvoCServer.c:77-83 | one more slot adds its client exactly when the test at line 79 holds |
| ConvoCServer.DeliveriesPointwise | backendInC/ConvoCServer.c:81 | one send per recipient; send i goes to recipient i's socket and carries the frame of the message |
| ConvoCServer.BroadcastAllCons | backendInC/ConvoCServer.c:194-205 | broadcasting a list of messages is the first broadcast followed by the rest |
| ConvoCServer.BroadcastMessage | backendInC/ConvoCServer.c:74-85 | the sends are one frame of the message to each recipient, in slot order; the table is unchanged |
| ConvoCServer.ScanJoin | backendInC/ConvoCServer.c:190 | a room is only assigned after a name; a name is non-empty and has no quote |
| ConvoCServer.ScanJoinFields | backendInC/ConvoCServer.c:190 | after a matched prefix, name and infix, the name is always assigned and the room exactly when `%d` reads one |
| ConvoCServer.ScanRoomAfterInfix | backendInC/ConvoCServer.c:190 | after the literal between name and room, the room is what `%d` reads |
| ConvoCServer.ScanJoinText | backendInC/ConvoCServer.c:189-190 | the join object a client sends parses back to its name and room |
| ConvoCServer.TextsAt | backendInC/ConvoCServer.c:199-201 | the text for frame k is what decoding frame k leaves |
| ConvoCServer.TextsCons | backendInC/ConvoCServer.c:199-201 | the texts of a frame list are the first frame's text and then the rest |
| ConvoCServer.RelaysShift | backendInC/ConvoCServer.c:197-206 | the chat loop from position k+1 of a longer list is the loop from k of its tail |
| ConvoCServer.DecodedText | backendInC/ConvoCServer.c:134 | the NUL the decoder writes after the payload makes the buffer's C string the payload's |
| ConvoCServer.ReadFrame | backendInC/ConvoCServer.c:199-201 | a frame goes on exactly when the decoded length is positive, and the buffer then holds its text |
| ConvoCServer.ReceiveJoin | backendInC/ConvoCServer.c:178-190 | the handler joins exactly when the handshake and first frame arrive, and the client's name and room are the ones `sscanf` assigns |
| ConvoCServer.RelayFrame | backendInC/ConvoCServer.c:199-205 | a non-empty frame sends `[name]: text` to each recipient |
| ConvoCServer.RelayFrames | backendInC/ConvoCServer.c:197-206 | the loop sends the relay line of every frame up to the first empty one, each to every recipient |
| ConvoCServer.Chat | backendInC/ConvoCServer.c:192-206 | the sends are the join announcement and then every relay, each to every recipient |
| ConvoCServer.Converse | backendInC/ConvoCServer.c:177-206 | the client ends with the session's name and room, and the sends are the session's announcements |
| ConvoCServer.Leave | backendInC/ConvoCServer.c:208-222 | the slot is cleared first, then `name left room R` goes to the room's remaining clients |
| ConvoCServer.HandleClient | backendInC/ConvoCServer.c:171-225 | the whole connection: the final name and room, the table without the client, and every send, in order |
| ConvoCServer.ClientFrameReceived | backendInC/ConvoCServer.c:88-136 | a client frame with a text is read as its C string; an empty one ends the chat |
| ConvoCServer.RelaysCons | backendInC/ConvoCServer.c:197-206 | the loop relays a text and goes on, and stops at the first missing one |
| ConvoCServer.JoinIdentity | backendInC/ConvoCServer.c:190 | after a handshake and a first text, the identity is what `sscanf` assigns, with old values where it assigns nothing |
| ConvoCServer.JoinedSession | backendInC/ConvoCServer.c:192-206 | a joined session announces the join and then relays the remaining texts |
| ConvoCServer.JoinSetsIdentity | backendInC/ConvoCServer.c:185-206 | a well-formed join text sets the client's name and room and starts the announcements with its join line |
| ConvoCServer.JoinFrameReceived | backendInC/ConvoCServer.c:185-187 | a masked join frame is read as the join text |
| ConvoCServer.JoinFrameSetsIdentity | backendInC/ConvoCServer.c:185-206 | a connection whose first frame is a join object for N and R joins as N in room R |
| ConvoCServer.FrameRelayed | backendInC/ConvoCServer.c:199-205 | each non-empty frame is relayed as `[name]: text` in turn |
| ConvoCServer.EmptyFrameEndsChat | backendInC/ConvoCServer.c:199-201 | an empty frame ends the chat, whatever follows |
| ConvoCServer.JoinAnnouncementLayout | backendInC/ConvoCServer.c:193 | the announcement is the join object rebuilt from name and room, then ` joined room R` and a newline, with no NUL |
| ConvoCServer.JoinAnnouncementScans | backendInC/ConvoCServer.c:193 | the announcement's own join object reads back through the `sscanf` of line 190 as the client's name and room |
| ConvoCServer.FailedJoinKeepsInitialFields | backendInC/ConvoCServer.c:190-194 | when the join prefix does not match, the name and room keep their old values and the join line is still sent |
| TcpServer.PeersAreRoomPeers | backendInC/server.c:31 | a recipient is exactly an occupied slot with another socket and the given room, both directions |
| TcpServer.PeersStep | backendInC/server.c:29-35 | one more slot adds its client exactly when the test at line 31 holds |
| TcpServer.PeersAgreeWithWebSocketServer | backendInC/server.c:31 | when sockets are unique, choosing recipients by socket picks what the WebSocket server picks by object |
| ClientTable.CopiesPointwise | backendInC/server.c:33 | send i carries the message bytes to recipient i's socket |
| ClientTable.CopiesAppend | backendInC/server.c:33 | one more recipient adds one send to its socket at the end |
| TcpServer.BroadcastAllCons | backendInC/server.c:60-75 | broadcasting a list of lines is the first broadcast followed by the rest |
| TcpServer.BroadcastMessage | backendInC/server.c:26-37 | the sends are the message to each recipient, in slot order; the table is unchanged |
| TcpServer.RelaysShift | backendInC/server.c:63-76 | the chat loop from position k+1 of a longer list is the loop from k of its tail |
| TcpServer.Receive | backendInC/server.c:65 | `recv` puts the chunk at the buffer's start and leaves the rest |
| TcpServer.ReadLine | backendInC/server.c:45-48 | a line goes on exactly when the chunk is non-empty, and the buffer then holds it without its last byte |
| TcpServer.ReadText | backendInC/server.c:65-68 | a chunk goes on exactly when it is non-empty, and the buffer then holds it as a C string |
| TcpServer.ReceiveIdentity | backendInC/server.c:44-56 | the handler joins exactly when two lines arrive; the name is the first line, the room the `atoi` of the second |
| TcpServer.RelayChunk | backendInC/server.c:65-75 | the loop goes on exactly for a non-empty chunk that is not `exit\n`, and then sends `[name]: chunk` to each recipient |
| TcpServer.RelayChunks | backendInC/server.c:63-76 | the loop sends the relay line of every chunk up to the first empty or exit chunk, each to every recipient |
| TcpServer.Chat | backendInC/server.c:58-76 | the sends are `N joined room R` and then every relay, each to every recipient |
| TcpServer.Converse | backendInC/server.c:44-76 | the client ends with the session's name and room, and the sends are the session's announcements |
| TcpServer.Leave | backendInC/server.c:78-94 | the slot is cleared first, then `name left room R` goes to the room's remaining clients |
| TcpServer.HandleClient | backendInC/server.c:39-98 | the whole connection: the final name and room, the table without the client, and every send, in order |
| TcpServer.JoinLineRoom | backendInC/server.c:59 | `name joined room R` holds no NUL, starts with the name and the literal, and `atoi` of what follows gives R back |
| TcpServer.NameDropsLastByte | backendInC/server.c:48-49 | the name is the first chunk with its last byte dropped |
| TcpServer.RoomReadsDecimal | backendInC/server.c:55-56 | a room line holding a decimal number and one more byte reads as that number |
| TcpServer.RoomWithoutDigitsIsZero | backendInC/server.c:55-56 | a room line without digits gives room 0 |
| TcpServer.IdentityOfLines | backendInC/server.c:44-56 | the lines `N\n` and `R\n` set name N and room R |
| TcpServer.JoinedSession | backendInC/server.c:58-76 | a joined session announces the join and then relays the remaining chunks |
| TcpServer.RelaysAfterTwo | backendInC/server.c:63-76 | the chat loop starts after the name and room lines |
| TcpServer.IdentityLinesSetIdentity | backendInC/server.c:44-76 | a session opened with `N\n` and `R\n` is N in room R, announces `N joined room R\n`, then relays the rest |
| TcpServer.ExitEndsChatFrom | backendInC/server.c:70-71 | nothing after an `exit\n` chunk is relayed, from any starting position before it |
| TcpServer.ExitEndsChat | backendInC/server.c:70-71 | nothing after an `exit\n` chunk is relayed |
| TcpServer.RelaysCons | backendInC/server.c:63-76 | the loop stops at an empty or exit chunk and otherwise relays the chunk and goes on |
| TcpServer.ExitNeedsNewline | backendInC/server.c:70 | `exit` without its newline is relayed like any text |
| TcpServer.ExitWithMoreTextIsRelayed | backendInC/server.c:70 | `exit\n` followed by more text is relayed |
| TcpServer.NulAfterExitLineExits | backendInC/server.c:68-70 | `exit\n` followed by a NUL and anything ends the chat, as `strcmp` stops at the NUL |
| TcpServer.RelaysAreChunkLines | backendInC/server.c:73-75 | relay i is `[name]: ` and chunk k+i, and there are no more relays than chunks |
| TcpServer.EarlyCloseKeepsRoom | backendInC/server.c:52-54 | a connection that closes before its room line keeps its old room and announces nothing |
| App.RoomMismatchDropped | ConvoC/src/App.tsx:80-85 | an object whose `room` is present and is not the selected room string leaves the transcript unchanged |
| App.TypedLines | ConvoC/src/App.tsx:87-103 | past the room filter: join, leave and message each give their one line, no `type` gives `String(data)`, any other `type` gives nothing |
| App.AnnouncementShowsSelectedRoom | ConvoC/src/App.tsx:80-97 | a join or leave line shown names the selected room, or `undefined` when the object has no room |
| App.UntypedShown | ConvoC/src/App.tsx:101-103 | a string, number, boolean or array is shown as `String(data)` |
| App.UnparsedVerbatim | ConvoC/src/App.tsx:78-106 | text that does not parse, and `null`, is shown exactly as received |
| App.NothingAppendedExactlyWhenIgnored | ConvoC/src/App.tsx:80-103 | nothing is appended exactly for room mismatches and unknown types, both directions |
| App.AppendOnlyAtEnd | ConvoC/src/App.tsx:89-105 | one frame adds at most one entry, at the end, and earlier entries stay |
| App.TranscriptIsLines | ConvoC/src/App.tsx:77-107 | after any run of frames the transcript is the old one followed by each frame's line, in order |
| App.LinesBound | ConvoC/src/App.tsx:89-105 | a run of frames adds no more lines than it has frames |
| App.TranscriptKeepsEarlier | ConvoC/src/App.tsx:89-105 | however many frames arrive, earlier entries never change |
| App.AppState.constructor | ConvoC/src/App.tsx:53-59 | the initial state: no socket, empty name, room, transcript and selection, not connected; `Valid()` (no message text unless the chat view is mounted) holds, and every handler keeps it |
| App.AppState.SelectRoom | ConvoC/src/App.tsx:144-147 | clicking a room selects its id and opens the name dialog; nothing else changes |
| App.AppState.SetName | ConvoC/src/App.tsx:163 | typing sets the name; nothing else changes |
| App.AppState.SetInput | ConvoC/src/App.tsx:204-211 | typing, possible only while the chat view is mounted, sets the message input; nothing else changes |
| App.AppState.Connect | ConvoC/src/App.tsx:62-69 | with an empty name nothing changes and no socket opens; otherwise the room becomes the selected one, the dialog closes and a new socket becomes `ws` |
| App.AppState.OnOpen | ConvoC/src/App.tsx:71-75 | the client is connected and exactly one join request goes out, with the name and room `connect` saw |
| App.AppState.OnMessage | ConvoC/src/App.tsx:77-107 | the transcript becomes the old one with the frame's line, if any, at the end; nothing else changes |
| App.AppState.OnClose | ConvoC/src/App.tsx:109-111 | `connected` becomes false, and the unmounted message field loses its text; transcript, name and room stay |
| App.AppState.SendMessage | ConvoC/src/App.tsx:114-124 | a request goes out exactly when there is a socket and the input is non-empty, whitespace included; it carries the input and the room; the input is then cleared and the transcript is unchanged |
| App.AppState.GoBack | ConvoC/src/App.tsx:126-133 | the socket is closed and dropped; the client is disconnected, and transcript, name, room and the unmounted message field are cleared |

## Left out

- The WebSocket handshake (`performWebSocketHandshake`, `base64Encode`, SHA-1, Base64) is
  foreign library code. The model takes only whether the handshake `recv` returned
  anything.
- Sockets, `accept`, `close`, threads and `clientsMutex` are left out. Table operations
  run one at a time, and each `recv` returns one whole frame or chunk. Partial reads,
  short reads and the unchecked `recv` results of `decodeWebSocketFrame` are not modelled.
- WebSocketFrame.DecodeWebSocketFrame: requires a complete frame whose payload fits the
  buffer and an `int`. The code's behaviour on truncated frames, on oversized payloads
  (`data[payloadLen]` and the write past `buffer`) and on the overflowing 64-bit length
  loop is not modelled.
- ConvoCServer.HandleClient: requires every frame of the connection to be readable in
  the sense above.
- TcpServer.HandleClient: requires every chunk to fit the 1024-byte buffer, as `recv`'s
  length argument ensures.
- Buffer overflows: the type system bounds none of them. This covers the unbounded
  `%[^"]` into `name[50]`, the `strcpy` into `name[50]` and the `sprintf` into fixed
  buffers. Names and lines of any length are modelled as the code intends them.
- `int` overflow of `atoi` and `%d` is not modelled. Rooms are unbounded integers.
- ConvoCServer.BroadcastMessage: builds the frame once, before the scan, where the code
  builds it for each recipient. The bytes are the same because they depend on the
  message alone.
- Opcode handling: close, ping and binary frames are decoded like text frames, as the
  code does, and this is proved (`IgnoresOpcodeAndMaskBit`). No separate model of the
  other opcodes exists.
- `JSON.parse`, `JSON.stringify` and the browser `WebSocket` object are library code. A
  parsed value is the `App.Parsed` datatype, and a sent frame is a `Request` value
  paired with its socket.
- App.Parsed: an object that defines its own `toString`, and a value that makes
  `String` throw, are not modelled. Objects are shown as `[object Object]`.
- React rendering, scheduling and batching are left out. Handlers run one at a time on
  the current state. Events on a socket after `goBack` closed it are possible in the
  model and append to the transcript as the handler would.
- Presentation is left out: the dialog, buttons, the room-name lookup in the header and
  the `startsWith` check that styles one's own messages.
- App.AppState.SendMessage: `send` on a socket that is still connecting throws in the
  browser. The model records the request anyway. The throw would also skip clearing the
  message field (App.tsx lines 121-122), but the model clears it.
- backendInC/main.c, main.c and server.c at the top level are console clients and a
  one-shot server with no logic beyond reading and printing. mylib.h is not part of
  this model.

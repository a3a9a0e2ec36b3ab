/**
 * The WebSocket framing of backendInC/ConvoCServer.c, following section 5.2 (base
 * framing protocol) and section 5.3 (client-to-server masking) of RFC 6455.
 *
 * The server writes unmasked text frames: a first byte 0x81 (FIN plus opcode 1) and a
 * length field of 1, 3 or 9 bytes. Its decoder reads any frame: it ignores the first
 * byte and the mask bit, takes the 7-bit length and its 16- or 64-bit extension, reads
 * a 4-byte key and XORs the payload with it.
 */
module WebSocketFrame {
  import opened CStrings

  /** FIN set, opcode 1 (text): the first byte of every frame the server writes. */
  const FinText: byte := 0x81

  /** Size of the `header[10]` buffer `sendWebSocketMessage` fills. */
  const HeaderCapacity := 10

  function Pow256(n: nat): (r: nat)
    ensures r >= 1
  {
    if n == 0 then 1 else 256 * Pow256(n - 1)
  }

  // ---------------------------------------------------------------------------
  // Network byte order

  /** `x >> (8 * k)` */
  function ShiftBytes(x: nat, k: nat): nat {
    if k == 0 then x else ShiftBytes(x / 256, k - 1)
  }

  /** The `n` low-order bytes of `x`, most significant first. */
  function BigEndianBytes(x: nat, n: nat): (r: seq<byte>)
    ensures |r| == n
  {
    if n == 0 then [] else BigEndianBytes(x / 256, n - 1) + [x % 256]
  }

  /** The unsigned number a big-endian byte string stands for. */
  function BigEndian(s: seq<byte>): nat {
    if s == [] then 0 else BigEndian(s[..|s| - 1]) * 256 + s[|s| - 1]
  }

  /** Byte `i` of the encoding is `(x >> (8 * (n - 1 - i))) & 0xFF`, as the server's shifts compute it. */
  lemma {:induction false} BigEndianBytesAt(x: nat, n: nat, i: nat)
    requires i < n
    ensures BigEndianBytes(x, n)[i] == ShiftBytes(x, n - 1 - i) % 256
  {
    if i < n - 1 {
      BigEndianBytesAt(x / 256, n - 1, i);
    }
  }

  /** Reading back `n` big-endian bytes gives the number they were made from. */
  lemma {:induction false} BigEndianRoundTrip(x: nat, n: nat)
    requires x < Pow256(n)
    ensures BigEndian(BigEndianBytes(x, n)) == x
  {
    if n > 0 {
      var b := BigEndianBytes(x, n);
      var y := x / 256;
      assert y < Pow256(n - 1) by {
        assert Pow256(n) == 256 * Pow256(n - 1);
      }
      assert b[..n - 1] == BigEndianBytes(y, n - 1) && b[n - 1] == x % 256;
      BigEndianRoundTrip(y, n - 1);
      assert BigEndian(b) == BigEndian(b[..n - 1]) * 256 + b[n - 1];
    }
  }

  /** A prefix of a big-endian number is never larger than the whole. */
  lemma {:induction false} BigEndianPrefix(s: seq<byte>, i: nat)
    requires i <= |s|
    ensures BigEndian(s[..i]) <= BigEndian(s)
  {
    if i < |s| {
      assert s[..|s| - 1][..i] == s[..i];
      BigEndianPrefix(s[..|s| - 1], i);
    } else {
      assert s[..i] == s;
    }
  }

  // ---------------------------------------------------------------------------
  // Frames the server sends

  /**
   * The length part of a header: the length itself when it is at most 125, else 126 and
   * the length in 16 bits, else 127 and the length in 64 bits. A `size_t` always fits in
   * 64 bits; for larger numbers the shifts keep the low 64 bits.
   */
  function LengthField(len: nat): seq<byte> {
    if len <= 125 then [len]
    else if len <= 65535 then [126] + BigEndianBytes(len, 2)
    else [127] + BigEndianBytes(len, 8)
  }

  /** The header `sendWebSocketMessage` sends before a message of `len` bytes. */
  function ServerHeader(len: nat): seq<byte> {
    [FinText] + LengthField(len)
  }

  /** All the bytes `sendWebSocketMessage` sends for the C string `message` holds. */
  function ServerFrame(message: seq<byte>): seq<byte> {
    var text := CString(message);
    ServerHeader(|text|) + text
  }

  /** The header layout the three branches of `sendWebSocketMessage` produce. */
  lemma {:induction false} HeaderLayout(len: nat)
    requires len < Pow256(8)
    ensures var h := ServerHeader(len);
      && h[0] == FinText
      && (len <= 125 ==> |h| == 2 && h[1] == len)
      && (126 <= len <= 65535 ==> |h| == 4 && h[1] == 126 && BigEndian(h[2..]) == len)
      && (65535 < len ==> |h| == 10 && h[1] == 127 && BigEndian(h[2..]) == len)
  {
    var h := ServerHeader(len);
    if 126 <= len <= 65535 {
      assert h[2..] == BigEndianBytes(len, 2);
      BigEndianRoundTrip(len, 2);
    } else if 65535 < len {
      assert h[2..] == BigEndianBytes(len, 8);
      BigEndianRoundTrip(len, 8);
    }
  }

  /**
   * Lines 48-67: fills `header` for a message of `len` bytes and returns how many of its
   * bytes to send.
   */
  method FillHeader(header: array<byte>, len: nat) returns (headerSize: nat)
    requires header.Length == HeaderCapacity
    modifies header
    ensures headerSize <= HeaderCapacity && header[..headerSize] == ServerHeader(len)
    ensures header[headerSize..] == old(header[headerSize..])
  {
    header[0] := FinText;
    if len <= 125 {
      header[1] := len;
      headerSize := 2;
    } else if len <= 65535 {
      header[1] := 126;
      header[2] := ShiftBytes(len, 1) % 256;  // (len >> 8) & 0xFF
      header[3] := len % 256;                 // len & 0xFF
      headerSize := 4;
      BigEndianBytesAt(len, 2, 0);
      BigEndianBytesAt(len, 2, 1);
      assert header[..headerSize] == [FinText, 126] + BigEndianBytes(len, 2);
    } else {
      header[1] := 127;
      FillLength64(header, len);
      headerSize := 10;
      assert header[..headerSize] == [FinText, 127] + header[2..10];
    }
  }

  /** The loop that writes the 64-bit length into bytes 2-9 of the header, most significant first. */
  method FillLength64(header: array<byte>, len: nat)
    requires header.Length == HeaderCapacity
    modifies header
    ensures header[..2] == old(header[..2]) && header[2..] == BigEndianBytes(len, 8)
  {
    for i := 0 to 8
      invariant header[..2] == old(header[..2])
      invariant forall j :: 0 <= j < i ==> header[2 + j] == BigEndianBytes(len, 8)[j]
    {
      header[2 + i] := ShiftBytes(len, 7 - i) % 256;  // (len >> (56 - i * 8)) & 0xFF
      BigEndianBytesAt(len, 8, i);
    }
  }

  /**
   * `sendWebSocketMessage`: the bytes written to the socket for `message`, the header
   * first and then the `strlen(message)` bytes of the message.
   */
  method SendWebSocketMessage(message: seq<byte>) returns (wire: seq<byte>)
    ensures wire == ServerFrame(message)
  {
    var len := |CString(message)|;  // strlen(message)
    var header := new byte[HeaderCapacity];
    var headerSize := FillHeader(header, len);
    wire := header[..headerSize] + CString(message);
  }

  // ---------------------------------------------------------------------------
  // Frames the server receives

  /** How many extended-length bytes follow byte 1, going by its low seven bits only. */
  function ExtensionSize(b1: byte): nat {
    if b1 % 128 == 126 then 2 else if b1 % 128 == 127 then 8 else 0
  }

  /** The frame is long enough to hold its length field. */
  predicate HasLength(frame: seq<byte>) {
    |frame| >= 2 && |frame| >= 2 + ExtensionSize(frame[1])
  }

  /** Where the masking key starts. */
  function MaskOffset(frame: seq<byte>): nat
    requires |frame| >= 2
  {
    2 + ExtensionSize(frame[1])
  }

  /** The payload length the decoder reads: `header[1] & 0x7F`, or the extension after it. */
  function PayloadLength(frame: seq<byte>): nat
    requires HasLength(frame)
  {
    var code := frame[1] % 128;
    if code == 126 || code == 127 then BigEndian(frame[2..MaskOffset(frame)]) else code
  }

  /** The frame holds exactly its header, a 4-byte key and the payload length it announces. */
  predicate Complete(frame: seq<byte>) {
    HasLength(frame) && |frame| == MaskOffset(frame) + 4 + PayloadLength(frame)
  }

  function MaskKey(frame: seq<byte>): (key: seq<byte>)
    requires Complete(frame)
    ensures |key| == 4
  {
    frame[MaskOffset(frame)..MaskOffset(frame) + 4]
  }

  /** Byte `i` of `data` XOR-ed with byte `i mod 4` of the key, for every `i`. */
  function Unmasked(data: seq<byte>, key: seq<byte>): (r: seq<byte>)
    requires |key| == 4
    ensures |r| == |data|
  {
    seq(|data|, i requires 0 <= i < |data| => Xor(data[i], key[i % 4]))
  }

  /** The payload the decoder delivers to its caller's buffer. */
  function Payload(frame: seq<byte>): (p: seq<byte>)
    requires Complete(frame)
    ensures |p| == PayloadLength(frame)
  {
    Unmasked(frame[MaskOffset(frame) + 4..], MaskKey(frame))
  }

  /** Masking is its own inverse: unmasking twice with the same key restores the data. */
  lemma {:induction false} UnmaskTwice(data: seq<byte>, key: seq<byte>)
    requires |key| == 4
    ensures Unmasked(Unmasked(data, key), key) == data
  {
    forall i | 0 <= i < |data|
      ensures Unmasked(Unmasked(data, key), key)[i] == data[i]
    {
      XorCancel(data[i], key[i % 4]);
    }
  }

  /**
   * Lines 98-115: the payload length and the offset of the masking key. The C code keeps
   * the length in an `int`; the caller bounds it, and the invariant shows no step of the
   * loop goes past that bound.
   */
  method ReadPayloadLength(frame: seq<byte>) returns (payloadLen: int, maskOffset: nat)
    requires HasLength(frame) && PayloadLength(frame) < IntLimit
    ensures payloadLen == PayloadLength(frame) && maskOffset == MaskOffset(frame)
  {
    payloadLen := frame[1] % 128;  // header[1] & 0x7F
    maskOffset := 2;
    if payloadLen == 126 {
      var ext := frame[2..4];
      payloadLen := ext[0] as int * 256 + ext[1] as int;  // (ext[0] << 8) | ext[1]
      maskOffset := maskOffset + 2;
      assert ext[..1][..0] == [] && ext[..|ext| - 1] == ext[..1];
      assert BigEndian(ext[..1]) == ext[0];
    } else if payloadLen == 127 {
      var ext := frame[2..10];
      payloadLen := 0;
      for i := 0 to 8
        invariant payloadLen == BigEndian(ext[..i]) <= PayloadLength(frame)
      {
        assert ext[..i + 1][..i] == ext[..i];
        BigEndianPrefix(ext, i + 1);
        payloadLen := payloadLen * 256 + ext[i];  // (payloadLen << 8) | ext[i]
      }
      assert ext[..8] == ext;
      maskOffset := maskOffset + 8;
    }
  }

  /** One more than the largest C `int`. */
  const IntLimit := 0x8000_0000

  /** Lines 130-134: writes the unmasked payload over the front of `buffer`. */
  method Unmask(buffer: array<byte>, data: seq<byte>, key: seq<byte>)
    requires |key| == 4 && |data| <= buffer.Length
    modifies buffer
    ensures buffer[..|data|] == Unmasked(data, key)
    ensures buffer[|data|..] == old(buffer[|data|..])
  {
    for i := 0 to |data|
      invariant forall j :: 0 <= j < i ==> buffer[j] == Xor(data[j], key[j % 4])
      invariant forall j :: i <= j < buffer.Length ==> buffer[j] == old(buffer[j])
    {
      buffer[i] := Xor(data[i], key[i % 4]);
    }
  }

  /**
   * A frame as one `decodeWebSocketFrame` call reads it: empty when the peer has closed
   * (the first `recv` returns 0), otherwise complete, with its payload fitting the buffer
   * and an `int`.
   */
  predicate Readable(frame: seq<byte>, capacity: nat) {
    frame == [] || (Complete(frame) && PayloadLength(frame) < capacity && PayloadLength(frame) < IntLimit)
  }

  /**
   * `decodeWebSocketFrame`: for a closed connection reports length 0 and leaves the buffer
   * alone; otherwise writes the unmasked payload and a NUL after it, and reports the
   * payload length.
   */
  method DecodeWebSocketFrame(frame: seq<byte>, buffer: array<byte>) returns (outLen: int)
    requires Readable(frame, buffer.Length)
    modifies buffer
    ensures frame == [] ==> outLen == 0 && buffer[..] == old(buffer[..])
    ensures frame != [] ==>
      && outLen == PayloadLength(frame)
      && buffer[..outLen] == Payload(frame)
      && buffer[outLen] == NUL
      && buffer[outLen + 1..] == old(buffer[outLen + 1..])
  {
    if frame == [] {
      return 0;
    }
    var payloadLen, maskOffset := ReadPayloadLength(frame);
    var mask := frame[maskOffset..maskOffset + 4];
    var data := frame[maskOffset + 4..maskOffset + 4 + payloadLen];
    assert data == frame[MaskOffset(frame) + 4..];
    Unmask(buffer, data, mask);
    buffer[payloadLen] := NUL;
    outLen := payloadLen;
  }

  // ---------------------------------------------------------------------------
  // Frames a browser sends

  /**
   * A client frame as section 5.2 of RFC 6455 lays it out: a first byte (FIN, RSV and
   * opcode), the length field with the MASK bit set, the key, and the payload XOR-ed
   * with the key.
   */
  function ClientFrame(first: byte, key: seq<byte>, payload: seq<byte>): seq<byte>
    requires |key| == 4
  {
    var field := LengthField(|payload|);
    [first, 128 + field[0]] + field[1..] + key + Unmasked(payload, key)
  }

  /**
   * Byte 1 carrying the low seven bits of a length field, with or without the mask bit
   * `bit`, followed by the rest of the field, is read back as that length.
   */
  lemma {:induction false} ReadsLengthField(first: byte, bit: nat, len: nat, tail: seq<byte>)
    requires bit == 0 || bit == 128
    requires len < Pow256(8)
    ensures var field := LengthField(len);
      var f := [first, bit + field[0]] + field[1..] + tail;
      HasLength(f) && MaskOffset(f) == |field| + 1 && PayloadLength(f) == len
  {
    var field := LengthField(len);
    var f := [first, bit + field[0]] + field[1..] + tail;
    if 126 <= len <= 65535 {
      assert f[2..4] == BigEndianBytes(len, 2);
      BigEndianRoundTrip(len, 2);
    } else if 65535 < len {
      assert f[2..10] == BigEndianBytes(len, 8);
      BigEndianRoundTrip(len, 8);
    }
  }

  /**
   * The decoder recovers the payload of every client frame whose length fits an `int`,
   * whatever its first byte says: a close or ping frame is read like a text frame.
   */
  lemma {:induction false} DecodeClientFrame(first: byte, key: seq<byte>, payload: seq<byte>)
    requires |key| == 4 && |payload| < IntLimit
    ensures var frame := ClientFrame(first, key, payload);
      && Complete(frame)
      && PayloadLength(frame) == |payload|
      && MaskKey(frame) == key
      && Payload(frame) == payload
  {
    var field := LengthField(|payload|);
    var tail := key + Unmasked(payload, key);
    var frame := ClientFrame(first, key, payload);
    assert frame == [first, 128 + field[0]] + field[1..] + tail;
    ReadsLengthField(first, 128, |payload|, tail);
    assert frame[MaskOffset(frame)..] == tail;
    assert frame[MaskOffset(frame) + 4..] == Unmasked(payload, key);
    UnmaskTwice(payload, key);
  }

  /**
   * The length round trip: the decoder's length parse, applied to the header the
   * server writes for `len` bytes, gives back `len`.
   */
  lemma {:induction false} LengthRoundTrip(len: nat, rest: seq<byte>)
    requires len < Pow256(8)
    ensures HasLength(ServerHeader(len) + rest)
    ensures PayloadLength(ServerHeader(len) + rest) == len
  {
    var field := LengthField(len);
    assert ServerHeader(len) + rest == [FinText, 0 + field[0]] + field[1..] + rest;
    ReadsLengthField(FinText, 0, len, rest);
  }

  /**
   * Byte 0 and the mask bit play no part in decoding: two frames that differ only
   * there decode alike.
   */
  lemma {:induction false} IgnoresOpcodeAndMaskBit(f: seq<byte>, g: seq<byte>)
    requires |f| == |g| >= 2 && f[1] % 128 == g[1] % 128 && f[2..] == g[2..]
    ensures Complete(f) <==> Complete(g)
    ensures Complete(f) ==> Payload(f) == Payload(g)
  {
    if HasLength(f) {
      assert f[2..MaskOffset(f)] == g[2..MaskOffset(g)];
    }
    if Complete(f) {
      assert f[MaskOffset(f)..] == g[MaskOffset(g)..];
    }
  }
}

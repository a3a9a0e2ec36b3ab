/**
 * The text lines both C servers format with `sprintf` and broadcast: the relay of a
 * chat message and the leave announcement. Each `%s` copies a C string, each `%d`
 * prints a decimal integer.
 */
module ChatLines {
  import opened CStrings

  const RelayOpen: seq<byte> := Ascii("[")
  const RelaySeparator: seq<byte> := Ascii("]: ")
  const JoinedRoom: seq<byte> := Ascii(" joined room ")
  const LeftRoom: seq<byte> := Ascii(" left room ")
  const Newline: seq<byte> := Ascii("\n")

  /** `sprintf(message, "[%s]: %s", name, text)`. */
  function RelayLine(name: seq<byte>, text: seq<byte>): seq<byte> {
    RelayOpen + CString(name) + RelaySeparator + CString(text)
  }

  /** `sprintf(buffer, "%s left room %d\n", name, room)`. */
  function LeaveAnnouncement(name: seq<byte>, room: int): seq<byte> {
    CString(name) + LeftRoom + Decimal(room) + Newline
  }

  /**
   * A relay line holds no NUL, so `strlen` of it covers the whole line; the name sits
   * between the opening bracket and the separator, and the text follows the separator
   * untouched.
   */
  lemma {:induction false} RelayLineParts(name: seq<byte>, text: seq<byte>)
    requires NUL !in name && NUL !in text
    ensures var line := RelayLine(name, text);
      && NUL !in line
      && |line| == |name| + |text| + 4
      && line[0] == '[' as int
      && line[1..|name| + 1] == name
      && line[|name| + 1..|name| + 4] == RelaySeparator
      && line[|name| + 4..] == text
  {
    var line := RelayLine(name, text);
    assert line == RelayOpen + (name + (RelaySeparator + text));
  }

  /** The room of a leave announcement is printed after the name and read back by `atoi`. */
  lemma {:induction false} LeaveAnnouncementRoom(name: seq<byte>, room: int)
    requires NUL !in name
    ensures var line := LeaveAnnouncement(name, room);
      && NUL !in line
      && line[..|name|] == name
      && line[|name|..|name| + |LeftRoom|] == LeftRoom
      && Atoi(line[|name| + |LeftRoom|..]) == room
  {
    var tail := Decimal(room) + Newline;
    assert LeaveAnnouncement(name, room) == name + LeftRoom + tail;
    ThreeParts(name, LeftRoom, tail);
    assert Newline[0] == '\n' as int;
    AtoiDecimal(room, Newline);
  }

  lemma {:induction false} ThreeParts(a: seq<byte>, b: seq<byte>, c: seq<byte>)
    ensures var s := a + b + c;
      s[..|a|] == a && s[|a|..|a| + |b|] == b && s[|a| + |b|..] == c
  {
  }
}

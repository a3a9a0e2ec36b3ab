/**
 * The `struct Client` records and the fixed table `clients[MAX_CLIENTS]` that
 * backendInC/ConvoCServer.c and backendInC/server.c share in the same form. The
 * acceptor registers each new connection in the first free slot; the connection's
 * handler clears the first slot holding it when the session ends. The mutex around
 * each loop is left out: the model runs the table operations one at a time.
 */
module ClientTable {
  import opened CStrings

  /** `MAX_CLIENTS` */
  const MaxClients := 100

  /**
   * One connection: its socket, the name it announced and the room it joined. The
   * acceptor's `malloc` leaves `name` and `room` uninitialised; the constructor takes
   * whatever they hold as parameters.
   */
  class Client {
    const socketFD: int
    var name: seq<byte>
    var room: int

    constructor (fd: int, name0: seq<byte>, room0: int)
      ensures socketFD == fd && name == name0 && room == room0
    {
      socketFD := fd;
      name, room := name0, room0;
    }
  }

  /** One `send` call: the socket written to and the bytes written. */
  datatype Send = Send(fd: int, data: seq<byte>)

  lemma {:induction false} Regroup(a: seq<Send>, b: seq<Send>, c: seq<Send>)
    ensures (a + b) + c == a + (b + c)
  {
  }

  /** One `send` of the bytes of `message` to each of `r`, in order. */
  function Copies(r: seq<Client>, message: seq<byte>): (d: seq<Send>)
    ensures |d| == |r|
  {
    if r == [] then [] else Copies(r[..|r| - 1], message) + [Send(r[|r| - 1].socketFD, message)]
  }

  /** Each recipient receives exactly the message bytes, once, in recipient order. */
  lemma {:induction false} CopiesPointwise(r: seq<Client>, message: seq<byte>)
    ensures var d := Copies(r, message);
      forall i :: 0 <= i < |r| ==> d[i] == Send(r[i].socketFD, message)
  {
    if r != [] {
      CopiesPointwise(r[..|r| - 1], message);
    }
  }

  lemma {:induction false} CopiesAppend(r: seq<Client>, c: Client, message: seq<byte>)
    ensures Copies(r + [c], message) == Copies(r, message) + [Send(c.socketFD, message)]
  {
    assert (r + [c])[..|r|] == r;
  }

  /** The first slot holding `x`, or `|s|` when no slot does. */
  function FirstIndex(s: seq<Client?>, x: Client?): (k: nat)
    ensures k <= |s|
    ensures k < |s| ==> s[k] == x
    ensures forall j :: 0 <= j < k ==> s[j] != x
  {
    if s == [] then 0 else if s[0] == x then 0 else 1 + FirstIndex(s[1..], x)
  }

  /** The table after the acceptor's loop registers `cli`. */
  function Inserted(s: seq<Client?>, cli: Client): seq<Client?> {
    var k := FirstIndex(s, null);
    if k < |s| then s[k := cli] else s
  }

  /** The table after a handler's cleanup loop unregisters `cli`. */
  function Removed(s: seq<Client?>, cli: Client): seq<Client?> {
    var k := FirstIndex(s, cli);
    if k < |s| then s[k := null] else s
  }

  /** Registering fills the lowest-index free slot and changes no other slot. */
  lemma {:induction false} InsertFillsLowestFree(s: seq<Client?>, cli: Client, k: nat)
    requires k < |s| && s[k] == null
    requires forall j :: 0 <= j < k ==> s[j] != null
    ensures Inserted(s, cli) == s[k := cli]
  {
    assert FirstIndex(s, null) == k;
  }

  /** With every slot taken, registering leaves the table as it was. */
  lemma {:induction false} InsertIntoFullTable(s: seq<Client?>, cli: Client)
    requires null !in s
    ensures Inserted(s, cli) == s
  {
  }

  /** Unregistering clears only the first slot holding the client. */
  lemma {:induction false} RemoveClearsFirst(s: seq<Client?>, cli: Client, k: nat)
    requires k < |s| && s[k] == cli
    requires forall j :: 0 <= j < k ==> s[j] != cli
    ensures Removed(s, cli) == s[k := null]
  {
    assert FirstIndex(s, cli) == k;
  }

  /** Unregistering a client the table does not hold changes nothing. */
  lemma {:induction false} RemoveAbsent(s: seq<Client?>, cli: Client)
    requires cli !in s
    ensures Removed(s, cli) == s
  {
  }

  /** Unregistering undoes registering, for a client that was not in the table before. */
  lemma {:induction false} RemoveUndoesInsert(s: seq<Client?>, cli: Client)
    requires cli !in s
    ensures Removed(Inserted(s, cli), cli) == s
  {
    var k := FirstIndex(s, null);
    if k < |s| {
      var t := s[k := cli];
      assert forall j :: 0 <= j < |t| && j != k ==> t[j] == s[j] != cli;
      RemoveClearsFirst(t, cli, k);
    }
  }

  /** Lines 256-265 of ConvoCServer.c (134-143 of server.c): register `cli`. */
  method Register(clients: array<Client?>, cli: Client)
    requires clients.Length == MaxClients
    modifies clients
    ensures clients[..] == Inserted(old(clients[..]), cli)
  {
    for i := 0 to MaxClients
      invariant forall j :: 0 <= j < i ==> clients[j] != null
      invariant clients[..] == old(clients[..])
    {
      if clients[i] == null {
        clients[i] := cli;
        assert FirstIndex(old(clients[..]), null) == i;
        return;
      }
    }
  }

  /** Lines 210-219 of ConvoCServer.c (81-90 of server.c): unregister `cli`. */
  method Unregister(clients: array<Client?>, cli: Client)
    requires clients.Length == MaxClients
    modifies clients
    ensures clients[..] == Removed(old(clients[..]), cli)
  {
    for i := 0 to MaxClients
      invariant forall j :: 0 <= j < i ==> clients[j] != cli
      invariant clients[..] == old(clients[..])
    {
      if clients[i] == cli {
        clients[i] := null;
        assert FirstIndex(old(clients[..]), cli) == i;
        return;
      }
    }
  }
}

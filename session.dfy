/** `RemoteControlClient`: one TCP session to a server, with a bounded retry
    loop in `connect`, explicit `disconnect` and `reconnect`, and a
    `send_command` that drops the session on any write error.

    The socket layer is abstract. Each socket the client creates is a fresh
    handle (the number of sockets created before it), and what the client does
    to the network is recorded in an effect log: a socket opened, a connection
    dialled, a socket closed, a one-second sleep, a frame written. What the
    network answers is an oracle input: one `Attempt` per pass of the retry
    loop, and whether a write succeeds.

    The functions `AfterConnect`, `AfterDisconnect`, `AfterReconnect` and
    `AfterSend` give the state each operation leaves behind; the class's
    methods are proved to produce exactly that state, and the lemmas state
    what the client promises about it.
 */
module Session {
  import opened Dicts
  import opened Protocol

  /** `max_reconnect_attempts`: set to 3 by the constructor and never reassigned. */
  const MaxReconnectAttempts: nat := 3

  /** `server_address`, the `(host, port)` pair handed to `socket.connect`. */
  datatype Address = Address(host: string, port: int)

  /** What the network does with one pass of the retry loop. */
  datatype Attempt =
    | Accepted     // a socket is created and `connect` succeeds
    | Refused      // a socket is created, dialled, and `connect` raises
    | SocketError  // creating the socket raises; `self.socket` keeps its old value

  /** What the client does to the outside world. */
  datatype Effect =
    | Open(sock: nat)
    | Dial(sock: nat, to: Address)
    | Close(sock: nat)
    | Sleep
    | Write(sock: nat, data: string)

  /** The client's fields, plus the socket counter and the effect log. */
  datatype State = State(
    socket: Option<nat>,
    connected: bool,
    serverAddress: Option<Address>,
    reconnectAttempts: int,
    socketsCreated: nat,
    effects: seq<Effect>)

  /** What holds between any two calls: `reconnect_attempts` is only ever set
      to 0, a connected client has a socket and a recorded address, and the
      socket is one the client created. */
  predicate Invariant(s: State)
  {
    && s.reconnectAttempts == 0
    && (s.connected ==> s.socket.Some? && s.serverAddress.Some?)
    && (s.socket.Some? ==> s.socket.value < s.socketsCreated)
  }

  /** The state `__init__` sets up. */
  function Initial(): (s: State)
    ensures Invariant(s) && !s.connected && s.serverAddress.None? && s.socket.None?
  {
    State(None, false, None, 0, 0, [])
  }

  // ---------------------------------------------------------------------
  // connect

  /** A new socket replaces `self.socket` (the old one is not closed) and is
      dialled. */
  function OpenAndDial(s: State, addr: Address): (t: State)
    ensures Invariant(s) ==> Invariant(t)
    ensures s.effects < t.effects && s.socketsCreated < t.socketsCreated
  {
    var h := s.socketsCreated;
    s.(socket := Some(h), socketsCreated := h + 1, effects := s.effects + [Open(h), Dial(h, addr)])
  }

  /** The `except` branch of the loop: close whatever `self.socket` holds, then
      sleep one second, also after the last attempt. */
  function FailAttempt(s: State): (t: State)
    ensures Invariant(s) ==> Invariant(t)
    ensures s.effects < t.effects && t.effects[|t.effects| - 1] == Sleep
  {
    var closed := if s.socket.Some? then s.effects + [Close(s.socket.value)] else s.effects;
    s.(effects := closed + [Sleep])
  }

  /** A pass that raises: when the socket was created, it replaced the old one
      and was dialled before the failure. No field but the socket changes. */
  function FailedPass(s: State, addr: Address, o: Attempt): (t: State)
    requires o != Accepted
    ensures t.connected == s.connected && t.serverAddress == s.serverAddress
    ensures t.reconnectAttempts == s.reconnectAttempts
    ensures s.effects <= t.effects && s.socketsCreated <= t.socketsCreated
    ensures Invariant(s) ==> Invariant(t)
  {
    FailAttempt(if o == Refused then OpenAndDial(s, addr) else s)
  }

  /** The pass that succeeds: the new socket is connected and the address is
      recorded. */
  function AcceptedPass(s: State, addr: Address): (t: State)
    ensures Invariant(t)
    ensures s.effects < t.effects && s.socketsCreated < t.socketsCreated
  {
    OpenAndDial(s, addr).(connected := true, serverAddress := Some(addr), reconnectAttempts := 0)
  }

  /** The retry loop from pass `attempt` on, with its early return on success. */
  function ConnectFrom(s: State, addr: Address, outcomes: seq<Attempt>, attempt: nat): (State, bool)
    requires attempt <= MaxReconnectAttempts <= |outcomes|
    decreases MaxReconnectAttempts - attempt
  {
    if attempt == MaxReconnectAttempts then
      (s.(connected := false), false)
    else if outcomes[attempt] == Accepted then
      (AcceptedPass(s, addr), true)
    else
      ConnectFrom(FailedPass(s, addr, outcomes[attempt]), addr, outcomes, attempt + 1)
  }

  /** `connect(host, port)`: the new state and the result. */
  function AfterConnect(s: State, host: string, port: int, outcomes: seq<Attempt>): (State, bool)
    requires MaxReconnectAttempts <= |outcomes|
  {
    ConnectFrom(s, Address(host, port), outcomes, 0)
  }

  /** The first accepting pass at or after `from`, or `MaxReconnectAttempts`
      if no later pass accepts. */
  function FirstAccepted(outcomes: seq<Attempt>, from: nat): (i: nat)
    requires from <= MaxReconnectAttempts <= |outcomes|
    ensures from <= i <= MaxReconnectAttempts
    ensures i < MaxReconnectAttempts ==> outcomes[i] == Accepted
    ensures forall j :: from <= j < i ==> outcomes[j] != Accepted
    decreases MaxReconnectAttempts - from
  {
    if from == MaxReconnectAttempts || outcomes[from] == Accepted then from
    else FirstAccepted(outcomes, from + 1)
  }

  function Sleeps(es: seq<Effect>): nat
  {
    if es == [] then 0 else (if es[0] == Sleep then 1 else 0) + Sleeps(es[1..])
  }

  function Dials(es: seq<Effect>): nat
  {
    if es == [] then 0 else (if es[0].Dial? then 1 else 0) + Dials(es[1..])
  }

  lemma {:induction false} CountsAppend(es: seq<Effect>, more: seq<Effect>)
    ensures Sleeps(es + more) == Sleeps(es) + Sleeps(more)
    ensures Dials(es + more) == Dials(es) + Dials(more)
  {
    if es == [] {
      assert es + more == more;
    } else {
      assert (es + more)[1..] == es[1..] + more;
      CountsAppend(es[1..], more);
    }
  }

  lemma OpenAndDialCounts(s: State, addr: Address)
    ensures Sleeps(OpenAndDial(s, addr).effects) == Sleeps(s.effects)
    ensures Dials(OpenAndDial(s, addr).effects) == Dials(s.effects) + 1
  {
    var more := [Open(s.socketsCreated), Dial(s.socketsCreated, addr)];
    assert more[1..][1..] == [];
    assert Sleeps(more[1..]) == 0 && Dials(more[1..]) == 1;
    assert Sleeps(more) == 0 && Dials(more) == 1;
    CountsAppend(s.effects, more);
    assert OpenAndDial(s, addr).effects == s.effects + more;
  }

  lemma FailAttemptCounts(s: State)
    ensures Sleeps(FailAttempt(s).effects) == Sleeps(s.effects) + 1
    ensures Dials(FailAttempt(s).effects) == Dials(s.effects)
  {
    var more := if s.socket.Some? then [Close(s.socket.value), Sleep] else [Sleep];
    if s.socket.Some? {
      assert more[1..][1..] == [];
      assert Sleeps(more[1..]) == 1 && Dials(more[1..]) == 0;
    } else {
      assert more[1..] == [];
    }
    assert Sleeps(more) == 1 && Dials(more) == 0;
    CountsAppend(s.effects, more);
    assert FailAttempt(s).effects == s.effects + more;
  }

  /** `t` is connected to `addr` through its newest socket, with
      `reconnect_attempts` reset, and the last thing it did was dial that
      socket. */
  predicate ConnectedVia(t: State, addr: Address)
  {
    && t.connected && t.serverAddress == Some(addr) && t.reconnectAttempts == 0
    && t.socketsCreated > 0 && t.socket == Some(t.socketsCreated - 1)
    && |t.effects| > 0 && t.effects[|t.effects| - 1] == Dial(t.socketsCreated - 1, addr)
  }

  /** On success of `connect` the client is connected through the socket it
      created last, to the address it was given, with `reconnect_attempts`
      reset, and the last thing it did was dial that socket (a new one). */
  lemma {:induction false} ConnectSucceeds(s: State, addr: Address, outcomes: seq<Attempt>, attempt: nat)
    requires attempt <= MaxReconnectAttempts <= |outcomes|
    requires ConnectFrom(s, addr, outcomes, attempt).1
    ensures ConnectedVia(ConnectFrom(s, addr, outcomes, attempt).0, addr)
    ensures s.socketsCreated < ConnectFrom(s, addr, outcomes, attempt).0.socketsCreated
    decreases MaxReconnectAttempts - attempt
  {
    assert attempt < MaxReconnectAttempts;
    if outcomes[attempt] == Accepted {
      var t := AcceptedPass(s, addr);
      assert ConnectFrom(s, addr, outcomes, attempt) == (t, true);
      assert t.effects == s.effects + [Open(s.socketsCreated), Dial(s.socketsCreated, addr)];
      assert ConnectedVia(t, addr);
    } else {
      var u := FailedPass(s, addr, outcomes[attempt]);
      var r := ConnectFrom(u, addr, outcomes, attempt + 1);
      assert ConnectFrom(s, addr, outcomes, attempt) == r;
      ConnectSucceeds(u, addr, outcomes, attempt + 1);
    }
  }

  /** On failure of `connect` the client is disconnected and keeps the address
      and the counter it had before. */
  lemma {:induction false} ConnectFails(s: State, addr: Address, outcomes: seq<Attempt>, attempt: nat)
    requires attempt <= MaxReconnectAttempts <= |outcomes|
    requires !ConnectFrom(s, addr, outcomes, attempt).1
    ensures var t := ConnectFrom(s, addr, outcomes, attempt).0;
      !t.connected && t.serverAddress == s.serverAddress && t.reconnectAttempts == s.reconnectAttempts
    decreases MaxReconnectAttempts - attempt
  {
    if attempt < MaxReconnectAttempts {
      var u := FailedPass(s, addr, outcomes[attempt]);
      assert ConnectFrom(s, addr, outcomes, attempt) == ConnectFrom(u, addr, outcomes, attempt + 1);
      ConnectFails(u, addr, outcomes, attempt + 1);
    }
  }

  /** `connect` keeps the invariant. */
  lemma {:induction false} ConnectKeepsInvariant(s: State, addr: Address, outcomes: seq<Attempt>, attempt: nat)
    requires attempt <= MaxReconnectAttempts <= |outcomes|
    requires Invariant(s)
    ensures Invariant(ConnectFrom(s, addr, outcomes, attempt).0)
    decreases MaxReconnectAttempts - attempt
  {
    if attempt < MaxReconnectAttempts && outcomes[attempt] != Accepted {
      ConnectKeepsInvariant(FailedPass(s, addr, outcomes[attempt]), addr, outcomes, attempt + 1);
    }
  }

  /** `connect` only adds to the effect log and never reuses a socket handle. */
  lemma {:induction false} ConnectExtendsLog(s: State, addr: Address, outcomes: seq<Attempt>, attempt: nat)
    requires attempt <= MaxReconnectAttempts <= |outcomes|
    ensures var t := ConnectFrom(s, addr, outcomes, attempt).0;
      s.effects <= t.effects && s.socketsCreated <= t.socketsCreated
    decreases MaxReconnectAttempts - attempt
  {
    if attempt < MaxReconnectAttempts && outcomes[attempt] != Accepted {
      ConnectExtendsLog(FailedPass(s, addr, outcomes[attempt]), addr, outcomes, attempt + 1);
    }
  }

  /** `connect` succeeds exactly when one of its passes is accepted. */
  lemma ConnectSucceedsIff(s: State, addr: Address, outcomes: seq<Attempt>)
    requires MaxReconnectAttempts <= |outcomes|
    ensures ConnectFrom(s, addr, outcomes, 0).1 <==>
            exists i :: 0 <= i < MaxReconnectAttempts && outcomes[i] == Accepted
  {
    ConnectAttempts(s, addr, outcomes, 0);
    var first := FirstAccepted(outcomes, 0);
    if first < MaxReconnectAttempts {
      assert outcomes[first] == Accepted;
    }
  }

  /** What one failed pass adds to the log: one sleep and at most one dial. */
  lemma FailedPassCounts(s: State, addr: Address, o: Attempt)
    requires o != Accepted
    ensures Sleeps(FailedPass(s, addr, o).effects) == Sleeps(s.effects) + 1
    ensures Dials(FailedPass(s, addr, o).effects) == Dials(s.effects) + (if o == Refused then 1 else 0)
  {
    var created := if o == Refused then OpenAndDial(s, addr) else s;
    if o == Refused {
      OpenAndDialCounts(s, addr);
    }
    FailAttemptCounts(created);
  }

  /** The result of `connect` is decided by the first accepted pass, and every
      failed pass before it, and nothing else, sleeps. */
  lemma {:induction false} ConnectAttempts(s: State, addr: Address, outcomes: seq<Attempt>, attempt: nat)
    requires attempt <= MaxReconnectAttempts <= |outcomes|
    ensures ConnectFrom(s, addr, outcomes, attempt).1 == (FirstAccepted(outcomes, attempt) < MaxReconnectAttempts)
    ensures Sleeps(ConnectFrom(s, addr, outcomes, attempt).0.effects)
         == Sleeps(s.effects) + (FirstAccepted(outcomes, attempt) - attempt)
    decreases MaxReconnectAttempts - attempt
  {
    if attempt < MaxReconnectAttempts {
      var o := outcomes[attempt];
      if o == Accepted {
        var t := AcceptedPass(s, addr);
        assert ConnectFrom(s, addr, outcomes, attempt) == (t, true);
        assert FirstAccepted(outcomes, attempt) == attempt;
        assert t.effects == OpenAndDial(s, addr).effects;
        OpenAndDialCounts(s, addr);
      } else {
        FailedPassCounts(s, addr, o);
        var u := FailedPass(s, addr, o);
        var r := ConnectFrom(u, addr, outcomes, attempt + 1);
        assert ConnectFrom(s, addr, outcomes, attempt) == r;
        assert FirstAccepted(outcomes, attempt) == FirstAccepted(outcomes, attempt + 1);
        ConnectAttempts(u, addr, outcomes, attempt + 1);
      }
    } else {
      assert FirstAccepted(outcomes, attempt) == attempt;
    }
  }


  /** The passes in `[lo, hi)` whose answer lets a socket be created, and so
      dialled. */
  function Dialling(outcomes: seq<Attempt>, lo: nat, hi: nat): (n: nat)
    requires lo <= hi <= |outcomes|
    ensures n <= hi - lo
    decreases hi - lo
  {
    if lo == hi then 0
    else (if outcomes[lo] != SocketError then 1 else 0) + Dialling(outcomes, lo + 1, hi)
  }

  /** `connect` dials exactly once in every pass whose socket is created, up to
      and including the first accepted pass and none after it (through the last
      pass when none is accepted): at most once per pass. */
  lemma {:induction false} ConnectDials(s: State, addr: Address, outcomes: seq<Attempt>, attempt: nat)
    requires attempt <= MaxReconnectAttempts <= |outcomes|
    ensures Dials(ConnectFrom(s, addr, outcomes, attempt).0.effects)
         <= Dials(s.effects) + (MaxReconnectAttempts - attempt)
    ensures FirstAccepted(outcomes, attempt) < MaxReconnectAttempts ==>
      Dials(ConnectFrom(s, addr, outcomes, attempt).0.effects)
        == Dials(s.effects) + Dialling(outcomes, attempt, FirstAccepted(outcomes, attempt) + 1)
    ensures FirstAccepted(outcomes, attempt) == MaxReconnectAttempts ==>
      Dials(ConnectFrom(s, addr, outcomes, attempt).0.effects)
        == Dials(s.effects) + Dialling(outcomes, attempt, MaxReconnectAttempts)
    decreases MaxReconnectAttempts - attempt
  {
    if attempt < MaxReconnectAttempts {
      var o := outcomes[attempt];
      if o == Accepted {
        var t := AcceptedPass(s, addr);
        assert ConnectFrom(s, addr, outcomes, attempt) == (t, true);
        assert FirstAccepted(outcomes, attempt) == attempt;
        assert t.effects == OpenAndDial(s, addr).effects;
        assert Dialling(outcomes, attempt, attempt + 1) == 1;
        OpenAndDialCounts(s, addr);
      } else {
        FailedPassCounts(s, addr, o);
        var u := FailedPass(s, addr, o);
        var r := ConnectFrom(u, addr, outcomes, attempt + 1);
        assert ConnectFrom(s, addr, outcomes, attempt) == r;
        var first := FirstAccepted(outcomes, attempt);
        assert first == FirstAccepted(outcomes, attempt + 1);
        var hi := if first < MaxReconnectAttempts then first + 1 else MaxReconnectAttempts;
        assert Dialling(outcomes, attempt, hi)
            == (if o == Refused then 1 else 0) + Dialling(outcomes, attempt + 1, hi);
        ConnectDials(u, addr, outcomes, attempt + 1);
      }
    } else {
      assert FirstAccepted(outcomes, attempt) == attempt;
    }
  }



  lemma {:induction false} NoCloseFrom(s: State, addr: Address, outcomes: seq<Attempt>, attempt: nat, h: nat)
    requires attempt <= MaxReconnectAttempts <= |outcomes|
    requires h < s.socketsCreated && s.socket != Some(h) && Close(h) !in s.effects
    ensures var t := ConnectFrom(s, addr, outcomes, attempt).0;
      Close(h) !in t.effects && t.socket != Some(h)
    decreases MaxReconnectAttempts - attempt
  {
    if attempt < MaxReconnectAttempts && outcomes[attempt] != Accepted {
      NoCloseFrom(FailedPass(s, addr, outcomes[attempt]), addr, outcomes, attempt + 1, h);
    }
  }

  /** `connect` assigns `self.socket` without closing the socket that was there:
      unless creating the first new socket fails (so that the `except` branch
      closes the old one), the code never calls `close()` on a socket it
      replaces, which is no longer the client's socket, whatever the outcome. */
  lemma ConnectNeverClosesPreviousSocket(s: State, addr: Address, outcomes: seq<Attempt>, h: nat)
    requires MaxReconnectAttempts <= |outcomes| && outcomes[0] != SocketError
    requires Invariant(s) && s.socket == Some(h) && Close(h) !in s.effects
    ensures var t := ConnectFrom(s, addr, outcomes, 0).0;
      Close(h) !in t.effects && t.socket != Some(h)
  {
    if outcomes[0] == Refused {
      NoCloseFrom(FailedPass(s, addr, Refused), addr, outcomes, 1, h);
    }
  }

  // ---------------------------------------------------------------------
  // disconnect and reconnect

  /** `disconnect()`: close the socket if there is one (closing a closed socket
      does nothing) and mark the client disconnected. */
  function AfterDisconnect(s: State): (t: State)
    ensures !t.connected && t.serverAddress == s.serverAddress && t.socket == s.socket
    ensures Invariant(s) ==> Invariant(t)
  {
    var closed := if s.socket.Some? then s.effects + [Close(s.socket.value)] else s.effects;
    s.(connected := false, effects := closed)
  }

  /** A second `disconnect` changes no field and closes no socket that the
      first left open. */
  lemma DisconnectIdempotent(s: State)
    ensures var once := AfterDisconnect(s);
      var twice := AfterDisconnect(once);
      && twice.(effects := once.effects) == once
      && forall h :: Close(h) in twice.effects <==> Close(h) in once.effects
  {
    var once := AfterDisconnect(s);
    if s.socket.Some? {
      assert Close(s.socket.value) == once.effects[|once.effects| - 1];
    }
  }

  /** `reconnect()`: `connect` to the recorded address, or fail at once when
      none is recorded. */
  function AfterReconnect(s: State, outcomes: seq<Attempt>): (State, bool)
    requires MaxReconnectAttempts <= |outcomes|
  {
    match s.serverAddress
    case None => (s, false)
    case Some(a) => AfterConnect(s, a.host, a.port, outcomes)
  }

  /** Without a recorded address `reconnect` fails and changes nothing;
      otherwise it succeeds exactly when some pass is accepted and connects
      to the recorded address. Either way the recorded address is kept. */
  lemma ReconnectOutcome(s: State, outcomes: seq<Attempt>)
    requires MaxReconnectAttempts <= |outcomes|
    ensures var (t, ok) := AfterReconnect(s, outcomes);
      && (s.serverAddress.None? ==> t == s && !ok)
      && (s.serverAddress.Some? ==>
            (ok <==> exists i :: 0 <= i < MaxReconnectAttempts && outcomes[i] == Accepted))
      && (ok ==> t.connected)
      && t.serverAddress == s.serverAddress
      && (Invariant(s) ==> Invariant(t) && t.connected == ok)
  {
    if s.serverAddress.Some? {
      var (t, ok) := ConnectFrom(s, s.serverAddress.value, outcomes, 0);
      if ok {
        ConnectSucceeds(s, s.serverAddress.value, outcomes, 0);
      } else {
        ConnectFails(s, s.serverAddress.value, outcomes, 0);
      }
      ConnectSucceedsIff(s, s.serverAddress.value, outcomes);
      if Invariant(s) {
        ConnectKeepsInvariant(s, s.serverAddress.value, outcomes, 0);
      }
    }
  }

  // ---------------------------------------------------------------------
  // send_command

  /** `send_command(command)` with the abstract `json.dumps` `encode` and the
      write's outcome `writeOk`. Without a socket the `send` call raises like a
      failed write. */
  function AfterSend(s: State, encode: Payload -> string, command: Payload, writeOk: bool): (State, bool)
  {
    if !s.connected then (s, false)
    else
      match s.socket
      case None => (s.(connected := false), false)
      case Some(h) =>
        var t := s.(effects := s.effects + [Write(h, encode(command) + "\n")]);
        if writeOk then (t, true) else (t.(connected := false), false)
  }

  /** A disconnected client writes nothing and changes nothing; a connected one
      writes the encoded command and one newline, once, to its socket, and
      stays connected exactly when the write succeeds. The recorded address
      and the socket are never touched. */
  lemma SendOutcome(s: State, encode: Payload -> string, command: Payload, writeOk: bool)
    requires Invariant(s)
    ensures var (t, ok) := AfterSend(s, encode, command, writeOk);
      && (!s.connected ==> t == s && !ok)
      && (s.connected ==> t.effects == s.effects + [Write(s.socket.value, encode(command) + "\n")]
                          && ok == writeOk && t.connected == writeOk)
      && t.serverAddress == s.serverAddress && t.socket == s.socket
      && Invariant(t)
  {
  }

  /** After `disconnect`, `send_command` fails without touching the network. */
  lemma SendAfterDisconnectFails(s: State, encode: Payload -> string, command: Payload, writeOk: bool)
    ensures var d := AfterDisconnect(s);
      AfterSend(d, encode, command, writeOk) == (d, false)
  {
  }

  /** A write error drops the session but keeps the address, so a following
      `reconnect` whose network accepts a pass is connected again to the same
      server. */
  lemma RecoverAfterWriteError(s: State, encode: Payload -> string, command: Payload, outcomes: seq<Attempt>, i: nat)
    requires Invariant(s) && s.connected
    requires MaxReconnectAttempts <= |outcomes| && i < MaxReconnectAttempts && outcomes[i] == Accepted
    ensures var (lost, sent) := AfterSend(s, encode, command, false);
      var (back, ok) := AfterReconnect(lost, outcomes);
      && !sent && !lost.connected
      && ok && back.connected && back.serverAddress == s.serverAddress
  {
    var lost := AfterSend(s, encode, command, false).0;
    ReconnectOutcome(lost, outcomes);
  }

  // ---------------------------------------------------------------------
  // The client object

  class RemoteControlClient {
    var socket: Option<nat>
    var connected: bool
    var serverAddress: Option<Address>
    var reconnectAttempts: int
    var socketsCreated: nat
    var effects: seq<Effect>
    /** `json.dumps`, kept abstract. */
    const encode: Payload -> string

    function Snapshot(): State
      reads this
    {
      State(socket, connected, serverAddress, reconnectAttempts, socketsCreated, effects)
    }

    predicate Valid()
      reads this
    {
      Invariant(Snapshot())
    }

    constructor (encode: Payload -> string)
      ensures Valid() && Snapshot() == Initial() && this.encode == encode
    {
      socket := None;
      connected := false;
      serverAddress := None;
      reconnectAttempts := 0;
      socketsCreated := 0;
      effects := [];
      this.encode := encode;
    }

    /** One pass of the retry loop in `connect`: the `try` block, and on an
        exception the `except` block. */
    method Pass(addr: Address, o: Attempt) returns (accepted: bool)
      requires Valid()
      modifies this
      ensures Valid() && accepted == (o == Accepted)
      ensures accepted ==> Snapshot() == AcceptedPass(old(Snapshot()), addr)
      ensures !accepted ==> Snapshot() == FailedPass(old(Snapshot()), addr, o)
    {
      if o != SocketError {
        var h := socketsCreated;
        socket := Some(h);
        socketsCreated := h + 1;
        effects := effects + [Open(h), Dial(h, addr)];
        if o == Accepted {
          connected := true;
          serverAddress := Some(addr);
          reconnectAttempts := 0;
          return true;
        }
      }
      ghost var dialled := Snapshot();
      if socket.Some? {
        effects := effects + [Close(socket.value)];
      }
      effects := effects + [Sleep];
      assert Snapshot() == FailAttempt(dialled);
      accepted := false;
    }

    /** `connect(host, port)`, with the network's answer to each pass in `outcomes`. */
    method Connect(host: string, port: int, outcomes: seq<Attempt>) returns (ok: bool)
      requires Valid() && MaxReconnectAttempts <= |outcomes|
      modifies this
      ensures Valid()
      ensures (Snapshot(), ok) == AfterConnect(old(Snapshot()), host, port, outcomes)
      ensures ok ==> connected && serverAddress == Some(Address(host, port)) && reconnectAttempts == 0
      ensures !ok ==> !connected && serverAddress == old(serverAddress)
    {
      var addr := Address(host, port);
      ghost var s0 := Snapshot();
      for attempt := 0 to MaxReconnectAttempts
        invariant Valid()
        invariant ConnectFrom(Snapshot(), addr, outcomes, attempt) == ConnectFrom(s0, addr, outcomes, 0)
      {
        var accepted := Pass(addr, outcomes[attempt]);
        if accepted {
          ConnectSucceeds(s0, addr, outcomes, 0);
          return true;
        }
      }
      connected := false;
      ok := false;
      ConnectFails(s0, addr, outcomes, 0);
    }

    /** `disconnect()`. */
    method Disconnect()
      requires Valid()
      modifies this
      ensures Valid()
      ensures Snapshot() == AfterDisconnect(old(Snapshot()))
    {
      if socket.Some? {
        effects := effects + [Close(socket.value)];
      }
      connected := false;
    }

    /** `reconnect()`. */
    method Reconnect(outcomes: seq<Attempt>) returns (ok: bool)
      requires Valid() && MaxReconnectAttempts <= |outcomes|
      modifies this
      ensures Valid()
      ensures (Snapshot(), ok) == AfterReconnect(old(Snapshot()), outcomes)
      ensures serverAddress == old(serverAddress)
    {
      if serverAddress.Some? {
        ok := Connect(serverAddress.value.host, serverAddress.value.port, outcomes);
      } else {
        ok := false;
      }
    }

    /** `send_command(command)`, with the write's outcome in `writeOk`. */
    method SendCommand(command: Payload, writeOk: bool) returns (ok: bool)
      requires Valid()
      modifies this
      ensures Valid()
      ensures (Snapshot(), ok) == AfterSend(old(Snapshot()), encode, command, writeOk)
    {
      if !connected {
        return false;
      }
      var message := encode(command) + "\n";
      effects := effects + [Write(socket.value, message)];
      if writeOk {
        ok := true;
      } else {
        connected := false;
        ok := false;
      }
    }

    method MouseMove(writeOk: bool, dx: int, dy: int) returns (ok: bool)
      requires Valid()
      modifies this
      ensures Valid()
      ensures (Snapshot(), ok) == AfterSend(old(Snapshot()), encode, MouseMoveCommand(dx, dy), writeOk)
    {
      ok := SendCommand(MouseMoveCommand(dx, dy), writeOk);
    }

    method MouseClick(writeOk: bool, button: string := "left", action: string := "click") returns (ok: bool)
      requires Valid()
      modifies this
      ensures Valid()
      ensures (Snapshot(), ok) == AfterSend(old(Snapshot()), encode, MouseClickCommand(button, action), writeOk)
    {
      ok := SendCommand(MouseClickCommand(button, action), writeOk);
    }

    method MouseScroll(writeOk: bool, dx: int, dy: int) returns (ok: bool)
      requires Valid()
      modifies this
      ensures Valid()
      ensures (Snapshot(), ok) == AfterSend(old(Snapshot()), encode, MouseScrollCommand(dx, dy), writeOk)
    {
      ok := SendCommand(MouseScrollCommand(dx, dy), writeOk);
    }

    method KeyboardType(writeOk: bool, text: string) returns (ok: bool)
      requires Valid()
      modifies this
      ensures Valid()
      ensures (Snapshot(), ok) == AfterSend(old(Snapshot()), encode, KeyboardTypeCommand(text), writeOk)
    {
      ok := SendCommand(KeyboardTypeCommand(text), writeOk);
    }

    method KeyboardKey(writeOk: bool, key: string, action: string := "press") returns (ok: bool)
      requires Valid()
      modifies this
      ensures Valid()
      ensures (Snapshot(), ok) == AfterSend(old(Snapshot()), encode, KeyboardKeyCommand(key, action), writeOk)
    {
      ok := SendCommand(KeyboardKeyCommand(key, action), writeOk);
    }
  }
}

/** Two processes that connect to each other, possibly at the same time.  Process 0 has the smaller
    name.  The steps are the event handlers; the network may delay everything, but loses nothing. */
module Connecting {
  import opened Common

  datatype Phase = Closed | Connecting | ConnectAck | Connected

  const NONE: int := -1

  /** `sd` is the number of a socket, or NONE. */
  datatype Endpoint = Endpoint(phase: Phase, sd: int)

  datatype Message = NotSent | InFlight | Received

  /** A socket with its two ends: the process that called connect and sends its name, the other process
      that answers with its own, and which of them have closed their end. */
  datatype Socket = Socket(initiator: int, name: Message, ack: Message, closedByInitiator: bool, closedByAcceptor: bool)

  datatype State = State(ep: int -> Endpoint, sockets: seq<Socket>)

  function Peer(p: int): int {
    1 - p
  }

  ghost predicate Init(s: State) {
    s.sockets == [] && forall p :: s.ep(p) == Endpoint(Closed, NONE)
  }

  function SetEp(s: State, p: int, phase: Phase, sd: int): State {
    s.(ep := Put(s.ep, p, Endpoint(phase, sd)))
  }

  function SetSocket(s: State, n: nat, k: Socket): State
    requires n < |s.sockets|
  {
    s.(sockets := s.sockets[n := k])
  }

  function CloseEnd(k: Socket, p: int): Socket {
    if k.initiator == p then k.(closedByInitiator := true) else k.(closedByAcceptor := true)
  }

  /** Closes the endpoint of process `p`, if it has a socket. */
  function Close(s: State, p: int): State {
    if 0 <= s.ep(p).sd < |s.sockets| then
      SetEp(SetSocket(s, s.ep(p).sd, CloseEnd(s.sockets[s.ep(p).sd], p)), p, Closed, NONE)
    else s
  }

  // ---------------------------------------------------------------- the event handlers

  /** The first send on a closed endpoint starts to connect.  When connect returns at once, the name is
      sent at once. */
  ghost predicate StartConnect(s: State, s': State, p: int, atOnce: bool) {
    && s.ep(p).phase == Closed
    && s' == SetEp(s, p, if atOnce then ConnectAck else Connecting, |s.sockets|).(
         sockets := s.sockets + [Socket(p, if atOnce then InFlight else NotSent, NotSent, false, false)])
  }

  ghost predicate CompleteConnect(s: State, s': State, p: int) {
    var n := s.ep(p).sd;
    && s.ep(p).phase == Connecting && 0 <= n < |s.sockets|
    && s' == SetSocket(SetEp(s, p, ConnectAck, n), n, s.sockets[n].(name := InFlight))
  }

  /** Whether process `p` accepts a connection from its peer. */
  predicate Accepts(s: State, p: int) {
    s.ep(p).sd < 0 || (s.ep(p).phase != Connected && Peer(p) < p)
  }

  /** Process `p` reads the name from a new socket of its peer, or finds that the socket has been closed
      before the name was sent. */
  ghost predicate HandleName(s: State, s': State, p: int, n: int) {
    && 0 <= n < |s.sockets| && s.sockets[n].initiator == Peer(p) && !s.sockets[n].closedByAcceptor
    && (if s.sockets[n].name == InFlight then
          if Accepts(s, p) then
            s' == SetEp(SetSocket(Close(s, p), n, s.sockets[n].(name := Received, ack := InFlight)), p, Connected, n)
          else
            s' == SetSocket(s, n, s.sockets[n].(name := Received, closedByAcceptor := true))
        else
          && s.sockets[n].name == NotSent && s.sockets[n].closedByInitiator
          && s' == SetSocket(s, n, s.sockets[n].(closedByAcceptor := true)))
  }

  ghost predicate HandleAck(s: State, s': State, p: int) {
    var n := s.ep(p).sd;
    && s.ep(p).phase == ConnectAck && 0 <= n < |s.sockets| && s.sockets[n].ack == InFlight
    && s' == SetSocket(SetEp(s, p, Connected, n), n, s.sockets[n].(ack := Received))
  }

  predicate ClosedByPeer(k: Socket, p: int) {
    if k.initiator == p then k.closedByAcceptor else k.closedByInitiator
  }

  /** The peer has closed the socket, and everything it had sent has been read. */
  ghost predicate HandleEnd(s: State, s': State, p: int) {
    var n := s.ep(p).sd;
    && s.ep(p).phase in {ConnectAck, Connected} && 0 <= n < |s.sockets| && ClosedByPeer(s.sockets[n], p)
    && (s.sockets[n].initiator == p ==> s.sockets[n].ack != InFlight)
    && s' == Close(s, p)
  }

  ghost predicate Step(s: State, s': State, p: int, n: int) {
    && 0 <= p <= 1
    && (StartConnect(s, s', p, n == 0) || CompleteConnect(s, s', p) || HandleName(s, s', p, n) ||
        HandleAck(s, s', p) || HandleEnd(s, s', p))
  }

  ghost predicate Next(s: State, s': State) {
    exists p, n :: Step(s, s', p, n)
  }

  // ---------------------------------------------------------------- what every step keeps

  ghost predicate OnSocket(s: State, p: int) {
    var n := s.ep(p).sd;
    match s.ep(p).phase
    case Closed => n == NONE
    case Connecting =>
      0 <= n < |s.sockets| && s.sockets[n] == Socket(p, NotSent, NotSent, false, false)
    case ConnectAck =>
      && 0 <= n < |s.sockets| && s.sockets[n].initiator == p && !s.sockets[n].closedByInitiator
      && (s.sockets[n] == Socket(p, InFlight, NotSent, false, false) ||
          s.sockets[n] == Socket(p, Received, NotSent, false, true) ||
          (s.sockets[n] == Socket(p, Received, InFlight, false, false) && s.ep(Peer(p)) == Endpoint(Connected, n)))
    case Connected =>
      && 0 <= n < |s.sockets| && s.ep(Peer(p)).sd == n
      && (s.sockets[n].initiator == p || s.sockets[n].initiator == Peer(p))
      && ((s.sockets[n] == Socket(s.sockets[n].initiator, Received, Received, false, false)
           && s.ep(Peer(p)).phase == Connected) ||
          (s.sockets[n] == Socket(Peer(p), Received, InFlight, false, false) && s.ep(Peer(p)).phase == ConnectAck))
  }

  /** The smaller process keeps its socket open and is never refused.  The larger one leaves a socket when it has been
      refused, or when it has accepted another one; it is refused only by a peer that has a socket of its own. */
  ghost predicate Left(s: State, n: int)
    requires 0 <= n < |s.sockets|
  {
    var k := s.sockets[n];
    && 0 <= k.initiator <= 1 && (k.closedByInitiator || s.ep(k.initiator).sd == n)
    && (k.initiator == 0 ==> !k.closedByInitiator && !k.closedByAcceptor)
    && (k.initiator == 1 && k.closedByInitiator && !k.closedByAcceptor ==>
          s.ep(1).phase == Connected && k.name != Received)
    && (k.initiator == 1 && k.closedByAcceptor ==> s.ep(0).phase != Closed)
  }

  ghost predicate Inv(s: State) {
    && OnSocket(s, 0) && OnSocket(s, 1)
    && forall n :: 0 <= n < |s.sockets| ==> Left(s, n)
  }

  lemma KeepStart(s: State, s': State, p: int, atOnce: bool)
    requires Inv(s) && 0 <= p <= 1 && StartConnect(s, s', p, atOnce)
    ensures Inv(s')
  {
    forall n | 0 <= n < |s'.sockets|
      ensures Left(s', n)
    {
      assert n < |s.sockets| ==> Left(s, n);
    }
  }

  lemma KeepComplete(s: State, s': State, p: int)
    requires Inv(s) && 0 <= p <= 1 && CompleteConnect(s, s', p)
    ensures Inv(s')
  {
    forall n | 0 <= n < |s'.sockets|
      ensures Left(s', n)
    {
      assert Left(s, n);
    }
  }

  lemma KeepName(s: State, s': State, p: int, n: int)
    requires Inv(s) && 0 <= p <= 1 && HandleName(s, s', p, n)
    ensures Inv(s')
  {
    assert Left(s, n);
    forall m | 0 <= m < |s'.sockets|
      ensures Left(s', m)
    {
      assert Left(s, m);
    }
  }

  lemma KeepAck(s: State, s': State, p: int)
    requires Inv(s) && 0 <= p <= 1 && HandleAck(s, s', p)
    ensures Inv(s')
  {
    forall n | 0 <= n < |s'.sockets|
      ensures Left(s', n)
    {
      assert Left(s, n);
    }
  }

  lemma KeepEnd(s: State, s': State, p: int)
    requires Inv(s) && 0 <= p <= 1 && HandleEnd(s, s', p)
    ensures Inv(s') && s.ep(p).phase == ConnectAck && p == 1
  {
    assert Left(s, s.ep(p).sd);
    forall n | 0 <= n < |s'.sockets|
      ensures Left(s', n)
    {
      assert Left(s, n);
    }
  }

  lemma KeepNext(s: State, s': State)
    requires Inv(s) && Next(s, s')
    ensures Inv(s')
  {
    var p, n :| Step(s, s', p, n);
    if StartConnect(s, s', p, n == 0) {
      KeepStart(s, s', p, n == 0);
    } else if CompleteConnect(s, s', p) {
      KeepComplete(s, s', p);
    } else if HandleName(s, s', p, n) {
      KeepName(s, s', p, n);
    } else if HandleAck(s, s', p) {
      KeepAck(s, s', p);
    } else {
      KeepEnd(s, s', p);
    }
  }

  // ---------------------------------------------------------------- every run

  ghost predicate Run(run: seq<State>) {
    run != [] && Init(run[0]) && forall i :: 0 <= i < |run| - 1 ==> Next(run[i], run[i + 1])
  }

  lemma {:induction false} RunKeeps(run: seq<State>, k: nat)
    requires Run(run) && k < |run|
    ensures Inv(run[k])
  {
    if k > 0 {
      RunKeeps(run, k - 1);
      assert Next(run[k - 1], run[k - 1 + 1]);
      KeepNext(run[k - 1], run[k]);
    }
  }

  /** Two connected endpoints are connected to each other, and neither end of the socket is closed. */
  lemma SameSocket(run: seq<State>, k: nat)
    requires Run(run) && k < |run| && run[k].ep(0).phase == Connected && run[k].ep(1).phase == Connected
    ensures var n := run[k].ep(0).sd;
      && run[k].ep(1).sd == n && 0 <= n < |run[k].sockets|
      && !run[k].sockets[n].closedByInitiator && !run[k].sockets[n].closedByAcceptor
  {
    RunKeeps(run, k);
  }

  /** A socket of the process with the smaller name is never closed by either side; in particular it is not refused. */
  lemma SmallerIsNeverRefused(run: seq<State>, k: nat, n: nat)
    requires Run(run) && k < |run| && n < |run[k].sockets| && run[k].sockets[n].initiator == 0
    ensures !run[k].sockets[n].closedByAcceptor && !run[k].sockets[n].closedByInitiator
  {
    RunKeeps(run, k);
    assert Left(run[k], n);
  }

  ghost predicate Refused(s: State, p: int) {
    s.ep(p).phase == ConnectAck && 0 <= s.ep(p).sd < |s.sockets| && s.sockets[s.ep(p).sd].closedByAcceptor
  }

  /** A process sees the end of its socket exactly when it has been refused, which happens to the larger one only.  It
      then gives up this socket, and both ends of it are closed. */
  lemma EndIsRefusal(run: seq<State>, k: nat, p: int)
    requires Run(run) && k < |run| && 0 <= p <= 1
    ensures (exists s' :: HandleEnd(run[k], s', p)) <==> Refused(run[k], p)
    ensures forall s' :: HandleEnd(run[k], s', p) ==>
      p == 1 && s'.ep(p) == Endpoint(Closed, NONE) && s'.ep(Peer(p)) == run[k].ep(Peer(p)) &&
      s'.sockets[run[k].ep(p).sd].closedByInitiator && s'.sockets[run[k].ep(p).sd].closedByAcceptor
  {
    var s := run[k];
    RunKeeps(run, k);
    if Refused(s, p) {
      assert HandleEnd(s, Close(s, p), p);
    }
    forall s' | HandleEnd(s, s', p)
      ensures p == 1 && Refused(s, p)
    {
      KeepEnd(s, s', p);
    }
  }

  /** A step that is not a new attempt to connect. */
  ghost predicate Handles(s: State, s': State, p: int, n: int) {
    && 0 <= p <= 1
    && (CompleteConnect(s, s', p) || HandleName(s, s', p, n) || HandleAck(s, s', p) || HandleEnd(s, s', p))
  }

  /** No handler has anything to do. */
  ghost predicate Quiet(s: State) {
    forall s', p, n :: !Handles(s, s', p, n)
  }

  /** The next handler that can run, as long as the two are not connected. */
  lemma SomeHandler(s: State) returns (s': State, p: int, n: int)
    requires Inv(s) && s.sockets != [] && !(s.ep(0).phase == s.ep(1).phase == Connected)
    ensures Handles(s, s', p, n)
  {
    assert Left(s, |s.sockets| - 1);
    if s.ep(0).phase == Closed {
      p, n := 1, s.ep(1).sd;
    } else {
      p, n := 0, s.ep(0).sd;
    }
    if s.ep(p).phase == Connecting {
      s' := SetSocket(SetEp(s, p, ConnectAck, n), n, s.sockets[n].(name := InFlight));
      assert CompleteConnect(s, s', p);
    } else if s.ep(p).phase == Connected {
      p := 1 - p;
      s' := SetSocket(SetEp(s, p, Connected, n), n, s.sockets[n].(ack := Received));
      assert HandleAck(s, s', p);
    } else if s.sockets[n].ack == InFlight {
      s' := SetSocket(SetEp(s, p, Connected, n), n, s.sockets[n].(ack := Received));
      assert HandleAck(s, s', p);
    } else {
      assert Left(s, n);
      p := 1 - p;
      s' := SetEp(SetSocket(Close(s, p), n, s.sockets[n].(name := Received, ack := InFlight)), p, Connected, n);
      assert HandleName(s, s', p, n);
    }
  }

  /** When there is a socket and no handler has anything left to do, the two processes are connected, and every other
      socket is closed at both ends. */
  lemma QuietIsConnected(run: seq<State>, k: nat)
    requires Run(run) && k < |run| && run[k].sockets != [] && Quiet(run[k])
    ensures run[k].ep(0).phase == run[k].ep(1).phase == Connected
    ensures forall n :: 0 <= n < |run[k].sockets| && n != run[k].ep(0).sd ==>
      run[k].sockets[n].closedByInitiator && run[k].sockets[n].closedByAcceptor
  {
    RunKeeps(run, k);
    if !(run[k].ep(0).phase == run[k].ep(1).phase == Connected) {
      var s', p, n := SomeHandler(run[k]);
    }
    forall n | 0 <= n < |run[k].sockets| && n != run[k].ep(0).sd
      ensures run[k].sockets[n].closedByInitiator && run[k].sockets[n].closedByAcceptor
    {
      LeftOver(run[k], n);
    }
  }

  /** A socket that the larger process has left is closed by the smaller one, too. */
  lemma LeftOver(s: State, n: nat)
    requires Inv(s) && Quiet(s) && s.ep(0).phase == s.ep(1).phase == Connected
    requires n < |s.sockets| && n != s.ep(0).sd
    ensures s.sockets[n].closedByInitiator && s.sockets[n].closedByAcceptor
  {
    var k := s.sockets[n];
    assert Left(s, n);
    if !k.closedByAcceptor {
      var s' := SetSocket(s, n, (if k.name == InFlight then k.(name := Received) else k).(closedByAcceptor := true));
      assert HandleName(s, s', 0, n);
      assert Handles(s, s', 0, n);
    }
  }

  function Weight(m: Message): nat {
    match m
    case NotSent => 2
    case InFlight => 1
    case Received => 0
  }

  /** What can still happen to a socket. */
  function Load(k: Socket): nat {
    Weight(k.name) + Weight(k.ack) + (if k.closedByInitiator then 0 else 1) + (if k.closedByAcceptor then 0 else 1)
  }

  function Loads(sockets: seq<Socket>): nat {
    if sockets == [] then 0 else Load(sockets[0]) + Loads(sockets[1..])
  }

  lemma {:induction false} LoadsSet(sockets: seq<Socket>, n: nat, k: Socket)
    requires n < |sockets|
    ensures Loads(sockets[n := k]) == Loads(sockets) - Load(sockets[n]) + Load(k)
  {
    hide Load;
    if n == 0 {
      assert sockets[0 := k][1..] == sockets[1..];
    } else {
      assert sockets[n := k][1..] == sockets[1..][n - 1 := k];
      LoadsSet(sockets[1..], n - 1, k);
    }
  }

  /** Every handler leaves less to do, so that without new attempts there are only finitely many more steps. */
  lemma HandlersEnd(s: State, s': State, p: int, n: int)
    requires Inv(s) && Handles(s, s', p, n)
    ensures Loads(s'.sockets) < Loads(s.sockets)
  {
    hide Loads;
    var m := s.ep(p).sd;
    if CompleteConnect(s, s', p) {
      LoadsSet(s.sockets, m, s'.sockets[m]);
    } else if HandleName(s, s', p, n) {
      NameEnds(s, s', p, n);
    } else if HandleAck(s, s', p) {
      LoadsSet(s.sockets, m, s'.sockets[m]);
    } else {
      LoadsSet(s.sockets, m, s'.sockets[m]);
    }
  }

  lemma NameEnds(s: State, s': State, p: int, n: int)
    requires Inv(s) && 0 <= p <= 1 && HandleName(s, s', p, n)
    ensures Loads(s'.sockets) < Loads(s.sockets)
  {
    hide Loads;
    var m := s.ep(p).sd;
    assert Left(s, n);
    if s.sockets[n].name == InFlight && Accepts(s, p) && 0 <= m < |s.sockets| {
      var closed := s.sockets[m := CloseEnd(s.sockets[m], p)];
      LoadsSet(s.sockets, m, CloseEnd(s.sockets[m], p));
      LoadsSet(closed, n, s'.sockets[n]);
    } else {
      LoadsSet(s.sockets, n, s'.sockets[n]);
    }
  }

  /** From any reachable state with a socket, handlers can run until the two are connected to each other. */
  lemma {:induction false} HandlersConnect(run: seq<State>) returns (more: seq<State>)
    requires Run(run) && run[|run| - 1].sockets != []
    ensures Run(more) && |more| >= |run| && more[..|run|] == run
    ensures var s := more[|more| - 1]; s.ep(0).phase == s.ep(1).phase == Connected && s.ep(0).sd == s.ep(1).sd
    decreases Loads(run[|run| - 1].sockets)
  {
    var s := run[|run| - 1];
    RunKeeps(run, |run| - 1);
    more := run;
    if !(s.ep(0).phase == s.ep(1).phase == Connected) {
      var s', p, n := SomeHandler(s);
      HandlersEnd(s, s', p, n);
      Extend(run, s', p, n);
      more := HandlersConnect(run + [s']);
    } else {
      SameSocket(run, |run| - 1);
    }
  }

  lemma Extend(run: seq<State>, s': State, p: int, n: int)
    requires Run(run) && Handles(run[|run| - 1], s', p, n)
    ensures Run(run + [s']) && s'.sockets != []
  {
    var r, s := run + [s'], run[|run| - 1];
    assert Step(s, s', p, n);
    forall i | 0 <= i < |r| - 1
      ensures Next(r[i], r[i + 1])
    {
      if i < |run| - 1 {
        assert Next(run[i], run[i + 1]);
      }
    }
  }

  /** Once connected, an endpoint stays connected on the same socket for ever. */
  lemma {:induction false} StaysConnected(run: seq<State>, k: nat, m: nat, p: int)
    requires Run(run) && k <= m < |run| && 0 <= p <= 1 && run[k].ep(p).phase == Connected
    ensures run[m].ep(p) == run[k].ep(p)
  {
    if k < m {
      RunKeeps(run, m - 1);
      assert Next(run[m - 1], run[m - 1 + 1]);
      hide Run, Inv, Next;
      StaysConnected(run, k, m - 1, p);
      StepStays(run[m - 1], run[m], p);
    }
  }

  lemma StepStays(s: State, s': State, p: int)
    requires Inv(s) && Next(s, s') && 0 <= p <= 1 && s.ep(p).phase == Connected
    ensures s'.ep(p) == s.ep(p)
  {
    var q, n :| Step(s, s', q, n);
    if HandleEnd(s, s', q) {
      KeepEnd(s, s', q);
    }
  }
}

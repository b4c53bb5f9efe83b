/** The sending side of a TCP connection: fragments are written in pieces of any size, by whoever gets
    the lock, and queue up while the connection is not there or is busy. */
module Sending {
  import opened Common

  /** The vectors of a fragment that are still to be written. */
  type Vectors = seq<seq<Byte>>

  function FlatAll(frags: seq<Vectors>): seq<Byte> {
    if frags == [] then [] else Flatten(frags[0]) + FlatAll(frags[1..])
  }

  lemma {:induction false} FlatAllMore(frags: seq<Vectors>, v: Vectors)
    ensures FlatAll(frags + [v]) == FlatAll(frags) + Flatten(v)
  {
    hide Flatten;
    if frags == [] {
      assert frags + [v] == [v];
    } else {
      FlatAllMore(frags[1..], v);
      assert (frags + [v])[0] == frags[0] && (frags + [v])[1..] == frags[1..] + [v];
      assert Flatten(frags[0]) + (FlatAll(frags[1..]) + Flatten(v)) ==
             Flatten(frags[0]) + FlatAll(frags[1..]) + Flatten(v);
    }
  }

  lemma FlatAllFirst(frags: seq<Vectors>)
    ensures FlatAll(frags) == if frags == [] then [] else Flatten(frags[0]) + FlatAll(frags[1..])
  {
  }

  lemma Shift(wire: seq<Byte>, written: seq<Byte>, rest: seq<Byte>, more: seq<Byte>)
    ensures wire + (written + rest + more) == wire + written + (rest + more)
    ensures rest == [] ==> rest + more == more == more + [] == [] + more
  {
  }

  /** After a write of `cnt` bytes: the vectors that are left. */
  method Advance(v: Vectors, cnt: nat) returns (r: Vectors)
    requires cnt <= |Flatten(v)|
    ensures Flatten(r) == Flatten(v)[cnt..] && (r == [] <==> cnt == |Flatten(v)|)
  {
    r := v;
    var left := cnt;
    while r != [] && left >= |r[0]|
      invariant 0 <= left <= |Flatten(r)| && Flatten(r)[left..] == Flatten(v)[cnt..]
    {
      Skip(r, left);
      left := left - |r[0]|;
      r := r[1..];
    }
    if r != [] {
      Cut(r, left);
      r := [r[0][left..]] + r[1..];
    }
  }

  lemma Skip(v: Vectors, n: nat)
    requires v != [] && |v[0]| <= n <= |Flatten(v)|
    ensures n - |v[0]| <= |Flatten(v[1..])| && Flatten(v[1..])[n - |v[0]|..] == Flatten(v)[n..]
  {
  }

  lemma Cut(v: Vectors, n: nat)
    requires v != [] && n < |v[0]|
    ensures n < |Flatten(v)| && Flatten([v[0][n..]] + v[1..]) == Flatten(v)[n..]
  {
    assert ([v[0][n..]] + v[1..])[1..] == v[1..];
  }

  /** Writes as much as the socket takes; a number below zero means that it would block. */
  method FragSend(v: Vectors, room: int) returns (done: bool, r: Vectors, written: seq<Byte>)
    requires v != []
    ensures written + Flatten(r) == Flatten(v) && |written| == Min(Max(0, room), |Flatten(v)|)
    ensures done == (r == []) && done == (room >= |Flatten(v)|) && (done ==> Flatten(r) == [])
  {
    if room < 0 {
      return false, v, [];
    }
    var cnt := Min(room, |Flatten(v)|);
    r := Advance(v, cnt);
    written := Flatten(v)[..cnt];
    done := r == [];
  }

  datatype Phase = NotConnected | Connected | Failed

  datatype Event = Send(frag: Vectors, priority: bool) | Connect | Progress

  class Sender {
    var phase: Phase
    var current: Option<Vectors>
    var pending: seq<Vectors>
    var armed: bool
    var wire: seq<Byte>
    /** How many bytes the socket takes in the coming writes; when there are none left, a write takes everything. */
    var rooms: seq<int>
    ghost var accepted: seq<Byte>

    ghost function Remaining(): seq<Byte>
      reads this
    {
      (if current.Some? then Flatten(current.value) else []) + FlatAll(pending)
    }

    /** What is on the wire and what is left are what has been accepted, in that order. */
    ghost predicate Valid()
      reads this
    {
      && wire + Remaining() == accepted
      && (phase == Connected && current.None? ==> pending == [])
      && (phase != Connected ==> current.None? && wire == [])
      && (phase == Connected && current.Some? ==> armed)
      && (current.Some? ==> current.value != []) && [] !in pending
    }

    lemma Account()
      requires Valid()
      ensures wire + Remaining() == accepted
      ensures phase == Connected && current.None? ==> wire == accepted && pending == []
    {
    }

    constructor (rooms: seq<int>)
      ensures Valid() && phase == NotConnected && accepted == [] && !armed && this.rooms == rooms
    {
      phase, current, pending, armed, wire, accepted := NotConnected, None, [], false, [], [];
      this.rooms := rooms;
    }

    /** How much the next write takes of `n` bytes. */
    function NextWrite(n: nat): nat
      reads this
    {
      if rooms == [] then n else Min(Max(0, rooms[0]), n)
    }

    /** One write. */
    method Write(v: Vectors) returns (done: bool, r: Vectors, written: seq<Byte>)
      requires v != []
      modifies this`rooms
      ensures written + Flatten(r) == Flatten(v) && |written| == old(NextWrite(|Flatten(v)|))
      ensures done == (r == []) && (done ==> Flatten(r) == [])
      ensures done == (old(rooms) == [] || old(rooms)[0] >= |Flatten(v)|)
      ensures rooms == if old(rooms) == [] then [] else old(rooms)[1..]
    {
      hide Flatten;
      done, r, written := FragSend(v, if rooms == [] then |Flatten(v)| else rooms[0]);
      rooms := if rooms == [] then [] else rooms[1..];
    }

    /** A fragment has at least the vector of its header. */
    method EndpointSend(frag: Vectors, priority: bool) returns (ok: bool)
      requires Valid() && frag != []
      modifies this
      ensures Valid() && phase == old(phase) && ok == (phase != Failed)
      ensures accepted == if ok then old(accepted) + Flatten(frag) else old(accepted)
      ensures var now := phase == Connected && old(current).None? && priority;
        && |wire| == |old(wire)| + (if now then old(NextWrite(|Flatten(frag)|)) else 0)
        && rooms == if now && old(rooms) != [] then old(rooms)[1..] else old(rooms)
    {
      if phase == Failed {
        return false;
      }
      if phase == Connected && current.None? {
        SendNow(frag, priority);
      } else {
        Enqueue(frag);
      }
      ok := true;
    }

    method Enqueue(frag: Vectors)
      requires Valid() && frag != [] && (phase == Connected ==> current.Some?)
      modifies this`pending, this`accepted
      ensures Valid() && accepted == old(accepted) + Flatten(frag)
    {
      hide Flatten, FlatAll;
      FlatAllMore(pending, frag);
      ghost var rest := Remaining();
      pending := pending + [frag];
      accepted := accepted + Flatten(frag);
      assert wire + Remaining() == wire + (rest + Flatten(frag));
    }

    /** Nothing is being sent: a fragment with priority is tried at once. */
    method SendNow(frag: Vectors, priority: bool)
      requires Valid() && frag != [] && phase == Connected && current.None?
      modifies this`current, this`armed, this`wire, this`accepted, this`rooms
      ensures Valid() && accepted == old(accepted) + Flatten(frag)
      ensures |wire| == |old(wire)| + (if priority then old(NextWrite(|Flatten(frag)|)) else 0)
      ensures rooms == if priority && old(rooms) != [] then old(rooms)[1..] else old(rooms)
    {
      hide Flatten;
      var done, rest, written := false, frag, [];
      if priority {
        done, rest, written := Write(frag);
      }
      assert wire + (written + Flatten(rest)) == wire + written + Flatten(rest);
      wire, accepted := wire + written, accepted + Flatten(frag);
      if !done {
        current, armed := Some(rest), true;
      }
    }

    method EndpointConnected()
      requires Valid() && phase == NotConnected
      modifies this
      ensures Valid() && phase == Connected && accepted == old(accepted) && wire == old(wire) && rooms == old(rooms)
    {
      phase := Connected;
      if pending != [] {
        if current.None? {
          current := Some(pending[0]);
          pending := pending[1..];
        }
        armed := true;
      }
    }

    /** One round of the write event; between two rounds the lock is free, and callbacks run.  As much of the current
        fragment is written as the socket takes, and there is another round exactly if it took all of it. */
    method SendProgress() returns (more: bool)
      requires Valid() && phase == Connected
      modifies this
      ensures Valid() && phase == Connected && accepted == old(accepted)
      ensures !more ==> (armed <==> current.Some?)
      ensures old(current).None? ==>
        !more && wire == old(wire) && rooms == old(rooms) && current.None? && pending == old(pending)
      ensures old(current).Some? ==>
        && |wire| == |old(wire)| + old(NextWrite(|Flatten(current.value)|))
        && more == (old(rooms) == [] || old(rooms)[0] >= |Flatten(old(current).value)|)
        && rooms == (if old(rooms) == [] then [] else old(rooms)[1..])
        && |pending| + (if current.Some? then 1 else 0) == |old(pending)| + if more then 0 else 1
    {
      hide Flatten, FlatAll;
      if current.None? {
        armed := false;
        return false;
      }
      var done, rest, written := Write(current.value);
      Shift(wire, written, Flatten(rest), FlatAll(pending));
      wire := wire + written;
      if !done {
        current := Some(rest);
        return false;
      }
      NextFragment();
      more := true;
    }

    /** The first pending fragment becomes the current one. */
    method NextFragment()
      requires phase == Connected && armed && wire + FlatAll(pending) == accepted && [] !in pending
      modifies this`current, this`pending
      ensures Valid() && |pending| + (if current.Some? then 1 else 0) == |old(pending)|
    {
      hide Flatten, FlatAll;
      FlatAllFirst(pending);
      Shift([], [], [], FlatAll(pending));
      if pending == [] {
        current := None;
      } else {
        current := Some(pending[0]);
        pending := pending[1..];
      }
    }

    /** The write event when nobody comes in between: it ends when the socket takes no more or all is written. */
    method SendHandler()
      requires Valid() && phase == Connected
      modifies this
      ensures Valid() && phase == Connected && accepted == old(accepted)
      ensures old(rooms) == [] ==> wire == accepted && current.None? && pending == [] && !armed && rooms == []
      ensures old(rooms) != [] && old(current).Some? ==> |rooms| < |old(rooms)|
    {
      hide Valid, NextWrite;
      var more := true;
      ghost var first := true;
      while more
        invariant Valid() && phase == Connected && accepted == old(accepted)
        invariant old(rooms) == [] ==> rooms == [] && (!more ==> current.None? && !armed)
        invariant if first then more && current == old(current) && rooms == old(rooms)
                  else old(rooms) != [] && old(current).Some? ==> |rooms| < |old(rooms)|
        decreases |pending| + (if current.Some? then 1 else 0), more
      {
        more := SendProgress();
        first := false;
      }
      if old(rooms) == [] {
        Account();
      }
    }

    /** As long as something is left, the write event comes again; the socket never blocks for ever. */
    method Flush()
      requires Valid() && phase == Connected
      modifies this
      ensures Valid() && phase == Connected && accepted == old(accepted) && wire == accepted && current.None?
    {
      hide Valid;
      while current.Some?
        invariant Valid() && phase == Connected && accepted == old(accepted)
        decreases |rooms|, current.Some?
      {
        SendHandler();
      }
      Account();
    }
  }

  /** The bytes that an event hands over. */
  function Bytes(e: Event): seq<Byte> {
    if e.Send? then Flatten(e.frag) else []
  }

  function Handed(events: seq<Event>): seq<Byte> {
    if events == [] then [] else Bytes(events[0]) + Handed(events[1..])
  }

  method Handle(s: Sender, e: Event)
    requires s.Valid() && s.phase != Failed && (e.Send? ==> e.frag != [])
    modifies s
    ensures s.Valid() && s.phase != Failed && s.accepted == old(s.accepted) + Bytes(e)
    ensures s.phase == if e.Connect? then Connected else old(s.phase)
    ensures e.Progress? && s.phase == Connected && old(s.current).Some? ==>
      |s.wire| == |old(s.wire)| + old(s.NextWrite(|Flatten(s.current.value)|))
  {
    hide Sender.Valid, Sender.NextWrite;
    match e {
      case Send(frag, priority) =>
        var _ := s.EndpointSend(frag, priority);
      case Connect =>
        if s.phase == NotConnected {
          s.EndpointConnected();
        }
      case Progress =>
        if s.phase == Connected {
          var _ := s.SendProgress();
        }
    }
  }

  /** Any interleaving of sends, the completion of the connection and rounds of the write event. */
  method Dispatch(events: seq<Event>, rooms: seq<int>) returns (s: Sender)
    requires forall e :: e in events && e.Send? ==> e.frag != []
    ensures fresh(s) && s.Valid() && s.phase != Failed && s.accepted == Handed(events)
  {
    hide Sender.Valid, Bytes;
    s := new Sender(rooms);
    var todo := events;
    while todo != []
      invariant s.Valid() && fresh(s) && s.phase != Failed && s.accepted + Handed(todo) == Handed(events)
      invariant forall e :: e in todo && e.Send? ==> e.frag != []
    {
      ghost var before := s.accepted;
      Handle(s, todo[0]);
      assert before + (Bytes(todo[0]) + Handed(todo[1..])) == s.accepted + Handed(todo[1..]);
      todo := todo[1..];
    }
  }

  /** The same, and once connected the write event comes until nothing is left: then everything is on the wire. */
  method SendAll(events: seq<Event>, rooms: seq<int>) returns (wire: seq<Byte>)
    requires forall e :: e in events && e.Send? ==> e.frag != []
    ensures wire == Handed(events)
  {
    hide Sender.Valid, Handed;
    var s := Dispatch(events, rooms);
    if s.phase == NotConnected {
      s.EndpointConnected();
    }
    s.Flush();
    wire := s.wire;
  }

  /** Any interleaving of sends, the completion of the connection and rounds of the write event, from
      threads and callbacks alike: the wire carries the accepted fragments, byte by byte in the order of
      acceptance, and all of them when the connection is idle. */
  method Interleave(events: seq<Event>, rooms: seq<int>) returns (wire: seq<Byte>, idle: bool, ghost left: seq<Byte>)
    requires forall e :: e in events && e.Send? ==> e.frag != []
    ensures wire + left == Handed(events) && (idle ==> wire == Handed(events))
  {
    hide Sender.Valid, Bytes;
    var s := Dispatch(events, rooms);
    s.Account();
    wire, left := s.wire, s.Remaining();
    idle := s.phase == Connected && s.current.None?;
  }
}

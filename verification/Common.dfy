/** What several parts share. */
module Common {

  type Byte = x: int | 0 <= x < 256

  datatype Option<T> = None | Some(value: T)

  function Min(a: int, b: int): int {
    if a < b then a else b
  }

  function Max(a: int, b: int): int {
    if a < b then b else a
  }

  function Sum(a: seq<nat>): nat {
    if a == [] then 0 else a[0] + Sum(a[1..])
  }

  /** The room in all buffers of some calls. */
  function TotalRoom(calls: seq<seq<nat>>): nat {
    if calls == [] then 0 else Sum(calls[0]) + TotalRoom(calls[1..])
  }

  lemma NoRoom()
    ensures TotalRoom([]) == 0
  {
  }

  lemma {:induction false} MoreRoom(calls: seq<seq<nat>>, rooms: seq<nat>)
    ensures TotalRoom(calls + [rooms]) == TotalRoom(calls) + Sum(rooms)
  {
    var all := calls + [rooms];
    if calls == [] {
      assert all[1..] == [];
    } else {
      assert all[1..] == calls[1..] + [rooms];
      MoreRoom(calls[1..], rooms);
    }
  }

  lemma {:induction false} RoomInSum(rooms: seq<nat>, j: nat)
    requires j < |rooms|
    ensures Sum(rooms) >= rooms[j]
  {
    if j > 0 {
      RoomInSum(rooms[1..], j - 1);
    }
  }

  lemma {:induction false} RoomInTotal(calls: seq<seq<nat>>, i: nat, j: nat)
    requires i < |calls| && j < |calls[i]|
    ensures TotalRoom(calls) >= calls[i][j]
  {
    if i == 0 {
      RoomInSum(calls[0], j);
    } else {
      RoomInTotal(calls[1..], i - 1, j);
    }
  }

  /** Pieces put together. */
  function Flatten<T>(pieces: seq<seq<T>>): seq<T> {
    if pieces == [] then [] else pieces[0] + Flatten(pieces[1..])
  }

  lemma {:induction false} FlattenMore<T>(pieces: seq<seq<T>>, piece: seq<T>)
    ensures Flatten(pieces + [piece]) == Flatten(pieces) + piece
  {
    var all := pieces + [piece];
    if pieces == [] {
      assert all[1..] == [];
    } else {
      assert all[1..] == pieces[1..] + [piece];
      FlattenMore(pieces[1..], piece);
    }
  }

  /** A function changed at one point. */
  function Put<V>(f: int -> V, k: int, v: V): (r: int -> V)
    ensures forall x :: r(x) == if x == k then v else f(x)
  {
    x => if x == k then v else f(x)
  }

  lemma {:induction false} Subset<T>(a: set<T>, b: set<T>)
    requires a <= b
    ensures |a| <= |b| && (|a| == |b| ==> a == b)
  {
    if a != {} {
      var x :| x in a;
      Subset(a - {x}, b - {x});
    }
  }
}

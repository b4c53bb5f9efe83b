/**
 A send convertor for a non-contiguous datatype: packs in any number of calls with any buffer
 sizes, and can be moved to any position in between.
 */
module Convertor {
  import opened Common
  import opened TypeMap
  import opened Walking
  import opened Packing
  import Positioning

  /** `out` is what packing puts into a buffer of `space` bytes when it delivers blocks
      `from..to` of `all`: whole blocks, and the next one would not have fitted. */
  ghost predicate Chunk(mem: Memory, all: seq<Block>, space: nat, out: seq<Byte>, from: nat, to: nat) {
    && from <= to <= |all|
    && out == Read(mem, Expand(all[from..to]))
    && |out| <= space && (to < |all| ==> space - |out| < all[to].size)
  }

  /** Consecutive chunks in the first buffers of `iov`; they end after `cuts[1]`, `cuts[2]`, ... */
  ghost predicate Chunks(mem: Memory, all: seq<Block>, iov: seq<nat>, out: seq<seq<Byte>>, cuts: seq<nat>) {
    && |out| <= |iov| && |cuts| == |out| + 1 && cuts[0] <= |all|
    && (out == [] ||
        var n := |out| - 1;
        Chunks(mem, all, iov, out[..n], cuts[..n + 1]) && Chunk(mem, all, iov[n], out[n], cuts[n], cuts[n + 1]))
  }

  lemma ChunksMore(mem: Memory, all: seq<Block>, iov: seq<nat>, out: seq<seq<Byte>>, cuts: seq<nat>, piece: seq<Byte>,
                   cut: nat)
    requires Chunks(mem, all, iov, out, cuts) && |out| < |iov|
    requires Chunk(mem, all, iov[|out|], piece, cuts[|out|], cut)
    ensures Chunks(mem, all, iov, out + [piece], cuts + [cut])
  {
    assert (out + [piece])[..|out|] == out;
    assert (cuts + [cut])[..|cuts|] == cuts;
  }

  /** Together, the chunks of a call are the bytes of all the blocks that it delivered. */
  lemma {:induction false} ChunksFlatten(mem: Memory, all: seq<Block>, iov: seq<nat>, out: seq<seq<Byte>>,
                                         cuts: seq<nat>)
    requires Chunks(mem, all, iov, out, cuts)
    ensures cuts[0] <= cuts[|out|] <= |all|
    ensures Flatten(out) == Read(mem, Expand(all[cuts[0]..cuts[|out|]]))
  {
    if out == [] {
      assert all[cuts[0]..cuts[0]] == [];
    } else {
      var n := |out| - 1;
      ChunksFlatten(mem, all, iov, out[..n], cuts[..n + 1]);
      assert cuts[..n + 1][0] == cuts[0] && cuts[..n + 1][n] == cuts[n];
      ReadConcat(mem, all, cuts[0], cuts[n], cuts[n + 1]);
      FlattenMore(out[..n], out[n]);
      assert out[..n] + [out[n]] == out;
    }
  }

  lemma ReadConcat(mem: Memory, all: seq<Block>, a: nat, b: nat, c: nat)
    requires a <= b <= c <= |all|
    ensures Read(mem, Expand(all[a..c])) == Read(mem, Expand(all[a..b])) + Read(mem, Expand(all[b..c]))
  {
    assert all[a..c] == all[a..b] + all[b..c];
    ExpandConcat(all[a..b], all[b..c]);
  }

  // ---------------------------------------------------------------- how far buffers reach

  /** Where filling a buffer ends: whole blocks, until the next one does not fit. */
  ghost function FillTo(all: seq<Block>, at: nat, room: nat): (r: nat)
    requires at <= |all|
    ensures at <= r <= |all|
    decreases |all| - at
  {
    if at < |all| && all[at].size <= room then FillTo(all, at + 1, room - all[at].size) else at
  }

  /** Where filling buffers one after the other ends, and where a sequence of calls does. */
  ghost function FillRooms(all: seq<Block>, at: nat, rooms: seq<nat>): (r: nat)
    requires at <= |all|
    ensures at <= r <= |all|
    decreases rooms
  {
    if rooms == [] then at else FillRooms(all, FillTo(all, at, rooms[0]), rooms[1..])
  }

  ghost function FillCalls(all: seq<Block>, at: nat, calls: seq<seq<nat>>): (r: nat)
    requires at <= |all|
    ensures at <= r <= |all|
    decreases calls
  {
    if calls == [] then at else FillCalls(all, FillRooms(all, at, calls[0]), calls[1..])
  }

  lemma {:induction false} FillMore(all: seq<Block>, at: nat, rooms: seq<nat>, room: nat)
    requires at <= |all|
    ensures FillRooms(all, at, rooms + [room]) == FillTo(all, FillRooms(all, at, rooms), room)
    decreases |rooms|
  {
    hide FillTo;
    var more := rooms + [room];
    if rooms == [] {
      assert more[1..] == [];
    } else {
      assert more[1..] == rooms[1..] + [room];
      FillMore(all, FillTo(all, at, rooms[0]), rooms[1..], room);
    }
  }

  lemma {:induction false} FillNext(all: seq<Block>, at: nat, calls: seq<seq<nat>>, rooms: seq<nat>)
    requires at <= |all|
    ensures FillCalls(all, at, calls + [rooms]) == FillRooms(all, FillCalls(all, at, calls), rooms)
    decreases |calls|
  {
    hide FillRooms;
    var more := calls + [rooms];
    if calls == [] {
      assert more[1..] == [];
    } else {
      assert more[1..] == calls[1..] + [rooms];
      FillNext(all, FillRooms(all, at, calls[0]), calls[1..], rooms);
    }
  }

  /** At the end there is nothing to fill buffers with. */
  lemma {:induction false} FillNothing(all: seq<Block>, rooms: seq<nat>)
    ensures FillRooms(all, |all|, rooms) == |all|
  {
    if rooms != [] {
      FillNothing(all, rooms[1..]);
    }
  }

  /** A buffer reaches the end exactly if it has room for all bytes that are left. */
  lemma {:induction false} FillsAll(all: seq<Block>, at: nat, room: nat)
    requires at <= |all|
    ensures FillTo(all, at, room) == |all| <==> room >= |Expand(all[at..])|
    decreases |all| - at
  {
    if at < |all| {
      assert all[at..] == [all[at]] + all[at + 1..];
      ExpandConcat([all[at]], all[at + 1..]);
      assert Expand([all[at]]) == Range(all[at].disp, all[at].size) + Expand([]);
      RangeLength(all[at].disp, all[at].size);
      hide Expand;
      if all[at].size <= room {
        FillsAll(all, at + 1, room - all[at].size);
      }
    }
  }

  /** The end of a chunk is where filling the buffer ends. */
  lemma {:induction false} ChunkFills(mem: Memory, all: seq<Block>, space: nat, out: seq<Byte>, a: nat, b: nat)
    requires Chunk(mem, all, space, out, a, b)
    ensures b == FillTo(all, a, space)
    decreases b - a
  {
    if a < b {
      ReadConcat(mem, all, a, a + 1, b);
      assert all[a..a + 1] == [all[a]];
      assert Expand([all[a]]) == Range(all[a].disp, all[a].size) + Expand([]);
      RangeLength(all[a].disp, all[a].size);
      hide Expand;
      ChunkFills(mem, all, space - all[a].size, Read(mem, Expand(all[a + 1..b])), a + 1, b);
    } else {
      assert all[a..b] == [];
    }
  }

  /** So is the end of all chunks of a call. */
  lemma {:induction false} ChunksFill(mem: Memory, all: seq<Block>, iov: seq<nat>, out: seq<seq<Byte>>, cuts: seq<nat>)
    requires Chunks(mem, all, iov, out, cuts)
    ensures cuts[|out|] == FillRooms(all, cuts[0], iov[..|out|])
  {
    if out != [] {
      var n := |out| - 1;
      hide Chunk, FillRooms, FillTo;
      ChunksFill(mem, all, iov, out[..n], cuts[..n + 1]);
      ChunkFills(mem, all, iov[n], out[n], cuts[n], cuts[n + 1]);
      FillMore(all, cuts[0], iov[..n], iov[n]);
      assert iov[..n] + [iov[n]] == iov[..n + 1];
      assert cuts[..n + 1][0] == cuts[0] && cuts[..n + 1][n] == cuts[n];
    }
  }

  /** A call ends where its buffers do, also when it stops before the last one. */
  lemma {:induction false} FillsTo(all: seq<Block>, at: nat, rooms: seq<nat>, n: nat)
    requires at <= |all| && n <= |rooms| && (n == |rooms| || FillRooms(all, at, rooms[..n]) == |all|)
    ensures FillRooms(all, at, rooms) == FillRooms(all, at, rooms[..n])
    decreases n
  {
    if n == 0 {
      FillNothing(all, rooms);
    } else {
      assert rooms[..n][1..] == rooms[1..][..n - 1];
      FillsTo(all, FillTo(all, at, rooms[0]), rooms[1..], n - 1);
    }
  }

  /** One buffer with room for everything is enough, whichever it is. */
  lemma {:induction false} FillsAllRooms(all: seq<Block>, at: nat, rooms: seq<nat>, j: nat)
    requires at <= |all| && j < |rooms| && rooms[j] >= |Expand(all)|
    ensures FillRooms(all, at, rooms) == |all|
    decreases j
  {
    hide Expand;
    if j == 0 {
      FillsAll(all, at, rooms[0]);
      ExpandPrefix(all, at);
      FillNothing(all, rooms[1..]);
    } else {
      FillsAllRooms(all, FillTo(all, at, rooms[0]), rooms[1..], j - 1);
    }
  }

  lemma {:induction false} FillsAllCalls(all: seq<Block>, at: nat, calls: seq<seq<nat>>, i: nat, j: nat)
    requires at <= |all| && i < |calls| && j < |calls[i]| && calls[i][j] >= |Expand(all)|
    ensures FillCalls(all, at, calls) == |all|
    decreases i
  {
    hide Expand, FillRooms;
    if i == 0 {
      FillsAllRooms(all, at, calls[0], j);
      NoMoreCalls(all, calls[1..]);
    } else {
      FillsAllCalls(all, FillRooms(all, at, calls[0]), calls[1..], i - 1, j);
    }
  }

  lemma {:induction false} NoMoreCalls(all: seq<Block>, calls: seq<seq<nat>>)
    ensures FillCalls(all, |all|, calls) == |all|
  {
    if calls != [] {
      FillNothing(all, calls[0]);
      NoMoreCalls(all, calls[1..]);
    }
  }

  /** A saved position accounts for everything from block `at` on. */
  ghost predicate Resumable(t: Layout, count: nat, w: Walk, at: nat)
    requires t.WellFormed()
  {
    && Valid(t, w) && Tame(t, w.st, w.pos) && OnTrack(t, w) && !t.desc[w.pos].EndLoop?
    && at <= |t.All(count)| && Left(t, w) == t.All(count)[at..]
  }

  lemma AtBeginning(t: Layout, count: nat)
    requires t.WellFormed() && count > 0
    ensures Resumable(t, count, Fresh(t, Items(count, 0), 0), 0)
  {
    Begin(t, count);
    Arrive(t, Items(count, 0), 0);
    DisplaceZero(t.All(count));
  }

  /** A walk that stands at a data element leaves a block of that element's size first. */
  lemma LeftAtElem(t: Layout, w: Walk)
    requires t.WellFormed() && Valid(t, w) && t.desc[w.pos].Elem?
    ensures Left(t, w) != [] && Left(t, w)[0].size == BasicSize(t.desc[w.pos].id)
  {
    NextSibling(t, w.st, w.pos);
  }

  /** Where a tail of `all[at..]` begins in `all`. */
  lemma TailOfTail(all: seq<Block>, at: nat, tail: seq<Block>)
    requires at <= |all| && Suffix(all[at..], tail)
    ensures at <= |all| - |tail| && all[|all| - |tail|..] == tail
    ensures all[at..][..|all| - at - |tail|] == all[at..|all| - |tail|]
  {
    assert all[at..][|all| - at - |tail|..] == all[|all| - |tail|..];
  }

  /** One buffer. */
  method PackOne(t: Layout, mem: Memory, count: nat, w: Walk, ghost at: nat, space: nat)
    returns (finished: bool, w': Walk, out: seq<Byte>, ghost at': nat)
    requires t.WellFormed() && Resumable(t, count, w, at)
    ensures Chunk(mem, t.All(count), space, out, at, at')
    ensures finished ==> at' == |t.All(count)|
    ensures !finished ==> Resumable(t, count, w', at') && t.desc[w'.pos].Elem?
  {
    hide Sound, Honest, Close, Body, Nesting, Left, Valid, Tame, OnTrack, Expand, Read, Suffix, Repeat, Emits, Chunk,
         BasicSize;
    finished, w', out := Fill(t, mem, w, space);
    ghost var left := if finished then [] else Left(t, w');
    ghost var all := t.All(count);
    if !finished {
      LeftAtElem(t, w');
    }
    OneChunk(mem, all, at, left, space, out);
    at' := |all| - |left|;
  }

  lemma OneChunk(mem: Memory, all: seq<Block>, at: nat, left: seq<Block>, space: nat, out: seq<Byte>)
    requires at <= |all| && Emits(mem, all[at..], left, out) && |out| <= space
    requires left != [] ==> space - |out| < left[0].size
    ensures at <= |all| - |left| && Chunk(mem, all, space, out, at, |all| - |left|) && all[|all| - |left|..] == left
  {
    hide Expand, Read;
    TailOfTail(all, at, left);
  }

  /** The bytes in front of the end of a chunk. */
  lemma ChunkBytes(mem: Memory, all: seq<Block>, space: nat, out: seq<Byte>, a: nat, b: nat)
    requires Chunk(mem, all, space, out, a, b)
    ensures a <= b <= |all| && |Expand(all[..b])| == |Expand(all[..a])| + |out|
  {
    assert all[..b] == all[..a] + all[a..b];
    ExpandConcat(all[..a], all[a..b]);
  }

  /** A resumable position is before the end, and its stack is no higher than the loops are nested. */
  lemma NotAtEnd(t: Layout, count: nat, w: Walk, at: nat)
    requires t.WellFormed() && Resumable(t, count, w, at)
    ensures |Expand(t.All(count)[..at])| < |Expand(t.All(count))|
    ensures w.st.Height() <= Nesting(t.desc, 0) + 1
  {
    hide Sound, Close, Body;
    var all := t.All(count);
    LeftNonEmpty(t, w);
    BodySizes(t.desc, 0);
    RepeatSizes(Body(t.desc, 0), t.extent, count);
    ExpandNonEmpty(all[at..]);
    ExpandPrefix(all, at);
  }

  lemma LeftNonEmpty(t: Layout, w: Walk)
    requires t.WellFormed() && Valid(t, w) && !t.desc[w.pos].EndLoop?
    ensures Left(t, w) != []
  {
    NextSibling(t, w.st, w.pos);
    if t.desc[w.pos].Loop? {
      BodySizes(t.desc, w.pos + 1);
      assert Close(t.desc, w.pos + 1) == w.pos + t.desc[w.pos].items;
    }
  }

  /** Any number of buffers, one after the other, until everything is delivered. */
  method PackBuffers(t: Layout, mem: Memory, count: nat, w: Walk, ghost at: nat, iov: seq<nat>)
    returns (finished: bool, w': Walk, out: seq<seq<Byte>>, maxData: nat, ghost at': nat, ghost cuts: seq<nat>)
    requires t.WellFormed() && Resumable(t, count, w, at)
    ensures Chunks(mem, t.All(count), iov, out, cuts) && cuts[0] == at && cuts[|out|] == at'
    ensures at <= at' <= |t.All(count)|
    ensures maxData == |Expand(t.All(count)[..at'])| - |Expand(t.All(count)[..at])|
    ensures finished ==> at' == |t.All(count)|
    ensures !finished ==> Resumable(t, count, w', at') && |out| == |iov|
  {
    ghost var all := t.All(count);
    finished, w', out, maxData, at', cuts := false, w, [], 0, at, [at];
    assert Chunks(mem, all, iov, out, cuts);
    hide Sound, Honest, Close, Body, Nesting, Resumable, Chunk, Chunks, Expand, Read, Repeat;
    var i := 0;
    while i < |iov| && !finished
      invariant 0 <= i <= |iov| && |out| == i && |cuts| == i + 1
      invariant Chunks(mem, all, iov, out, cuts) && cuts[0] == at && cuts[i] == at'
      invariant at <= at' <= |all|
      invariant finished ==> at' == |all|
      invariant !finished ==> Resumable(t, count, w', at')
      invariant maxData == |Expand(all[..at'])| - |Expand(all[..at])|
    {
      var piece;
      ghost var before := at';
      finished, w', piece, at' := PackOne(t, mem, count, w', at', iov[i]);
      ChunksMore(mem, all, iov, out, cuts, piece, at');
      ChunkBytes(mem, all, iov[i], piece, before, at');
      out, cuts := out + [piece], cuts + [at'];
      maxData := maxData + |piece|;
      i := i + 1;
    }
  }

  /** The block after a resumable position is not empty. */
  lemma Boundary(t: Layout, count: nat, w: Walk, at: nat)
    requires t.WellFormed() && Resumable(t, count, w, at)
    ensures at < |t.All(count)| && |Expand(t.All(count)[..at])| < |Expand(t.All(count)[..at + 1])|
  {
    hide Sound, Close, Body;
    var all := t.All(count);
    LeftNonEmpty(t, w);
    BodySizes(t.desc, 0);
    RepeatSizes(Body(t.desc, 0), t.extent, count);
    NextBoundary(all, at);
    assert all[at] in all;
  }

  lemma NextBoundary(all: seq<Block>, at: nat)
    requires at < |all|
    ensures |Expand(all[..at + 1])| == |Expand(all[..at])| + all[at].size
  {
    assert all[..at + 1] == all[..at] + [all[at]];
    ExpandConcat(all[..at], [all[at]]);
    assert Expand([all[at]]) == Range(all[at].disp, all[at].size) + Expand([]);
  }

  /** Moves forward to `position`: whole items by adjusting the stack, then by walking.  The
      position is reached except for `partial` bytes that do not complete a basic element. */
  method Move(t: Layout, count: nat, w: Walk, converted: nat, ghost at: nat, position: nat)
    returns (w': Walk, converted': nat, partial: nat, ghost at': nat)
    requires t.WellFormed() && Resumable(t, count, w, at)
    requires converted == |Expand(t.All(count)[..at])| < position < |Expand(t.All(count))|
    ensures Resumable(t, count, w', at') && converted' == position && partial <= position
    ensures at' < |t.All(count)| && partial < t.All(count)[at'].size
    ensures position - partial == |Expand(t.All(count)[..at'])|
  {
    hide Sound, Honest, Close, Body, Nesting, Expand, Repeat, Left, Valid, Tame, OnTrack, Positioning.Skips;
    var here, delta := w, position - converted;
    ghost var all := t.All(count);
    Positioning.SkipsNothing(Left(t, w));
    BytesLeft(t, count, w, at);
    if delta > t.size {
      var items := delta / t.size;
      FewerItems(items, delta, t.size, Positioning.BottomCount(w.st));
      Positioning.JumpIsWalk(t, w, items);
      here := Positioning.Jump(t, w, items);
      delta := delta - items * t.size;
    }
    var finished;
    finished, w', partial := Positioning.Seek(t, here, delta);
    converted' := position;
    ghost var left := if finished then [] else Left(t, w');
    Positioning.SkipsThen(Left(t, w), Left(t, here), left, position - converted - delta, delta - partial);
    SkipsTo(all, at, left, position - converted - partial);
    at' := |all| - |left|;
    assert all[..|all|] == all;
    assert !finished;
    LeftAtElem(t, w');
  }

  lemma FewerItems(items: nat, delta: nat, size: nat, count: nat)
    requires size > 0 && items == delta / size && delta < count * size
    ensures items * size <= delta && items < count
  {
    assert items >= count ==> items * size >= count * size;
  }

  /** From any position, what is left is no more than the items from the current one on. */
  lemma BytesLeft(t: Layout, count: nat, w: Walk, at: nat)
    requires t.WellFormed() && Resumable(t, count, w, at)
    ensures |Expand(t.All(count)[..at])| + |Expand(Left(t, w))| == |Expand(t.All(count))|
    ensures |Expand(Left(t, w))| <= Positioning.BottomCount(w.st) * t.size && t.size > 0
  {
    hide Sound, Close, Body, Repeat, Displace, Expand, Left;
    var c, body := Positioning.BottomCount(w.st), Body(t.desc, 0);
    ExpandPrefix(t.All(count), at);
    var items := FromItem(t, w.st);
    ExpandPrefix(items, |items| - |Left(t, w)|);
    ExpandDisplace(Repeat(body, t.extent, c), Bottom(w.st).disp);
    ExpandRepeatLength(body, t.extent, c);
    BodySizes(t.desc, 0);
    ExpandNonEmpty(body);
  }

  /** Passing `n` bytes from block `at` on. */
  lemma SkipsTo(all: seq<Block>, at: nat, left: seq<Block>, n: int)
    requires at <= |all| && Positioning.Skips(all[at..], left, n)
    ensures at <= |all| - |left| && all[|all| - |left|..] == left
    ensures |Expand(all[..|all| - |left|])| == |Expand(all[..at])| + n
  {
    var k := |all| - |left|;
    TailOfTail(all, at, left);
    assert all[..k] == all[..at] + all[at..k];
    ExpandConcat(all[..at], all[at..k]);
  }

  class SendConvertor {
    const t: Layout
    const mem: Memory
    const count: nat
    var saved: Walk
    var bConverted: nat
    var partialLength: nat
    var completed: bool
    /** The number of blocks in front of the current position. */
    ghost var at: nat

    ghost predicate Valid()
      reads this
    {
      && t.WellFormed() && partialLength == 0
      && at <= |t.All(count)| && bConverted == |Expand(t.All(count)[..at])|
      && (completed ==> at == |t.All(count)|)
      && (!completed ==> Resumable(t, count, saved, at))
    }

    constructor (t: Layout, mem: Memory, count: nat)
      requires t.WellFormed()
      ensures this.t == t && this.mem == mem && this.count == count
      ensures Valid() && at == 0 && bConverted == 0 && (completed <==> count == 0)
    {
      this.t, this.mem, this.count := t, mem, count;
      saved := Fresh(t, Items(count, 0), 0);
      bConverted, partialLength, completed, at := 0, 0, count == 0, 0;
      new;
      if count > 0 {
        AtBeginning(t, count);
      }
    }

    /** One call with any number of buffers of any length. */
    method Pack(iov: seq<nat>) returns (rc: int, out: seq<seq<Byte>>, maxData: nat, ghost cuts: seq<nat>)
      requires Valid()
      modifies this
      ensures Valid() && old(at) <= at
      ensures Chunks(mem, t.All(count), iov, out, cuts) && cuts[0] == old(at) && cuts[|out|] == at
      ensures maxData == bConverted - old(bConverted) && at == FillRooms(t.All(count), old(at), iov)
      ensures rc == (if bConverted == |Expand(t.All(count))| then 1 else 0) && (rc == 1 <==> completed)
      ensures rc == 0 ==> |out| == |iov|
      ensures !completed ==> saved.st.Height() + 1 <= Nesting(t.desc, 0) + 2
    {
      hide Sound, Honest, Close, Body, Nesting, Resumable, Chunk, Expand, Repeat, FillRooms;
      ghost var all := t.All(count);
      if completed {
        assert all[..|all|] == all;
        FillNothing(all, iov);
        return 1, [], 0, [at];
      }
      ghost var start := at;
      completed, saved, out, maxData, at, cuts := PackBuffers(t, mem, count, saved, at, iov);
      if completed {
        assert all[..|all|] == all;
      } else {
        NotAtEnd(t, count, saved, at);
      }
      ChunksFill(mem, all, iov, out, cuts);
      assert iov[..|iov|] == iov;
      FillsTo(all, start, iov, |out|);
      bConverted := bConverted + maxData;
      rc := if completed then 1 else 0;
    }

    /** Moves to `position`, or to the last element boundary before it. */
    method SetPosition(position: nat) returns (position': nat)
      requires Valid()
      modifies this
      ensures Valid() && position' == bConverted
      ensures position >= |Expand(t.All(count))| ==> completed && position' == |Expand(t.All(count))|
      ensures position < |Expand(t.All(count))| ==>
        && !completed && at < |t.All(count)|
        && position' == |Expand(t.All(count)[..at])| <= position < |Expand(t.All(count)[..at + 1])|
    {
      hide Sound, Honest, Close, Body, Nesting, Resumable, Expand, Repeat;
      ghost var all := t.All(count);
      var localSize := count * t.size;
      assert localSize == |Expand(all)| by {
        ExpandRepeatLength(Body(t.desc, 0), t.extent, count);
      }
      if localSize <= position {
        assert all[..|all|] == all;
        completed, bConverted, at := true, localSize, |all|;
        return bConverted;
      }
      if position == bConverted {
        Boundary(t, count, saved, at);
        return position;
      }
      completed := false;
      if position == 0 || position < bConverted {
        assert count > 0 by {
          ExpandRepeatLength(Body(t.desc, 0), t.extent, count);
        }
        Rewind();
        if position == 0 {
          Boundary(t, count, saved, at);
          return 0;
        }
      }
      saved, bConverted, partialLength, at := Move(t, count, saved, bConverted, at, position);
      NextBoundary(all, at);
      bConverted := bConverted - partialLength;
      partialLength := 0;
      position' := bConverted;
    }

    /** Resets the stack to the beginning. */
    method Rewind()
      requires t.WellFormed() && count > 0 && !completed
      modifies this
      ensures Valid() && at == 0 && bConverted == 0 && !completed
    {
      hide Honest, Close, Body, Nesting, Resumable, Repeat;
      saved := Fresh(t, Items(count, 0), 0);
      bConverted, partialLength, at := 0, 0, 0;
      AtBeginning(t, count);
    }
  }

  /** Any sequence of calls: the concatenated output is the bytes of the user buffer in the order of
      the type map, from where the convertor stood to where filling the buffers one after the other ends. */
  method PackCalls(c: SendConvertor, calls: seq<seq<nat>>) returns (rc: int, out: seq<Byte>)
    requires c.Valid()
    modifies c
    ensures c.Valid() && c.at == FillCalls(c.t.All(c.count), old(c.at), calls)
    ensures out == Read(c.mem, Expand(c.t.All(c.count)[old(c.at)..c.at]))
    ensures old(c.bConverted) <= c.bConverted <= |Read(c.mem, Expand(c.t.All(c.count)))|
    ensures out == Read(c.mem, Expand(c.t.All(c.count)))[old(c.bConverted)..c.bConverted]
    ensures c.completed <==> c.bConverted == |Read(c.mem, Expand(c.t.All(c.count)))|
    ensures calls != [] ==> rc == if c.completed then 1 else 0
  {
    hide Sound, Honest, Close, Body, Nesting, Resumable, Chunk, Chunks, Expand, Repeat, FillCalls,
         FillRooms;
    rc, out := 0, [];
    ghost var all, from := c.t.All(c.count), c.at;
    NoCalls(c.mem, all, from);
    for i := 0 to |calls|
      invariant c.Valid() && from <= c.at <= |all| && c.at == FillCalls(all, from, calls[..i])
      invariant out == Read(c.mem, Expand(all[from..c.at]))
      invariant i > 0 ==> rc == if c.completed then 1 else 0
    {
      ghost var before := c.at;
      var bufs, n;
      ghost var cuts;
      rc, bufs, n, cuts := c.Pack(calls[i]);
      ChunksFlatten(c.mem, all, calls[i], bufs, cuts);
      ReadConcat(c.mem, all, from, before, c.at);
      FillNext(all, from, calls[..i], calls[i]);
      assert calls[..i] + [calls[i]] == calls[..i + 1];
      out := out + Flatten(bufs);
    }
    assert calls[..|calls|] == calls;
    CallsEnd(c, all, from);
  }

  lemma NoCalls(mem: Memory, all: seq<Block>, at: nat)
    requires at <= |all|
    ensures Read(mem, Expand(all[at..at])) == [] && FillCalls(all, at, []) == at
  {
    assert all[at..at] == [];
    ReadNothing(mem);
  }

  /** Where a convertor stands, in bytes. */
  lemma CallsEnd(c: SendConvertor, all: seq<Block>, from: nat)
    requires c.Valid() && all == c.t.All(c.count) && from <= c.at
    ensures c.at <= |all| && |Expand(all[..from])| <= c.bConverted <= |Expand(all)| == |Read(c.mem, Expand(all))|
    ensures Read(c.mem, Expand(all[from..c.at])) == Read(c.mem, Expand(all))[|Expand(all[..from])|..c.bConverted]
    ensures c.completed <==> c.bConverted == |Expand(all)|
  {
    hide Sound, Honest, Close, Body, Nesting, Resumable, Expand, Repeat;
    ReadSlice(c.mem, all, from, c.at);
    assert all[..|all|] == all;
    if !c.completed {
      Boundary(c.t, c.count, c.saved, c.at);
      ReadSlice(c.mem, all, c.at, c.at + 1);
    }
  }

  lemma ReadNothing(mem: Memory)
    ensures Read(mem, Expand([])) == []
  {
  }

  /** The bytes of some of the blocks are a part of the full stream. */
  lemma ReadSlice(mem: Memory, all: seq<Block>, a: nat, b: nat)
    requires a <= b <= |all|
    ensures |Expand(all[..a])| <= |Expand(all[..b])| <= |Expand(all)| == |Read(mem, Expand(all))|
    ensures Read(mem, Expand(all[a..b])) == Read(mem, Expand(all))[|Expand(all[..a])|..|Expand(all[..b])|]
  {
    hide Expand;
    assert all[..b] == all[..a] + all[a..b] && all == all[..b] + all[b..];
    ExpandConcat(all[..a], all[a..b]);
    ExpandConcat(all[..b], all[b..]);
  }
}

/** From building a datatype to the bytes that are sent. */
module Pipeline {
  import opened Common
  import opened TypeMap
  import opened Walking
  import opened Packing
  import opened DatatypeAdd
  import O = Optimizer
  import Convertor
  import Contiguous
  import Gaps = ContiguousWithGaps

  /** Where the bytes of `count` items lie: those of the type map, item by item. */
  ghost function Bytes(t: Info, count: nat): seq<int>
    requires t.Valid()
  {
    Expand(Repeat(Map(t.desc), t.ub - t.lb, count))
  }

  /** When the way of packing that is chosen for a datatype does what its type map says.  Types with the flag NO_GAPS
      are taken for one block, other contiguous types for equal blocks, of which the first element is one. */
  ghost predicate RightlyPacked(t: Info, count: nat)
    requires t.Valid()
  {
    count == 0 || t.size == 0 ||
    if t.noGaps then count == 1 || t.size == t.ub - t.lb
    else if t.contig then count == 1 || t.size == t.ub - t.lb || DenseBehindFirst(t)
    else CleanlyCommitted(t)
  }

  /** Output that is the beginning of the stream, and all of it exactly when packing is done. */
  ghost predicate Delivers(mem: Memory, all: seq<int>, done: bool, out: seq<Byte>) {
    |out| <= |all| && out == Read(mem, all)[..|out|] && (done <==> |out| == |all|)
  }

  /** What is known of the committed form of a datatype with data. */
  ghost predicate IsCommitted(t: Info, opt: Layout)
    requires t.Valid()
  {
    && opt.desc != [] && opt.extent == t.ub - t.lb && Sound(opt.desc, 0)
    && opt.desc[|opt.desc| - 1] == EndLoop(|opt.desc| - 1, FirstDisp(t.desc, 0), t.size)
    && (CleanlyCommitted(t) ==> opt.WellFormed() && Expand(Body(opt.desc, 0)) == Expand(Map(t.desc)))
    && (t.contig ==>
          && FirstDisp(t.desc, 0) == t.trueLb && 0 < O.Covers(opt.desc[0]) <= t.size
          && (O.Covers(opt.desc[0]) == t.size <==> DenseBehindFirst(t)))
  }

  /** A contiguous type is taken for one block, or otherwise for equal ones. */
  predicate OneBlock(t: Info, count: nat) {
    t.noGaps || count == 1 || t.ub - t.lb == t.size
  }

  /** The items of a contiguous type as blocks. */
  function Blocks(t: Info, count: nat): Gaps.Items {
    Gaps.Items(t.size, t.ub - t.lb, t.trueLb, count)
  }

  /** Where one call with enough room takes the bytes of a contiguous type from. */
  ghost function TakenFrom(t: Info, opt: Layout, count: nat): seq<int>
    requires t.size > 0 && opt.desc != []
  {
    if OneBlock(t, count) then Range(t.trueLb, count * t.size) else TakenBlocks(t, O.Covers(opt.desc[0]), count)
  }

  /** Where they are taken from if it is taken for blocks and the stack expects `first` bytes. */
  ghost function TakenBlocks(t: Info, first: nat, count: nat): seq<int>
    requires t.size > 0
  {
    Gaps.Walked(Blocks(t, count), Gaps.Stack(count, 0, first, 0), count * t.size)
  }

  /** How many bytes calls take: contiguous types fill all the room, others end at a whole block. */
  ghost function Amount(t: Info, opt: Layout, count: nat, calls: seq<seq<nat>>): nat
    requires t.contig || opt.WellFormed()
  {
    if t.contig then Min(count * t.size, TotalRoom(calls))
    else |Expand(opt.All(count)[..Convertor.FillCalls(opt.All(count), 0, calls)])|
  }

  /** A datatype that has been built by adding is committed, and items of it are packed in any number of
      calls with any buffers. */
  method PackBuilt(d: Datatype, mem: Memory, count: nat, calls: seq<seq<nat>>)
    returns (done: bool, out: seq<Byte>, ghost opt: Layout)
    requires d.Valid() && (d.info.contig || RightlyPacked(d.info, count))
    ensures RightlyPacked(d.info, count) ==> Delivers(mem, Bytes(d.info, count), done, out)
    ensures count > 0 && d.info.size > 0 ==>
      && IsCommitted(d.info, opt) && (d.info.contig || opt.WellFormed())
      && |out| == Amount(d.info, opt, count, calls)
    ensures RightlyPacked(d.info, count) && HasRoom(calls, |Bytes(d.info, count)|) ==> done
  {
    opt := Layout([], 0, 0);
    if count == 0 || d.info.size == 0 {
      NothingToPack(d.info, mem, count);
      return true, [], opt;
    }
    hide CleanlyCommitted, DenseBehindFirst, Sound, Body, Layout.WellFormed, Delivers, Bytes, Amount, HasRoom;
    var committed := CommitBuilt(d);
    opt := committed;
    done, out := PackCommitted(d.info, committed, mem, count, calls);
  }

  /** Some buffer of some call has room for `n` bytes. */
  ghost predicate HasRoom(calls: seq<seq<nat>>, n: nat) {
    exists i, j :: 0 <= i < |calls| && 0 <= j < |calls[i]| && calls[i][j] >= n
  }

  method CommitBuilt(d: Datatype) returns (opt: Layout)
    requires d.Valid() && d.info.size > 0
    ensures IsCommitted(d.info, opt)
  {
    hide Map, Expand, Shape, O.Covers, CleanlyCommitted, DenseBehindFirst, Sound, Body, Nesting, Depth, KeptDepth,
         Layout.WellFormed;
    var r, _ := d.Commit();
    opt := r.value;
    O.Marked(opt.desc);
  }

  /** Contiguous types are packed in one of three ways, other types by walking through the description.  The output is
      right if the condition of the way that is taken holds. */
  method PackCommitted(t: Info, opt: Layout, mem: Memory, count: nat, calls: seq<seq<nat>>)
    returns (done: bool, out: seq<Byte>)
    requires t.Valid() && t.size > 0 && count > 0 && IsCommitted(t, opt) && (t.contig || CleanlyCommitted(t))
    ensures RightlyPacked(t, count) ==> Delivers(mem, Bytes(t, count), done, out)
    ensures (t.contig || opt.WellFormed()) && |out| == Amount(t, opt, count, calls)
    ensures RightlyPacked(t, count) && HasRoom(calls, |Bytes(t, count)|) ==> done
    ensures t.contig && calls == [[count * t.size]] ==> out == Read(mem, TakenFrom(t, opt, count))
  {
    hide Map, Expand, Shape, Repeat, Read, Range, O.Covers, CleanlyCommitted, DenseBehindFirst, Sound, Body,
         Gaps.Walked, Layout.WellFormed, HasRoom, TotalRoom, Convertor.FillCalls;
    if t.noGaps || (t.contig && count == 1) {
      done, out := AsOneBlock(t, t.trueLb, mem, count, true, calls);
    } else if t.contig && t.ub - t.lb == t.size {
      done, out := AsOneBlock(t, opt.desc[|opt.desc| - 1].first, mem, count, false, calls);
    } else if t.contig {
      done, out := AsBlocks(t, opt, mem, count, calls);
    } else {
      done, out := ByWalking(t, opt, mem, count, calls);
    }
    if RightlyPacked(t, count) && HasRoom(calls, |Bytes(t, count)|) {
      EnoughRoom(t, opt, count, calls);
    }
  }

  lemma EnoughRoom(t: Info, opt: Layout, count: nat, calls: seq<seq<nat>>)
    requires t.Valid() && HasRoom(calls, |Bytes(t, count)|)
    requires if t.contig then |Bytes(t, count)| == count * t.size
             else opt.WellFormed() && Expand(opt.All(count)) == Bytes(t, count)
    ensures Amount(t, opt, count, calls) == |Bytes(t, count)|
  {
    hide Map, Expand, Shape, Repeat, Layout.WellFormed, TotalRoom, Info.Valid;
    var i, j :| 0 <= i < |calls| && 0 <= j < |calls[i]| && calls[i][j] >= |Bytes(t, count)|;
    if t.contig {
      RoomInTotal(calls, i, j);
    } else {
      var all := opt.All(count);
      Convertor.FillsAllCalls(all, 0, calls, i, j);
      assert all[..|all|] == all;
    }
  }

  lemma NothingToPack(t: Info, mem: Memory, count: nat)
    requires t.Valid() && (count == 0 || t.size == 0)
    ensures Delivers(mem, Bytes(t, count), true, [])
  {
    ExpandRepeatLength(Map(t.desc), t.ub - t.lb, count);
    assert count * |Expand(Map(t.desc))| == 0;
  }

  method AsOneBlock(t: Info, base: int, mem: Memory, count: nat, noOp: bool, calls: seq<seq<nat>>)
    returns (done: bool, out: seq<Byte>)
    requires t.Valid() && t.size > 0 && t.contig && base == t.trueLb
    ensures count == 1 || t.size == t.ub - t.lb ==> Delivers(mem, Bytes(t, count), done, out)
    ensures |out| == Min(count * t.size, TotalRoom(calls)) && |Bytes(t, count)| == count * t.size
    ensures calls == [[count * t.size]] ==> out == Read(mem, Range(t.trueLb, count * t.size))
  {
    hide Map, Expand, Shape, Repeat, Range, ContigLoops, Unbroken;
    var c := new Contiguous.Convertor(mem, base, count * t.size);
    out := Contiguous.PackCalls(c, noOp, calls);
    done := c.completed;
    Contiguous.StraightItems(Map(t.desc), t.trueLb, t.size, t.ub - t.lb, count);
    RangeBegins(mem, base, c.converted, count * t.size);
    OneRoom(count * t.size);
  }

  lemma OneRoom(room: nat)
    ensures Sum([room]) == room
  {
    assert [room][1..] == [];
  }

  lemma RangeBegins(mem: Memory, lo: int, n: nat, m: nat)
    requires n <= m
    ensures |Range(lo, m)| == |Read(mem, Range(lo, m))| == m && |Read(mem, Range(lo, n))| == n
    ensures Read(mem, Range(lo, n)) == Read(mem, Range(lo, m))[..n]
  {
  }

  method AsBlocks(t: Info, opt: Layout, mem: Memory, count: nat, calls: seq<seq<nat>>)
    returns (done: bool, out: seq<Byte>)
    requires t.Valid() && t.size > 0 && t.contig && t.ub - t.lb != t.size && count > 0 && opt.desc != []
    requires opt.desc[|opt.desc| - 1] == EndLoop(|opt.desc| - 1, t.trueLb, t.size)
    ensures O.Covers(opt.desc[0]) == t.size ==> Delivers(mem, Bytes(t, count), done, out)
    ensures |out| == Min(count * t.size, TotalRoom(calls)) && |Bytes(t, count)| == count * t.size
    ensures calls == [[count * t.size]] ==> out == Read(mem, TakenBlocks(t, O.Covers(opt.desc[0]), count))
  {
    hide Map, Expand, Shape, Repeat, Range, ContigLoops, Unbroken, Read, Gaps.Places, Gaps.Stream, Gaps.Walked;
    var items := Gaps.Items(t.size, t.ub - t.lb, opt.desc[|opt.desc| - 1].first, count);
    var c := new Gaps.Convertor(items, O.Covers(opt.desc[0]));
    Gaps.StreamOnce(items, c.stack, count * t.size);
    out := Gaps.PackCalls(c, mem, calls);
    done := c.converted == count * t.size;
    Gaps.PlacesOfItems(items, Map(t.desc));
    ExpandRepeatLength(Map(t.desc), t.ub - t.lb, count);
    if O.Covers(opt.desc[0]) == t.size {
      Gaps.PlacesBegin(items, mem, c.converted);
    }
  }

  method ByWalking(t: Info, opt: Layout, mem: Memory, count: nat, calls: seq<seq<nat>>)
    returns (done: bool, out: seq<Byte>)
    requires t.Valid() && t.size > 0 && opt.WellFormed() && opt.extent == t.ub - t.lb
    requires Expand(Body(opt.desc, 0)) == Expand(Map(t.desc))
    ensures Delivers(mem, Bytes(t, count), done, out)
    ensures |out| == |Expand(opt.All(count)[..Convertor.FillCalls(opt.All(count), 0, calls)])|
    ensures Expand(opt.All(count)) == Bytes(t, count)
  {
    hide Map, Expand, Shape, Sound, Honest, Body, Close, Repeat, Read, Layout.WellFormed, Layout.All,
         Convertor.SendConvertor.Valid;
    SameStream(t, opt, count);
    var c := new Convertor.SendConvertor(opt, mem, count);
    var rc;
    rc, out := Convertor.PackCalls(c, calls);
    done := c.completed;
    ReadLength(mem, Bytes(t, count));
    assert opt.All(count)[0..c.at] == opt.All(count)[..c.at];
    ReadLength(mem, Expand(opt.All(count)[..c.at]));
  }

  lemma ReadLength(mem: Memory, at: seq<int>)
    ensures |Read(mem, at)| == |at|
  {
  }

  /** A committed form with the bytes of the type map has them for any number of items. */
  lemma SameStream(t: Info, opt: Layout, count: nat)
    requires t.Valid() && t.size > 0 && opt.WellFormed() && opt.extent == t.ub - t.lb
    requires Expand(Body(opt.desc, 0)) == Expand(Map(t.desc))
    ensures Expand(opt.All(count)) == Expand(Repeat(Map(t.desc), t.ub - t.lb, count))
  {
    hide Map, Expand, Shape, Sound, Honest, Close, Repeat;
    ClosedLayout(t);
    O.SameBytes(Closed(t), opt, count);
  }

  /** For contiguous types the condition is exact: one call takes the bytes of the type map exactly if it holds. */
  lemma RightExactly(t: Info, opt: Layout, count: nat)
    requires t.Valid() && t.contig && t.size > 0 && count > 0 && IsCommitted(t, opt)
    ensures TakenFrom(t, opt, count) == Bytes(t, count) <==> RightlyPacked(t, count)
  {
    hide Map, Expand, Shape, Repeat, Range, ContigLoops, Unbroken, DenseBehindFirst, CleanlyCommitted, Sound, Body,
         Layout.WellFormed, Gaps.Walked, Gaps.Places, O.Covers;
    if OneBlock(t, count) {
      Contiguous.StraightItems(Map(t.desc), t.trueLb, t.size, t.ub - t.lb, count);
    } else {
      MoreThanOne(t.size, count);
      Gaps.PlacesOfItems(Blocks(t, count), Map(t.desc));
      Gaps.ShortFirst(Blocks(t, count), O.Covers(opt.desc[0]), count * t.size);
    }
  }

  /** Where the first byte is that is wrongly packed. */
  function WrongPlace(t: Info, opt: Layout, count: nat): int
    requires opt.desc != []
  {
    if OneBlock(t, count) then t.trueLb + t.size else t.trueLb + (t.ub - t.lb) - t.size + O.Covers(opt.desc[0])
  }

  lemma WrongByte(t: Info, opt: Layout, count: nat) returns (i: nat)
    requires t.Valid() && t.contig && t.size > 0 && count > 0 && IsCommitted(t, opt) && !RightlyPacked(t, count)
    ensures |TakenFrom(t, opt, count)| == |Bytes(t, count)| > i
    ensures TakenFrom(t, opt, count)[i] == WrongPlace(t, opt, count) != Bytes(t, count)[i]
  {
    hide Map, Expand, Shape, Repeat, Range, ContigLoops, Unbroken, DenseBehindFirst, CleanlyCommitted, Sound, Body,
         Layout.WellFormed, TakenBlocks, O.Covers;
    if OneBlock(t, count) {
      i := t.size;
      SecondByte(Map(t.desc), t.trueLb, t.size, t.ub - t.lb, count);
      RangeAt(t.trueLb, count * t.size, i);
    } else {
      i := O.Covers(opt.desc[0]);
      BlockByte(t, i, count);
    }
  }

  lemma RangeAt(lo: int, n: nat, i: nat)
    requires i < n
    ensures |Range(lo, n)| == n && Range(lo, n)[i] == lo + i
  {
  }

  lemma MoreThanOne(size: nat, count: nat)
    requires size > 0 && count > 1
    ensures count * size > size
  {
  }

  /** The byte behind those that the stack expects. */
  lemma BlockByte(t: Info, first: nat, count: nat)
    requires t.Valid() && t.contig && count > 1 && 0 < first < t.size
    ensures |TakenBlocks(t, first, count)| == |Bytes(t, count)| > first
    ensures TakenBlocks(t, first, count)[first] == t.trueLb + (t.ub - t.lb) - t.size + first
    ensures Bytes(t, count)[first] == t.trueLb + first
  {
    hide Map, Expand, Shape, Repeat, Range, ContigLoops, Unbroken, Gaps.Walked, Gaps.Places;
    MoreThanOne(t.size, count);
    Gaps.PlacesOfItems(Blocks(t, count), Map(t.desc));
    Gaps.ShortByte(Blocks(t, count), first, count * t.size);
  }

  /** The first byte of the second item. */
  lemma SecondByte(m: seq<Block>, lo: int, size: nat, extent: int, count: nat)
    requires size > 0 && count > 1 && Expand(m) == Range(lo, size)
    ensures |Expand(Repeat(m, extent, count))| == count * size > size
    ensures Expand(Repeat(m, extent, count))[size] == lo + extent
  {
    hide Expand, Repeat, Range;
    MoreThanOne(size, count);
    Contiguous.StraightItems(m, lo, size, extent, count);
    O.LoopRows(m, lo, size, extent, count);
    O.RowsStep(lo, size, extent, count);
    O.RowsFirst(lo + extent, size, extent, count - 1);
  }

  lemma ReadAt(mem: Memory, at: seq<int>, i: nat)
    requires i < |at|
    ensures |Read(mem, at)| == |at| && Read(mem, at)[i] == mem(at[i])
  {
  }

  /** If it does not hold, some memory shows it. */
  method PackedWrongly(d: Datatype, count: nat) returns (mem: Memory, out: seq<Byte>)
    requires d.Valid() && d.info.contig && !RightlyPacked(d.info, count)
    ensures |out| == |Bytes(d.info, count)| && out != Read(mem, Bytes(d.info, count))
  {
    var t := d.info;
    var opt := CommitBuilt(d);
    hide Map, Expand, Shape, Repeat, Range, ContigLoops, Unbroken, IsCommitted, RightlyPacked, TakenFrom, Delivers,
         Bytes, Info.Valid, WrongPlace, Read, Amount, HasRoom;
    var p := WrongPlace(t, opt, count);
    mem := x => if x == p then 1 else 0;
    var done;
    done, out := PackCommitted(t, opt, mem, count, [[count * t.size]]);
    ghost var i := WrongByte(t, opt, count);
    ReadAt(mem, TakenFrom(t, opt, count), i);
    ReadAt(mem, Bytes(t, count), i);
  }

  /** Items of a contiguous type with gaps are packed from one memory and unpacked into another one, each through
      buffers of any sizes: the bytes of the type map are copied to the same places, and nothing else changes. */
  method TransferBuilt(d: Datatype, from: Memory, to: array<Byte>, count: nat, rooms: seq<nat>, sizes: seq<nat>)
    requires d.Valid() && d.info.size > 0 && d.info.contig && d.info.ub - d.info.lb != d.info.size
    requires DenseBehindFirst(d.info)
    requires forall x :: x in Bytes(d.info, count) ==> 0 <= x < to.Length
    requires Sum(rooms) >= |Bytes(d.info, count)| && Sum(sizes) >= |Bytes(d.info, count)|
    modifies to
    ensures forall x :: 0 <= x < to.Length ==> to[x] == if x in Bytes(d.info, count) then from(x) else old(to[x])
  {
    hide Map, Expand, Shape, Repeat, Range, ContigLoops, Unbroken, O.Covers, CleanlyCommitted, DenseBehindFirst, Sound,
         Body,
         Layout.WellFormed;
    var t := d.info;
    var opt := CommitBuilt(d);
    var items := Gaps.Items(t.size, t.ub - t.lb, opt.desc[|opt.desc| - 1].first, count);
    Gaps.PlacesOfItems(items, Map(t.desc));
    Gaps.PlacesFit(items, to[..]);
    Gaps.Transfer(items, O.Covers(opt.desc[0]), from, to, rooms, sizes);
    Gaps.DataPlaces(items);
  }
}

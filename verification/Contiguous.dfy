/** Packing contiguous data whose items follow each other without gaps: only the number of bytes that have been
    converted matters. */
module Contiguous {
  import opened Common
  import opened TypeMap
  import opened Packing
  import O = Optimizer

  class Convertor {
    const mem: Memory
    /** Where the data begins, and how much there is. */
    const base: int
    const localSize: nat
    var converted: nat
    /** The displacement on the stack, which only the second way of packing uses. */
    var disp: int
    var completed: bool

    ghost predicate Valid()
      reads this
    {
      converted <= localSize && disp == converted && (completed <==> converted == localSize)
    }

    constructor (mem: Memory, base: int, localSize: nat)
      ensures Valid() && converted == 0 && this.mem == mem && this.base == base && this.localSize == localSize
    {
      this.mem, this.base, this.localSize := mem, base, localSize;
      converted, disp, completed := 0, 0, localSize == 0;
    }

    /** Without a conversion function: buffers are filled until one can take all that is left. */
    method PackNoOp(iov: seq<nat>) returns (rc: int, out: seq<seq<Byte>>)
      requires Valid()
      modifies this
      ensures Valid() && converted == Min(localSize, old(converted) + Sum(iov)) && rc == (if completed then 1 else 0)
      ensures Flatten(out) == Read(mem, Range(base + old(converted), converted - old(converted))) && |out| <= |iov|
    {
      hide Range, Read;
      out := [];
      NothingRead(mem, base + converted);
      if completed {
        return 1, [];
      }
      ghost var start := converted;
      var pending := localSize - converted;
      var from := base + converted;
      var todo := iov;
      while todo != []
        invariant !completed && converted == start
        invariant 0 < pending <= localSize - start && from == base + localSize - pending && |out| + |todo| == |iov|
        invariant Flatten(out) == Read(mem, Range(base + start, localSize - pending - start))
        invariant localSize - pending + Sum(todo) == start + Sum(iov)
      {
        var n := if todo[0] >= pending then pending else todo[0];
        FlattenMore(out, Copy(mem, from, n));
        ReadMore(mem, base + start, localSize - pending - start, n);
        out := out + [Copy(mem, from, n)];
        if todo[0] >= pending {
          converted, disp, completed := localSize, localSize, true;
          return 1, out;
        }
        pending, from := pending - n, from + n;
        todo := todo[1..];
      }
      converted := localSize - pending;
      disp := converted;
      rc := 0;
    }

    /** With the stack's displacement as the place to go on. */
    method PackStraight(iov: seq<nat>) returns (rc: int, out: seq<seq<Byte>>)
      requires Valid()
      modifies this
      ensures Valid() && converted == Min(localSize, old(converted) + Sum(iov)) && rc == (if completed then 1 else 0)
      ensures Flatten(out) == Read(mem, Range(base + old(converted), converted - old(converted))) && |out| <= |iov|
    {
      hide Range, Read;
      out := [];
      NothingRead(mem, base + converted);
      ghost var start := converted;
      var length, todo := localSize - converted, iov;
      while todo != [] && length != 0
        invariant start <= converted <= localSize && disp == converted && length == localSize - converted
        invariant |out| + |todo| == |iov|
        invariant Flatten(out) == Read(mem, Range(base + start, converted - start))
        invariant Min(localSize, converted + Sum(todo)) == Min(localSize, start + Sum(iov))
      {
        var n: nat := Min(todo[0], length);
        FlattenMore(out, Copy(mem, base + disp, n));
        ReadMore(mem, base + start, converted - start, n);
        out := out + [Copy(mem, base + disp, n)];
        length, converted, disp := length - n, converted + n, disp + n;
        todo := todo[1..];
      }
      completed := converted == localSize;
      rc := if completed then 1 else 0;
    }
  }

  lemma NothingRead(mem: Memory, lo: int)
    ensures Read(mem, Range(lo, 0)) == []
  {
  }

  lemma ReadMore(mem: Memory, lo: int, a: nat, b: nat)
    ensures Read(mem, Range(lo, a + b)) == Read(mem, Range(lo, a)) + Read(mem, Range(lo + a, b))
  {
  }

  /** Any sequence of calls, each of either kind. */
  method PackCalls(c: Convertor, noOp: bool, calls: seq<seq<nat>>) returns (out: seq<Byte>)
    requires c.Valid()
    modifies c
    ensures c.Valid() && old(c.converted) <= c.converted
    ensures out == Read(c.mem, Range(c.base + old(c.converted), c.converted - old(c.converted)))
    ensures c.converted == Min(c.localSize, old(c.converted) + TotalRoom(calls))
  {
    hide Range, Read, Sum, TotalRoom;
    out := [];
    NothingRead(c.mem, c.base + c.converted);
    NoRoom();
    for i := 0 to |calls|
      invariant c.Valid() && old(c.converted) <= c.converted
      invariant out == Read(c.mem, Range(c.base + old(c.converted), c.converted - old(c.converted)))
      invariant c.converted == Min(c.localSize, old(c.converted) + TotalRoom(calls[..i]))
    {
      MoreRoom(calls[..i], calls[i]);
      assert calls[..i] + [calls[i]] == calls[..i + 1];
      ghost var before := c.converted;
      var rc, bufs;
      if noOp {
        rc, bufs := c.PackNoOp(calls[i]);
      } else {
        rc, bufs := c.PackStraight(calls[i]);
      }
      ReadMore(c.mem, c.base + old(c.converted), before - old(c.converted), c.converted - before);
      out := out + Flatten(bufs);
    }
    assert calls[..|calls|] == calls;
  }

  /** Taking items for one range is right exactly if there is at most one, or they follow each other directly. */
  lemma StraightItems(m: seq<Block>, lo: int, size: nat, extent: int, count: nat)
    requires size > 0 && Expand(m) == Range(lo, size)
    ensures Expand(Repeat(m, extent, count)) == Range(lo, |Expand(Repeat(m, extent, count))|) <==>
      count <= 1 || extent == size
    ensures |Expand(Repeat(m, extent, count))| == count * size
  {
    hide Expand, Repeat, Range;
    RangeLength(lo, size);
    ExpandRepeatLength(m, extent, count);
    O.LoopRows(m, lo, size, extent, count);
    if count == 0 {
      NoRange(lo, size, extent);
    } else if extent == size {
      O.RowsWhole(lo, size, count);
    } else {
      O.RowsStep(lo, size, extent, count);
      RangeSplit(lo, size, (count - 1) * size);
      assert count * size == size + (count - 1) * size;
      O.EqualParts(Range(lo, size), O.Rows(lo + extent, size, extent, count - 1), Range(lo, size),
                   Range(lo + size, (count - 1) * size));
      SecondItem(lo, size, extent, count - 1);
    }
  }

  lemma NoRange(lo: int, size: nat, extent: int)
    ensures O.Rows(lo, size, extent, 0) == Range(lo, 0)
  {
  }

  lemma SecondItem(lo: int, size: nat, extent: int, n: nat)
    requires size > 0 && extent != size
    ensures O.Rows(lo + extent, size, extent, n) == Range(lo + size, n * size) <==> n == 0
  {
    if n > 0 {
      O.RowsFirst(lo + extent, size, extent, n);
      assert n * size > 0;
    }
  }
}

/**
 Rewriting a description into a shorter one: adjacent data is merged, contiguous loops become
 single elements, short loops are unrolled and loops over one element become strided elements.
 */
module Optimizer {
  import opened Common
  import opened TypeMap
  import opened Walking

  /** Data that is merged but not written yet: `length` elements of type `id`. */
  datatype Pending = Pending(id: nat, length: nat, disp: int, extent: int) {
    ghost function Blocks(): seq<Block> {
      ElemMap(disp, BasicSize(id), extent, length)
    }

    ghost function Bytes(): seq<int> {
      Expand(Blocks())
    }

    function End(): int {
      disp + length * BasicSize(id)
    }

    ghost predicate Typed() {
      length > 0 ==> BasicSize(id) > 0
    }

    ghost predicate Of(id: nat) {
      length > 0 ==> this.id == id
    }
  }

  /** Writes the pending data. */
  function Flush(p: Pending): (s: seq<Entry>)
    requires p.Typed()
    ensures Shape(s) && Map(s) == p.Blocks() && ContigLoops(s) && Elems(s) && OfType(s, p.id) && Flagged(s)
  {
    if p.length == 0 then [] else
      var s := [Elem(p.id, true, p.length, p.disp, p.extent)];
      assert s[1..] == [];
      s
  }

  // ---------------------------------------------------------------- when merging is right

  /** What the data in front of an entry looks like: nothing that could be merged with, or data
      that ends at `end`; `strided` if it is several elements that are not back to back. */
  datatype Tail = NoTail | Tail(end: int, strided: bool)

  lemma BodyNotEmpty(d: seq<Entry>, pos: nat)
    requires Sound(d, pos) && d[pos].Loop?
    ensures !d[pos + 1].EndLoop? && Sound(d, pos + 1) && pos + d[pos].items < |d| && d[pos + d[pos].items].EndLoop?
  {
    assert Close(d, pos + 1) == pos + d[pos].items;
  }

  /** Data that follows directly on the data in front of it. */
  predicate Joins(tail: Tail, disp: int) {
    tail.Tail? && tail.end == disp
  }

  /** The whole of a contiguous loop is one byte range. */
  predicate Whole(d: seq<Entry>, pos: nat)
    requires Sound(d, pos) && d[pos].Loop?
  {
    BodyNotEmpty(d, pos);
    d[pos].extent == d[pos + d[pos].items].size
  }

  /** Merging entry `pos` with the data in front of it is right: that data is back to back, and at
      most two iterations of a loop with gaps are left (or all its iterations coincide). */
  predicate MergeOk(d: seq<Entry>, pos: nat, tail: Tail)
    requires Sound(d, pos)
  {
    match d[pos]
    case Elem(id, contig, _, disp, extent) =>
      contig && extent == BasicSize(id) && Joins(tail, disp) ==> !tail.strided
    case Loop(contig, loops, _, extent) =>
      contig && Joins(tail, FirstDisp(d, pos)) ==>
        !tail.strided && (Whole(d, pos) || loops <= 3 || extent == 0)
    case EndLoop(_, _, _) => true
  }

  /** The data that entry `pos` leaves for the next one to merge with. */
  function TailAfter(d: seq<Entry>, pos: nat): Tail
    requires Sound(d, pos)
  {
    match d[pos]
    case Elem(id, _, count, disp, extent) => Tail(disp + count * BasicSize(id), count > 1 && extent != BasicSize(id))
    case Loop(contig, loops, items, _) =>
      BodyNotEmpty(d, pos);
      if contig && Whole(d, pos) then Tail(FirstDisp(d, pos) + loops * d[pos + items].size, false) else NoTail
    case EndLoop(_, _, _) => NoTail
  }

  /** Every merge from entry `pos` on, at any depth, is right. */
  predicate Clean(d: seq<Entry>, pos: nat, tail: Tail)
    requires Sound(d, pos)
    decreases |d| - pos
  {
    && MergeOk(d, pos, tail)
    && match d[pos]
       case Elem(_, _, _, _, _) => Clean(d, pos + 1, TailAfter(d, pos))
       case Loop(contig, _, items, _) =>
         && (contig || Clean(d, pos + 1, NoTail))
         && Clean(d, pos + items + 1, TailAfter(d, pos))
       case EndLoop(_, _, _) => true
  }

  // ---------------------------------------------------------------- merging, on bytes

  /** What the pending data offers to the next entry. */
  function TailOf(p: Pending): Tail {
    if p.length == 0 then NoTail else Tail(p.End(), p.length > 1 && p.extent != BasicSize(p.id))
  }

  /** One entry, with bytes `one`, is processed when `before` is pending; afterwards `after` is
      written or pending.  If the merge is right nothing but `one` is added; if it is wrong,
      either `one` or several elements that were pending come out differently. */
  ghost predicate Merge(before: seq<int>, one: seq<int>, after: seq<int>, strided: bool, ok: bool) {
    && |after| == |before| + |one|
    && (ok ==> after == before + one)
    && (!ok ==> after[|before|..] != one || (strided && after[..|before|] != before))
  }

  /** Pending data is the byte range it is taken for, unless it is strided. */
  lemma PendingRange(p: Pending)
    requires p.length > 0 && p.Typed()
    ensures |p.Bytes()| == p.length * BasicSize(p.id)
    ensures p.Bytes() == Range(p.disp, p.length * BasicSize(p.id)) <==> !TailOf(p).strided
  {
    hide BasicSize;
    var size := BasicSize(p.id);
    ExpandElemMapLength(p.disp, size, p.extent, p.length);
    if p.extent == size {
      ExpandUnitStride(p.disp, size, p.length);
    } else {
      assert p.Blocks() == [Block(p.disp, size)] + ElemMap(p.disp + p.extent, size, p.extent, p.length - 1);
      ExpandConcat([Block(p.disp, size)], ElemMap(p.disp + p.extent, size, p.extent, p.length - 1));
      assert Expand([Block(p.disp, size)]) == Range(p.disp, size) + Expand([]);
      if p.length > 1 {
        var next := ElemMap(p.disp + p.extent, size, p.extent, p.length - 1);
        assert next[0] == Block(p.disp + p.extent, size);
        assert p.Bytes()[size] == Expand(next)[0] == p.disp + p.extent;
        assert p.length * size > size;
        assert Range(p.disp, p.length * size)[size] == p.disp + size;
      }
    }
  }

  /** Appending `more` bytes to pending data by treating both as one byte range. */
  lemma JoinRanges(p: Pending, more: nat)
    requires p.length > 0 && p.Typed()
    ensures Merge(p.Bytes(), Range(p.End(), more), Range(p.disp, p.length * BasicSize(p.id) + more),
                  TailOf(p).strided, !TailOf(p).strided)
  {
    PendingRange(p);
    RangeSplit(p.disp, p.length * BasicSize(p.id), more);
  }

  lemma MergeNothing(one: seq<int>)
    ensures Merge([], one, one, false, true)
  {
  }

  lemma MergeFlush(before: seq<int>, one: seq<int>, strided: bool)
    ensures Merge(before, one, before + one, strided, true)
  {
  }

  ghost predicate Elems(s: seq<Entry>) {
    forall i :: 0 <= i < |s| ==> s[i].Elem?
  }

  /** All data is of one basic type. */
  ghost predicate OfType(s: seq<Entry>, id: nat) {
    forall i :: 0 <= i < |s| && s[i].Elem? ==> s[i].id == id
  }

  /** All loops and elements carry the CONTIGUOUS flag. */
  ghost predicate Flagged(s: seq<Entry>) {
    forall i :: 0 <= i < |s| && !s[i].EndLoop? ==> s[i].contig
  }

  /** Data of one basic type, and no contiguous loops, whose rows are written as bytes. */
  ghost predicate OneType(d: seq<Entry>, id: nat) {
    OfType(d, id) && forall i :: 0 <= i < |d| && d[i].Loop? ==> !d[i].contig
  }

  /** Without loops there is no nesting. */
  lemma {:induction false} ElemsFlat(s: seq<Entry>)
    requires Shape(s) && Elems(s)
    ensures Depth(s) == 0
  {
    if s != [] {
      ElemsFlat(s[1..]);
    }
  }

  ghost function Size(s: seq<Entry>, p: Pending): nat {
    |s| + if p.length > 0 then 1 else 0
  }

  lemma ByteSize()
    ensures BasicSize(UINT1) == 1
  {
  }

  /** A data element that follows directly on the pending data. */
  method Join(e: Entry, p: Pending) returns (p': Pending)
    requires e.Elem? && e.count > 0 && BasicSize(e.id) > 0 && e.extent == BasicSize(e.id) && p.Typed()
    requires p.End() == e.disp
    ensures p'.length > 0 && p'.Typed() && TailOf(p') == Tail(e.disp + e.count * BasicSize(e.id), false)
    ensures p'.Bytes() == Range(p.disp, p.length * BasicSize(p.id) + e.count * BasicSize(e.id))
    ensures p.Of(e.id) ==> p'.Of(e.id)
  {
    hide BasicSize, ElemMap, Expand, Range;
    var size := BasicSize(e.id);
    if e.id == p.id {
      p' := Pending(p.id, p.length + e.count, p.disp, e.extent);
      assert (p.length + e.count) * size == p.length * size + e.count * size;
    } else if p.length == 0 {
      p' := Pending(e.id, e.count, p.disp, e.extent);
    } else {
      ByteSize();
      p' := Pending(UINT1, p.length * BasicSize(p.id) + e.count * size, p.disp, 1);
    }
    PendingRange(p');
  }

  /** A data element. */
  method AtElem(e: Entry, p: Pending) returns (ext: seq<Entry>, p': Pending)
    requires e.Elem? && e.count > 0 && BasicSize(e.id) > 0 && p.Typed()
    ensures Shape(ext) && ContigLoops(ext) && Elems(ext) && p'.Typed()
    ensures Size(ext, p') == Size([], p) +
            if e.contig && e.extent == BasicSize(e.id) && Joins(TailOf(p), e.disp) then 0 else 1
    ensures TailOf(p') == Tail(e.disp + e.count * BasicSize(e.id), e.count > 1 && e.extent != BasicSize(e.id))
    ensures Merge(p.Bytes(), Expand(ElemMap(e.disp, BasicSize(e.id), e.extent, e.count)), Expand(Map(ext)) + p'.Bytes(),
                  TailOf(p) != NoTail && TailOf(p).strided,
                  e.contig && e.extent == BasicSize(e.id) && Joins(TailOf(p), e.disp) ==> !TailOf(p).strided)
    ensures TailOf(p').strided ==> p'.Bytes() == Expand(ElemMap(e.disp, BasicSize(e.id), e.extent, e.count))
    ensures Flagged(ext) && (p.Of(e.id) ==> OfType(ext, e.id) && p'.Of(e.id))
  {
    hide BasicSize, Merge, Range;
    ghost var one := Expand(ElemMap(e.disp, BasicSize(e.id), e.extent, e.count));
    if e.contig && p.End() == e.disp && e.extent == BasicSize(e.id) {
      ext := [];
      p' := Join(e, p);
      ExpandUnitStride(e.disp, BasicSize(e.id), e.count);
      assert Expand(Map(ext)) + p'.Bytes() == p'.Bytes();
    } else {
      ext := Flush(p);
      p' := Pending(e.id, e.count, e.disp, e.extent);
    }
    if p.length > 0 {
      JoinRanges(p, e.count * BasicSize(e.id));
      MergeFlush(p.Bytes(), one, TailOf(p).strided);
    } else {
      assert Expand(Map(ext)) + p'.Bytes() == one;
      MergeNothing(one);
    }
  }

  // ---------------------------------------------------------------- contiguous loops

  /** `n` byte ranges of `size` bytes, `extent` apart. */
  ghost function Rows(at: int, size: nat, extent: int, n: nat): seq<int>
    decreases n
  {
    if n == 0 then [] else Range(at, size) + Rows(at + extent, size, extent, n - 1)
  }

  /** The bytes of a loop with a contiguous body. */
  lemma {:induction false} RepeatRows(m: seq<Block>, at: int, size: nat, extent: int, n: nat, k: int)
    requires Expand(m) == Range(at, size)
    ensures Expand(Displace(Repeat(m, extent, n), k)) == Rows(at + k, size, extent, n)
    decreases n
  {
    hide Expand, Displace;
    if n == 0 {
      NoBlocks(k);
    } else {
      var more := Repeat(m, extent, n - 1);
      DisplaceConcat(m, Displace(more, extent), k);
      DisplaceTwice(more, extent, k);
      ExpandConcat(Displace(m, k), Displace(more, extent + k));
      ExpandDisplace(m, k);
      assert Shift(Range(at, size), k) == Range(at + k, size);
      RepeatRows(m, at, size, extent, n - 1, extent + k);
    }
  }

  lemma NoBlocks(k: int)
    ensures Expand(Displace([], k)) == []
  {
  }

  lemma LoopRows(m: seq<Block>, at: int, size: nat, extent: int, n: nat)
    requires Expand(m) == Range(at, size)
    ensures Expand(Repeat(m, extent, n)) == Rows(at, size, extent, n)
  {
    RepeatRows(m, at, size, extent, n, 0);
    DisplaceZero(Repeat(m, extent, n));
  }

  lemma {:induction false} RowsLength(at: int, size: nat, extent: int, n: nat)
    ensures |Rows(at, size, extent, n)| == n * size
    decreases n
  {
    if n > 0 {
      RowsLength(at + extent, size, extent, n - 1);
    }
  }

  lemma {:induction false} RowsWhole(at: int, size: nat, n: nat)
    ensures Rows(at, size, size, n) == Range(at, n * size)
    decreases n
  {
    if n > 0 {
      RowsWhole(at + size, size, n - 1);
      RangeSplit(at, size, (n - 1) * size);
      assert size + (n - 1) * size == n * size;
    }
  }

  /** The first data element is where the body begins. */
  lemma {:induction false} FirstByte(d: seq<Entry>, pos: nat)
    requires Sound(d, pos) && !d[pos].EndLoop?
    ensures Body(d, pos) != [] && Body(d, pos)[0].size > 0 && Body(d, pos)[0].disp == FirstDisp(d, pos)
    decreases |d| - pos
  {
    if d[pos].Loop? {
      BodyNotEmpty(d, pos);
      FirstByte(d, pos + 1);
    }
  }

  /** What the optimizer relies on at a contiguous loop. */
  lemma ContigLoop(d: seq<Entry>, pos: nat)
    requires Sound(d, pos) && Honest(d, pos) && d[pos].Loop? && d[pos].contig
    ensures pos + d[pos].items < |d| && d[pos + d[pos].items].EndLoop? && d[pos + d[pos].items].size > 0
    ensures FirstDisp(d, pos) == d[pos + d[pos].items].first
    ensures Expand(Repeat(Body(d, pos + 1), d[pos].extent, d[pos].loops))
         == Rows(FirstDisp(d, pos), d[pos + d[pos].items].size, d[pos].extent, d[pos].loops)
  {
    BodyNotEmpty(d, pos);
    var end := d[pos + d[pos].items];
    FirstByte(d, pos + 1);
    assert Expand(Body(d, pos + 1))[0] == FirstDisp(d, pos + 1);
    LoopRows(Body(d, pos + 1), end.first, end.size, d[pos].extent, d[pos].loops);
  }

  /** A contiguous loop without gaps becomes one range of bytes. */
  method AtWholeLoop(first: int, size: nat, loops: nat, p: Pending) returns (ext: seq<Entry>, p': Pending)
    requires p.Typed() && size > 0 && loops > 0
    ensures Shape(ext) && ContigLoops(ext) && Elems(ext) && Flagged(ext) && p'.Typed()
    ensures Size(ext, p') == Size([], p) + if Joins(TailOf(p), first) then 0 else 1
    ensures TailOf(p') == Tail(first + loops * size, false)
    ensures Merge(p.Bytes(), Rows(first, size, size, loops), Expand(Map(ext)) + p'.Bytes(),
                  TailOf(p) != NoTail && TailOf(p).strided, Joins(TailOf(p), first) ==> !TailOf(p).strided)
  {
    hide BasicSize, Merge, Range, Rows;
    RowsWhole(first, size, loops);
    assert loops * size > 0;
    ByteSize();
    ext := [];
    var length, disp := p.length * BasicSize(p.id), p.disp;
    if p.End() != first {
      ext, length, disp := Flush(p), 0, first;
    }
    p' := Pending(UINT1, length + loops * size, disp, 1);
    PendingRange(p');
    if p.End() != first {
      MergeFlush(p.Bytes(), Range(first, loops * size), TailOf(p) != NoTail && TailOf(p).strided);
    } else {
      assert Expand(Map(ext)) + p'.Bytes() == p'.Bytes();
      if p.length > 0 {
        JoinRanges(p, loops * size);
      } else {
        MergeNothing(Range(first, loops * size));
      }
    }
  }

  /** A loop around a description. */
  lemma {:induction false} WrapLoop(lp: Entry, body: seq<Entry>, end: Entry)
    requires lp.Loop? && end.EndLoop? && Shape(body) && body != [] && lp.loops > 0 && lp.items == |body| + 1
    ensures Shape([lp] + body + [end]) && Map([lp] + body + [end]) == Repeat(Map(body), lp.extent, lp.loops)
    ensures ContigLoops([lp] + body + [end]) <==>
      ContigLoops(body) && (lp.contig ==> Expand(Map(body)) == Range(end.first, end.size))
    ensures Depth([lp] + body + [end]) == 1 + Depth(body)
  {
    hide Expand, Range, Repeat;
    var s := [lp] + body + [end];
    assert s[0] == lp && s[lp.items] == end && s[1..lp.items] == body && s[lp.items + 1..] == [];
    assert Repeat(Map(body), lp.extent, lp.loops) + Map([]) == Repeat(Map(body), lp.extent, lp.loops);
  }

  lemma OneElem(e: Entry)
    requires e.Elem? && BasicSize(e.id) > 0 && e.count > 0
    ensures Shape([e]) && ContigLoops([e]) && Map([e]) == ElemMap(e.disp, BasicSize(e.id), e.extent, e.count)
  {
    assert [e][1..] == [];
  }

  /** One row of bytes as a data element. */
  function Row(at: int, size: nat): (e: Entry)
    requires size > 0
    ensures Shape([e]) && ContigLoops([e]) && e.Elem? && e.contig && Expand(Map([e])) == Range(at, size)
  {
    var e := Elem(UINT1, true, size, at, 1);
    ByteSize();
    OneElem(e);
    ExpandUnitStride(at, 1, size);
    e
  }

  lemma {:induction false} RowsAppend(at: int, size: nat, extent: int, n: nat)
    ensures Rows(at, size, extent, n + 1) == Rows(at, size, extent, n) + Range(at + n * extent, size)
    decreases n
  {
    if n == 0 {
      assert Rows(at + extent, size, extent, 0) == [];
    } else {
      RowsAppend(at + extent, size, extent, n - 1);
      assert at + extent + (n - 1) * extent == at + n * extent;
    }
  }

  /** Rows written out one by one. */
  method UnrollRows(at: int, size: nat, extent: int, n: nat) returns (ext: seq<Entry>)
    requires size > 0
    ensures Shape(ext) && ContigLoops(ext) && Elems(ext) && |ext| == n && Expand(Map(ext)) == Rows(at, size, extent, n)
    ensures Flagged(ext)
  {
    hide Expand, Map, Shape, ContigLoops, Rows, Range;
    ext := [];
    var disp := at;
    NoRows(at, size, extent);
    for i := 0 to n
      invariant disp == at + i * extent && |ext| == i && Flagged(ext)
      invariant Shape(ext) && ContigLoops(ext) && Elems(ext) && Expand(Map(ext)) == Rows(at, size, extent, i)
    {
      MapConcat(ext, [Row(disp, size)]);
      ContigConcat(ext, [Row(disp, size)]);
      ExpandConcat(Map(ext), Map([Row(disp, size)]));
      RowsAppend(at, size, extent, i);
      ext := ext + [Row(disp, size)];
      disp := disp + extent;
    }
  }

  lemma NoRows(at: int, size: nat, extent: int)
    ensures Shape([]) && ContigLoops([]) && Expand(Map([])) == Rows(at, size, extent, 0)
  {
  }

  /** `n` rows, the first one at `row`: at most two are written out, more become a loop around a row
      at `body`.  The closing marker says `row` in either case. */
  method WriteRows(body: int, row: int, size: nat, extent: int, n: nat) returns (ext: seq<Entry>)
    requires size > 0
    ensures Shape(ext) && |ext| <= 3 && Depth(ext) == (if n > 2 then 1 else 0) && Flagged(ext)
    ensures n <= 2 || body == row ==> Expand(Map(ext)) == Rows(row, size, extent, n) && ContigLoops(ext)
    ensures n > 2 ==> Expand(Map(ext)) == Rows(body, size, extent, n)
  {
    hide Map, Expand, Shape, ContigLoops, Rows, Range, Depth;
    if n <= 2 {
      ext := UnrollRows(row, size, extent, n);
      ElemsFlat(ext);
    } else {
      var lp, e, end := Loop(true, n, 2, extent), Row(body, size), EndLoop(2, row, size);
      WrapLoop(lp, [e], end);
      ElemsFlat([e]);
      LoopRows(Map([e]), body, size, extent, n);
      ext := [lp] + [e] + [end];
    }
  }

  /** The first row is joined to pending data and `rest` is written for the other ones. */
  lemma JoinRows(p: Pending, size: nat, extent: int, loops: nat, rest: seq<int>)
    requires p.length > 0 && p.Typed() && size > 0 && loops > 0
    requires loops <= 3 || extent == 0 ==> rest == Rows(p.End() + extent, size, extent, loops - 1)
    requires loops > 3 ==> rest == Rows(p.End(), size, extent, loops - 1)
    ensures Merge(p.Bytes(), Rows(p.End(), size, extent, loops),
                  Range(p.disp, p.length * BasicSize(p.id) + size) + rest,
                  TailOf(p).strided, !TailOf(p).strided && (loops <= 3 || extent == 0))
  {
    hide BasicSize, Pending.Blocks, Pending.Bytes, Rows, Range;
    var a, first := p.length * BasicSize(p.id), p.End();
    PendingRange(p);
    RangeSplit(p.disp, a, size);
    RangeLength(p.disp, a);
    Assoc(Range(p.disp, a), Range(first, size), rest);
    RowsStep(first, size, extent, loops);
    RowsLength(first, size, extent, loops - 1);
    RowsLength(first + extent, size, extent, loops - 1);
    if loops > 3 && extent != 0 {
      OtherRows(first, size, extent, loops - 1);
      EqualParts(Range(first, size), rest, Range(first, size), Rows(first + extent, size, extent, loops - 1));
    }
    JoinParts(p.Bytes(), Range(p.disp, a), Range(first, size) + rest, Rows(first, size, extent, loops),
              TailOf(p).strided, !TailOf(p).strided && (loops <= 3 || extent == 0));
  }

  lemma JoinParts(before: seq<int>, range: seq<int>, written: seq<int>, one: seq<int>, strided: bool, ok: bool)
    requires |range| == |before| && |written| == |one| && (range == before <==> !strided)
    requires ok ==> !strided && written == one
    requires !ok ==> strided || written != one
    ensures Merge(before, one, range + written, strided, ok)
  {
    var after := range + written;
    assert after[..|before|] == range && after[|before|..] == written;
  }

  lemma RowsStep(at: int, size: nat, extent: int, n: nat)
    requires n > 0
    ensures Rows(at, size, extent, n) == Range(at, size) + Rows(at + extent, size, extent, n - 1)
    ensures |Range(at, size)| == size
  {
  }

  /** Rows that start elsewhere are different. */
  lemma OtherRows(at: int, size: nat, extent: int, n: nat)
    requires size > 0 && n > 0 && extent != 0
    ensures Rows(at, size, extent, n) != Rows(at + extent, size, extent, n)
  {
    RowsFirst(at, size, extent, n);
    RowsFirst(at + extent, size, extent, n);
  }

  lemma RowsFirst(at: int, size: nat, extent: int, n: nat)
    requires size > 0 && n > 0
    ensures Rows(at, size, extent, n) != [] && Rows(at, size, extent, n)[0] == at
  {
  }

  /** One if a loop is written for the rows that are not joined to the data in front of them. */
  function LeftRows(loops: nat, tail: Tail, first: int): nat {
    if loops > (if Joins(tail, first) then 3 else 2) then 1 else 0
  }

  /** A contiguous loop with gaps.  If it follows directly on the pending data, its first row is
      joined to that data. */
  method AtGappedLoop(first: int, size: nat, extent: int, loops: nat, p: Pending) returns (ext: seq<Entry>, p': Pending)
    requires p.Typed() && size > 0 && loops > 0
    ensures Shape(ext) && p'.length == 0 && |ext| <= Size([], p) + 3 && Depth(ext) == LeftRows(loops, TailOf(p), first)
    ensures Flagged(ext)
    ensures (Joins(TailOf(p), first) ==> loops <= 3 || extent == 0) ==> ContigLoops(ext)
    ensures Merge(p.Bytes(), Rows(first, size, extent, loops), Expand(Map(ext)) + p'.Bytes(),
                  TailOf(p) != NoTail && TailOf(p).strided,
                  Joins(TailOf(p), first) ==> !TailOf(p).strided && (loops <= 3 || extent == 0))
  {
    hide BasicSize, Merge, Rows, Shape, Map, Expand, ContigLoops, ElemMap, Depth, Pending.Blocks, Pending.Bytes;
    if p.length == 0 {
      ext := WriteRows(first, first, size, extent, loops);
      p' := p;
      EmptyPending(p);
      MergeNothing(Rows(first, size, extent, loops));
      assert Expand(Map(ext)) + [] == Expand(Map(ext));
    } else {
      if p.End() == first {
        ext, p' := JoinGappedLoop(size, extent, loops, p);
      } else {
        var rows := WriteRows(first, first, size, extent, loops);
        ext := FlushBefore(p, rows);
        p' := Pending(LOOP, 0, p.disp + p.length, p.extent);
        MergeFlush(p.Bytes(), Rows(first, size, extent, loops), TailOf(p).strided);
      }
      EmptyPending(p');
      assert Expand(Map(ext)) + [] == Expand(Map(ext));
    }
  }

  /** Pending data is written in front of other entries. */
  function FlushBefore(p: Pending, s: seq<Entry>): (r: seq<Entry>)
    requires p.Typed() && Shape(s)
    ensures r == Flush(p) + s && Shape(r) && (ContigLoops(r) <==> ContigLoops(s)) && Depth(r) == Depth(s)
    ensures Expand(Map(r)) == p.Bytes() + Expand(Map(s)) && |r| == Size(s, p)
  {
    MapConcat(Flush(p), s);
    ContigConcat(Flush(p), s);
    DepthConcat(Flush(p), s);
    ElemsFlat(Flush(p));
    ExpandConcat(Map(Flush(p)), Map(s));
    Flush(p) + s
  }

  /** The first row continues the pending data. */
  method JoinGappedLoop(size: nat, extent: int, loops: nat, p: Pending) returns (ext: seq<Entry>, p': Pending)
    requires p.Typed() && size > 0 && loops > 0 && p.length > 0
    ensures Shape(ext) && p'.length == 0 && |ext| <= 4 && Depth(ext) == (if loops > 3 then 1 else 0) && Flagged(ext)
    ensures loops <= 3 || extent == 0 ==> ContigLoops(ext)
    ensures Merge(p.Bytes(), Rows(p.End(), size, extent, loops), Expand(Map(ext)),
                  TailOf(p).strided, !TailOf(p).strided && (loops <= 3 || extent == 0))
  {
    hide BasicSize, Merge, Rows, Range, Shape, Map, Expand, ContigLoops, ElemMap, Depth, Pending.Blocks, Pending.Bytes;
    ByteSize();
    var q := Pending(UINT1, p.length * BasicSize(p.id) + size, p.disp, 1);
    PendingRange(q);
    var rows := WriteRows(p.End(), p.End() + extent, size, extent, loops - 1);
    ext := FlushBefore(q, rows);
    p' := Pending(LOOP, 0, q.disp + q.length, q.extent);
    JoinRows(p, size, extent, loops, Expand(Map(rows)));
  }

  lemma NothingFlushed()
    ensures Shape([]) && ContigLoops([]) && Expand(Map([])) == []
  {
  }

  lemma EmptyPending(p: Pending)
    requires p.length == 0
    ensures p.Bytes() == []
  {
  }

  // ---------------------------------------------------------------- loops over one element

  lemma {:induction false} RepeatElem(disp: int, size: nat, extent: int, n: nat)
    ensures Repeat([Block(disp, size)], extent, n) == ElemMap(disp, size, extent, n)
    decreases n
  {
    if n > 0 {
      RepeatElem(disp, size, extent, n - 1);
      DisplaceElemMap(disp, size, extent, n - 1, extent);
    }
  }

  /** A loop over one single element becomes a strided element. */
  function Strided(lp: Entry, e: Entry): (s: seq<Entry>)
    requires lp.Loop? && lp.loops > 0 && e.Elem? && BasicSize(e.id) > 0 && e.count == 1 && e.extent == BasicSize(e.id)
    ensures Shape(s) && ContigLoops(s) && |s| == 1 && s[0].Elem? && s[0].id == e.id && !s[0].contig
    ensures Map(s) == Repeat(ElemMap(e.disp, BasicSize(e.id), e.extent, e.count), lp.extent, lp.loops)
  {
    var x := Elem(e.id, false, lp.loops, e.disp, lp.extent);
    OneElem(x);
    RepeatElem(e.disp, BasicSize(e.id), lp.extent, lp.loops);
    assert ElemMap(e.disp, BasicSize(e.id), e.extent, 1) == [Block(e.disp, BasicSize(e.id))];
    [x]
  }

  /** The element of a short loop is written out once per iteration. */
  method Unrolled(lp: Entry, e: Entry) returns (ext: seq<Entry>)
    requires lp.Loop? && e.Elem? && BasicSize(e.id) > 0 && e.count > 0
    ensures Shape(ext) && ContigLoops(ext) && |ext| == lp.loops && Elems(ext) && OfType(ext, e.id)
    ensures Map(ext) == Repeat(ElemMap(e.disp, BasicSize(e.id), e.extent, e.count), lp.extent, lp.loops)
  {
    hide BasicSize, Map, Shape, ContigLoops, ElemMap, Repeat, Displace;
    ext := [];
    ghost var one := ElemMap(e.disp, BasicSize(e.id), e.extent, e.count);
    var disp := e.disp;
    NoIterations(one, lp.extent);
    for i := 0 to lp.loops
      invariant disp == e.disp + i * lp.extent && |ext| == i && OfType(ext, e.id)
      invariant Shape(ext) && ContigLoops(ext) && Elems(ext) && Map(ext) == Repeat(one, lp.extent, i)
    {
      var x := Elem(e.id, e.contig, e.count, disp, e.extent);
      OneElem(x);
      MapConcat(ext, [x]);
      ContigConcat(ext, [x]);
      RepeatSplit(one, lp.extent, i + 1, i);
      OneIteration(one, lp.extent);
      DisplaceElemMap(e.disp, BasicSize(e.id), e.extent, e.count, i * lp.extent);
      ext := ext + [x];
      disp := disp + lp.extent;
    }
  }

  lemma NoIterations(one: seq<Block>, extent: int)
    ensures Shape([]) && ContigLoops([]) && Map([]) == Repeat(one, extent, 0)
  {
  }

  lemma OneIteration(one: seq<Block>, extent: int)
    ensures Repeat(one, extent, 1) == one
  {
  }

  // ---------------------------------------------------------------- one level of nesting

  /** The bytes of the entries of a body from `start` to `pos`. */
  ghost function Done(d: seq<Entry>, start: nat, pos: nat): seq<int>
    requires Sound(d, start) && Sound(d, pos)
  {
    var whole, rest := Expand(Body(d, start)), Expand(Body(d, pos));
    if |rest| <= |whole| then whole[..|whole| - |rest|] else []
  }

  /** `seg` is written for these entries and `before` is pending; there are as many bytes as there should be. */
  ghost predicate Placed(d: seq<Entry>, start: nat, seg: seq<Entry>, pos: nat, before: seq<int>) {
    && Shape(seg) && Sound(d, start) && Sound(d, pos) && Honest(d, pos) && Close(d, pos) == Close(d, start)
    && Suffix(Expand(Body(d, start)), Expand(Body(d, pos)))
    && |Expand(Map(seg))| + |before| == |Done(d, start, pos)|
  }

  /** The bytes themselves are right exactly if all merges so far were right. */
  ghost predicate Level(d: seq<Entry>, start: nat, seg: seq<Entry>, pos: nat, before: seq<int>, tail: Tail) {
    && Placed(d, start, seg, pos, before)
    && (tail.Tail? && tail.strided ==> Suffix(Done(d, start, pos), before))
    && (Clean(d, start, NoTail) <==> Expand(Map(seg)) + before == Done(d, start, pos) && Clean(d, pos, tail))
    && (Clean(d, start, NoTail) ==> ContigLoops(seg))
  }

  /** Processing one more entry. */
  lemma LevelStep(d: seq<Entry>, start: nat, seg: seq<Entry>, pos: nat, before: seq<int>, tail: Tail,
                  ext: seq<Entry>, before': seq<int>, tail': Tail, ok: bool)
    requires Level(d, start, seg, pos, before, tail) && !d[pos].EndLoop?
    requires Shape(ext) && (ok ==> ContigLoops(ext))
    requires Merge(before, Expand(One(d, pos)), Expand(Map(ext)) + before', tail.Tail? && tail.strided, ok)
    requires Sound(d, Next(d, pos)) && (Clean(d, pos, tail) <==> ok && Clean(d, Next(d, pos), tail'))
    requires tail'.Tail? && tail'.strided ==> before' == Expand(One(d, pos))
    ensures Level(d, start, seg + ext, Next(d, pos), before', tail')
  {
    hide Sound, Close, Body, Honest, Clean, Expand, Map, Shape, ContigLoops, Merge, One, Suffix, Done, Next;
    DoneMore(d, start, pos);
    MapConcat(seg, ext);
    ContigConcat(seg, ext);
    ExpandConcat(Map(seg), Map(ext));
    MergeAgrees(Expand(Map(seg)), before, Expand(Map(ext)), before', Done(d, start, pos), Expand(One(d, pos)),
                tail.Tail? && tail.strided, ok);
  }

  /** One entry further in the same body. */
  lemma DoneMore(d: seq<Entry>, start: nat, pos: nat)
    requires Sound(d, start) && Sound(d, pos) && !d[pos].EndLoop?
    requires Suffix(Expand(Body(d, start)), Expand(Body(d, pos)))
    ensures Sound(d, Next(d, pos)) && Close(d, Next(d, pos)) == Close(d, pos)
    ensures Honest(d, pos) ==> Honest(d, Next(d, pos))
    ensures Suffix(Expand(Body(d, start)), Expand(Body(d, Next(d, pos))))
    ensures Done(d, start, Next(d, pos)) == Done(d, start, pos) + Expand(One(d, pos))
    ensures Suffix(Done(d, start, Next(d, pos)), Expand(One(d, pos)))
  {
    hide Body, Honest, Expand, One, Close;
    BodyNext(d, pos);
    ExpandConcat(One(d, pos), Body(d, Next(d, pos)));
    SuffixDrop(Expand(Body(d, start)), Expand(One(d, pos)), Expand(Body(d, Next(d, pos))));
  }

  lemma BodyNext(d: seq<Entry>, pos: nat)
    requires Sound(d, pos) && !d[pos].EndLoop?
    ensures Sound(d, Next(d, pos)) && Close(d, Next(d, pos)) == Close(d, pos)
    ensures Body(d, pos) == One(d, pos) + Body(d, Next(d, pos))
    ensures Honest(d, pos) ==> Honest(d, Next(d, pos))
  {
  }

  lemma SuffixDrop<T>(whole: seq<T>, one: seq<T>, rest: seq<T>)
    requires Suffix(whole, one + rest)
    ensures Suffix(whole, rest)
    ensures whole[..|whole| - |rest|] == whole[..|whole| - |one + rest|] + one
    ensures Suffix(whole[..|whole| - |rest|], one)
  {
    var i, j := |whole| - |one + rest|, |whole| - |rest|;
    assert whole[i..j] == whole[i..][..|one|] == one;
    assert whole[j..] == whole[i..][|one|..] == rest;
    assert whole[..j] == whole[..i] + whole[i..j];
  }

  /** If the merge is right, contents agree after it exactly if they agreed before; otherwise they
      cannot agree after it. */
  lemma MergeAgrees(written: seq<int>, before: seq<int>, more: seq<int>, before': seq<int>, done: seq<int>,
                    one: seq<int>,
                    strided: bool, ok: bool)
    requires Merge(before, one, more + before', strided, ok)
    requires |written| + |before| == |done| && (strided ==> Suffix(done, before))
    ensures |more| + |before'| == |before| + |one|
    ensures written + more + before' == done + one <==> ok && written + before == done
  {
    var after := more + before';
    assert written + more + before' == written + after;
    assert after == after[..|before|] + after[|before|..];
    Assoc(written, after[..|before|], after[|before|..]);
    EqualParts(written + after[..|before|], after[|before|..], done, one);
    if strided && written + after[..|before|] == done {
      assert done[|done| - |before|..] == after[..|before|];
    }
    if ok {
      assert after[..|before|] == before && after[|before|..] == one;
    }
  }

  lemma EqualParts<T>(a: seq<T>, b: seq<T>, c: seq<T>, d: seq<T>)
    requires |a| == |c|
    ensures a + b == c + d <==> a == c && b == d
  {
    if a + b == c + d {
      assert a == (a + b)[..|a|] == c;
      assert b == (a + b)[|a|..] == d;
    }
  }

  // ---------------------------------------------------------------- entries that stay on their level

  method OnElem(d: seq<Entry>, ghost start: nat, ghost seg: seq<Entry>, pos: nat, p: Pending)
    returns (ext: seq<Entry>, p': Pending)
    requires Level(d, start, seg, pos, p.Bytes(), TailOf(p)) && p.Typed() && d[pos].Elem?
    ensures Level(d, start, seg + ext, pos + 1, p'.Bytes(), TailOf(p')) && p'.Typed() && Shape(ext) && Elems(ext)
    ensures Size(ext, p') == Size([], p) + Adds(d, pos, TailOf(p)) && TailOf(p') == TailAfter(d, pos)
    ensures Flagged(ext) && (p.Of(d[pos].id) ==> OfType(ext, d[pos].id) && p'.Of(d[pos].id))
  {
    hide Close, Body, Honest, Expand, Map, Merge, Suffix, BasicSize, ContigLoops;
    ghost var tail := TailOf(p);
    CleanElem(d, pos, tail);
    ext, p' := AtElem(d[pos], p);
    LevelStep(d, start, seg, pos, p.Bytes(), tail, ext, p'.Bytes(), TailOf(p'), MergeOk(d, pos, tail));
  }

  lemma CleanElem(d: seq<Entry>, pos: nat, tail: Tail)
    requires Sound(d, pos) && d[pos].Elem?
    ensures BasicSize(d[pos].id) > 0 && d[pos].count > 0 && Sound(d, pos + 1)
    ensures Clean(d, pos, tail) <==> MergeOk(d, pos, tail) && Clean(d, pos + 1, TailAfter(d, pos))
  {
  }

  method OnContigLoop(d: seq<Entry>, ghost start: nat, ghost seg: seq<Entry>, pos: nat, p: Pending)
    returns (ext: seq<Entry>, p': Pending)
    requires Level(d, start, seg, pos, p.Bytes(), TailOf(p)) && p.Typed() && d[pos].Loop? && d[pos].contig
    ensures Level(d, start, seg + ext, Next(d, pos), p'.Bytes(), TailOf(p')) && p'.Typed() && Shape(ext)
    ensures Depth(ext) == WrittenOne(d, pos, TailOf(p)) && TailOf(p') == TailAfter(d, pos)
    ensures Size(ext, p') <= Size([], p) + 3
    ensures Whole(d, pos) ==> Elems(ext) && Size(ext, p') == Size([], p) + Adds(d, pos, TailOf(p))
    ensures Flagged(ext)
  {
    hide Close, Body, Honest, Expand, Map, Merge, Suffix, BasicSize, ContigLoops, Depth, Shape;
    ghost var tail := TailOf(p);
    ContigLoop(d, pos);
    CleanContigLoop(d, pos, tail);
    var lp, end, first := d[pos], d[pos + d[pos].items], FirstDisp(d, pos);
    if lp.extent == end.size {
      ext, p' := AtWholeLoop(first, end.size, lp.loops, p);
      ElemsFlat(ext);
    } else {
      ext, p' := AtGappedLoop(first, end.size, lp.extent, lp.loops, p);
    }
    LevelStep(d, start, seg, pos, p.Bytes(), tail, ext, p'.Bytes(), TailOf(p'), MergeOk(d, pos, tail));
  }

  lemma CleanContigLoop(d: seq<Entry>, pos: nat, tail: Tail)
    requires Sound(d, pos) && d[pos].Loop? && d[pos].contig
    ensures Sound(d, Next(d, pos)) && d[pos].loops > 0
    ensures Clean(d, pos, tail) <==> MergeOk(d, pos, tail) && Clean(d, Next(d, pos), TailAfter(d, pos))
  {
  }

  /** How deep what is written for one entry is. */
  ghost function WrittenOne(d: seq<Entry>, pos: nat, tail: Tail): nat
    requires Sound(d, pos)
    decreases |d| - pos, 0
  {
    if !d[pos].Loop? then 0
    else if d[pos].contig then if Whole(d, pos) then 0 else LeftRows(d[pos].loops, tail, FirstDisp(d, pos))
    else if IsKept(d[pos], d[pos + 1]) then 1 + WrittenDepth(d, pos + 1, NoTail)
    else 0
  }

  /** How deep what is written for the entries from `pos` on is. */
  ghost function WrittenDepth(d: seq<Entry>, pos: nat, tail: Tail): nat
    requires Sound(d, pos)
    decreases |d| - pos, 1
  {
    if d[pos].EndLoop? then 0 else Max(WrittenOne(d, pos, tail), WrittenDepth(d, Next(d, pos), TailAfter(d, pos)))
  }

  /** How deep loops that are kept are nested, in one entry and from `pos` on. */
  ghost function KeptOne(d: seq<Entry>, pos: nat): nat
    requires Sound(d, pos)
    decreases |d| - pos, 0
  {
    if d[pos].Loop? && IsKept(d[pos], d[pos + 1]) then 1 + KeptNesting(d, pos + 1) else 0
  }

  ghost function KeptNesting(d: seq<Entry>, pos: nat): nat
    requires Sound(d, pos)
    decreases |d| - pos, 1
  {
    if d[pos].EndLoop? then 0 else Max(KeptOne(d, pos), KeptNesting(d, Next(d, pos)))
  }

  lemma KeptOrSmall(d: seq<Entry>, pos: nat)
    requires Sound(d, pos) && d[pos].Loop?
    ensures IsKept(d[pos], d[pos + 1]) <==> !d[pos].contig && !Small(d, pos)
  {
    if d[pos].items == 2 {
      SmallBody(d, pos);
    }
  }

  /** A loop over one element that becomes a strided element or is unrolled. */
  predicate Small(d: seq<Entry>, pos: nat)
    requires Sound(d, pos) && d[pos].Loop?
  {
    && d[pos].items == 2
    && (SmallBody(d, pos); (d[pos + 1].count == 1 && d[pos + 1].extent == BasicSize(d[pos + 1].id)) || d[pos].loops < 3)
  }

  lemma SmallBody(d: seq<Entry>, pos: nat)
    requires Sound(d, pos) && d[pos].Loop? && d[pos].items == 2
    ensures d[pos + 1].Elem? && BasicSize(d[pos + 1].id) > 0 && d[pos + 1].count > 0
    ensures Sound(d, pos + 1)
    ensures Body(d, pos + 1) == ElemMap(d[pos + 1].disp, BasicSize(d[pos + 1].id), d[pos + 1].extent, d[pos + 1].count)
    ensures Clean(d, pos + 1, NoTail)
  {
    BodyNotEmpty(d, pos);
    assert Close(d, pos + 1) == pos + 2;
  }

  method OnSmallLoop(d: seq<Entry>, ghost start: nat, ghost seg: seq<Entry>, pos: nat, p: Pending)
    returns (ext: seq<Entry>, p': Pending)
    requires Level(d, start, seg, pos, p.Bytes(), TailOf(p)) && p.Typed()
    requires d[pos].Loop? && !d[pos].contig && Small(d, pos)
    ensures Level(d, start, seg + ext, pos + 3, p'.Bytes(), TailOf(p')) && p'.length == 0 && Shape(ext) && Elems(ext)
    ensures Size(ext, p') <= Size([], p) + 2
    ensures d[pos + 1].Elem? && (p.Of(d[pos + 1].id) ==> OfType(ext, d[pos + 1].id))
  {
    hide Close, Body, Honest, Expand, Map, Merge, Suffix, ContigLoops, Clean, Shape, Depth;
    ghost var tail := TailOf(p);
    SmallBody(d, pos);
    CleanPlainLoop(d, pos, tail);
    var lp, e := d[pos], d[pos + 1];
    var written;
    if e.count == 1 && e.extent == BasicSize(e.id) {
      written := Strided(lp, e);
    } else {
      written := Unrolled(lp, e);
    }
    ext := FlushBefore(p, written);
    p' := if p.length == 0 then p else Pending(LOOP, 0, p.disp + p.length, p.extent);
    EmptyPending(p');
    MergeFlush(p.Bytes(), Expand(Map(written)), tail.Tail? && tail.strided);
    assert Expand(Map(ext)) + p'.Bytes() == p.Bytes() + Expand(Map(written));
    LevelStep(d, start, seg, pos, p.Bytes(), tail, ext, p'.Bytes(), NoTail, true);
  }

  lemma CleanPlainLoop(d: seq<Entry>, pos: nat, tail: Tail)
    requires Sound(d, pos) && d[pos].Loop? && !d[pos].contig
    ensures Sound(d, Next(d, pos)) && Sound(d, pos + 1) && d[pos].loops > 0
    ensures Clean(d, pos, tail) <==> Clean(d, pos + 1, NoTail) && Clean(d, Next(d, pos), NoTail)
  {
  }

  // ---------------------------------------------------------------- opening and closing levels

  lemma LevelBegin(d: seq<Entry>, start: nat)
    requires Sound(d, start) && Honest(d, start)
    ensures Level(d, start, [], start, [], NoTail)
  {
    NothingFlushed();
    assert Expand(Body(d, start))[..0] == [];
  }

  /** Writing the pending data where nothing can be merged with it. */
  lemma LevelFlush(d: seq<Entry>, start: nat, seg: seq<Entry>, pos: nat, p: Pending)
    requires Level(d, start, seg, pos, p.Bytes(), TailOf(p)) && p.Typed()
    requires d[pos].EndLoop? || (d[pos].Loop? && !d[pos].contig)
    ensures Level(d, start, seg + Flush(p), pos, [], NoTail)
  {
    hide Close, Body, Honest, Expand, Map, Suffix, ContigLoops, BasicSize, Shape, Done;
    MapConcat(seg, Flush(p));
    ContigConcat(seg, Flush(p));
    ExpandConcat(Map(seg), p.Blocks());
    var all := Expand(Map(seg)) + p.Bytes();
    assert all + [] == all;
    assert Clean(d, pos, TailOf(p)) <==> Clean(d, pos, NoTail);
  }

  /** A loop is finished: what its body was rewritten to, wrapped up, is added to the level around it. */
  lemma LevelClose(d: seq<Entry>, start: nat, seg: seq<Entry>, index: nat, inner: seq<Entry>, pos: nat, end: Entry)
    requires Level(d, start, seg, index, [], NoTail) && d[index].Loop? && !d[index].contig
    requires Level(d, index + 1, inner, pos, [], NoTail) && d[pos].EndLoop? && end.EndLoop?
    ensures Level(d, start, seg + ([Closed(d[index], inner)] + inner + [end]), pos + 1, [], NoTail)
    ensures pos + 1 == Next(d, index) && inner != []
  {
    hide Honest, Expand, Suffix, BasicSize, ContigLoops, Repeat, Map, Shape, Clean, Body, Level, Merge, Sound, Close;
    LevelBounds(d, start, seg, index, [], NoTail);
    LoopParts(d, index);
    LevelDone(d, index + 1, inner, pos);
    ClosedLoop(d, index, inner, end);
    CleanPlainLoop(d, index, NoTail);
    var ext := [Closed(d[index], inner)] + inner + [end];
    assert Expand(Map(ext)) + [] == Expand(Map(ext));
    LevelStep(d, start, seg, index, [], NoTail, ext, [], NoTail, Clean(d, index + 1, NoTail));
  }

  lemma LoopParts(d: seq<Entry>, index: nat)
    requires Sound(d, index) && d[index].Loop?
    ensures Sound(d, index + 1) && !d[index + 1].EndLoop? && Close(d, index + 1) + 1 == Next(d, index)
  {
    BodyNotEmpty(d, index);
  }

  /** The rewritten loop has the bytes of the loop exactly if the rewritten body has those of the body. */
  lemma ClosedLoop(d: seq<Entry>, index: nat, inner: seq<Entry>, end: Entry)
    requires Sound(d, index) && d[index].Loop? && !d[index].contig && end.EndLoop? && Shape(inner)
    requires Sound(d, index + 1) && !d[index + 1].EndLoop? && |Expand(Map(inner))| == |Expand(Body(d, index + 1))|
    requires Clean(d, index + 1, NoTail) <==> Expand(Map(inner)) == Expand(Body(d, index + 1))
    requires Clean(d, index + 1, NoTail) ==> ContigLoops(inner)
    ensures inner != [] && var ext := [Closed(d[index], inner)] + inner + [end];
      && Shape(ext) && Depth(ext) == 1 + Depth(inner) && (Clean(d, index + 1, NoTail) ==> ContigLoops(ext))
      && Merge([], Expand(One(d, index)), Expand(Map(ext)), false, Clean(d, index + 1, NoTail))
  {
    hide Honest, Expand, Suffix, BasicSize, ContigLoops, Repeat, Map, Shape, Clean, Body, Merge, Close, Depth;
    var lp, body := Closed(d[index], inner), Body(d, index + 1);
    FirstByte(d, index + 1);
    NotEmpty(body, inner);
    WrapLoop(lp, inner, end);
    RepeatAgrees(Map(inner), body, lp.extent, lp.loops);
    MergeLoop(Expand(Repeat(body, lp.extent, lp.loops)), Expand(Repeat(Map(inner), lp.extent, lp.loops)),
              Clean(d, index + 1, NoTail));
  }

  /** The LOOP entry with its number of items corrected. */
  function Closed(lp: Entry, inner: seq<Entry>): Entry
    requires lp.Loop?
  {
    Loop(lp.contig, lp.loops, |inner| + 1, lp.extent)
  }

  lemma LevelDone(d: seq<Entry>, start: nat, seg: seq<Entry>, pos: nat)
    requires Level(d, start, seg, pos, [], NoTail) && d[pos].EndLoop?
    ensures Sound(d, start) && pos == Close(d, start) && Shape(seg) && |Expand(Map(seg))| == |Expand(Body(d, start))|
    ensures Clean(d, start, NoTail) <==> Expand(Map(seg)) == Expand(Body(d, start))
    ensures Clean(d, start, NoTail) ==> ContigLoops(seg)
  {
    var whole := Expand(Body(d, start));
    assert whole[..|whole|] == whole;
    assert Expand(Map(seg)) + [] == Expand(Map(seg));
  }

  lemma NotEmpty(body: seq<Block>, seg: seq<Entry>)
    requires body != [] && body[0].size > 0 && Shape(seg) && |Expand(Map(seg))| == |Expand(body)|
    ensures seg != []
  {
  }

  lemma MergeLoop(one: seq<int>, after: seq<int>, ok: bool)
    requires |one| == |after| && (ok <==> one == after)
    ensures Merge([], one, after, false, ok)
  {
  }

  /** Repeating two maps of the same size gives the same bytes only if they have the same bytes. */
  lemma {:induction false} RepeatAgrees(a: seq<Block>, b: seq<Block>, extent: int, n: nat)
    requires |Expand(a)| == |Expand(b)| && n > 0
    ensures |Expand(Repeat(a, extent, n))| == |Expand(Repeat(b, extent, n))|
    ensures Expand(Repeat(a, extent, n)) == Expand(Repeat(b, extent, n)) <==> Expand(a) == Expand(b)
    decreases n
  {
    hide Expand, Displace;
    var ra, rb := Repeat(a, extent, n - 1), Repeat(b, extent, n - 1);
    ExpandConcat(a, Displace(ra, extent));
    ExpandConcat(b, Displace(rb, extent));
    ExpandDisplace(ra, extent);
    ExpandDisplace(rb, extent);
    EqualParts(Expand(a), Shift(Expand(ra), extent), Expand(b), Shift(Expand(rb), extent));
    if n > 1 {
      RepeatAgrees(a, b, extent, n - 1);
    }
  }

  // ---------------------------------------------------------------- how much is written

  /** A description of elements with the CONTIGUOUS flag and of contiguous loops without gaps only. */
  ghost predicate Plain(d: seq<Entry>, pos: nat)
    requires Sound(d, pos)
    decreases |d| - pos
  {
    match d[pos]
    case Elem(_, contig, _, _, _) => contig && Plain(d, pos + 1)
    case Loop(contig, _, items, _) => contig && Whole(d, pos) && Plain(d, pos + items + 1)
    case EndLoop(_, _, _) => true
  }

  lemma {:induction false} PlainIsUnbroken(d: seq<Entry>, lo: nat, hi: nat)
    requires lo <= hi < |d| && d[hi].EndLoop? && Shape(d[lo..hi]) && Sound(d, lo)
    ensures Plain(d, lo) == Unbroken(d[lo..hi])
    decreases hi - lo
  {
    hide Shape, Unbroken;
    if lo == hi {
      NoEntries();
      assert d[lo..hi] == [];
    } else {
      SliceHead(d, lo, hi);
      UnbrokenHead(d[lo..hi]);
      PlainIsUnbroken(d, Next(d, lo), hi);
    }
  }

  /** The nesting of kept loops, seen from a position and as a property of the entries from there on. */
  lemma {:induction false} KeptNestingIsDepth(d: seq<Entry>, lo: nat, hi: nat)
    requires lo <= hi < |d| && d[hi].EndLoop? && Shape(d[lo..hi])
    ensures Sound(d, lo) && KeptNesting(d, lo) == KeptDepth(d[lo..hi])
    decreases hi - lo
  {
    hide Shape, KeptDepth, KeptNesting, Map, Body, Close, IsKept;
    BodyIsMap(d, lo, hi);
    if lo == hi {
      NoEntries();
      DepthsSplit(d, lo, NoTail);
      assert d[lo..hi] == [];
    } else {
      KeptNestingHead(d, lo, hi);
      if d[lo].Loop? {
        KeptNestingIsDepth(d, lo + 1, lo + d[lo].items);
        KeptNestingIsDepth(d, lo + d[lo].items + 1, hi);
      } else {
        KeptNestingIsDepth(d, lo + 1, hi);
      }
    }
  }

  lemma {:induction false} KeptNestingHead(d: seq<Entry>, lo: nat, hi: nat)
    requires lo < hi < |d| && Shape(d[lo..hi]) && Sound(d, lo)
    ensures d[lo].Elem? || (d[lo].Loop? && 1 < d[lo].items < hi - lo && d[lo + d[lo].items].EndLoop?)
    ensures d[lo].Elem? ==>
      && Shape(d[lo + 1..hi]) && KeptNesting(d, lo) == KeptNesting(d, lo + 1)
      && KeptDepth(d[lo..hi]) == KeptDepth(d[lo + 1..hi])
    ensures d[lo].Loop? ==>
      var n := lo + d[lo].items;
      && Shape(d[lo + 1..n]) && Shape(d[n + 1..hi])
      && KeptNesting(d, lo) == Max(if IsKept(d[lo], d[lo + 1]) then 1 + KeptNesting(d, lo + 1) else 0,
                                   KeptNesting(d, n + 1))
      && KeptDepth(d[lo..hi]) == Max(if IsKept(d[lo], d[lo + 1]) then 1 + KeptDepth(d[lo + 1..n]) else 0,
                                     KeptDepth(d[n + 1..hi]))
  {
    hide Shape, KeptDepth, KeptNesting, IsKept;
    SliceHead(d, lo, hi);
    KeptHead(d[lo..hi]);
    DepthsSplit(d, lo, NoTail);
  }

  /** Such an entry starts a new element of the rewritten description, or continues the one before. */
  ghost function Adds(d: seq<Entry>, pos: nat, tail: Tail): nat
    requires Sound(d, pos)
  {
    match d[pos]
    case Elem(id, contig, _, disp, extent) => if contig && extent == BasicSize(id) && Joins(tail, disp) then 0 else 1
    case Loop(_, _, _, _) => if Joins(tail, FirstDisp(d, pos)) then 0 else 1
    case EndLoop(_, _, _) => 0
  }

  /** The number of elements of the rewritten description. */
  ghost function Pieces(d: seq<Entry>, pos: nat, tail: Tail): nat
    requires Sound(d, pos) && Plain(d, pos)
    decreases |d| - pos
  {
    if d[pos].EndLoop? then 0 else Adds(d, pos, tail) + Pieces(d, Next(d, pos), TailAfter(d, pos))
  }

  // ---------------------------------------------------------------- the rewriting loop

  /** What is written so far, level by level: the finished part of each level, and between two
      levels the LOOP entry of the loop that is being rewritten, at `index` of the input. */
  datatype Trail =
    | Base(seg: seq<Entry>)
    | Into(seg: seq<Entry>, index: nat, lp: Entry, outer: Trail)
  {
    ghost function Out(): seq<Entry> {
      if Base? then seg else outer.Out() + [lp] + seg
    }

    /** The stack of the rewriting loop: where the body of each open loop begins in the output. */
    ghost function Starts(): seq<nat> {
      if Base? then [] else outer.Starts() + [|outer.Out()| + 1]
    }

    ghost function Start(): nat {
      if Base? then 0 else index + 1
    }
  }

  /** What is written and what is still to be written are as deep as they should be. */
  ghost predicate Deep(d: seq<Entry>, tr: Trail, pos: nat, tail: Tail) {
    && Shape(tr.seg) && Sound(d, tr.Start()) && Sound(d, pos)
    && Max(Depth(tr.seg), WrittenDepth(d, pos, tail)) == WrittenDepth(d, tr.Start(), NoTail)
  }

  /** How many loops will be open at once from here on, in this level and in those around it. */
  ghost function Ahead(d: seq<Entry>, tr: Trail, pos: nat): nat {
    Max(|tr.Starts()| + KeptFrom(d, pos), Around(d, tr))
  }

  ghost function Around(d: seq<Entry>, tr: Trail): nat {
    if tr.Base? then 0 else Max(|tr.outer.Starts()| + KeptFrom(d, Behind(d, tr.index)), Around(d, tr.outer))
  }

  ghost function KeptFrom(d: seq<Entry>, pos: nat): nat {
    if Sound(d, pos) then KeptNesting(d, pos) else 0
  }

  ghost function Behind(d: seq<Entry>, pos: nat): nat {
    if pos < |d| && d[pos].Loop? then pos + d[pos].items + 1 else pos + 1
  }

  /** The loops that are kept from an entry on, in terms of that entry and the rest. */
  lemma KeptSplit(d: seq<Entry>, pos: nat)
    requires Sound(d, pos)
    ensures d[pos].EndLoop? ==> KeptFrom(d, pos) == 0
    ensures !d[pos].EndLoop? ==>
      Behind(d, pos) == Next(d, pos) && KeptFrom(d, pos) == Max(KeptOne(d, pos), KeptFrom(d, Next(d, pos)))
    ensures d[pos].Loop? && IsKept(d[pos], d[pos + 1]) ==> KeptOne(d, pos) == 1 + KeptFrom(d, pos + 1)
  {
    hide IsKept;
    if !d[pos].EndLoop? {
      BodyNext(d, pos);
    }
  }

  ghost predicate OnTrail(d: seq<Entry>, tr: Trail, pos: nat, before: seq<int>, tail: Tail) {
    && Level(d, tr.Start(), tr.seg, pos, before, tail) && Deep(d, tr, pos, tail)
    && (tr.Into? ==>
          && OnTrail(d, tr.outer, tr.index, [], NoTail) && d[tr.index].Loop? && tr.lp == d[tr.index]
          && tr.index + 1 < |d| && IsKept(d[tr.index], d[tr.index + 1]))
  }

  ghost function Grown(tr: Trail, ext: seq<Entry>): Trail {
    tr.(seg := tr.seg + ext)
  }

  lemma GrownOut(tr: Trail, ext: seq<Entry>)
    ensures Grown(tr, ext).Out() == tr.Out() + ext && Grown(tr, ext).Starts() == tr.Starts()
    ensures Grown(tr, ext).Start() == tr.Start()
  {
    if tr.Into? {
      Assoc(tr.outer.Out() + [tr.lp], tr.seg, ext);
    }
  }

  /** Closing the innermost loop patches its LOOP entry and appends the closing marker. */
  lemma CloseOut(tr: Trail, lp: Entry, end: Entry)
    requires tr.Into?
    ensures |tr.Out()| == |tr.outer.Out()| + 1 + |tr.seg| && tr.Out()[|tr.outer.Out()|] == tr.lp
    ensures tr.Starts() != [] && tr.Starts()[|tr.Starts()| - 1] == |tr.outer.Out()| + 1
    ensures Grown(tr.outer, [lp] + tr.seg + [end]).Out() == tr.Out()[|tr.outer.Out()| := lp] + [end]
    ensures Grown(tr.outer, [lp] + tr.seg + [end]).Starts() == tr.Starts()[..|tr.Starts()| - 1]
  {
    GrownOut(tr.outer, [lp] + tr.seg + [end]);
    Patched(tr.outer.Out(), tr.lp, lp, tr.seg, end);
  }

  lemma Patched<T>(a: seq<T>, x: T, y: T, b: seq<T>, z: T)
    ensures (a + [x] + b)[|a|] == x
    ensures (a + [x] + b)[|a| := y] + [z] == a + ([y] + b + [z])
  {
    assert (a + [x] + b)[|a| := y] == a + [y] + b;
  }

  /** The variables of the rewriting loop. */
  datatype Progress = Progress(out: seq<Entry>, stack: seq<nat>, pos: nat, p: Pending)

  /** What is written for a plain description are elements, as many as there should be. */
  ghost predicate Counted(d: seq<Entry>, s: Progress) {
    && Sound(d, 0) && Sound(d, s.pos)
    && (Plain(d, 0) ==>
          && s.stack == [] && Elems(s.out) && Plain(d, s.pos)
          && Size(s.out, s.p) + Pieces(d, s.pos, TailOf(s.p)) == Pieces(d, 0, NoTail))
  }

  /** What is written is of the type that the data is of, and has the CONTIGUOUS flag wherever that always has it. */
  ghost predicate Alike(d: seq<Entry>, s: Progress) {
    && (forall id :: OneType(d, id) ==> OfType(s.out, id) && s.p.Of(id))
    && (Flagged(d) ==> Flagged(s.out))
  }

  ghost predicate Good(d: seq<Entry>, s: Progress, tr: Trail) {
    && s.out == tr.Out() && s.stack == tr.Starts() && OnTrail(d, tr, s.pos, s.p.Bytes(), TailOf(s.p)) && s.p.Typed()
    && Size(s.out, s.p) <= 2 * s.pos && Counted(d, s)
  }

  /** Writes the pending data at the end of a loop or in front of a loop that is not contiguous. */
  method FlushAt(d: seq<Entry>, s: Progress, id: nat, ghost tr: Trail) returns (s': Progress, ghost tr': Trail)
    requires Good(d, s, tr) && s.pos < |d| && (d[s.pos].EndLoop? || (d[s.pos].Loop? && !d[s.pos].contig))
    ensures Good(d, s', tr') && s'.pos == s.pos && s'.stack == s.stack && s'.p.length == 0
    ensures Ahead(d, tr', s'.pos) == Ahead(d, tr, s.pos)
    ensures tr'.Into? == tr.Into? && (tr.Base? ==> tr'.Start() == 0)
    ensures Alike(d, s) ==> Alike(d, s')
  {
    hide Close, Body, Honest, Expand, Map, Shape, ContigLoops, Clean, Level, BasicSize, Depth, Sound, WrittenDepth,
         KeptNesting, Deep;
    var p := if s.p.length == 0 then s.p else Pending(id, 0, s.p.disp + s.p.length, s.p.extent);
    EmptyPending(p);
    LevelFlush(d, tr.Start(), tr.seg, s.pos, s.p);
    GrownOut(tr, Flush(s.p));
    DeepFlush(d, tr, s.pos, s.p);
    tr' := Grown(tr, Flush(s.p));
    s' := Progress(s.out + Flush(s.p), s.stack, s.pos, p);
  }

  lemma DeepFlush(d: seq<Entry>, tr: Trail, pos: nat, p: Pending)
    requires Deep(d, tr, pos, TailOf(p)) && p.Typed() && (d[pos].EndLoop? || (d[pos].Loop? && !d[pos].contig))
    ensures Deep(d, Grown(tr, Flush(p)), pos, NoTail)
  {
    hide Shape, Depth, WrittenDepth, TailAfter;
    GrownOut(tr, Flush(p));
    DepthConcat(tr.seg, Flush(p));
    ElemsFlat(Flush(p));
    DepthsSplit(d, pos, TailOf(p));
    DepthsSplit(d, pos, NoTail);
  }

  lemma DeepStep(d: seq<Entry>, tr: Trail, pos: nat, tail: Tail, ext: seq<Entry>)
    requires Deep(d, tr, pos, tail) && !d[pos].EndLoop? && Shape(ext) && Depth(ext) == WrittenOne(d, pos, tail)
    ensures Deep(d, Grown(tr, ext), Next(d, pos), TailAfter(d, pos))
  {
    hide Shape, Depth, WrittenOne, TailAfter;
    GrownOut(tr, ext);
    DepthConcat(tr.seg, ext);
  }

  /** What is ahead does not change with an entry that is no kept loop. */
  lemma AheadStep(d: seq<Entry>, tr: Trail, pos: nat, ext: seq<Entry>)
    requires Sound(d, pos) && !d[pos].EndLoop? && KeptOne(d, pos) == 0
    ensures Ahead(d, Grown(tr, ext), Next(d, pos)) == Ahead(d, tr, pos)
  {
    hide KeptFrom, Behind;
    KeptSplit(d, pos);
    GrownAround(d, tr, ext);
    assert KeptFrom(d, pos) == KeptFrom(d, Next(d, pos));
  }

  lemma GrownAround(d: seq<Entry>, tr: Trail, ext: seq<Entry>)
    ensures Around(d, Grown(tr, ext)) == Around(d, tr) && |Grown(tr, ext).Starts()| == |tr.Starts()|
  {
    GrownOut(tr, ext);
  }

  /** The end of a loop. */
  method CloseLoop(d: seq<Entry>, s: Progress, ghost tr: Trail) returns (s': Progress, ghost tr': Trail)
    requires Good(d, s, tr) && s.pos < |d| && d[s.pos].EndLoop? && s.p.length == 0 && s.stack != []
    ensures Good(d, s', tr') && s'.pos == s.pos + 1 && s'.stack == s.stack[..|s.stack| - 1]
    ensures Ahead(d, tr, s.pos) == Max(|s.stack|, Ahead(d, tr', s'.pos))
    ensures Alike(d, s) ==> Alike(d, s')
  {
    hide Close, Body, Honest, Expand, Map, Shape, ContigLoops, Clean, Level, BasicSize, Depth, Sound, Deep,
         WrittenDepth, Alike;
    var start := s.stack[|s.stack| - 1];
    var items := |s.out| - start + 1;
    var end := EndLoop(items, d[s.pos].first, d[s.pos].size);
    EmptyPending(s.p);
    assert tr.Into? && OnTrail(d, tr.outer, tr.index, [], NoTail);
    LevelBounds(d, tr.Start(), tr.seg, s.pos, s.p.Bytes(), TailOf(s.p));
    LevelBounds(d, tr.outer.Start(), tr.outer.seg, tr.index, [], NoTail);
    CloseOut(tr, Closed(tr.lp, tr.seg), end);
    LevelClose(d, tr.outer.Start(), tr.outer.seg, tr.index, tr.seg, s.pos, end);
    DeepClose(d, tr, s.pos, end);
    AheadClose(d, tr, s.pos, [Closed(tr.lp, tr.seg)] + tr.seg + [end]);
    LevelBounds(d, tr.outer.Start(), tr.outer.seg + ([Closed(tr.lp, tr.seg)] + tr.seg + [end]), s.pos + 1, [], NoTail);
    var lp := s.out[start - 1];
    tr' := Grown(tr.outer, [Closed(tr.lp, tr.seg)] + tr.seg + [end]);
    s' := Progress(s.out[start - 1 := Loop(lp.contig, lp.loops, items, lp.extent)] + [end], s.stack[..|s.stack| - 1],
                   s.pos + 1, s.p);
    CountedNested(d, s, s');
    AlikeClose(d, s, s', start - 1, Loop(lp.contig, lp.loops, items, lp.extent), end);
  }

  lemma AlikeClose(d: seq<Entry>, s: Progress, s': Progress, at: nat, lp: Entry, end: Entry)
    requires at < |s.out| && s.out[at].Loop? && lp.Loop? && lp.contig == s.out[at].contig && end.EndLoop?
    requires s'.out == s.out[at := lp] + [end] && s'.p == s.p
    ensures Alike(d, s) ==> Alike(d, s')
  {
  }

  lemma DeepClose(d: seq<Entry>, tr: Trail, pos: nat, end: Entry)
    requires tr.Into? && Deep(d, tr, pos, NoTail) && Deep(d, tr.outer, tr.index, NoTail) && d[pos].EndLoop?
    requires d[tr.index].Loop? && tr.lp == d[tr.index] && IsKept(d[tr.index], d[tr.index + 1])
    requires end.EndLoop? && tr.seg != [] && pos + 1 == Next(d, tr.index)
    ensures Deep(d, Grown(tr.outer, [Closed(tr.lp, tr.seg)] + tr.seg + [end]), pos + 1, NoTail)
  {
    hide Shape, Depth, Map, ContigLoops;
    LoopRuns(d, tr.index);
    WrapLoop(Closed(tr.lp, tr.seg), tr.seg, end);
    DeepStep(d, tr.outer, tr.index, NoTail, [Closed(tr.lp, tr.seg)] + tr.seg + [end]);
  }

  lemma AheadClose(d: seq<Entry>, tr: Trail, pos: nat, ext: seq<Entry>)
    requires tr.Into? && Sound(d, pos) && d[pos].EndLoop? && Sound(d, tr.index) && d[tr.index].Loop?
    requires pos + 1 == Next(d, tr.index)
    ensures Ahead(d, tr, pos) == Max(|tr.Starts()|, Ahead(d, Grown(tr.outer, ext), pos + 1))
  {
    hide KeptFrom, KeptOne, Behind;
    KeptSplit(d, pos);
    KeptSplit(d, tr.index);
    GrownAround(d, tr.outer, ext);
  }

  lemma LoopRuns(d: seq<Entry>, pos: nat)
    requires Sound(d, pos) && d[pos].Loop?
    ensures d[pos].loops > 0 && Sound(d, pos + 1)
  {
  }

  /** With a loop open, the description is not plain. */
  lemma CountedNested(d: seq<Entry>, s: Progress, s': Progress)
    requires Counted(d, s) && s.stack != [] && Sound(d, s'.pos)
    ensures Counted(d, s')
  {
  }

  /** The beginning of a loop that is kept. */
  method OpenLoop(d: seq<Entry>, s: Progress, ghost tr: Trail) returns (s': Progress, ghost tr': Trail)
    requires Good(d, s, tr) && s.pos + 1 < |d| && d[s.pos].Loop? && IsKept(d[s.pos], d[s.pos + 1]) && s.p.length == 0
    ensures Good(d, s', tr') && s'.pos == s.pos + 1 && s'.stack == s.stack + [|s.out| + 1]
    ensures Ahead(d, tr', s'.pos) == Ahead(d, tr, s.pos)
    ensures Alike(d, s) ==> Alike(d, s')
  {
    hide Close, Body, Honest, Expand, Map, Shape, ContigLoops, Clean, Level, BasicSize, Depth;
    LevelBounds(d, tr.Start(), tr.seg, s.pos, s.p.Bytes(), TailOf(s.p));
    LoopBegins(d, s.pos);
    EmptyPending(s.p);
    tr' := Into([], s.pos, d[s.pos], tr);
    LevelBegin(d, s.pos + 1);
    AheadOpen(d, tr, s.pos);
    NoEntries();
    assert tr'.Out() == tr.Out() + [d[s.pos]];
    s' := Progress(s.out + [d[s.pos]], s.stack + [|s.out| + 1], s.pos + 1, s.p);
    NotPlain(d, s, s');
  }

  lemma AheadOpen(d: seq<Entry>, tr: Trail, pos: nat)
    requires Sound(d, pos) && d[pos].Loop? && IsKept(d[pos], d[pos + 1])
    ensures Ahead(d, Into([], pos, d[pos], tr), pos + 1) == Ahead(d, tr, pos)
  {
    hide KeptFrom, KeptOne, Behind, IsKept;
    KeptSplit(d, pos);
  }

  lemma NotPlain(d: seq<Entry>, s: Progress, s': Progress)
    requires Counted(d, s) && Sound(d, s.pos) && d[s.pos].Loop? && !(d[s.pos].contig && Whole(d, s.pos))
    requires Sound(d, s'.pos)
    ensures Counted(d, s')
  {
  }

  /** An entry that does not open or close a level. */
  method Stay(d: seq<Entry>, s: Progress, ghost tr: Trail) returns (s': Progress, ghost tr': Trail)
    requires Good(d, s, tr) && Sound(d, s.pos) && !d[s.pos].EndLoop?
    requires d[s.pos].Elem? || d[s.pos].contig || Small(d, s.pos)
    ensures Good(d, s', tr') && s'.pos > s.pos && Ahead(d, tr', s'.pos) == Ahead(d, tr, s.pos)
    ensures Alike(d, s) ==> Alike(d, s')
  {
    hide Close, Body, Honest, Expand, Map, Shape, ContigLoops, Clean, Level, BasicSize, Depth, Whole, Deep, IsKept,
         Ahead;
    LevelBounds(d, tr.Start(), tr.seg, s.pos, s.p.Bytes(), TailOf(s.p));
    if d[s.pos].Loop? {
      KeptOrSmall(d, s.pos);
    }
    var ext, p, next;
    if d[s.pos].Elem? {
      ext, p := OnElem(d, tr.Start(), tr.seg, s.pos, s.p);
      ElemsFlat(ext);
      next := s.pos + 1;
    } else if d[s.pos].contig {
      ext, p := OnContigLoop(d, tr.Start(), tr.seg, s.pos, s.p);
      next := s.pos + d[s.pos].items + 1;
    } else {
      ext, p := OnSmallLoop(d, tr.Start(), tr.seg, s.pos, s.p);
      ElemsFlat(ext);
      next := s.pos + 3;
    }
    GrownOut(tr, ext);
    DeepStep(d, tr, s.pos, TailOf(s.p), ext);
    AheadStep(d, tr, s.pos, ext);
    tr' := Grown(tr, ext);
    s' := Progress(s.out + ext, s.stack, next, p);
    CountedStep(d, s, s', ext);
  }

  lemma CountedStep(d: seq<Entry>, s: Progress, s': Progress, ext: seq<Entry>)
    requires Counted(d, s) && Sound(d, s.pos) && !d[s.pos].EndLoop? && Sound(d, Next(d, s.pos))
    requires s'.out == s.out + ext && s'.stack == s.stack && s'.pos == Next(d, s.pos)
    requires d[s.pos].Elem? || (d[s.pos].contig && Whole(d, s.pos)) ==>
      && Elems(ext) && Size(ext, s'.p) == Size([], s.p) + Adds(d, s.pos, TailOf(s.p))
      && TailOf(s'.p) == TailAfter(d, s.pos)
    ensures Counted(d, s')
  {
    hide Whole, TailAfter, TailOf, Adds;
  }

  /** Rewrites the description `d` (with its closing marker).  `deepest` is the number of loops that are on the stack at
      most: the nesting of the loops that are kept. */
  method OptimizeShort(d: seq<Entry>) returns (out: seq<Entry>, ghost deepest: nat)
    requires Sound(d, 0) && Honest(d, 0)
    ensures Shape(out) && |Expand(Map(out))| == |Expand(Body(d, 0))|
    ensures Expand(Map(out)) == Expand(Body(d, 0)) <==> Clean(d, 0, NoTail)
    ensures Clean(d, 0, NoTail) ==> ContigLoops(out)
    ensures |out| <= 2 * Close(d, 0)
    ensures Depth(out) == WrittenDepth(d, 0, NoTail) <= Nesting(d, 0) && deepest == KeptNesting(d, 0) <= Depth(out)
    ensures Plain(d, 0) ==> Elems(out) && |out| == Pieces(d, 0, NoTail)
    ensures forall id :: OneType(d, id) ==> OfType(out, id) && (Clean(d, 0, NoTail) ==> Map(out) == Body(d, 0))
    ensures Flagged(d) ==> Flagged(out)
  {
    hide Sound, Close, Body, Honest, Expand, Map, Shape, ContigLoops, Clean, Good, Nesting, Depth, Plain, Pieces,
         KeptNesting, WrittenDepth, Ahead, IsKept;
    var s := Progress([], [], 0, Pending(UINT1, 0, 0, 1));
    ghost var tr := Base([]);
    GoodBegin(d);
    deepest := 0;
    while true
      invariant Good(d, s, tr) && Max(deepest, Ahead(d, tr, s.pos)) == KeptNesting(d, 0) && Alike(d, s)
      decreases |d| - s.pos
    {
      GoodBounds(d, s, tr);
      deepest := Max(deepest, |s.stack|);
      if d[s.pos].EndLoop? {
        s, tr := FlushAt(d, s, s.p.id, tr);
        if s.stack == [] {
          GoodEnd(d, s, tr);
          KeptWritten(d, 0, NoTail);
          SameBlocks(d, s.out);
          return s.out, deepest;
        }
        s, tr := CloseLoop(d, s, tr);
      } else if d[s.pos].Elem? || d[s.pos].contig || Small(d, s.pos) {
        s, tr := Stay(d, s, tr);
      } else {
        KeptOrSmall(d, s.pos);
        s, tr := FlushAt(d, s, LOOP, tr);
        s, tr := OpenLoop(d, s, tr);
      }
    }
  }

  ghost predicate Sized(m: seq<Block>, size: nat) {
    forall i :: 0 <= i < |m| ==> m[i].size == size > 0
  }

  lemma {:induction false} ElemSized(disp: int, size: nat, extent: int, count: nat)
    requires size > 0
    ensures Sized(ElemMap(disp, size, extent, count), size)
    decreases count
  {
    if count > 0 {
      ElemSized(disp + extent, size, extent, count - 1);
    }
  }

  lemma DisplaceSized(m: seq<Block>, k: int, size: nat)
    requires Sized(m, size)
    ensures Sized(Displace(m, k), size)
  {
  }

  lemma {:induction false} RepeatSized(m: seq<Block>, extent: int, n: nat, size: nat)
    requires Sized(m, size)
    ensures Sized(Repeat(m, extent, n), size)
  {
    if n > 0 {
      RepeatSized(m, extent, n - 1, size);
      DisplaceSized(Repeat(m, extent, n - 1), extent, size);
    }
  }

  lemma {:induction false} BodySized(d: seq<Entry>, pos: nat, id: nat)
    requires Sound(d, pos) && OfType(d, id)
    ensures Sized(Body(d, pos), BasicSize(id))
    decreases |d| - pos
  {
    hide BasicSize;
    if d[pos].Elem? {
      BodySized(d, pos + 1, id);
      ElemSized(d[pos].disp, BasicSize(id), d[pos].extent, d[pos].count);
    } else if d[pos].Loop? {
      BodySized(d, pos + 1, id);
      RepeatSized(Body(d, pos + 1), d[pos].extent, d[pos].loops, BasicSize(id));
      BodySized(d, pos + d[pos].items + 1, id);
    }
  }

  lemma {:induction false} MapSized(s: seq<Entry>, id: nat)
    requires Shape(s) && OfType(s, id)
    ensures Sized(Map(s), BasicSize(id))
  {
    var d := s + [EndLoop(|s|, 0, 0)];
    assert d[0..|s|] == s;
    BodyIsMap(d, 0, |s|);
    BodySized(d, 0, id);
  }

  /** Blocks of one size are known from their bytes. */
  lemma {:induction false} BlocksOfBytes(a: seq<Block>, b: seq<Block>, size: nat)
    requires Sized(a, size) && Sized(b, size) && Expand(a) == Expand(b)
    ensures a == b
  {
    if a != [] && b != [] {
      var x, y := a[0].disp, b[0].disp;
      assert Expand(a)[0] == x && Expand(b)[0] == y;
      EqualParts(Range(x, size), Expand(a[1..]), Range(y, size), Expand(b[1..]));
      BlocksOfBytes(a[1..], b[1..], size);
    }
  }

  /** With data of one type the blocks are the same, and not only the bytes. */
  lemma SameBlocks(d: seq<Entry>, out: seq<Entry>)
    requires Sound(d, 0) && Shape(out)
    ensures forall id :: OneType(d, id) && OfType(out, id) && Expand(Map(out)) == Expand(Body(d, 0)) ==>
      Map(out) == Body(d, 0)
  {
    hide OfType, Expand, Map, Body;
    forall id | OneType(d, id) && OfType(out, id) && Expand(Map(out)) == Expand(Body(d, 0))
      ensures Map(out) == Body(d, 0)
    {
      MapSized(out, id);
      BodySized(d, 0, id);
      BlocksOfBytes(Map(out), Body(d, 0), BasicSize(id));
    }
  }

  lemma {:induction false} KeptWritten(d: seq<Entry>, pos: nat, tail: Tail)
    requires Sound(d, pos)
    ensures KeptNesting(d, pos) <= WrittenDepth(d, pos, tail) <= KeptNesting(d, pos) + 1
    ensures WrittenDepth(d, pos, tail) <= Nesting(d, pos)
    decreases |d| - pos
  {
    hide IsKept, TailAfter, Whole, KeptNesting, WrittenDepth, Nesting, WrittenOne, KeptOne;
    DepthsSplit(d, pos, tail);
    if !d[pos].EndLoop? {
      KeptWritten(d, Next(d, pos), TailAfter(d, pos));
      if d[pos].Loop? {
        KeptWritten(d, pos + 1, NoTail);
      }
    }
  }

  lemma DepthsSplit(d: seq<Entry>, pos: nat, tail: Tail)
    requires Sound(d, pos)
    ensures d[pos].EndLoop? ==> KeptNesting(d, pos) == 0 && WrittenDepth(d, pos, tail) == 0
    ensures !d[pos].EndLoop? ==>
      && Sound(d, Next(d, pos)) && KeptNesting(d, pos) == Max(KeptOne(d, pos), KeptNesting(d, Next(d, pos)))
      && WrittenDepth(d, pos, tail) == Max(WrittenOne(d, pos, tail), WrittenDepth(d, Next(d, pos), TailAfter(d, pos)))
      && Nesting(d, Next(d, pos)) <= Nesting(d, pos)
    ensures !d[pos].Loop? ==> KeptOne(d, pos) == 0 && WrittenOne(d, pos, tail) == 0
    ensures d[pos].Loop? ==>
      && Sound(d, pos + 1) && Nesting(d, pos) >= 1 + Nesting(d, pos + 1)
      && if IsKept(d[pos], d[pos + 1]) then
           && KeptOne(d, pos) == 1 + KeptNesting(d, pos + 1)
           && WrittenOne(d, pos, tail) == 1 + WrittenDepth(d, pos + 1, NoTail)
         else KeptOne(d, pos) == 0 && WrittenOne(d, pos, tail) <= 1
  {
  }

  lemma GoodBegin(d: seq<Entry>)
    requires Sound(d, 0) && Honest(d, 0)
    ensures Good(d, Progress([], [], 0, Pending(UINT1, 0, 0, 1)), Base([]))
    ensures Ahead(d, Base([]), 0) == KeptNesting(d, 0)
  {
    hide Body, Honest, Expand, Map, Clean, Level, Plain, Pieces, Close, Sound, WrittenDepth, KeptNesting;
    EmptyPending(Pending(UINT1, 0, 0, 1));
    LevelBegin(d, 0);
    NoEntries();
  }

  lemma GoodBounds(d: seq<Entry>, s: Progress, tr: Trail)
    requires Good(d, s, tr)
    ensures Sound(d, s.pos) && s.pos < |d| && Sound(d, 0) && |s.stack| <= Ahead(d, tr, s.pos)
    ensures d[s.pos].Loop? ==> s.pos + 1 < |d|
  {
    LevelBounds(d, tr.Start(), tr.seg, s.pos, s.p.Bytes(), TailOf(s.p));
  }

  lemma GoodEnd(d: seq<Entry>, s: Progress, tr: Trail)
    requires Good(d, s, tr) && s.pos < |d| && d[s.pos].EndLoop? && s.stack == [] && s.p.length == 0
    ensures Sound(d, 0) && Shape(s.out) && |Expand(Map(s.out))| == |Expand(Body(d, 0))|
    ensures Expand(Map(s.out)) == Expand(Body(d, 0)) <==> Clean(d, 0, NoTail)
    ensures Clean(d, 0, NoTail) ==> ContigLoops(s.out)
    ensures |s.out| <= 2 * Close(d, 0) && Depth(s.out) == WrittenDepth(d, 0, NoTail) && Ahead(d, tr, s.pos) == 0
    ensures Plain(d, 0) ==> Elems(s.out) && |s.out| == Pieces(d, 0, NoTail)
  {
    hide Body, Honest, Expand, Map, Clean, Level, Close, Depth, Shape;
    EmptyPending(s.p);
    LevelDone(d, 0, tr.seg, s.pos);
  }

  lemma LevelBounds(d: seq<Entry>, start: nat, seg: seq<Entry>, pos: nat, before: seq<int>, tail: Tail)
    requires Level(d, start, seg, pos, before, tail)
    ensures Sound(d, pos) && Honest(d, pos) && pos < |d|
    ensures d[pos].Loop? ==> d[pos].items > 1
  {
  }

  lemma LoopBegins(d: seq<Entry>, pos: nat)
    requires Sound(d, pos) && Honest(d, pos) && d[pos].Loop?
    ensures Sound(d, pos + 1) && Honest(d, pos + 1)
  {
  }

  // ---------------------------------------------------------------- contiguous data

  /** No element from entry `pos` on has an extent of its own. */
  ghost predicate Dense(d: seq<Entry>, pos: nat)
    requires Sound(d, pos)
    decreases |d| - pos
  {
    match d[pos]
    case Elem(id, _, _, _, extent) => extent == BasicSize(id) && Dense(d, pos + 1)
    case Loop(_, _, items, _) => Dense(d, pos + items + 1)
    case EndLoop(_, _, _) => true
  }

  /** Entries whose bytes are one ascending range are merged rightly, and into what is in front of them exactly
      if they are dense. */
  lemma {:induction false} RangeMerges(d: seq<Entry>, pos: nat, x: int, tail: Tail)
    requires Sound(d, pos) && Honest(d, pos) && Plain(d, pos) && tail == Tail(x, false)
    requires Expand(Body(d, pos)) == Range(x, |Expand(Body(d, pos))|)
    ensures Clean(d, pos, tail) && (Pieces(d, pos, tail) == 0 <==> Dense(d, pos))
    decreases |d| - pos
  {
    hide Body, Expand, Range, Honest, Close;
    if !d[pos].EndLoop? {
      RangeEntry(d, pos, x);
      RangeMerges(d, Next(d, pos), x + |Expand(One(d, pos))|, TailAfter(d, pos));
    }
  }

  /** The first entry of such a range, and what it leaves. */
  lemma RangeEntry(d: seq<Entry>, pos: nat, x: int)
    requires Sound(d, pos) && Honest(d, pos) && Plain(d, pos) && !d[pos].EndLoop?
    requires Expand(Body(d, pos)) == Range(x, |Expand(Body(d, pos))|)
    ensures FirstDisp(d, pos) == x && Sound(d, Next(d, pos)) && Honest(d, Next(d, pos)) && Plain(d, Next(d, pos))
    ensures TailAfter(d, pos) == Tail(x + |Expand(One(d, pos))|, false)
    ensures Expand(Body(d, Next(d, pos))) == Range(x + |Expand(One(d, pos))|, |Expand(Body(d, Next(d, pos)))|)
  {
    hide Body, Expand, Range, Close, Rows, ElemMap, Repeat;
    BodyNext(d, pos);
    var one, rest := Expand(One(d, pos)), Expand(Body(d, Next(d, pos)));
    ExpandConcat(One(d, pos), Body(d, Next(d, pos)));
    RangeParts(x, one, rest);
    FirstIs(d, pos, x);
    if d[pos].Elem? {
      PendingRange(Pending(d[pos].id, d[pos].count, d[pos].disp, d[pos].extent));
    } else {
      ContigLoop(d, pos);
      RowsWhole(FirstDisp(d, pos), d[pos + d[pos].items].size, d[pos].loops);
      RangeLength(FirstDisp(d, pos), d[pos].loops * d[pos + d[pos].items].size);
    }
  }

  lemma RangeParts(x: int, a: seq<int>, b: seq<int>)
    requires a + b == Range(x, |a + b|)
    ensures a == Range(x, |a|) && b == Range(x + |a|, |b|)
  {
    RangeSplit(x, |a|, |b|);
    RangeLength(x, |a|);
    EqualParts(a, b, Range(x, |a|), Range(x + |a|, |b|));
  }

  lemma FirstIs(d: seq<Entry>, pos: nat, x: int)
    requires Sound(d, pos) && !d[pos].EndLoop?
    requires Expand(Body(d, pos)) == Range(x, |Expand(Body(d, pos))|)
    ensures FirstDisp(d, pos) == x
  {
    FirstByte(d, pos);
    assert Expand(Body(d, pos))[0] == Body(d, pos)[0].disp;
  }

  /** The bytes that the stack of a contiguous type expects in an item: those of the first element. */
  function Covers(e: Entry): nat {
    if e.Elem? then e.count * BasicSize(e.id) else 0
  }

  /** The first element covers everything exactly if there is no other one. */
  lemma CoversAll(s: seq<Entry>)
    requires Shape(s) && s != [] && Elems(s)
    ensures Covers(s[0]) <= |Expand(Map(s))| && (Covers(s[0]) == |Expand(Map(s))| <==> |s| == 1)
  {
    var e := s[0];
    var m := ElemMap(e.disp, BasicSize(e.id), e.extent, e.count);
    ExpandElemMapLength(e.disp, BasicSize(e.id), e.extent, e.count);
    ExpandConcat(m, Map(s[1..]));
    if |s| > 1 {
      SomeBytes(s[1..]);
    }
  }

  lemma SomeBytes(s: seq<Entry>)
    requires Shape(s) && s != [] && Elems(s)
    ensures |Expand(Map(s))| > 0
  {
    var e := s[0];
    ExpandElemMapLength(e.disp, BasicSize(e.id), e.extent, e.count);
    ExpandConcat(ElemMap(e.disp, BasicSize(e.id), e.extent, e.count), Map(s[1..]));
    assert e.count * BasicSize(e.id) > 0;
  }

  // ---------------------------------------------------------------- committing a datatype

  /** Builds the description that convertors use: the rewritten one with a closing marker.  Without entries
      there is nothing to rewrite. */
  method Commit(t: Layout) returns (opt: Option<Layout>, ghost deepest: nat)
    requires t.Sane()
    ensures opt.None? <==> t.desc[0].EndLoop?
    ensures opt.Some? ==>
      && opt.value.size == t.size && opt.value.extent == t.extent && Sound(opt.value.desc, 0)
      && |Expand(Body(opt.value.desc, 0))| == |Expand(Body(t.desc, 0))|
      && (Expand(Body(opt.value.desc, 0)) == Expand(Body(t.desc, 0)) <==> Clean(t.desc, 0, NoTail))
      && (Clean(t.desc, 0, NoTail) ==> opt.value.WellFormed())
      && opt.value.desc[|opt.value.desc| - 1] == EndLoop(|opt.value.desc| - 1, FirstDisp(t.desc, 0), t.size)
      && |opt.value.desc| <= 2 * Close(t.desc, 0) + 1 && Nesting(opt.value.desc, 0) <= Nesting(t.desc, 0)
      && Nesting(opt.value.desc, 0) == WrittenDepth(t.desc, 0, NoTail) && deepest == KeptNesting(t.desc, 0)
    ensures opt.Some? && Plain(t.desc, 0) ==>
      && 0 < Covers(opt.value.desc[0]) <= t.size
      && (Covers(opt.value.desc[0]) == t.size <==> Pieces(t.desc, 0, NoTail) == 1)
    ensures opt.Some? ==>
      && (Flagged(t.desc) ==> Flagged(opt.value.desc))
      && forall id :: OneType(t.desc, id) ==>
           && OfType(opt.value.desc, id)
           && (Clean(t.desc, 0, NoTail) ==> Body(opt.value.desc, 0) == Body(t.desc, 0))
  {
    hide Sound, Close, Honest, Expand, Map, Shape, ContigLoops, Clean, Plain, Pieces, Depth, Nesting, WrittenDepth,
         KeptNesting;
    Marked(t.desc);
    if t.desc[0].EndLoop? {
      return None, 0;
    }
    var out;
    out, deepest := OptimizeShort(t.desc);
    var marker := EndLoop(|out|, FirstDisp(t.desc, 0), t.size);
    var d := out + [marker];
    FirstByte(t.desc, 0);
    NotEmpty(Body(t.desc, 0), out);
    assert d[0..|out|] == out;
    BodyIsMap(d, 0, |out|);
    HonestIsContig(d, 0, |out|);
    NestingIsDepth(d, 0, |out|);
    StartsWithData(out);
    if Elems(out) {
      CoversAll(out);
      FirstCovers(out);
    }
    opt := Some(Layout(d, t.size, t.extent));
  }

  lemma Marked(d: seq<Entry>)
    requires Sound(d, 0)
    ensures d != []
  {
  }

  lemma FirstCovers(s: seq<Entry>)
    requires Shape(s) && s != [] && Elems(s)
    ensures Covers(s[0]) > 0
  {
    assert s[0].count * BasicSize(s[0].id) > 0;
  }

  lemma StartsWithData(s: seq<Entry>)
    requires Shape(s) && s != []
    ensures !s[0].EndLoop?
  {
  }

  /** Any number of items of a datatype that is committed cleanly has the same bytes in the same order. */
  lemma SameBytes(t: Layout, opt: Layout, count: nat)
    requires t.WellFormed() && opt.WellFormed() && opt.extent == t.extent
    requires Expand(Body(opt.desc, 0)) == Expand(Body(t.desc, 0))
    ensures Expand(opt.All(count)) == Expand(t.All(count))
  {
    if count > 0 {
      RepeatAgrees(Body(opt.desc, 0), Body(t.desc, 0), t.extent, count);
    }
  }

  // ---------------------------------------------------------------- descriptions that are not rewritten rightly

  /** A byte, then four rows of one byte that start right after it and are three bytes apart: the
      first row is joined to the byte, and the loop that is written for the other three starts at
      the first row again. */
  lemma GappedLoopLosesARow()
    ensures
      var d :=
      [Elem(UINT1, true, 1, 0, 1), Loop(true, 4, 2, 3), Elem(UINT1, true, 1, 1, 1), EndLoop(2, 1, 1), EndLoop(4, 0, 5)];
      Sound(d, 0) && Honest(d, 0) && !Clean(d, 0, NoTail)
  {
    var d :=
      [Elem(UINT1, true, 1, 0, 1), Loop(true, 4, 2, 3), Elem(UINT1, true, 1, 1, 1), EndLoop(2, 1, 1), EndLoop(4, 0, 5)];
    assert Sound(d, 4) && Sound(d, 3) && Sound(d, 2) && Close(d, 3) == 3 && Close(d, 2) == 3;
    assert Sound(d, 1) && Sound(d, 0);
    assert Body(d, 3) == [] && ElemMap(2, 1, 1, 0) == [] && Body(d, 2) == [Block(1, 1)];
    assert [Block(1, 1)][1..] == [];
    assert Expand(Body(d, 2)) == Range(1, 1);
    assert Honest(d, 4) && Honest(d, 3) && Honest(d, 2) && Honest(d, 1);
    assert TailAfter(d, 0) == Tail(1, false) && FirstDisp(d, 1) == 1 && !Whole(d, 1);
    assert !MergeOk(d, 1, Tail(1, false));
    assert !Clean(d, 1, Tail(1, false));
  }

  /** Two 4-byte integers eight bytes apart, then a third one at the place where the second would
      end if they were back to back. */
  lemma StridedElementIsClosedUp()
    ensures var d := [Elem(6, true, 2, 0, 8), Elem(6, true, 1, 8, 4), EndLoop(2, 0, 12)];
      Sound(d, 0) && Honest(d, 0) && !Clean(d, 0, NoTail)
  {
    var d := [Elem(6, true, 2, 0, 8), Elem(6, true, 1, 8, 4), EndLoop(2, 0, 12)];
    assert Sound(d, 2) && Sound(d, 1) && Honest(d, 2) && Honest(d, 1);
    assert TailAfter(d, 0) == Tail(8, true) && !MergeOk(d, 1, TailAfter(d, 0));
    assert !Clean(d, 1, TailAfter(d, 0));
  }
}

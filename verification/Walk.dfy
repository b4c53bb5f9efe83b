/**
 Walking a description with an explicit stack of frames (index, count, disp), the way the
 convertor does when it packs or moves.

 The key notion is `Left`: the blocks that a position of the walk still has to deliver.  Every
 step of the walk keeps "delivered + left" constant.
 */
module Walking {
  import opened Common
  import opened TypeMap

  // ---------------------------------------------------------------- the view from a position

  /** From entry `pos` up to the closing marker of the enclosing body, the description is sound. */
  ghost predicate Sound(d: seq<Entry>, pos: nat)
    decreases |d| - pos, 0
  {
    && pos < |d|
    && match d[pos]
       case Elem(id, _, count, _, _) => BasicSize(id) > 0 && count > 0 && Sound(d, pos + 1)
       case Loop(_, loops, items, _) =>
         && loops > 0 && items > 1
         && Sound(d, pos + 1) && Close(d, pos + 1) == pos + items
         && Sound(d, pos + items + 1)
       case EndLoop(_, _, _) => true
  }

  /** The closing marker of the body that contains entry `pos`. */
  ghost function Close(d: seq<Entry>, pos: nat): (c: nat)
    requires Sound(d, pos)
    ensures pos <= c < |d| && d[c].EndLoop?
    decreases |d| - pos, 1
  {
    match d[pos]
    case Elem(_, _, _, _, _) => Close(d, pos + 1)
    case Loop(_, _, items, _) => Close(d, pos + items + 1)
    case EndLoop(_, _, _) => pos
  }

  /** The type map from entry `pos` to the closing marker. */
  ghost function Body(d: seq<Entry>, pos: nat): seq<Block>
    requires Sound(d, pos)
    decreases |d| - pos
  {
    match d[pos]
    case Elem(id, _, count, disp, extent) => ElemMap(disp, BasicSize(id), extent, count) + Body(d, pos + 1)
    case Loop(_, loops, items, extent) => Repeat(Body(d, pos + 1), extent, loops) + Body(d, pos + items + 1)
    case EndLoop(_, _, _) => []
  }

  /** Loops with the CONTIGUOUS flag cover the byte range that their closing marker announces. */
  ghost predicate Honest(d: seq<Entry>, pos: nat)
    requires Sound(d, pos)
    decreases |d| - pos
  {
    match d[pos]
    case Elem(_, _, _, _, _) => Honest(d, pos + 1)
    case Loop(contig, _, items, _) =>
      && Honest(d, pos + 1) && Honest(d, pos + items + 1)
      && (contig ==> Expand(Body(d, pos + 1)) == Range(d[pos + items].first, d[pos + items].size))
    case EndLoop(_, _, _) => true
  }

  /** Loop nesting from entry `pos` on. */
  ghost function Nesting(d: seq<Entry>, pos: nat): nat
    requires Sound(d, pos)
    decreases |d| - pos
  {
    match d[pos]
    case Elem(_, _, _, _, _) => Nesting(d, pos + 1)
    case Loop(_, _, items, _) =>
      if 1 + Nesting(d, pos + 1) < Nesting(d, pos + items + 1)
      then Nesting(d, pos + items + 1) else 1 + Nesting(d, pos + 1)
    case EndLoop(_, _, _) => 0
  }

  /** The view from a position agrees with the meaning of the entries up to the closing marker. */
  lemma {:induction false} BodyIsMap(d: seq<Entry>, lo: nat, hi: nat)
    requires lo <= hi < |d| && d[hi].EndLoop? && Shape(d[lo..hi])
    ensures Sound(d, lo) && Close(d, lo) == hi && Body(d, lo) == Map(d[lo..hi])
    decreases hi - lo
  {
    if lo < hi {
      SliceHead(d, lo, hi);
      if d[lo].Loop? {
        BodyIsMap(d, lo + 1, lo + d[lo].items);
        BodyIsMap(d, lo + d[lo].items + 1, hi);
      } else {
        BodyIsMap(d, lo + 1, hi);
      }
    }
  }

  lemma {:induction false} NestingIsDepth(d: seq<Entry>, lo: nat, hi: nat)
    requires lo <= hi < |d| && d[hi].EndLoop? && Shape(d[lo..hi])
    ensures Sound(d, lo) && Nesting(d, lo) == Depth(d[lo..hi])
    decreases hi - lo
  {
    hide Shape, Depth, Map, Body, Close, Nesting;
    BodyIsMap(d, lo, hi);
    if lo == hi {
      NothingNested(d, lo);
    } else {
      NestingHead(d, lo, hi);
      if d[lo].Loop? {
        NestingIsDepth(d, lo + 1, lo + d[lo].items);
        NestingIsDepth(d, lo + d[lo].items + 1, hi);
      } else {
        NestingIsDepth(d, lo + 1, hi);
      }
    }
  }

  lemma NothingNested(d: seq<Entry>, lo: nat)
    requires lo < |d| && d[lo].EndLoop?
    ensures Sound(d, lo) && Nesting(d, lo) == 0 && Shape(d[lo..lo]) && Depth(d[lo..lo]) == 0
  {
    assert d[lo..lo] == [];
  }

  lemma {:induction false} NestingHead(d: seq<Entry>, lo: nat, hi: nat)
    requires lo < hi < |d| && Shape(d[lo..hi]) && Sound(d, lo)
    ensures d[lo].Elem? || (d[lo].Loop? && 1 < d[lo].items < hi - lo && d[lo + d[lo].items].EndLoop?)
    ensures d[lo].Elem? ==>
      Shape(d[lo + 1..hi]) && Nesting(d, lo) == Nesting(d, lo + 1) && Depth(d[lo..hi]) == Depth(d[lo + 1..hi])
    ensures d[lo].Loop? ==>
      var n := lo + d[lo].items;
      && Shape(d[lo + 1..n]) && Shape(d[n + 1..hi])
      && Nesting(d, lo) == Max(1 + Nesting(d, lo + 1), Nesting(d, n + 1))
      && Depth(d[lo..hi]) == Max(1 + Depth(d[lo + 1..n]), Depth(d[n + 1..hi]))
  {
    hide Shape, Depth;
    SliceHead(d, lo, hi);
    Head(d[lo..hi]);
  }

  lemma {:induction false} HonestIsContig(d: seq<Entry>, lo: nat, hi: nat)
    requires lo <= hi < |d| && d[hi].EndLoop? && Shape(d[lo..hi])
    ensures Sound(d, lo) && Honest(d, lo) == ContigLoops(d[lo..hi])
    decreases hi - lo
  {
    hide Shape, ContigLoops, Honest, Map, Expand, Body, Range, Close;
    BodyIsMap(d, lo, hi);
    if lo == hi {
      NothingHonest(d, lo);
    } else {
      HonestHead(d, lo, hi);
      if d[lo].Loop? {
        HonestIsContig(d, lo + 1, lo + d[lo].items);
        HonestIsContig(d, lo + d[lo].items + 1, hi);
      } else {
        HonestIsContig(d, lo + 1, hi);
      }
    }
  }

  lemma NothingHonest(d: seq<Entry>, lo: nat)
    requires lo < |d| && d[lo].EndLoop?
    ensures Sound(d, lo) && Honest(d, lo) && Shape(d[lo..lo]) && ContigLoops(d[lo..lo])
  {
    assert d[lo..lo] == [];
  }

  lemma {:induction false} HonestHead(d: seq<Entry>, lo: nat, hi: nat)
    requires lo < hi < |d| && d[hi].EndLoop? && Shape(d[lo..hi]) && Sound(d, lo)
    ensures d[lo].Elem? || (d[lo].Loop? && 1 < d[lo].items < hi - lo && d[lo + d[lo].items].EndLoop?)
    ensures d[lo].Elem? ==>
      && Shape(d[lo + 1..hi]) && Honest(d, lo) == Honest(d, lo + 1)
      && ContigLoops(d[lo..hi]) == ContigLoops(d[lo + 1..hi])
    ensures d[lo].Loop? ==>
      var n := lo + d[lo].items;
      && Shape(d[lo + 1..n]) && Shape(d[n + 1..hi])
      && var truth := d[lo].contig ==> Expand(Body(d, lo + 1)) == Range(d[n].first, d[n].size);
      && (Honest(d, lo) <==> Honest(d, lo + 1) && Honest(d, n + 1) && truth)
      && (ContigLoops(d[lo..hi]) <==> ContigLoops(d[lo + 1..n]) && ContigLoops(d[n + 1..hi]) && truth)
  {
    hide Shape, ContigLoops, Map, Expand, Range;
    SliceHead(d, lo, hi);
    ContigHead(d[lo..hi]);
    if d[lo].Loop? {
      BodyIsMap(d, lo + 1, lo + d[lo].items);
    }
  }

  /** The first entry of a slice and the slices it leaves. */
  lemma SliceHead(d: seq<Entry>, lo: nat, hi: nat)
    requires lo < hi <= |d|
    ensures d[lo..hi][0] == d[lo] && d[lo..hi][1..] == d[lo + 1..hi]
    ensures d[lo].Loop? && 0 < d[lo].items < hi - lo ==>
      && d[lo..hi][d[lo].items] == d[lo + d[lo].items]
      && d[lo..hi][1..d[lo].items] == d[lo + 1..lo + d[lo].items]
      && d[lo..hi][d[lo].items + 1..] == d[lo + d[lo].items + 1..hi]
  {
    if d[lo].Loop? && 0 < d[lo].items < hi - lo {
      SliceOfSlice(d, lo, hi, 1, d[lo].items);
    }
  }

  lemma SliceOfSlice<T>(s: seq<T>, lo: nat, hi: nat, a: nat, b: nat)
    requires lo <= hi <= |s| && a <= b <= hi - lo
    ensures s[lo..hi][a..b] == s[lo + a..lo + b]
  {
    assert s[lo..hi][a..] == s[lo + a..hi];
    assert s[lo + a..hi][..b - a] == s[lo + a..lo + b];
  }

  // ---------------------------------------------------------------- the walk

  /** A committed datatype: `desc` describes it, up to its closing marker; items are `extent` apart. */
  datatype Layout = Layout(desc: seq<Entry>, size: nat, extent: int) {

    ghost predicate WellFormed() {
      Sane() && !desc[0].EndLoop?
    }

    /** Possibly without entries. */
    ghost predicate Sane() {
      Sound(desc, 0) && Honest(desc, 0) && size == |Expand(Body(desc, 0))|
    }

    /** `count` consecutive items of this type. */
    ghost function All(count: nat): seq<Block>
      requires WellFormed()
    {
      Repeat(Body(desc, 0), extent, count)
    }
  }

  /** The stack of open frames, innermost first.  A frame knows how many iterations are to go
      (`count`, with the current one) and the displacement of the current one.  The frame at the
      bottom stands for the items of the type; it has index -1 in the original. */
  datatype Stack =
    | Items(count: nat, disp: int)
    | Inside(index: nat, count: nat, disp: int, outer: Stack)
  {
    /** First entry of the body of the innermost frame. */
    function Start(): nat {
      if Items? then 0 else index + 1
    }

    function Height(): nat {
      if Items? then 1 else 1 + outer.Height()
    }
  }

  /** How far apart the iterations of the innermost frame are. */
  function Stride(t: Layout, st: Stack): int
    requires st.Inside? ==> st.index < |t.desc| && t.desc[st.index].Loop?
  {
    if st.Items? then t.extent else t.desc[st.index].extent
  }

  /** Each frame is opened at a loop of the one below, and control is at entry `pos` of the
      innermost one. */
  ghost predicate Frames(t: Layout, st: Stack, pos: nat)
    decreases st
  {
    && st.count > 0
    && Sound(t.desc, st.Start()) && !t.desc[st.Start()].EndLoop?
    && Sound(t.desc, pos) && Close(t.desc, pos) == Close(t.desc, st.Start())
    && (st.Inside? ==> Frames(t, st.outer, st.index) && t.desc[st.index].Loop?)
  }

  /** Along such a stack, loops are honest and no deeper than the description's own nesting. */
  ghost predicate Tame(t: Layout, st: Stack, pos: nat)
    requires t.WellFormed() && Frames(t, st, pos)
    decreases st
  {
    && Honest(t.desc, pos) && Honest(t.desc, st.Start())
    && Nesting(t.desc, pos) <= Nesting(t.desc, st.Start())
    && st.Height() - 1 + Nesting(t.desc, st.Start()) <= Nesting(t.desc, 0)
    && (st.Inside? ==> Tame(t, st.outer, st.index))
  }

  /** The entry after `pos` in the same body. */
  ghost function Next(d: seq<Entry>, pos: nat): nat
    requires Sound(d, pos)
  {
    if d[pos].Loop? then pos + d[pos].items + 1 else pos + 1
  }

  /** Moving past an entry to the next one of the same body. */
  lemma NextSibling(t: Layout, st: Stack, pos: nat)
    requires Frames(t, st, pos) && !t.desc[pos].EndLoop?
    ensures Frames(t, st, Next(t.desc, pos))
  {
  }

  /** Blocks left once control is at the start of entry `pos` of the innermost frame. */
  ghost function Rest(t: Layout, st: Stack, pos: nat): seq<Block>
    requires Frames(t, st, pos)
    decreases st, 1
  {
    Displace(Body(t.desc, pos), st.disp) + Later(t, st, pos)
  }

  /** Blocks left once the current iteration of the innermost frame is over. */
  ghost function Later(t: Layout, st: Stack, pos: nat): seq<Block>
    requires Frames(t, st, pos)
    decreases st, 0
  {
    var more := Displace(Repeat(Body(t.desc, st.Start()), Stride(t, st), st.count - 1), st.disp + Stride(t, st));
    if st.Items? then more
    else
      NextSibling(t, st.outer, st.index);
      more + Rest(t, st.outer, Next(t.desc, st.index))
  }

  /** The state of the walk: open frames, current entry, items of it left, source displacement. */
  datatype Walk = Walk(st: Stack, pos: nat, cnt: nat, ptr: int)

  ghost predicate Valid(t: Layout, w: Walk) {
    && Frames(t, w.st, w.pos) && w.pos < |t.desc|
    && (t.desc[w.pos].Elem? ==> w.cnt > 0)
    && (t.desc[w.pos].Loop? ==> w.cnt > 0 && w.ptr == w.st.disp)
  }

  /** What is left of the current entry. */
  ghost function Current(t: Layout, w: Walk): seq<Block>
    requires Frames(t, w.st, w.pos)
  {
    match t.desc[w.pos]
    case Elem(id, _, _, disp, extent) => ElemMap(w.ptr + disp, BasicSize(id), extent, w.cnt)
    case Loop(_, _, items, extent) => Displace(Repeat(Body(t.desc, w.pos + 1), extent, w.cnt), w.ptr)
    case EndLoop(_, _, _) => []
  }

  /** The blocks that a walk still has to deliver. */
  ghost function Left(t: Layout, w: Walk): seq<Block>
    requires Valid(t, w)
  {
    if t.desc[w.pos].EndLoop? then Later(t, w.st, w.pos)
    else
      NextSibling(t, w.st, w.pos);
      Current(t, w) + Rest(t, w.st, Next(t.desc, w.pos))
  }

  // ---------------------------------------------------------------- what each step of the walk keeps

  /** The repetition count stored in an entry; the three variants share that field. */
  function Count(e: Entry): nat {
    match e
    case Elem(_, _, count, _, _) => count
    case Loop(_, loops, _, _) => loops
    case EndLoop(items, _, _) => items
  }

  lemma SplitHead(first: seq<Block>, rest: seq<Block>, later: seq<Block>, base: int)
    ensures Displace(first + rest, base) + later == Displace(first, base) + (Displace(rest, base) + later)
  {
    DisplaceConcat(first, rest, base);
    Assoc(Displace(first, base), Displace(rest, base), later);
  }

  /** The first of `n` displaced copies. */
  lemma Unroll(body: seq<Block>, stride: int, n: nat, disp: int)
    requires n > 0
    ensures Displace(Repeat(body, stride, n), disp)
         == Displace(body, disp) + Displace(Repeat(body, stride, n - 1), disp + stride)
  {
    DisplaceConcat(body, Displace(Repeat(body, stride, n - 1), stride), disp);
    DisplaceTwice(Repeat(body, stride, n - 1), stride, disp);
  }

  /** The blocks of a single entry. */
  ghost function One(d: seq<Entry>, pos: nat): seq<Block>
    requires Sound(d, pos)
  {
    match d[pos]
    case Elem(id, _, count, disp, extent) => ElemMap(disp, BasicSize(id), extent, count)
    case Loop(_, loops, _, extent) => Repeat(Body(d, pos + 1), extent, loops)
    case EndLoop(_, _, _) => []
  }

  lemma CurrentIsOne(t: Layout, st: Stack, pos: nat)
    requires Frames(t, st, pos)
    ensures Current(t, Walk(st, pos, Count(t.desc[pos]), st.disp)) == Displace(One(t.desc, pos), st.disp)
  {
    hide Sound, Close, Body;
    if t.desc[pos].Elem? {
      DisplaceElemMap(t.desc[pos].disp, BasicSize(t.desc[pos].id), t.desc[pos].extent, t.desc[pos].count, st.disp);
    }
  }

  /** Arriving at an entry with its full count leaves exactly what the position leaves. */
  lemma Arrive(t: Layout, st: Stack, pos: nat)
    requires Frames(t, st, pos)
    ensures Valid(t, Walk(st, pos, Count(t.desc[pos]), st.disp))
    ensures Left(t, Walk(st, pos, Count(t.desc[pos]), st.disp)) == Rest(t, st, pos)
  {
    if t.desc[pos].EndLoop? {
      assert Displace(Body(t.desc, pos), st.disp) + Later(t, st, pos) == Later(t, st, pos);
    } else {
      NextSibling(t, st, pos);
      CurrentIsOne(t, st, pos);
      SplitHead(One(t.desc, pos), Body(t.desc, Next(t.desc, pos)), Later(t, st, pos), st.disp);
      assert Later(t, st, pos) == Later(t, st, Next(t.desc, pos));
    }
  }

  /** Going round: the innermost frame moves to its next iteration. */
  function Again(t: Layout, st: Stack): Stack
    requires st.count > 0
    requires st.Inside? ==> st.index < |t.desc| && t.desc[st.index].Loop?
  {
    match st
    case Items(count, disp) => Items(count - 1, disp + t.extent)
    case Inside(index, count, disp, outer) => Inside(index, count - 1, disp + t.desc[index].extent, outer)
  }

  lemma AgainFrames(t: Layout, st: Stack, pos: nat)
    requires Frames(t, st, pos) && st.count > 1
    ensures Frames(t, Again(t, st), st.Start())
  {
  }

  lemma GoRound(t: Layout, st: Stack, pos: nat)
    requires Frames(t, st, pos) && st.count > 1
    ensures Frames(t, Again(t, st), st.Start())
    ensures Rest(t, Again(t, st), st.Start()) == Later(t, st, pos)
  {
    hide Sound, Close, Body, Displace, Repeat;
    AgainFrames(t, st, pos);
    var body, stride := Body(t.desc, st.Start()), Stride(t, st);
    Unroll(body, stride, st.count - 1, st.disp + stride);
    if st.Inside? {
      NextSibling(t, st.outer, st.index);
      Assoc(Displace(body, st.disp + stride), Displace(Repeat(body, stride, st.count - 2), st.disp + stride + stride),
            Rest(t, st.outer, Next(t.desc, st.index)));
    }
  }

  /** Leaving a loop after its last iteration. */
  lemma Leave(t: Layout, st: Stack, pos: nat)
    requires Frames(t, st, pos) && t.desc[pos].EndLoop? && st.count == 1
    ensures st.Items? ==> Later(t, st, pos) == []
    ensures st.Inside? ==> Frames(t, st.outer, pos + 1) && Rest(t, st.outer, pos + 1) == Later(t, st, pos)
  {
    if st.Inside? {
      NextSibling(t, st.outer, st.index);
      assert pos + 1 == Next(t.desc, st.index);
    }
  }

  lemma EnterFrames(t: Layout, st: Stack, pos: nat, cnt: nat, ptr: int)
    requires Frames(t, st, pos) && t.desc[pos].Loop? && cnt > 0
    ensures Frames(t, Inside(pos, cnt, ptr, st), pos + 1)
  {
    assert Close(t.desc, pos + 1) == pos + t.desc[pos].items;
  }

  /** Entering a loop with `cnt` iterations to go from displacement `ptr`. */
  lemma Enter(t: Layout, st: Stack, pos: nat, cnt: nat, ptr: int)
    requires Frames(t, st, pos) && t.desc[pos].Loop? && cnt > 0
    ensures Frames(t, st, Next(t.desc, pos))
    ensures Frames(t, Inside(pos, cnt, ptr, st), pos + 1)
    ensures Rest(t, Inside(pos, cnt, ptr, st), pos + 1)
         == Displace(Repeat(Body(t.desc, pos + 1), t.desc[pos].extent, cnt), ptr) + Rest(t, st, Next(t.desc, pos))
  {
    hide Sound, Close, Body, Displace;
    NextSibling(t, st, pos);
    EnterFrames(t, st, pos, cnt, ptr);
    var body, extent := Body(t.desc, pos + 1), t.desc[pos].extent;
    Unroll(body, extent, cnt, ptr);
    Assoc(Displace(body, ptr), Displace(Repeat(body, extent, cnt - 1), ptr + extent), Rest(t, st, Next(t.desc, pos)));
  }

  /** The stack at the beginning stands before everything. */
  lemma Begin(t: Layout, count: nat)
    requires t.WellFormed() && count > 0
    ensures Frames(t, Items(count, 0), 0)
    ensures Rest(t, Items(count, 0), 0) == t.All(count)
  {
    DisplaceZero(Body(t.desc, 0));
  }

  // ---------------------------------------------------------------- honesty and depth along the walk

  lemma TameSibling(t: Layout, st: Stack, pos: nat)
    requires t.WellFormed() && Frames(t, st, pos) && Tame(t, st, pos) && !t.desc[pos].EndLoop?
    ensures Frames(t, st, Next(t.desc, pos)) && Tame(t, st, Next(t.desc, pos))
  {
    NextSibling(t, st, pos);
  }

  lemma TameAgain(t: Layout, st: Stack, pos: nat)
    requires t.WellFormed() && Frames(t, st, pos) && Tame(t, st, pos) && st.count > 1
    ensures Frames(t, Again(t, st), st.Start()) && Tame(t, Again(t, st), st.Start())
  {
    AgainFrames(t, st, pos);
  }

  lemma TameLeave(t: Layout, st: Stack, pos: nat)
    requires t.WellFormed() && Frames(t, st, pos) && Tame(t, st, pos) && t.desc[pos].EndLoop? && st.count == 1
    requires st.Inside?
    ensures Frames(t, st.outer, pos + 1) && Tame(t, st.outer, pos + 1)
  {
    TameSibling(t, st.outer, st.index);
    assert pos + 1 == Next(t.desc, st.index);
  }

  lemma TameEnter(t: Layout, st: Stack, pos: nat, cnt: nat, ptr: int)
    requires t.WellFormed() && Frames(t, st, pos) && Tame(t, st, pos) && t.desc[pos].Loop? && cnt > 0
    ensures Frames(t, Inside(pos, cnt, ptr, st), pos + 1) && Tame(t, Inside(pos, cnt, ptr, st), pos + 1)
  {
    EnterFrames(t, st, pos, cnt, ptr);
  }

  /** A body that is not empty has at least one block, and blocks are not empty. */
  lemma {:induction false} BodySizes(d: seq<Entry>, pos: nat)
    requires Sound(d, pos)
    ensures !d[pos].EndLoop? ==> Body(d, pos) != []
    ensures forall b :: b in Body(d, pos) ==> b.size > 0
    decreases |d| - pos
  {
    match d[pos]
    case Elem(id, _, count, disp, extent) =>
      ElemMapSizes(disp, BasicSize(id), extent, count);
      BodySizes(d, pos + 1);
    case Loop(_, loops, items, extent) =>
      BodySizes(d, pos + 1);
      assert Close(d, pos + 1) == pos + items;
      RepeatSizes(Body(d, pos + 1), extent, loops);
      BodySizes(d, pos + items + 1);
    case EndLoop(_, _, _) =>
  }

  lemma ExpandNonEmpty(m: seq<Block>)
    requires m != [] && forall b :: b in m ==> b.size > 0
    ensures Expand(m) != []
  {
    assert m[0] in m;
  }

  // ---------------------------------------------------------------- items

  ghost predicate Suffix<T>(whole: seq<T>, tail: seq<T>) {
    |tail| <= |whole| && whole[|whole| - |tail|..] == tail
  }

  lemma SuffixTrans<T>(a: seq<T>, b: seq<T>, c: seq<T>)
    requires Suffix(a, b) && Suffix(b, c)
    ensures Suffix(a, c)
  {
    assert a[|a| - |c|..] == b[|b| - |c|..];
  }

  /** The frame that counts the items of the type. */
  ghost function Bottom(st: Stack): Stack
    ensures Bottom(st).Items?
  {
    if st.Items? then st else Bottom(st.outer)
  }

  /** The current item and those that follow it. */
  ghost function FromItem(t: Layout, st: Stack): seq<Block>
    requires t.WellFormed()
  {
    Displace(Repeat(Body(t.desc, 0), t.extent, Bottom(st).count), Bottom(st).disp)
  }

  /** What a walk leaves is a tail of the current item and those that follow it. */
  ghost predicate OnTrack(t: Layout, w: Walk)
    requires t.WellFormed() && Valid(t, w)
  {
    Suffix(FromItem(t, w.st), Left(t, w))
  }

  // ---------------------------------------------------------------- progress

  /** Orders the steps that deliver nothing. */
  ghost function Rank(t: Layout, w: Walk): nat
    requires w.pos < |t.desc|
  {
    if t.desc[w.pos].EndLoop? then |t.desc| + w.st.Height() else |t.desc| - w.pos
  }

  /** Control arrives at entry `pos` with its full count. */
  function Fresh(t: Layout, st: Stack, pos: nat): Walk
    requires pos < |t.desc|
  {
    Walk(st, pos, Count(t.desc[pos]), st.disp)
  }

  /** At a closing marker: go round, leave the loop, or finish after the last item. */
  method AtEnd(t: Layout, w: Walk) returns (finished: bool, w': Walk)
    requires t.WellFormed() && Valid(t, w) && Tame(t, w.st, w.pos) && t.desc[w.pos].EndLoop?
    ensures finished ==> Left(t, w) == []
    ensures !finished ==>
      && Valid(t, w') && Tame(t, w'.st, w'.pos)
      && Left(t, w') == Left(t, w) && Rank(t, w') < Rank(t, w)
      && (OnTrack(t, w) ==> OnTrack(t, w'))
  {
    hide Sound, Close, Body, Honest, Nesting;
    if w.st.count == 1 {
      Leave(t, w.st, w.pos);
      if w.st.Items? {
        return true, w;
      }
      TameLeave(t, w.st, w.pos);
      Arrive(t, w.st.outer, w.pos + 1);
      w' := Fresh(t, w.st.outer, w.pos + 1);
    } else {
      GoRound(t, w.st, w.pos);
      TameAgain(t, w.st, w.pos);
      Arrive(t, Again(t, w.st), w.st.Start());
      w' := Fresh(t, Again(t, w.st), w.st.Start());
    }
    finished := false;
  }

  /** Entering the loop at `w.pos` with `cnt` iterations to go, the next one at `ptr`. */
  method Descend(t: Layout, w: Walk, cnt: nat, ptr: int) returns (w': Walk)
    requires t.WellFormed() && Frames(t, w.st, w.pos) && Tame(t, w.st, w.pos) && t.desc[w.pos].Loop? && cnt > 0
    ensures Valid(t, w') && Tame(t, w'.st, w'.pos)
    ensures Frames(t, w.st, Next(t.desc, w.pos))
    ensures Left(t, w') == Displace(Repeat(Body(t.desc, w.pos + 1), t.desc[w.pos].extent, cnt), ptr)
                           + Rest(t, w.st, Next(t.desc, w.pos))
    ensures Rank(t, w') < Rank(t, w) && Bottom(w'.st) == Bottom(w.st)
  {
    hide Tame, Honest, Nesting, Repeat, Displace, Layout.WellFormed;
    Enter(t, w.st, w.pos, cnt, ptr);
    TameEnter(t, w.st, w.pos, cnt, ptr);
    var st' := Inside(w.pos, cnt, ptr, w.st);
    Arrive(t, st', w.pos + 1);
    w' := Fresh(t, st', w.pos + 1);
  }

  /** Moving on to the next entry of the same body. */
  method MoveOn(t: Layout, w: Walk) returns (w': Walk)
    requires t.WellFormed() && Frames(t, w.st, w.pos) && Tame(t, w.st, w.pos) && !t.desc[w.pos].EndLoop?
    ensures Valid(t, w') && Tame(t, w'.st, w'.pos)
    ensures Frames(t, w.st, Next(t.desc, w.pos))
    ensures Left(t, w') == Rest(t, w.st, Next(t.desc, w.pos)) && Bottom(w'.st) == Bottom(w.st)
  {
    TameSibling(t, w.st, w.pos);
    var next := if t.desc[w.pos].Loop? then w.pos + t.desc[w.pos].items + 1 else w.pos + 1;
    Arrive(t, w.st, next);
    w' := Fresh(t, w.st, next);
  }
}

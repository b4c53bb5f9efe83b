/**
 Moving a convertor forward without copying: whole items are skipped by adjusting the stack,
 the remainder by the same walk that packing uses.
 */
module Positioning {
  import opened TypeMap
  import opened Walking
  import P = Packing

  /** `after` is what is left of `before` once `n` bytes are passed. */
  ghost predicate Skips(before: seq<Block>, after: seq<Block>, n: int) {
    Suffix(before, after) && |Expand(before[..|before| - |after|])| == n
  }

  lemma SkipsHead(head: seq<Block>, after: seq<Block>)
    ensures Skips(head + after, after, |Expand(head)|)
  {
    assert (head + after)[|head|..] == after;
    assert (head + after)[..|head|] == head;
  }

  lemma SkipsThen(a: seq<Block>, b: seq<Block>, c: seq<Block>, m: int, n: int)
    requires Skips(a, b, m) && Skips(b, c, n)
    ensures Skips(a, c, m + n)
  {
    SuffixTrans(a, b, c);
    var i, j := |a| - |b|, |a| - |c|;
    assert a[..j] == a[..i] + b[..|b| - |c|];
    ExpandConcat(a[..i], b[..|b| - |c|]);
  }

  lemma SkipsNothing(m: seq<Block>)
    ensures Skips(m, m, 0)
  {
  }

  /** A data element: pass what fits into `space`. */
  method AtElem(t: Layout, w: Walk, space: nat) returns (stop: bool, w': Walk, space': nat)
    requires t.WellFormed() && Valid(t, w) && Tame(t, w.st, w.pos) && t.desc[w.pos].Elem?
    ensures Valid(t, w') && Tame(t, w'.st, w'.pos) && Bottom(w'.st) == Bottom(w.st)
    ensures space' <= space && Skips(Left(t, w), Left(t, w'), space - space')
    ensures stop ==> t.desc[w'.pos].Elem? && space' < BasicSize(t.desc[w'.pos].id)
    ensures !stop ==> |Left(t, w')| < |Left(t, w)|
  {
    hide Sound, Close, Body, Honest, Nesting, Expand, BasicSize, Skips, Rest;
    var e := t.desc[w.pos];
    NextSibling(t, w.st, w.pos);
    P.SoundElem(t.desc, w.pos);
    var size := BasicSize(e.id);
    var n := P.HowMany(w.cnt, size, space);
    var cnt, ptr := w.cnt - n, w.ptr + n * e.extent;
    space' := space - n * size;
    ghost var done := ElemMap(w.ptr + e.disp, size, e.extent, n);
    ghost var todo := ElemMap(ptr + e.disp, size, e.extent, cnt);
    ghost var rest := Rest(t, w.st, Next(t.desc, w.pos));
    ElemMapSplit(w.ptr + e.disp, size, e.extent, w.cnt, n);
    ExpandElemMapLength(w.ptr + e.disp, size, e.extent, n);
    Assoc(done, todo, rest);
    SkipsHead(done, todo + rest);
    if cnt == 0 {
      assert todo + rest == rest;
      ElemMapSizes(w.ptr + e.disp, size, e.extent, w.cnt);
      w' := MoveOn(t, w);
      stop := false;
    } else {
      w' := Walk(w.st, w.pos, cnt, ptr);
      stop := true;
    }
  }

  /** A loop: pass whole iterations of a contiguous one; enter what is left of it. */
  method AtLoop(t: Layout, w: Walk, space: nat) returns (w': Walk, space': nat)
    requires t.WellFormed() && Valid(t, w) && Tame(t, w.st, w.pos) && t.desc[w.pos].Loop?
    ensures Valid(t, w') && Tame(t, w'.st, w'.pos) && Bottom(w'.st) == Bottom(w.st)
    ensures space' <= space && Skips(Left(t, w), Left(t, w'), space - space')
    ensures |Left(t, w')| < |Left(t, w)| || (|Left(t, w')| == |Left(t, w)| && Rank(t, w') < Rank(t, w))
  {
    hide Sound, Close, Body, Honest, Nesting, Expand, Range, BasicSize, Skips, Rest, Displace, Repeat, Tame, Rank,
         ElemMap;
    var lp := t.desc[w.pos];
    var cnt, ptr := w.cnt, w.ptr;
    space' := space;
    NextSibling(t, w.st, w.pos);
    P.SoundLoop(t, w.st, w.pos);
    ghost var body := Body(t.desc, w.pos + 1);
    ghost var rest := Rest(t, w.st, Next(t.desc, w.pos));
    SkipsIterations(body, lp.extent, w.cnt, 0, w.ptr, rest);
    if lp.contig {
      var end := t.desc[w.pos + lp.items];
      var n := P.HowMany(cnt, end.size, space);
      cnt, ptr, space' := cnt - n, ptr + n * lp.extent, space - n * end.size;
      RangeLength(end.first, end.size);
      SkipsIterations(body, lp.extent, w.cnt, n, w.ptr, rest);
    }
    if cnt == 0 {
      w' := MoveOn(t, w);
    } else {
      w' := Descend(t, w, cnt, w.st.disp + (ptr - w.ptr));
    }
  }

  /** Passing the first `k` of `n` iterations. */
  lemma SkipsIterations(body: seq<Block>, extent: int, n: nat, k: nat, ptr: int, rest: seq<Block>)
    requires k <= n && body != []
    ensures Skips(Displace(Repeat(body, extent, n), ptr) + rest,
                  Displace(Repeat(body, extent, n - k), ptr + k * extent) + rest, k * |Expand(body)|)
    ensures |Displace(Repeat(body, extent, n - k), ptr + k * extent)| < |Displace(Repeat(body, extent, n), ptr)|
            || (k == 0 && |Displace(Repeat(body, extent, n - k), ptr + k * extent)| ==
                          |Displace(Repeat(body, extent, n), ptr)|)
    ensures k == n ==> Displace(Repeat(body, extent, n - k), ptr + k * extent) + rest == rest
  {
    hide Skips, Expand;
    var done, todo := Repeat(body, extent, k), Repeat(body, extent, n - k);
    RepeatSplit(body, extent, n, k);
    DisplaceConcat(done, Displace(todo, k * extent), ptr);
    DisplaceTwice(todo, k * extent, ptr);
    Assoc(Displace(done, ptr), Displace(todo, ptr + k * extent), rest);
    SkipsHead(Displace(done, ptr), Displace(todo, ptr + k * extent) + rest);
    ExpandDisplace(done, ptr);
    ExpandRepeatLength(body, extent, k);
    RepeatLength(body, extent, k);
    assert k > 0 ==> k * |body| > 0;
  }

  /** Walks forward over `space` bytes; stops at the last element boundary that is not beyond. */
  method Seek(t: Layout, w: Walk, space: nat) returns (finished: bool, w': Walk, partial: nat)
    requires t.WellFormed() && Valid(t, w) && Tame(t, w.st, w.pos) && OnTrack(t, w)
    ensures partial <= space
    ensures finished ==> Skips(Left(t, w), [], space - partial)
    ensures !finished ==>
      && Valid(t, w') && Tame(t, w'.st, w'.pos) && OnTrack(t, w') && Skips(Left(t, w), Left(t, w'), space - partial)
      && t.desc[w'.pos].Elem? && partial < BasicSize(t.desc[w'.pos].id)
  {
    hide Sound, Close, Body, Honest, Nesting, Expand, BasicSize, Skips, Rest, Later, Current, Displace, Repeat, Left,
         Tame, Frames, OnTrack, Bottom;
    var left: nat := space;
    w' := w;
    SkipsNothing(Left(t, w));
    while true
      invariant Valid(t, w') && Tame(t, w'.st, w'.pos) && OnTrack(t, w')
      invariant left <= space && Skips(Left(t, w), Left(t, w'), space - left)
      decreases |Left(t, w')|, Rank(t, w')
    {
      ghost var w0, left0 := w', left;
      if t.desc[w'.pos].EndLoop? {
        var fin;
        fin, w' := AtEnd(t, w');
        if fin {
          return true, w', left;
        }
      } else if t.desc[w'.pos].Loop? {
        w', left := AtLoop(t, w', left);
        StayOnTrack(t, w0, w', left0 - left);
        SkipsThen(Left(t, w), Left(t, w0), Left(t, w'), space - left0, left0 - left);
      } else {
        var stop;
        stop, w', left := AtElem(t, w', left);
        StayOnTrack(t, w0, w', left0 - left);
        SkipsThen(Left(t, w), Left(t, w0), Left(t, w'), space - left0, left0 - left);
        if stop {
          return false, w', left;
        }
      }
    }
  }

  lemma StayOnTrack(t: Layout, w: Walk, w': Walk, n: int)
    requires t.WellFormed() && Valid(t, w) && OnTrack(t, w) && Valid(t, w')
    requires Bottom(w'.st) == Bottom(w.st) && Skips(Left(t, w), Left(t, w'), n)
    ensures OnTrack(t, w')
  {
    hide Left, Valid;
    SuffixTrans(FromItem(t, w.st), Left(t, w), Left(t, w'));
  }

  // ---------------------------------------------------------------- skipping whole items

  /** Every frame moves by `k`, and the bottom one counts `n` items less. */
  function Advance(st: Stack, n: nat, k: int): Stack
    requires n <= BottomCount(st)
  {
    match st
    case Items(count, disp) => Items(count - n, disp + k)
    case Inside(index, count, disp, outer) => Inside(index, count, disp + k, Advance(outer, n, k))
  }

  function BottomCount(st: Stack): (c: nat)
    ensures c == Bottom(st).count
  {
    match st
    case Items(count, _) => count
    case Inside(_, _, _, outer) => BottomCount(outer)
  }

  lemma {:induction false} AdvanceFrames(t: Layout, st: Stack, pos: nat, n: nat, k: int)
    requires t.WellFormed() && Frames(t, st, pos) && n < BottomCount(st)
    ensures Frames(t, Advance(st, n, k), pos)
    ensures Tame(t, st, pos) ==> Tame(t, Advance(st, n, k), pos)
    ensures Advance(st, n, k).Height() == st.Height()
    ensures Bottom(Advance(st, n, k)) == Items(Bottom(st).count - n, Bottom(st).disp + k)
    decreases st
  {
    if st.Inside? {
      AdvanceFrames(t, st.outer, st.index, n, k);
    }
  }

  /** Moving every frame moves everything that is left. */
  lemma {:induction false} AdvanceDisplaces(t: Layout, st: Stack, pos: nat, k: int)
    requires t.WellFormed() && Frames(t, st, pos) && Frames(t, Advance(st, 0, k), pos)
    ensures Later(t, Advance(st, 0, k), pos) == Displace(Later(t, st, pos), k)
    decreases st
  {
    hide Sound, Close, Body, Repeat, Displace;
    var more := Repeat(Body(t.desc, st.Start()), Stride(t, st), st.count - 1);
    var base := st.disp + Stride(t, st);
    DisplaceTwice(more, base, k);
    if st.Inside? {
      var next := Next(t.desc, st.index);
      NextSibling(t, st.outer, st.index);
      NextSibling(t, Advance(st.outer, 0, k), st.index);
      AdvanceDisplaces(t, st.outer, next, k);
      var here := Displace(Body(t.desc, next), st.outer.disp);
      DisplaceTwice(Body(t.desc, next), st.outer.disp, k);
      DisplaceConcat(here, Later(t, st.outer, next), k);
      DisplaceConcat(Displace(more, base), Rest(t, st.outer, next), k);
    }
  }

  /** The last `n` items are at the end of everything that is left. */
  lemma {:induction false} LastItems(t: Layout, st: Stack, pos: nat, n: nat)
    requires t.WellFormed() && Frames(t, st, pos) && n < BottomCount(st) && Frames(t, Advance(st, n, 0), pos)
    ensures Later(t, st, pos) ==
            Later(t, Advance(st, n, 0), pos) + ItemsAt(t, n, Bottom(st).disp + (Bottom(st).count - n) * t.extent)
    decreases st
  {
    hide Sound, Close, Body, Repeat, Displace;
    var body, tail := Body(t.desc, 0), ItemsAt(t, n, Bottom(st).disp + (Bottom(st).count - n) * t.extent);
    if st.Items? {
      SplitItems(body, t.extent, st.count - 1, n, st.disp + t.extent);
      assert st.disp + t.extent + (st.count - 1 - n) * t.extent == st.disp + (st.count - n) * t.extent;
    } else {
      var next := Next(t.desc, st.index);
      NextSibling(t, st.outer, st.index);
      NextSibling(t, Advance(st.outer, n, 0), st.index);
      LastItems(t, st.outer, next, n);
      var more := Displace(Repeat(Body(t.desc, st.Start()), Stride(t, st), st.count - 1), st.disp + Stride(t, st));
      var outer := Later(t, Advance(st.outer, n, 0), next);
      Assoc(Displace(Body(t.desc, next), st.outer.disp), outer, tail);
      Assoc(more, Rest(t, Advance(st.outer, n, 0), next), tail);
    }
  }

  /** `n` items, the first one at displacement `disp`. */
  ghost function ItemsAt(t: Layout, n: nat, disp: int): seq<Block>
    requires t.WellFormed()
  {
    Displace(Repeat(Body(t.desc, 0), t.extent, n), disp)
  }

  lemma SplitItems(body: seq<Block>, extent: int, m: nat, n: nat, disp: int)
    requires n <= m
    ensures Displace(Repeat(body, extent, m), disp)
         == Displace(Repeat(body, extent, m - n), disp) + Displace(Repeat(body, extent, n), disp + (m - n) * extent)
  {
    RepeatSplit(body, extent, m, m - n);
    DisplaceConcat(Repeat(body, extent, m - n), Displace(Repeat(body, extent, n), (m - n) * extent), disp);
    DisplaceTwice(Repeat(body, extent, n), (m - n) * extent, disp);
  }

  /** The walk that stands `n` items further on. */
  function Jump(t: Layout, w: Walk, n: nat): Walk
    requires n <= BottomCount(w.st)
  {
    Walk(Advance(w.st, n, n * t.extent), w.pos, w.cnt, w.ptr + n * t.extent)
  }

  lemma {:induction false} AdvanceTwice(st: Stack, n: nat, k: int)
    requires n <= BottomCount(st)
    ensures 0 <= BottomCount(Advance(st, n, 0)) && Advance(Advance(st, n, 0), 0, k) == Advance(st, n, k)
    decreases st
  {
    if st.Inside? {
      AdvanceTwice(st.outer, n, k);
    }
  }

  lemma SoundHere(t: Layout, st: Stack, pos: nat)
    requires Frames(t, st, pos) && !t.desc[pos].EndLoop?
    ensures Sound(t.desc, pos) && Sound(t.desc, Next(t.desc, pos))
    ensures t.desc[pos].Loop? ==> Sound(t.desc, pos + 1)
  {
  }

  lemma LeftDisplaces(t: Layout, w: Walk, k: int)
    requires t.WellFormed() && Valid(t, w) && !t.desc[w.pos].EndLoop? && 0 < BottomCount(w.st)
    ensures Valid(t, Walk(Advance(w.st, 0, k), w.pos, w.cnt, w.ptr + k))
    ensures Left(t, Walk(Advance(w.st, 0, k), w.pos, w.cnt, w.ptr + k)) == Displace(Left(t, w), k)
  {
    hide Sound, Close, Body, Repeat, Displace, Later, Frames;
    SoundHere(t, w.st, w.pos);
    var next, st' := Next(t.desc, w.pos), Advance(w.st, 0, k);
    AdvanceFrames(t, w.st, w.pos, 0, k);
    NextSibling(t, w.st, w.pos);
    NextSibling(t, st', w.pos);
    AdvanceDisplaces(t, w.st, next, k);
    DisplaceTwice(Body(t.desc, next), w.st.disp, k);
    DisplaceConcat(Displace(Body(t.desc, next), w.st.disp), Later(t, w.st, next), k);
    DisplaceConcat(Current(t, w), Rest(t, w.st, next), k);
    match t.desc[w.pos]
    case Elem(id, _, _, disp, extent) =>
      DisplaceElemMap(w.ptr + disp, BasicSize(id), extent, w.cnt, k);
    case Loop(_, _, _, extent) =>
      DisplaceTwice(Repeat(Body(t.desc, w.pos + 1), extent, w.cnt), w.ptr, k);
  }

  lemma LeftLastItems(t: Layout, w: Walk, n: nat)
    requires t.WellFormed() && Valid(t, w) && !t.desc[w.pos].EndLoop? && n < BottomCount(w.st)
    ensures Valid(t, Walk(Advance(w.st, n, 0), w.pos, w.cnt, w.ptr))
    ensures Left(t, w) == Left(t, Walk(Advance(w.st, n, 0), w.pos, w.cnt, w.ptr))
                          + ItemsAt(t, n, Bottom(w.st).disp + (Bottom(w.st).count - n) * t.extent)
  {
    hide Sound, Close, Body, Repeat, Displace, Later, Frames;
    SoundHere(t, w.st, w.pos);
    var next, st' := Next(t.desc, w.pos), Advance(w.st, n, 0);
    var tail := ItemsAt(t, n, Bottom(w.st).disp + (Bottom(w.st).count - n) * t.extent);
    AdvanceFrames(t, w.st, w.pos, n, 0);
    NextSibling(t, w.st, w.pos);
    NextSibling(t, st', w.pos);
    LastItems(t, w.st, next, n);
    Assoc(Displace(Body(t.desc, next), w.st.disp), Later(t, st', next), tail);
    Assoc(Current(t, w), Rest(t, st', next), tail);
  }

  /** Adjusting every stack entry by `n` extents and the item count by `n` is the same as walking
      over `n` whole items, from any position inside an item. */
  lemma JumpIsWalk(t: Layout, w: Walk, n: nat)
    requires t.WellFormed() && Valid(t, w) && !t.desc[w.pos].EndLoop? && OnTrack(t, w) && n < BottomCount(w.st)
    ensures Valid(t, Jump(t, w, n)) && OnTrack(t, Jump(t, w, n))
    ensures Tame(t, w.st, w.pos) ==> Tame(t, Jump(t, w, n).st, w.pos)
    ensures Skips(Left(t, w), Left(t, Jump(t, w, n)), n * t.size)
    ensures BottomCount(Jump(t, w, n).st) == BottomCount(w.st) - n && Jump(t, w, n).st.Height() == w.st.Height()
  {
    hide Sound, Close, Body, Repeat, Displace, Left, Frames, Expand;
    var k, b, c := n * t.extent, Bottom(w.st), BottomCount(w.st);
    var w1 := Walk(Advance(w.st, n, 0), w.pos, w.cnt, w.ptr);
    LeftLastItems(t, w, n);
    AdvanceFrames(t, w.st, w.pos, n, k);
    AdvanceFrames(t, w.st, w.pos, n, 0);
    AdvanceTwice(w.st, n, k);
    LeftDisplaces(t, w1, k);
    assert Left(t, Jump(t, w, n)) == Displace(Left(t, w1), k);
    JumpSplit(t, Left(t, w), Left(t, w1), n, c, b.disp);
  }

  /** The sequence argument behind `JumpIsWalk`: if everything left is `near` followed by the last
      `n` of `c` items, then `near` moved by `n` extents is the tail of it that is `n` items shorter. */
  lemma JumpSplit(t: Layout, left: seq<Block>, near: seq<Block>, n: nat, c: nat, disp: int)
    requires t.WellFormed() && n < c
    requires left == near + ItemsAt(t, n, disp + (c - n) * t.extent)
    requires Suffix(ItemsAt(t, c, disp), left)
    ensures Suffix(ItemsAt(t, c - n, disp + n * t.extent), Displace(near, n * t.extent))
    ensures Skips(left, Displace(near, n * t.extent), n * t.size)
  {
    hide Body, Expand, Suffix, Displace, Repeat;
    var body, k := Body(t.desc, 0), n * t.extent;
    var first, last := ItemsAt(t, c - n, disp), ItemsAt(t, n, disp + (c - n) * t.extent);
    SplitItems(body, t.extent, c, n, disp);
    TailOfConcat(first, last, near);
    DisplaceTwice(Repeat(body, t.extent, c - n), disp, k);
    DisplaceSuffix(first, near, k);
    SplitItems(body, t.extent, c, c - n, disp);
    SuffixOfConcat(ItemsAt(t, n, disp), ItemsAt(t, c - n, disp + k), Displace(near, k));
    DisplaceLength(near, k);
    ShorterSuffix(ItemsAt(t, c, disp), left, Displace(near, k));
    JumpBytes(t, near, n, k, disp + (c - n) * t.extent);
    SuffixBytes(left, Displace(near, k));
  }

  lemma SuffixBytes(m: seq<Block>, tail: seq<Block>)
    requires Suffix(m, tail)
    ensures Skips(m, tail, |Expand(m)| - |Expand(tail)|)
  {
    ExpandPrefix(m, |m| - |tail|);
  }

  lemma JumpBytes(t: Layout, near: seq<Block>, n: nat, k: int, at: int)
    requires t.WellFormed()
    ensures |Expand(near + ItemsAt(t, n, at))| - |Expand(Displace(near, k))| == n * t.size
  {
    hide Body, Expand, Displace, Repeat;
    var body := Body(t.desc, 0);
    ExpandConcat(near, ItemsAt(t, n, at));
    ExpandDisplace(near, k);
    ExpandDisplace(Repeat(body, t.extent, n), at);
    ExpandRepeatLength(body, t.extent, n);
  }

  lemma TailOfConcat<T>(a: seq<T>, b: seq<T>, near: seq<T>)
    requires Suffix(a + b, near + b)
    ensures Suffix(a, near)
  {
    var i := |a| - |near|;
    assert (a + b)[i..] == a[i..] + b;
    assert a[i..] == (a[i..] + b)[..|near|] == near;
  }

  lemma DisplaceSuffix(m: seq<Block>, tail: seq<Block>, k: int)
    requires Suffix(m, tail)
    ensures Suffix(Displace(m, k), Displace(tail, k))
  {
    assert forall i :: 0 <= i < |tail| ==> tail[i] == m[|m| - |tail|..][i];
  }

  lemma SuffixOfConcat<T>(a: seq<T>, b: seq<T>, tail: seq<T>)
    requires Suffix(b, tail)
    ensures Suffix(a + b, tail)
  {
  }

  lemma ShorterSuffix<T>(m: seq<T>, x: seq<T>, y: seq<T>)
    requires Suffix(m, x) && Suffix(m, y) && |y| <= |x|
    ensures Suffix(x, y)
  {
    assert x[|x| - |y|..] == m[|m| - |x|..][|x| - |y|..] == m[|m| - |y|..];
  }
}

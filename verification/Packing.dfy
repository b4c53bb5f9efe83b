/**
 The generic pack loop: fills one destination buffer with as many whole basic elements as fit.
 */
module Packing {
  import opened Common
  import opened TypeMap
  import opened Walking

  /** User memory, addressed relative to the base of the user buffer. */
  type Memory = int -> Byte

  /** The bytes at a sequence of displacements. */
  ghost function Read(mem: Memory, at: seq<int>): seq<Byte> {
    seq(|at|, i requires 0 <= i < |at| => mem(at[i]))
  }

  /** memcpy from user memory. */
  function Copy(mem: Memory, from: int, n: nat): (r: seq<Byte>)
    ensures r == Read(mem, Range(from, n))
  {
    seq(n, i requires 0 <= i < n => mem(from + i))
  }

  /** `out` holds exactly the bytes of the blocks that `before` has in front of `after`. */
  ghost predicate Emits(mem: Memory, before: seq<Block>, after: seq<Block>, out: seq<Byte>) {
    && Suffix(before, after)
    && out == Read(mem, Expand(before[..|before| - |after|]))
  }

  lemma EmitsHead(mem: Memory, head: seq<Block>, after: seq<Block>)
    ensures Emits(mem, head + after, after, Read(mem, Expand(head)))
  {
    assert (head + after)[|head|..] == after;
    assert (head + after)[..|head|] == head;
  }

  lemma EmitsThen(mem: Memory, a: seq<Block>, b: seq<Block>, c: seq<Block>, x: seq<Byte>, y: seq<Byte>)
    requires Emits(mem, a, b, x) && Emits(mem, b, c, y)
    ensures Emits(mem, a, c, x + y)
  {
    var i, j := |a| - |b|, |a| - |c|;
    assert a[..j] == a[..i] + b[..|b| - |c|];
    ExpandConcat(a[..i], b[..|b| - |c|]);
    assert a[j..] == b[|b| - |c|..];
  }

  // ---------------------------------------------------------------- the two copying primitives

  /** How many of `cnt` pieces of `size` bytes fit into `space`. */
  function HowMany(cnt: nat, size: nat, space: nat): (n: nat)
    requires size > 0
    ensures n <= cnt && n * size <= space
    ensures n < cnt ==> space - n * size < size
  {
    if cnt * size > space then space / size else cnt
  }

  /** Copies as many of the `cnt` elements at `src` as fit into `space` bytes. */
  method PackPredefined(mem: Memory, e: Entry, cnt: nat, src: int, space: nat)
    returns (cnt': nat, src': int, space': nat, out: seq<Byte>)
    requires e.Elem? && BasicSize(e.id) > 0
    ensures cnt' <= cnt && space' <= space
    ensures out == Read(mem, Expand(ElemMap(src + e.disp, BasicSize(e.id), e.extent, cnt - cnt')))
    ensures |out| == space - space'
    ensures ElemMap(src + e.disp, BasicSize(e.id), e.extent, cnt)
         == ElemMap(src + e.disp, BasicSize(e.id), e.extent, cnt - cnt')
            + ElemMap(src' + e.disp, BasicSize(e.id), e.extent, cnt')
    ensures cnt' > 0 ==> space' < BasicSize(e.id)
  {
    hide Range, BasicSize;
    var size := BasicSize(e.id);
    var n := HowMany(cnt, size, space);
    var from := src + e.disp;
    ElemMapSplit(from, size, e.extent, cnt, n);
    if n < cnt && n == 0 {
      return cnt, src, space, [];
    }
    if e.extent == size {
      ExpandUnitStride(from, size, n);
      out := Copy(mem, from, n * size);
      from := from + n * size;
    } else {
      out, from := CopyStrided(mem, from, size, e.extent, n);
    }
    src', space', cnt' := from - e.disp, space - n * size, cnt - n;
  }

  /** Copies `n` elements that are `extent` apart, one at a time. */
  method CopyStrided(mem: Memory, from: int, size: nat, extent: int, n: nat) returns (out: seq<Byte>, to: int)
    ensures out == Read(mem, Expand(ElemMap(from, size, extent, n)))
    ensures |out| == n * size && to == from + n * extent
  {
    out, to := [], from;
    for i := 0 to n
      invariant to == from + i * extent && |out| == i * size
      invariant out == Read(mem, Expand(ElemMap(from, size, extent, i)))
    {
      out, to := CopyOneMore(mem, from, size, extent, i, out, to);
    }
  }

  method CopyOneMore(mem: Memory, ghost from: int, size: nat, extent: int, ghost i: nat, out: seq<Byte>, to: int)
    returns (out': seq<Byte>, to': int)
    requires to == from + i * extent && |out| == i * size
    requires out == Read(mem, Expand(ElemMap(from, size, extent, i)))
    ensures to' == from + (i + 1) * extent && |out'| == (i + 1) * size
    ensures out' == Read(mem, Expand(ElemMap(from, size, extent, i + 1)))
  {
    ElemMapSplit(from, size, extent, i + 1, i);
    ExpandConcat(ElemMap(from, size, extent, i), ElemMap(to, size, extent, 1));
    assert Expand(ElemMap(to, size, extent, 1)) == Range(to, size);
    out' := out + Copy(mem, to, size);
    to' := to + extent;
  }

  /** Copies as many of the `cnt` iterations of a contiguous loop as fit, each with one memcpy of
      the byte range that the closing marker announces. */
  method PackContiguousLoop(mem: Memory, lp: Entry, end: Entry, ghost body: seq<Block>, cnt: nat, src: int, space: nat)
    returns (cnt': nat, src': int, space': nat, out: seq<Byte>)
    requires lp.Loop? && end.EndLoop? && end.size > 0
    requires Expand(body) == Range(end.first, end.size)
    ensures cnt' <= cnt && space' <= space && |out| == space - space'
    ensures src' == src + (cnt - cnt') * lp.extent
    ensures out == Read(mem, Expand(Displace(Repeat(body, lp.extent, cnt - cnt'), src)))
    ensures cnt' > 0 ==> space' < end.size
  {
    hide Expand, Range, Displace, Repeat;
    var n := HowMany(cnt, end.size, space);
    var from := src + end.first;
    out := [];
    NoIteration(mem, body, lp.extent, src);
    for i := 0 to n
      invariant from == src + end.first + i * lp.extent && |out| == i * end.size
      invariant out == Read(mem, Expand(Displace(Repeat(body, lp.extent, i), src)))
    {
      OneMoreIteration(mem, body, lp.extent, i, src, end.first, end.size);
      out := out + Copy(mem, from, end.size);
      from := from + lp.extent;
    }
    src', space', cnt' := from - end.first, space - n * end.size, cnt - n;
  }

  lemma NoIteration(mem: Memory, body: seq<Block>, extent: int, src: int)
    ensures Read(mem, Expand(Displace(Repeat(body, extent, 0), src))) == []
  {
    assert Displace(Repeat(body, extent, 0), src) == [];
  }

  lemma OneMoreIteration(mem: Memory, body: seq<Block>, extent: int, i: nat, src: int, first: int, size: nat)
    requires Expand(body) == Range(first, size)
    ensures Read(mem, Expand(Displace(Repeat(body, extent, i + 1), src)))
         == Read(mem, Expand(Displace(Repeat(body, extent, i), src))) + Read(mem, Range(src + first + i * extent, size))
  {
    hide Expand, Displace, Repeat;
    var k := i * extent;
    LastIteration(body, extent, i, src);
    ExpandConcat(Displace(Repeat(body, extent, i), src), Displace(body, k + src));
    ExpandDisplace(body, k + src);
    assert Shift(Range(first, size), k + src) == Range(src + first + k, size);
  }

  lemma LastIteration(body: seq<Block>, extent: int, i: nat, src: int)
    ensures Displace(Repeat(body, extent, i + 1), src)
         == Displace(Repeat(body, extent, i), src) + Displace(body, i * extent + src)
  {
    RepeatSplit(body, extent, i + 1, i);
    assert Repeat(body, extent, 1) == body;
    DisplaceConcat(Repeat(body, extent, i), Displace(body, i * extent), src);
    DisplaceTwice(body, i * extent, src);
  }

  // ---------------------------------------------------------------- the packing loop

  /** A data element: copy what fits, and move on when all of it is copied. */
  method AtElem(t: Layout, mem: Memory, w: Walk, space: nat)
    returns (full: bool, w': Walk, space': nat, out: seq<Byte>)
    requires t.WellFormed() && Valid(t, w) && Tame(t, w.st, w.pos) && t.desc[w.pos].Elem?
    ensures Valid(t, w') && Tame(t, w'.st, w'.pos)
    ensures Emits(mem, Left(t, w), Left(t, w'), out) && space' <= space && |out| == space - space'
    ensures Bottom(w'.st) == Bottom(w.st)
    ensures full ==> t.desc[w'.pos].Elem? && space' < BasicSize(t.desc[w'.pos].id)
    ensures !full ==> |Left(t, w')| < |Left(t, w)|
  {
    hide Sound, Close, Body, Honest, Nesting, Expand, BasicSize, Read, Emits, Rest;
    var e := t.desc[w.pos];
    NextSibling(t, w.st, w.pos);
    SoundElem(t.desc, w.pos);
    var cnt, src, left, buf := PackPredefined(mem, e, w.cnt, w.ptr, space);
    ghost var done := ElemMap(w.ptr + e.disp, BasicSize(e.id), e.extent, w.cnt - cnt);
    ghost var todo := ElemMap(src + e.disp, BasicSize(e.id), e.extent, cnt);
    ghost var rest := Rest(t, w.st, Next(t.desc, w.pos));
    space', out := left, buf;
    Assoc(done, todo, rest);
    EmitsHead(mem, done, todo + rest);
    if cnt == 0 {
      assert todo + rest == rest;
      ElemMapSizes(w.ptr + e.disp, BasicSize(e.id), e.extent, w.cnt);
      w' := MoveOn(t, w);
      full := false;
    } else {
      w' := Walk(w.st, w.pos, cnt, src);
      full := true;
    }
  }

  lemma SoundElem(d: seq<Entry>, pos: nat)
    requires Sound(d, pos) && d[pos].Elem?
    ensures BasicSize(d[pos].id) > 0
  {
  }

  /** A loop: whole iterations of a contiguous one are copied on the spot; what is left of it, if
      anything, is entered. */
  method AtLoop(t: Layout, mem: Memory, w: Walk, space: nat) returns (w': Walk, space': nat, out: seq<Byte>)
    requires t.WellFormed() && Valid(t, w) && Tame(t, w.st, w.pos) && t.desc[w.pos].Loop?
    ensures Valid(t, w') && Tame(t, w'.st, w'.pos)
    ensures Emits(mem, Left(t, w), Left(t, w'), out) && space' <= space && |out| == space - space'
    ensures Bottom(w'.st) == Bottom(w.st)
    ensures |Left(t, w')| < |Left(t, w)| || (|Left(t, w')| == |Left(t, w)| && Rank(t, w') < Rank(t, w))
  {
    hide Sound, Close, Body, Honest, Nesting, Expand, BasicSize, Read, Emits, Rest, Displace, Repeat;
    var lp := t.desc[w.pos];
    var cnt, ptr := w.cnt, w.ptr;
    space', out := space, [];
    NextSibling(t, w.st, w.pos);
    SoundLoop(t, w.st, w.pos);
    ghost var body := Body(t.desc, w.pos + 1);
    ghost var rest := Rest(t, w.st, Next(t.desc, w.pos));
    if lp.contig {
      cnt, ptr, space', out := PackContiguousLoop(mem, lp, t.desc[w.pos + lp.items], body, cnt, ptr, space);
    } else {
      NoIteration(mem, body, lp.extent, w.ptr);
    }
    EmitsIterations(mem, body, lp.extent, w.cnt, w.cnt - cnt, w.ptr, rest);
    if cnt == 0 {
      w' := MoveOn(t, w);
    } else {
      w' := Descend(t, w, cnt, w.st.disp + (ptr - w.ptr));
    }
  }

  /** What a contiguous loop needs of a well-formed description. */
  lemma SoundLoop(t: Layout, st: Stack, pos: nat)
    requires t.WellFormed() && Frames(t, st, pos) && Tame(t, st, pos) && t.desc[pos].Loop?
    ensures pos + t.desc[pos].items < |t.desc| && t.desc[pos + t.desc[pos].items].EndLoop?
    ensures Sound(t.desc, pos + 1) && Body(t.desc, pos + 1) != []
    ensures t.desc[pos].contig ==>
      var end := t.desc[pos + t.desc[pos].items];
      end.size > 0 && Expand(Body(t.desc, pos + 1)) == Range(end.first, end.size)
  {
    assert Close(t.desc, pos + 1) == pos + t.desc[pos].items;
    BodySizes(t.desc, pos + 1);
    ExpandNonEmpty(Body(t.desc, pos + 1));
  }

  /** Delivering the first `k` of `n` iterations. */
  lemma EmitsIterations(mem: Memory, body: seq<Block>, extent: int, n: nat, k: nat, ptr: int, rest: seq<Block>)
    requires k <= n && body != []
    ensures Emits(mem, Displace(Repeat(body, extent, n), ptr) + rest,
                  Displace(Repeat(body, extent, n - k), ptr + k * extent) + rest,
                  Read(mem, Expand(Displace(Repeat(body, extent, k), ptr))))
    ensures |Displace(Repeat(body, extent, n - k), ptr + k * extent)| < |Displace(Repeat(body, extent, n), ptr)|
            || (k == 0 && |Displace(Repeat(body, extent, n - k), ptr + k * extent)| ==
                          |Displace(Repeat(body, extent, n), ptr)|)
    ensures k == n ==> Displace(Repeat(body, extent, n - k), ptr + k * extent) + rest == rest
  {
    hide Emits;
    var done, todo := Repeat(body, extent, k), Repeat(body, extent, n - k);
    RepeatSplit(body, extent, n, k);
    DisplaceConcat(done, Displace(todo, k * extent), ptr);
    DisplaceTwice(todo, k * extent, ptr);
    Assoc(Displace(done, ptr), Displace(todo, ptr + k * extent), rest);
    EmitsHead(mem, Displace(done, ptr), Displace(todo, ptr + k * extent) + rest);
    RepeatLength(body, extent, k);
    assert k > 0 ==> k * |body| > 0;
  }

  /** Fills a buffer of `space` bytes from the walk `w`. */
  method Fill(t: Layout, mem: Memory, w: Walk, space: nat) returns (finished: bool, w': Walk, out: seq<Byte>)
    requires t.WellFormed() && Valid(t, w) && Tame(t, w.st, w.pos) && OnTrack(t, w)
    ensures |out| <= space
    ensures finished ==> Emits(mem, Left(t, w), [], out)
    ensures !finished ==>
      && Valid(t, w') && Tame(t, w'.st, w'.pos) && OnTrack(t, w') && Emits(mem, Left(t, w), Left(t, w'), out)
      && t.desc[w'.pos].Elem? && space - |out| < BasicSize(t.desc[w'.pos].id)
  {
    hide Sound, Close, Body, Honest, Nesting, Expand, BasicSize, Read, Emits, Rest, Later, Current, Displace, Repeat,
         Left, Tame, Frames, OnTrack, Bottom;
    var left: nat := space;
    w', out := w, [];
    EmitsNothing(mem, Left(t, w));
    while true
      invariant Valid(t, w') && Tame(t, w'.st, w'.pos) && OnTrack(t, w')
      invariant left <= space && |out| == space - left
      invariant Emits(mem, Left(t, w), Left(t, w'), out)
      decreases |Left(t, w')|, Rank(t, w')
    {
      ghost var w0, out0 := w', out;
      var piece: seq<Byte> := [];
      if t.desc[w'.pos].Elem? {
        var full;
        full, w', left, piece := AtElem(t, mem, w', left);
        out := out + piece;
        StayOnTrack(t, mem, w0, w', piece);
        EmitsThen(mem, Left(t, w), Left(t, w0), Left(t, w'), out0, piece);
        if full {
          return false, w', out;
        }
      } else if t.desc[w'.pos].EndLoop? {
        var fin;
        fin, w' := AtEnd(t, w');
        if fin {
          return true, w', out;
        }
      } else {
        w', left, piece := AtLoop(t, mem, w', left);
        out := out + piece;
        StayOnTrack(t, mem, w0, w', piece);
        EmitsThen(mem, Left(t, w), Left(t, w0), Left(t, w'), out0, piece);
      }
    }
  }

  lemma StayOnTrack(t: Layout, mem: Memory, w: Walk, w': Walk, out: seq<Byte>)
    requires t.WellFormed() && Valid(t, w) && OnTrack(t, w) && Valid(t, w')
    requires Bottom(w'.st) == Bottom(w.st) && Emits(mem, Left(t, w), Left(t, w'), out)
    ensures OnTrack(t, w')
  {
    hide Left, Valid;
    SuffixTrans(FromItem(t, w.st), Left(t, w), Left(t, w'));
  }

  lemma EmitsNothing(mem: Memory, m: seq<Block>)
    ensures Emits(mem, m, m, [])
  {
  }
}

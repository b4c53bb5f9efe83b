/**
 Datatype descriptions and what they mean.

 A description is a flat array of entries: data elements, and LOOP / END_LOOP markers that
 point at each other by a relative index.  Its meaning is a type map: the sequence of blocks
 (displacement, size), one per basic element, in the order in which they are transferred.
 */
module TypeMap {
  import opened Common

  /** Identifiers of the predefined types that the engine names. */
  const LOOP: nat := 0
  const UINT1: nat := 9

  /** Sizes of the predefined types on an LP64 machine with 128-bit integers, by identifier.
      Identifiers below 4 are markers; 14 (FLOAT2) and 17 (FLOAT12) are unavailable there. */
  const BASIC_SIZES: seq<nat> :=
    [0, 0, 0, 0, 1, 2, 4, 8, 16, 1, 2, 4, 8, 16, 0, 4, 8, 0, 16, 8, 16, 32, 1, 4, 0]

  function BasicSize(id: nat): nat {
    if id < |BASIC_SIZES| then BASIC_SIZES[id] else 0
  }

  /** One entry of a description.  `contig` is the CONTIGUOUS flag. */
  datatype Entry =
    | Elem(id: nat, contig: bool, count: nat, disp: int, extent: int)
    | Loop(contig: bool, loops: nat, items: nat, extent: int)
    | EndLoop(items: nat, first: int, size: nat)

  /** One basic element of a type map. */
  datatype Block = Block(disp: int, size: nat)

  /** `count` blocks of `size` bytes, `extent` apart. */
  ghost function ElemMap(disp: int, size: nat, extent: int, count: nat): seq<Block>
    decreases count
  {
    if count == 0 then [] else [Block(disp, size)] + ElemMap(disp + extent, size, extent, count - 1)
  }

  ghost function Displace(m: seq<Block>, k: int): seq<Block> {
    seq(|m|, i requires 0 <= i < |m| => Block(m[i].disp + k, m[i].size))
  }

  /** `n` copies of a type map, `extent` apart. */
  ghost function Repeat(m: seq<Block>, extent: int, n: nat): seq<Block> {
    if n == 0 then [] else m + Displace(Repeat(m, extent, n - 1), extent)
  }

  /** A sequence of data elements and complete, non-empty loops. */
  ghost predicate Shape(s: seq<Entry>) {
    s == [] ||
    match s[0]
    case Elem(id, _, count, _, _) => BasicSize(id) > 0 && count > 0 && Shape(s[1..])
    case Loop(_, loops, items, _) =>
      && loops > 0 && 1 < items < |s| && s[items].EndLoop?
      && Shape(s[1..items]) && Shape(s[items + 1..])
    case EndLoop(_, _, _) => false
  }

  /** The type map of a description. */
  ghost function Map(s: seq<Entry>): seq<Block>
    requires Shape(s)
  {
    if s == [] then []
    else match s[0]
      case Elem(id, _, count, disp, extent) =>
        ElemMap(disp, BasicSize(id), extent, count) + Map(s[1..])
      case Loop(_, loops, items, extent) =>
        Repeat(Map(s[1..items]), extent, loops) + Map(s[items + 1..])
  }

  /** The byte displacements `lo, lo+1, ..., lo+n-1`. */
  ghost function Range(lo: int, n: nat): seq<int> {
    seq(n, i => lo + i)
  }

  ghost function Shift(s: seq<int>, k: int): seq<int> {
    seq(|s|, i requires 0 <= i < |s| => s[i] + k)
  }

  /** The byte displacements of a type map. */
  ghost function Expand(m: seq<Block>): seq<int> {
    if m == [] then [] else Range(m[0].disp, m[0].size) + Expand(m[1..])
  }

  /** Every loop that carries the CONTIGUOUS flag has a body that covers exactly the byte range
      announced by its END_LOOP. */
  ghost predicate ContigLoops(s: seq<Entry>)
    requires Shape(s)
  {
    s == [] ||
    match s[0]
    case Elem(_, _, _, _, _) => ContigLoops(s[1..])
    case Loop(contig, _, items, _) =>
      && ContigLoops(s[1..items]) && ContigLoops(s[items + 1..])
      && (contig ==> Expand(Map(s[1..items])) == Range(s[items].first, s[items].size))
  }

  /** Only elements with the CONTIGUOUS flag, and contiguous loops without gaps. */
  ghost predicate Unbroken(s: seq<Entry>)
    requires Shape(s)
  {
    s == [] ||
    match s[0]
    case Elem(_, contig, _, _, _) => contig && Unbroken(s[1..])
    case Loop(contig, _, items, extent) => contig && extent == s[items].size && Unbroken(s[items + 1..])
  }

  /** How deep loops are nested. */
  ghost function Depth(s: seq<Entry>): nat
    requires Shape(s)
  {
    if s == [] then 0
    else if s[0].Loop? then Max(1 + Depth(s[1..s[0].items]), Depth(s[s[0].items + 1..]))
    else Depth(s[1..])
  }

  /** A loop that rewriting keeps: it is not contiguous, and not a loop around one element that becomes a strided
      element or is unrolled.  `e` is the first entry of its body. */
  predicate IsKept(lp: Entry, e: Entry)
    requires lp.Loop?
  {
    && !lp.contig
    && !(lp.items == 2 && e.Elem? && ((e.count == 1 && e.extent == BasicSize(e.id)) || lp.loops < 3))
  }

  /** How deep loops that are kept are nested. */
  ghost function KeptDepth(s: seq<Entry>): nat
    requires Shape(s)
  {
    if s == [] then 0
    else if s[0].Loop? then
      Max(if IsKept(s[0], s[1]) then 1 + KeptDepth(s[1..s[0].items]) else 0, KeptDepth(s[s[0].items + 1..]))
    else KeptDepth(s[1..])
  }

  /** The displacement of the first data element from entry `pos` on: loop markers are skipped. */
  function FirstDisp(d: seq<Entry>, pos: nat): int
    decreases |d| - pos
  {
    if pos >= |d| then 0 else if d[pos].Loop? then FirstDisp(d, pos + 1) else if d[pos].Elem? then d[pos].disp else 0
  }

  // ---------------------------------------------------------------- block-level algebra

  lemma Assoc<T>(a: seq<T>, b: seq<T>, c: seq<T>)
    ensures a + (b + c) == (a + b) + c
  {
  }

  lemma DisplaceConcat(a: seq<Block>, b: seq<Block>, k: int)
    ensures Displace(a + b, k) == Displace(a, k) + Displace(b, k)
  {
  }

  lemma DisplaceTwice(m: seq<Block>, j: int, k: int)
    ensures Displace(Displace(m, j), k) == Displace(m, j + k)
  {
  }

  lemma DisplaceZero(m: seq<Block>)
    ensures Displace(m, 0) == m
  {
  }

  lemma DisplaceLength(m: seq<Block>, k: int)
    ensures |Displace(m, k)| == |m|
  {
  }

  lemma {:induction false} DisplaceElemMap(disp: int, size: nat, extent: int, count: nat, k: int)
    ensures Displace(ElemMap(disp, size, extent, count), k) == ElemMap(disp + k, size, extent, count)
    decreases count
  {
    if count > 0 {
      DisplaceElemMap(disp + extent, size, extent, count - 1, k);
    }
  }

  /** A run of strided elements splits anywhere. */
  lemma {:induction false} ElemMapSplit(disp: int, size: nat, extent: int, count: nat, k: nat)
    requires k <= count
    ensures ElemMap(disp, size, extent, count)
         == ElemMap(disp, size, extent, k) + ElemMap(disp + k * extent, size, extent, count - k)
    decreases k
  {
    if k > 0 {
      ElemMapSplit(disp + extent, size, extent, count - 1, k - 1);
      assert disp + extent + (k - 1) * extent == disp + k * extent;
    }
  }

  lemma {:induction false} DisplaceRepeat(m: seq<Block>, extent: int, n: nat, k: int)
    ensures Displace(Repeat(m, extent, n), k) == Repeat(Displace(m, k), extent, n)
    decreases n
  {
    if n > 0 {
      DisplaceRepeat(m, extent, n - 1, k);
      DisplaceConcat(m, Displace(Repeat(m, extent, n - 1), extent), k);
      DisplaceTwice(Repeat(m, extent, n - 1), extent, k);
      DisplaceTwice(Repeat(m, extent, n - 1), k, extent);
    }
  }

  /** Repetition splits anywhere: the later copies are displaced by the earlier ones. */
  lemma {:induction false} RepeatSplit(m: seq<Block>, extent: int, n: nat, k: nat)
    requires k <= n
    ensures Repeat(m, extent, n) == Repeat(m, extent, k) + Displace(Repeat(m, extent, n - k), k * extent)
    decreases k
  {
    var rest := Repeat(m, extent, n - k);
    if k == 0 {
      DisplaceZero(rest);
    } else {
      RepeatSplit(m, extent, n - 1, k - 1);
      DisplaceConcat(Repeat(m, extent, k - 1), Displace(rest, (k - 1) * extent), extent);
      DisplaceTwice(rest, (k - 1) * extent, extent);
      assert (k - 1) * extent + extent == k * extent;
    }
  }

  lemma {:induction false} RepeatLength(m: seq<Block>, extent: int, n: nat)
    ensures |Repeat(m, extent, n)| == n * |m|
    decreases n
  {
    if n > 0 {
      RepeatLength(m, extent, n - 1);
    }
  }

  // ---------------------------------------------------------------- byte-level algebra

  lemma {:induction false} ExpandConcat(a: seq<Block>, b: seq<Block>)
    ensures Expand(a + b) == Expand(a) + Expand(b)
  {
    if a == [] {
      assert a + b == b;
    } else {
      ExpandConcat(a[1..], b);
      assert (a + b)[1..] == a[1..] + b;
      Assoc(Range(a[0].disp, a[0].size), Expand(a[1..]), Expand(b));
    }
  }

  lemma {:induction false} ExpandDisplace(m: seq<Block>, k: int)
    ensures Expand(Displace(m, k)) == Shift(Expand(m), k)
  {
    if m != [] {
      ExpandDisplace(m[1..], k);
      assert Displace(m, k)[1..] == Displace(m[1..], k);
    }
  }

  /** The number of bytes of a prefix, and of the whole. */
  lemma {:induction false} ExpandPrefix(m: seq<Block>, k: nat)
    requires k <= |m|
    ensures Expand(m) == Expand(m[..k]) + Expand(m[k..])
  {
    ExpandConcat(m[..k], m[k..]);
    assert m[..k] + m[k..] == m;
  }

  lemma {:induction false} ExpandElemMapLength(disp: int, size: nat, extent: int, count: nat)
    ensures |Expand(ElemMap(disp, size, extent, count))| == count * size
    decreases count
  {
    if count > 0 {
      ExpandElemMapLength(disp + extent, size, extent, count - 1);
      var m := ElemMap(disp, size, extent, count);
      assert m[1..] == ElemMap(disp + extent, size, extent, count - 1);
    }
  }

  /** Elements packed back to back are one byte range. */
  lemma {:induction false} ExpandUnitStride(disp: int, size: nat, count: nat)
    ensures Expand(ElemMap(disp, size, size, count)) == Range(disp, count * size)
    decreases count
  {
    if count > 0 {
      ExpandUnitStride(disp + size, size, count - 1);
      var m := ElemMap(disp, size, size, count);
      assert m[1..] == ElemMap(disp + size, size, size, count - 1);
      RangeSplit(disp, size, (count - 1) * size);
      assert size + (count - 1) * size == count * size;
    }
  }

  lemma RangeLength(lo: int, n: nat)
    ensures |Range(lo, n)| == n
  {
  }

  lemma RangeSplit(lo: int, a: nat, b: nat)
    ensures Range(lo, a + b) == Range(lo, a) + Range(lo + a, b)
  {
  }

  lemma {:induction false} ExpandRepeatLength(m: seq<Block>, extent: int, n: nat)
    ensures |Expand(Repeat(m, extent, n))| == n * |Expand(m)|
    decreases n
  {
    if n > 0 {
      ExpandRepeatLength(m, extent, n - 1);
      ExpandConcat(m, Displace(Repeat(m, extent, n - 1), extent));
      ExpandDisplace(Repeat(m, extent, n - 1), extent);
      calc {
        |Expand(Repeat(m, extent, n))|;
        |Expand(m)| + (n - 1) * |Expand(m)|;
        n * |Expand(m)|;
      }
    }
  }

  // ---------------------------------------------------------------- descriptions

  lemma SliceConcat<T>(a: seq<T>, b: seq<T>, i: nat, j: nat)
    requires i <= j <= |a|
    ensures (a + b)[i..j] == a[i..j]
    ensures (a + b)[j..] == a[j..] + b
  {
  }

  /** Descriptions compose. */
  lemma {:induction false} ShapeConcat(a: seq<Entry>, b: seq<Entry>)
    requires Shape(a) && Shape(b)
    ensures Shape(a + b)
  {
    if a == [] {
      assert a + b == b;
    } else {
      match a[0]
      case Elem(_, _, _, _, _) =>
        SliceConcat(a, b, 1, 1);
        ShapeConcat(a[1..], b);
      case Loop(_, _, items, _) =>
        SliceConcat(a, b, 1, items);
        SliceConcat(a, b, items + 1, items + 1);
        ShapeConcat(a[items + 1..], b);
    }
  }

  lemma {:induction false} MapConcat(a: seq<Entry>, b: seq<Entry>)
    requires Shape(a) && Shape(b)
    ensures Shape(a + b) && Map(a + b) == Map(a) + Map(b)
  {
    ShapeConcat(a, b);
    if a == [] {
      assert a + b == b;
    } else if a[0].Loop? {
      var items := a[0].items;
      SliceConcat(a, b, 1, items);
      SliceConcat(a, b, items + 1, items + 1);
      MapConcat(a[items + 1..], b);
      Assoc(Repeat(Map(a[1..items]), a[0].extent, a[0].loops), Map(a[items + 1..]), Map(b));
    } else {
      SliceConcat(a, b, 1, 1);
      MapConcat(a[1..], b);
      Assoc(ElemMap(a[0].disp, BasicSize(a[0].id), a[0].extent, a[0].count), Map(a[1..]), Map(b));
    }
  }

  /** What a description is, in terms of its first entry. */
  lemma {:induction false} Head(s: seq<Entry>)
    requires Shape(s) && s != []
    ensures s[0].Elem? || (s[0].Loop? && 1 < s[0].items < |s| && s[s[0].items].EndLoop?)
    ensures s[0].Elem? ==> Shape(s[1..]) && Depth(s) == Depth(s[1..])
    ensures s[0].Loop? ==>
      && Shape(s[1..s[0].items]) && Shape(s[s[0].items + 1..])
      && Depth(s) == Max(1 + Depth(s[1..s[0].items]), Depth(s[s[0].items + 1..]))
  {
  }

  lemma {:induction false} KeptHead(s: seq<Entry>)
    requires Shape(s) && s != []
    ensures s[0].Elem? || (s[0].Loop? && 1 < s[0].items < |s| && s[s[0].items].EndLoop?)
    ensures s[0].Elem? ==> Shape(s[1..]) && KeptDepth(s) == KeptDepth(s[1..])
    ensures s[0].Loop? ==>
      && Shape(s[1..s[0].items]) && Shape(s[s[0].items + 1..])
      && KeptDepth(s) == Max(if IsKept(s[0], s[1]) then 1 + KeptDepth(s[1..s[0].items]) else 0,
                             KeptDepth(s[s[0].items + 1..]))
  {
  }

  lemma {:induction false} MapHead(s: seq<Entry>)
    requires Shape(s) && s != []
    ensures s[0].Elem? || (s[0].Loop? && 1 < s[0].items < |s| && s[s[0].items].EndLoop?)
    ensures s[0].Elem? ==>
      Shape(s[1..]) && Map(s) == ElemMap(s[0].disp, BasicSize(s[0].id), s[0].extent, s[0].count) + Map(s[1..])
    ensures s[0].Loop? ==>
      && Shape(s[1..s[0].items]) && Shape(s[s[0].items + 1..])
      && Map(s) == Repeat(Map(s[1..s[0].items]), s[0].extent, s[0].loops) + Map(s[s[0].items + 1..])
  {
  }

  lemma {:induction false} ContigHead(s: seq<Entry>)
    requires Shape(s) && s != []
    ensures s[0].Elem? || (s[0].Loop? && 1 < s[0].items < |s| && s[s[0].items].EndLoop?)
    ensures s[0].Elem? ==> Shape(s[1..]) && (ContigLoops(s) <==> ContigLoops(s[1..]))
    ensures s[0].Loop? ==>
      && Shape(s[1..s[0].items]) && Shape(s[s[0].items + 1..])
      && (ContigLoops(s) <==>
            && ContigLoops(s[1..s[0].items]) && ContigLoops(s[s[0].items + 1..])
            && (s[0].contig ==> Expand(Map(s[1..s[0].items])) == Range(s[s[0].items].first, s[s[0].items].size)))
  {
  }

  lemma {:induction false} UnbrokenHead(s: seq<Entry>)
    requires Shape(s) && s != []
    ensures s[0].Elem? || (s[0].Loop? && 1 < s[0].items < |s| && s[s[0].items].EndLoop?)
    ensures s[0].Elem? ==> Shape(s[1..]) && (Unbroken(s) <==> s[0].contig && Unbroken(s[1..]))
    ensures s[0].Loop? ==>
      && Shape(s[s[0].items + 1..])
      && (Unbroken(s) <==> s[0].contig && s[0].extent == s[s[0].items].size && Unbroken(s[s[0].items + 1..]))
  {
  }

  /** The first entry of a description that is continued. */
  lemma HeadConcat(a: seq<Entry>, b: seq<Entry>)
    requires a != []
    ensures (a + b)[0] == a[0] && (a + b)[1..] == a[1..] + b
    ensures a[0].Loop? && 1 < a[0].items < |a| ==>
      && (a + b)[a[0].items] == a[a[0].items] && (a + b)[1..a[0].items] == a[1..a[0].items]
      && (a + b)[a[0].items + 1..] == a[a[0].items + 1..] + b
  {
  }

  lemma NoEntries()
    ensures Shape([]) && ContigLoops([]) && Depth([]) == 0 && Map([]) == [] && Unbroken([])
    ensures KeptDepth([]) == 0
  {
  }

  lemma {:induction false} DepthConcat(a: seq<Entry>, b: seq<Entry>)
    requires Shape(a) && Shape(b)
    ensures Shape(a + b) && Depth(a + b) == Max(Depth(a), Depth(b))
  {
    hide Shape, Depth;
    ShapeConcat(a, b);
    if a == [] {
      NoEntries();
      assert a + b == b;
    } else {
      Head(a);
      DepthHead(a, b);
      DepthConcat(Beyond(a), b);
    }
  }

  /** What follows the first element or loop. */
  ghost function Beyond(s: seq<Entry>): seq<Entry>
    requires s != []
  {
    if s[0].Loop? && s[0].items < |s| then s[s[0].items + 1..] else s[1..]
  }

  lemma {:induction false} DepthHead(a: seq<Entry>, b: seq<Entry>)
    requires a != [] && Shape(a) && Shape(a + b)
    ensures Shape(Beyond(a)) && Shape(Beyond(a) + b)
    ensures exists n: nat :: Depth(a) == Max(n, Depth(Beyond(a))) && Depth(a + b) == Max(n, Depth(Beyond(a) + b))
  {
    hide Shape, Depth;
    Head(a);
    Head(a + b);
    HeadConcat(a, b);
    var n: nat := if a[0].Loop? then 1 + Depth(a[1..a[0].items]) else 0;
    assert Depth(a) == Max(n, Depth(Beyond(a)));
    assert Depth(a + b) == Max(n, Depth(Beyond(a) + b));
  }

  lemma {:induction false} ContigConcat(a: seq<Entry>, b: seq<Entry>)
    requires Shape(a) && Shape(b)
    ensures Shape(a + b) && (ContigLoops(a + b) <==> ContigLoops(a) && ContigLoops(b))
  {
    hide Shape, ContigLoops, Map, Expand, Range;
    ShapeConcat(a, b);
    if a == [] {
      NoEntries();
      assert a + b == b;
    } else {
      ContigHead(a);
      ContigHead(a + b);
      HeadConcat(a, b);
      ContigConcat(if a[0].Loop? then a[a[0].items + 1..] else a[1..], b);
    }
  }

  lemma {:induction false} KeptConcat(a: seq<Entry>, b: seq<Entry>)
    requires Shape(a) && Shape(b)
    ensures Shape(a + b) && KeptDepth(a + b) == Max(KeptDepth(a), KeptDepth(b))
  {
    hide Shape, KeptDepth;
    ShapeConcat(a, b);
    if a == [] {
      NoEntries();
      assert a + b == b;
    } else {
      KeptHead(a);
      KeptBegins(a, b);
      KeptConcat(Beyond(a), b);
    }
  }

  lemma {:induction false} KeptBegins(a: seq<Entry>, b: seq<Entry>)
    requires a != [] && Shape(a) && Shape(a + b)
    ensures Shape(Beyond(a)) && Shape(Beyond(a) + b)
    ensures KeptDepth(a) == Max(KeptFirst(a), KeptDepth(Beyond(a)))
    ensures KeptDepth(a + b) == Max(KeptFirst(a), KeptDepth(Beyond(a) + b))
  {
    hide Shape, KeptDepth, KeptFirst, Beyond, Max;
    KeptInTwo(a);
    KeptInTwo(a + b);
    SameFirst(a, b);
  }

  /** How deep kept loops are nested in the first element or loop. */
  ghost function KeptFirst(s: seq<Entry>): nat
    requires s != [] && Shape(s)
  {
    if s[0].Loop? && IsKept(s[0], s[1]) then 1 + KeptDepth(s[1..s[0].items]) else 0
  }

  lemma {:induction false} KeptInTwo(s: seq<Entry>)
    requires s != [] && Shape(s)
    ensures Shape(Beyond(s)) && KeptDepth(s) == Max(KeptFirst(s), KeptDepth(Beyond(s)))
  {
    hide Shape, KeptDepth, IsKept;
    KeptHead(s);
  }

  lemma {:induction false} SameFirst(a: seq<Entry>, b: seq<Entry>)
    requires a != [] && Shape(a) && Shape(a + b)
    ensures KeptFirst(a + b) == KeptFirst(a) && Beyond(a + b) == Beyond(a) + b
  {
    hide Shape, KeptDepth, IsKept;
    Head(a);
    HeadConcat(a, b);
    if a[0].Loop? {
      assert (a + b)[1] == a[1];
    }
  }

  lemma {:induction false} UnbrokenConcat(a: seq<Entry>, b: seq<Entry>)
    requires Shape(a) && Shape(b)
    ensures Shape(a + b) && (Unbroken(a + b) <==> Unbroken(a) && Unbroken(b))
  {
    hide Shape, Unbroken;
    ShapeConcat(a, b);
    if a == [] {
      NoEntries();
      assert a + b == b;
    } else {
      UnbrokenHead(a);
      UnbrokenHead(a + b);
      HeadConcat(a, b);
      UnbrokenConcat(if a[0].Loop? then a[a[0].items + 1..] else a[1..], b);
    }
  }

  lemma {:induction false} ElemMapSizes(disp: int, size: nat, extent: int, count: nat)
    ensures |ElemMap(disp, size, extent, count)| == count
    ensures forall b :: b in ElemMap(disp, size, extent, count) ==> b.size == size
    decreases count
  {
    if count > 0 {
      ElemMapSizes(disp + extent, size, extent, count - 1);
    }
  }

  lemma {:induction false} RepeatSizes(m: seq<Block>, extent: int, n: nat)
    requires forall b :: b in m ==> b.size > 0
    ensures forall b :: b in Repeat(m, extent, n) ==> b.size > 0
    decreases n
  {
    if n > 0 {
      RepeatSizes(m, extent, n - 1);
      var r := Repeat(m, extent, n - 1);
      forall b | b in Displace(r, extent)
        ensures b.size > 0
      {
        var i :| 0 <= i < |r| && Displace(r, extent)[i] == b;
        assert r[i] in r;
      }
    }
  }
}

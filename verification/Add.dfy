/**
 Building datatypes: appending `count` copies of a datatype, `extent` apart, to another one.
 */
module DatatypeAdd {
  import opened Common
  import opened TypeMap
  import opened Walking
  import O = Optimizer

  const MAX_LONG: int := 0x7fff_ffff_ffff_ffff
  const MIN_LONG: int := -0x8000_0000_0000_0000
  /** Limit on the number of entries of a description. */
  const MAX_COMPONENTS: nat := 0xffff_ffff
  const ID_LB: nat := 2
  const ID_UB: nat := 3

  // ---------------------------------------------------------------- moving a description

  function MoveEntry(e: Entry, k: int): Entry {
    match e
    case Elem(id, contig, count, disp, extent) => Elem(id, contig, count, disp + k, extent)
    case Loop(_, _, _, _) => e
    case EndLoop(items, first, size) => EndLoop(items, first + k, size)
  }

  function Moved(s: seq<Entry>, k: int): seq<Entry> {
    seq(|s|, i requires 0 <= i < |s| => MoveEntry(s[i], k))
  }

  lemma MovedHead(s: seq<Entry>, k: int)
    requires s != []
    ensures |Moved(s, k)| == |s| && Moved(s, k)[0] == MoveEntry(s[0], k) && Moved(s, k)[1..] == Moved(s[1..], k)
    ensures s[0].Loop? && 0 < s[0].items < |s| ==>
      && Moved(s, k)[s[0].items] == MoveEntry(s[s[0].items], k)
      && Moved(s, k)[1..s[0].items] == Moved(s[1..s[0].items], k)
      && Moved(s, k)[s[0].items + 1..] == Moved(s[s[0].items + 1..], k)
  {
  }

  lemma {:induction false} MovedShape(s: seq<Entry>, k: int)
    requires Shape(s)
    ensures Shape(Moved(s, k)) && |Moved(s, k)| == |s|
  {
    if s != [] {
      MovedHead(s, k);
      hide Moved;
      if s[0].Elem? {
        MovedShape(s[1..], k);
      } else {
        MovedShape(s[1..s[0].items], k);
        MovedShape(s[s[0].items + 1..], k);
      }
    }
  }

  /** Moving the data elements of a description displaces its type map. */
  lemma {:induction false} MovedMap(s: seq<Entry>, k: int)
    requires Shape(s)
    ensures Shape(Moved(s, k)) && Map(Moved(s, k)) == Displace(Map(s), k)
  {
    hide Shape, Map, Moved, Displace, Repeat, ElemMap, BasicSize;
    MovedShape(s, k);
    if s == [] {
      MovedNothing(k);
      NoEntries();
      DisplaceNothing(k);
    } else {
      MovedHead(s, k);
      MapHead(s);
      MapHead(Moved(s, k));
      if s[0].Elem? {
        MovedMap(s[1..], k);
        DisplaceElemMap(s[0].disp, BasicSize(s[0].id), s[0].extent, s[0].count, k);
        DisplaceConcat(ElemMap(s[0].disp, BasicSize(s[0].id), s[0].extent, s[0].count), Map(s[1..]), k);
      } else {
        MovedMap(s[1..s[0].items], k);
        MovedMap(s[s[0].items + 1..], k);
        DisplaceRepeat(Map(s[1..s[0].items]), s[0].extent, s[0].loops, k);
        DisplaceConcat(Repeat(Map(s[1..s[0].items]), s[0].extent, s[0].loops), Map(s[s[0].items + 1..]), k);
      }
    }
  }

  lemma DisplaceNothing(k: int)
    ensures Displace([], k) == []
  {
  }

  lemma {:induction false} MovedUnbroken(s: seq<Entry>, k: int)
    requires Shape(s)
    ensures Shape(Moved(s, k)) && Unbroken(Moved(s, k)) == Unbroken(s)
  {
    hide Shape, Moved, Unbroken;
    MovedShape(s, k);
    if s == [] {
      MovedNothing(k);
      NoEntries();
    } else {
      MovedHead(s, k);
      UnbrokenHead(s);
      UnbrokenHead(Moved(s, k));
      MovedUnbroken(if s[0].Loop? then s[s[0].items + 1..] else s[1..], k);
    }
  }

  lemma {:induction false} MovedKept(s: seq<Entry>, k: int)
    requires Shape(s)
    ensures Shape(Moved(s, k)) && KeptDepth(Moved(s, k)) == KeptDepth(s)
  {
    hide Shape, Moved, KeptDepth;
    MovedShape(s, k);
    if s == [] {
      MovedNothing(k);
      NoEntries();
    } else {
      MovedHead(s, k);
      KeptHead(s);
      KeptHead(Moved(s, k));
      if s[0].Loop? {
        MovedSecond(s, k);
        MovedKept(s[1..s[0].items], k);
        MovedKept(s[s[0].items + 1..], k);
      } else {
        MovedKept(s[1..], k);
      }
    }
  }

  lemma MovedSecond(s: seq<Entry>, k: int)
    requires |s| > 1 && s[0].Loop?
    ensures Moved(s, k)[0] == s[0] && (IsKept(s[0], Moved(s, k)[1]) <==> IsKept(s[0], s[1]))
  {
  }

  lemma ShiftRange(lo: int, n: nat, k: int)
    ensures Shift(Range(lo, n), k) == Range(lo + k, n)
  {
  }

  lemma {:induction false} MovedContig(s: seq<Entry>, k: int)
    requires Shape(s) && ContigLoops(s)
    ensures Shape(Moved(s, k)) && ContigLoops(Moved(s, k))
  {
    hide Shape, Moved, Map, Expand, Range, ContigLoops;
    if s == [] {
      MovedNothing(k);
    } else {
      MovedShape(s, k);
      ContigHead(s);
      if s[0].Elem? {
        MovedContig(s[1..], k);
        MovedElem(s, k);
      } else {
        MovedContig(s[1..s[0].items], k);
        MovedContig(s[s[0].items + 1..], k);
        if s[0].contig {
          MovedRange(s[1..s[0].items], s[s[0].items].first, s[s[0].items].size, k);
        }
        MovedLoop(s, k, s[0].items);
      }
    }
  }

  lemma MovedNothing(k: int)
    ensures Moved([], k) == [] && Shape(Moved([], k)) && ContigLoops(Moved([], k))
  {
    assert Moved([], k) == [];
  }

  lemma MovedElem(s: seq<Entry>, k: int)
    requires s != [] && s[0].Elem? && Shape(Moved(s, k)) && Shape(Moved(s[1..], k)) && ContigLoops(Moved(s[1..], k))
    ensures ContigLoops(Moved(s, k))
  {
    MovedHead(s, k);
    hide Moved;
    ContigHead(Moved(s, k));
  }

  lemma MovedLoop(s: seq<Entry>, k: int, n: nat)
    requires s != [] && Shape(Moved(s, k)) && s[0].Loop? && s[0].items == n && 1 < n < |s| && s[n].EndLoop?
    requires Shape(Moved(s[1..n], k)) && ContigLoops(Moved(s[1..n], k))
    requires Shape(Moved(s[n + 1..], k)) && ContigLoops(Moved(s[n + 1..], k))
    requires s[0].contig ==> Expand(Map(Moved(s[1..n], k))) == Range(s[n].first + k, s[n].size)
    ensures ContigLoops(Moved(s, k))
  {
    MovedHead(s, k);
    ContigHead(Moved(s, k));
  }

  lemma MovedRange(s: seq<Entry>, first: int, size: nat, k: int)
    requires Shape(s) && Expand(Map(s)) == Range(first, size)
    ensures Shape(Moved(s, k)) && Expand(Map(Moved(s, k))) == Range(first + k, size)
  {
    MovedMap(s, k);
    hide Map, Expand, Displace;
    ExpandDisplace(Map(s), k);
    ShiftRange(first, size, k);
  }

  /** A closing marker behind a description does not change where its data begins. */
  lemma {:induction false} FirstDispClosed(s: seq<Entry>, end: Entry, pos: nat)
    requires end.EndLoop? && pos <= |s|
    ensures FirstDisp(s + [end], pos) == FirstDisp(s, pos)
    decreases |s| - pos
  {
    if pos < |s| && s[pos].Loop? {
      FirstDispClosed(s, end, pos + 1);
    }
  }

  lemma LeadingByte(s: seq<Entry>)
    requires Shape(s) && s != []
    ensures Expand(Map(s)) != [] && Expand(Map(s))[0] == FirstDisp(s, 0)
  {
    var end := EndLoop(0, 0, 0);
    var d := s + [end];
    assert d[0..|s|] == s;
    BodyIsMap(d, 0, |s|);
    O.StartsWithData(s);
    O.FirstByte(d, 0);
    FirstDispClosed(s, end, 0);
  }

  // ---------------------------------------------------------------- the entries that are appended

  /** The part of a datatype that matters when it is added to another one.  `basic` marks a
      predefined type. */
  datatype Part = Part(basic: bool, id: nat, size: nat, trueLb: int, lb: int, ub: int, contig: bool, desc: seq<Entry>) {
    ghost predicate Sane() {
      && Shape(desc) && ContigLoops(desc) && size == |Expand(Map(desc))|
      && (size > 0 && contig ==> Expand(Map(desc)) == Range(trueLb, size) && Unbroken(desc))
      && (basic ==> size > 0 && BasicSize(id) == size && contig && desc == [Elem(id, true, 1, 0, size)])
    }

    /** The type is a single element that can be repeated by multiplying its count. */
    predicate Single(extent: int) {
      |desc| == 1 && desc[0].Elem? && extent == ub - lb && extent == desc[0].extent
    }

    /** Several copies of a predefined type with gaps need a loop. */
    predicate Strides(count: nat, extent: int) {
      basic && extent != size && count > 1
    }

    /** Multiplying the count puts the copies side by side although they overlap. */
    predicate Overlapping(count: nat, extent: int) {
      !basic && Single(extent) && desc[0].count > 1 && count > 1 && extent != 0
    }

    /** The entries for `count` copies, the first one at `disp`. */
    function Entries(count: nat, disp: int, extent: int): seq<Entry>
      requires Shape(desc) && desc != []
    {
      if basic then
        if Strides(count, extent) then
          [Loop(false, count, 2, extent)] + [Elem(id, true, 1, disp, size)] + [EndLoop(2, disp, size)]
        else [Elem(id, contig, count, disp, extent)]
      else if Single(extent) then
        [Elem(desc[0].id, desc[0].contig, desc[0].count * count, desc[0].disp + disp, desc[0].extent)]
      else if count != 1 then
        [Loop(contig, count, |desc| + 1, extent)] + Moved(desc, disp)
        + [EndLoop(|desc| + 1, FirstDisp(desc, 0) + disp, size)]
      else Moved(desc, disp)
    }

    /** The type map of `count` copies, the first one at `disp`. */
    ghost function Copies(count: nat, disp: int, extent: int): seq<Block>
      requires Shape(desc)
    {
      Displace(Repeat(Map(desc), extent, count), disp)
    }
  }

  /** A predefined type. */
  lemma BasicEntries(a: Part, count: nat, disp: int, extent: int)
    requires a.Sane() && a.basic && count > 0
    ensures var s := a.Entries(count, disp, extent);
      Shape(s) && ContigLoops(s) && Map(s) == a.Copies(count, disp, extent)
  {
    hide BasicSize;
    var elem := Elem(a.id, true, 1, disp, a.size);
    O.OneElem(a.desc[0]);
    assert Map(a.desc) == [Block(0, a.size)];
    O.RepeatElem(0, a.size, extent, count);
    DisplaceElemMap(0, a.size, extent, count, disp);
    if extent != a.size && count > 1 {
      O.OneElem(elem);
      O.WrapLoop(Loop(false, count, 2, extent), [elem], EndLoop(2, disp, a.size));
      O.RepeatElem(disp, a.size, extent, count);
      assert Map([elem]) == [Block(disp, a.size)];
    } else {
      O.OneElem(Elem(a.id, a.contig, count, disp, extent));
      if count == 1 {
        assert ElemMap(disp, a.size, extent, 1) == [Block(disp, a.size)];
      }
    }
  }

  /** A single element with its count multiplied: right unless copies overlap. */
  lemma SingleEntries(a: Part, count: nat, disp: int, extent: int)
    requires a.Sane() && !a.basic && a.Single(extent) && count > 0
    ensures var s := a.Entries(count, disp, extent);
      && Shape(s) && ContigLoops(s) && |Map(s)| == |a.Copies(count, disp, extent)|
      && |Expand(Map(s))| == count * a.size
      && (Map(s) == a.Copies(count, disp, extent) <==> !a.Overlapping(count, extent))
  {
    hide BasicSize, ElemMap, Expand, Repeat, ContigLoops, Displace;
    var e := a.desc[0];
    var size, first := BasicSize(e.id), e.disp + disp;
    SingleShape(a.desc);
    var x := Elem(e.id, e.contig, e.count * count, first, extent);
    assert e.count * count > 0;
    O.OneElem(x);
    ElemMapSizes(first, size, extent, e.count * count);
    ExpandElemMapLength(first, size, extent, e.count * count);
    ExpandElemMapLength(e.disp, size, extent, e.count);
    RepeatLength(Map(a.desc), extent, count);
    ElemMapSizes(e.disp, size, extent, e.count);
    assert e.count * count * size == count * (e.count * size);
    DisplaceLength(Repeat(Map(a.desc), extent, count), disp);
    RepeatedElem(e.disp, size, extent, e.count, count, disp);
  }

  lemma SingleShape(s: seq<Entry>)
    requires Shape(s) && |s| == 1
    ensures s[0].Elem? && s[0].count > 0 && BasicSize(s[0].id) > 0
    ensures Map(s) == ElemMap(s[0].disp, BasicSize(s[0].id), s[0].extent, s[0].count)
  {
    assert s[1..] == [];
  }

  /** `n` copies of `c` elements, all with the same stride, are `c * n` elements with that stride
      only if there is one element, one copy, or no stride. */
  lemma RepeatedElem(disp: int, size: nat, extent: int, c: nat, n: nat, k: int)
    requires c > 0 && n > 0
    ensures ElemMap(disp + k, size, extent, c * n) == Displace(Repeat(ElemMap(disp, size, extent, c), extent, n), k)
       <==> !(c > 1 && n > 1 && extent != 0)
  {
    hide Displace, Repeat;
    var at := disp + k;
    DisplaceElemMap(disp, size, extent, c, k);
    DisplaceRepeat(ElemMap(disp, size, extent, c), extent, n, k);
    if c == 1 {
      O.RepeatElem(at, size, extent, n);
      assert ElemMap(at, size, extent, 1) == [Block(at, size)];
    } else if n == 1 {
      O.OneIteration(ElemMap(at, size, extent, c), extent);
    } else if extent == 0 {
      RepeatedSame(at, size, c, n);
    } else {
      SecondCopy(at, size, extent, c, n);
    }
  }

  /** The first element of the second copy is not where the element after the first `c` would be. */
  lemma SecondCopy(at: int, size: nat, extent: int, c: nat, n: nat)
    requires c > 1 && n > 1 && extent != 0
    ensures ElemMap(at, size, extent, c * n) != Repeat(ElemMap(at, size, extent, c), extent, n)
  {
    var m := ElemMap(at, size, extent, c);
    ElemMapSizes(at, size, extent, c);
    RepeatFirst(m, extent, n - 1);
    assert Repeat(m, extent, n)[c] == Displace(Repeat(m, extent, n - 1), extent)[0];
    assert c * n > c;
    ElemMapAt(at, size, extent, c * n, c);
    assert c * extent != extent;
  }

  lemma RepeatFirst(m: seq<Block>, extent: int, n: nat)
    requires m != [] && n > 0
    ensures Repeat(m, extent, n) != [] && Repeat(m, extent, n)[0] == m[0]
  {
  }

  lemma ElemMapAt(disp: int, size: nat, extent: int, count: nat, i: nat)
    requires i < count
    ensures |ElemMap(disp, size, extent, count)| == count
    ensures ElemMap(disp, size, extent, count)[i].disp == disp + i * extent
  {
    ElemMapSizes(disp, size, extent, count);
    ElemMapSplit(disp, size, extent, count, i);
    ElemMapSizes(disp, size, extent, i);
  }

  lemma {:induction false} RepeatedSame(disp: int, size: nat, c: nat, n: nat)
    ensures ElemMap(disp, size, 0, c * n) == Repeat(ElemMap(disp, size, 0, c), 0, n)
    decreases n
  {
    if n > 0 {
      RepeatedSame(disp, size, c, n - 1);
      ElemMapSplit(disp, size, 0, c * n, c);
      assert c * n - c == c * (n - 1);
      DisplaceZero(Repeat(ElemMap(disp, size, 0, c), 0, n - 1));
    }
  }

  /** A whole description, in a loop if there is more than one copy. */
  lemma WholeEntries(a: Part, count: nat, disp: int, extent: int)
    requires a.Sane() && !a.basic && !a.Single(extent) && count > 0 && a.desc != []
    ensures var s := a.Entries(count, disp, extent);
      Shape(s) && ContigLoops(s) && Map(s) == a.Copies(count, disp, extent)
  {
    hide Map, Expand, Displace, Repeat, Shape, ContigLoops, FirstDisp;
    var body := Moved(a.desc, disp);
    MovedMap(a.desc, disp);
    MovedContig(a.desc, disp);
    LeadingByte(a.desc);
    DisplaceRepeat(Map(a.desc), extent, count, disp);
    if count == 1 {
      O.OneIteration(Map(a.desc), extent);
    } else {
      var first := FirstDisp(a.desc, 0);
      ExpandDisplace(Map(a.desc), disp);
      if a.contig {
        assert first == a.trueLb;
        assert Shift(Range(first, a.size), disp) == Range(first + disp, a.size);
      }
      O.WrapLoop(Loop(a.contig, count, |a.desc| + 1, extent), body, EndLoop(|a.desc| + 1, first + disp, a.size));
    }
  }

  /** The appended entries describe exactly the copies, except that a single element with a count
      above one is not repeated rightly when its stride is the extent. */
  lemma EntriesDescribe(a: Part, count: nat, disp: int, extent: int)
    requires a.Sane() && count > 0 && a.desc != []
    ensures var s := a.Entries(count, disp, extent);
      && s != [] && Shape(s) && ContigLoops(s) && |Expand(Map(s))| == count * a.size
      && (Map(s) == a.Copies(count, disp, extent) <==> !a.Overlapping(count, extent))
  {
    hide Map, Expand, Displace, Repeat, Shape, ContigLoops, FirstDisp;
    CopiesLength(a, count, disp, extent);
    if a.basic {
      BasicEntries(a, count, disp, extent);
    } else if a.Single(extent) {
      SingleEntries(a, count, disp, extent);
    } else {
      WholeEntries(a, count, disp, extent);
    }
  }

  lemma CopiesLength(a: Part, count: nat, disp: int, extent: int)
    requires a.Sane()
    ensures |Expand(a.Copies(count, disp, extent))| == count * a.size
  {
    hide Map, Expand, Displace, Repeat;
    ExpandDisplace(Repeat(Map(a.desc), extent, count), disp);
    ExpandRepeatLength(Map(a.desc), extent, count);
  }

  /** Copies of a contiguous type without gaps between them are elements and contiguous loops without gaps. */
  lemma CopiesUnbroken(a: Part, count: nat, disp: int, extent: int)
    requires a.Sane() && a.desc != [] && a.size > 0 && a.contig && count > 0 && (a.size == extent || count < 2)
    ensures Shape(a.Entries(count, disp, extent)) && Unbroken(a.Entries(count, disp, extent))
  {
    hide Map, Expand, Displace, Repeat, ContigLoops, FirstDisp, Range, Shape, Unbroken;
    EntriesDescribe(a, count, disp, extent);
    MovedUnbroken(a.desc, disp);
    var s := a.Entries(count, disp, extent);
    UnbrokenHead(a.desc);
    UnbrokenHead(s);
    NoEntries();
    if a.basic || a.Single(extent) {
      assert s[1..] == [];
    } else if count != 1 {
      assert s[|a.desc| + 1] == EndLoop(|a.desc| + 1, FirstDisp(a.desc, 0) + disp, a.size) && s[|a.desc| + 2..] == [];
    }
  }

  /** How deep kept loops are nested in the appended entries: the loop around copies of a predefined type is small. */
  ghost function EntryKept(a: Part, count: nat, extent: int): nat
    requires Shape(a.desc) && a.desc != []
  {
    if a.basic || a.Single(extent) then 0
    else if count == 1 then KeptDepth(a.desc)
    else if IsKept(Loop(a.contig, count, |a.desc| + 1, extent), a.desc[0]) then 1 + KeptDepth(a.desc)
    else 0
  }

  lemma EntriesKept(a: Part, count: nat, disp: int, extent: int)
    requires a.Sane() && a.desc != [] && count > 0
    ensures Shape(a.Entries(count, disp, extent))
    ensures KeptDepth(a.Entries(count, disp, extent)) == EntryKept(a, count, extent)
  {
    hide Map, Expand, Displace, Repeat, ContigLoops, FirstDisp, Range, Shape, KeptDepth, Unbroken;
    EntriesDescribe(a, count, disp, extent);
    MovedKept(a.desc, disp);
    var s := a.Entries(count, disp, extent);
    KeptHead(s);
    NoEntries();
    if a.basic || a.Single(extent) {
      assert s[if s[0].Elem? then 1 else 3..] == [];
    } else if count != 1 {
      assert s[1..|a.desc| + 1] == Moved(a.desc, disp) && s[|a.desc| + 2..] == [];
    }
  }

  /** Copies of a contiguous type without gaps between them are one byte range, and none overlap. */
  lemma CopiesRange(a: Part, count: nat, disp: int, extent: int)
    requires a.Sane() && a.desc != [] && a.size > 0 && a.contig && count > 0 && (a.size == extent || count < 2)
    ensures Expand(a.Copies(count, disp, extent)) == Range(disp + a.trueLb, |Expand(a.Copies(count, disp, extent))|)
    ensures !a.Overlapping(count, extent)
  {
    hide Map, Expand, Displace, Repeat, BasicSize, Shape, ContigLoops;
    CopiesLength(a, count, disp, extent);
    O.LoopRows(Map(a.desc), a.trueLb, a.size, extent, count);
    ExpandDisplace(Repeat(Map(a.desc), extent, count), disp);
    if count == 1 {
      assert O.Rows(a.trueLb, a.size, extent, 1) ==
             Range(a.trueLb, a.size) + O.Rows(a.trueLb + extent, a.size, extent, 0);
    } else {
      O.RowsWhole(a.trueLb, a.size, count);
    }
    assert Shift(Range(a.trueLb, count * a.size), disp) == Range(disp + a.trueLb, count * a.size);
    if a.Overlapping(count, extent) {
      NoOverlap(a, extent);
    }
  }

  /** A contiguous type of several elements has a stride equal to the element's size, so its size is not its stride. */
  lemma NoOverlap(a: Part, extent: int)
    requires a.Sane() && a.contig && a.size > 0 && !a.basic && a.Single(extent) && a.desc[0].count > 1
    ensures a.size != extent
  {
    var e := a.desc[0];
    SingleShape(a.desc);
    var p := O.Pending(e.id, e.count, e.disp, e.extent);
    O.PendingRange(p);
    LeadingByte(a.desc);
    assert p.Bytes() == Range(e.disp, a.size);
    assert e.count * BasicSize(e.id) > BasicSize(e.id);
  }

  // ---------------------------------------------------------------- the datatype object

  /** The lowest and highest displacement of the first byte of a copy. */
  function Spread(count: nat, disp: int, extent: int): (r: (int, int))
    requires count > 0
    ensures r.0 <= r.1 && (count == 1 || extent >= 0 ==> r == (disp, disp + extent * (count - 1)))
  {
    var upper := disp + extent * (count - 1);
    if count == 1 then assert upper == disp; (disp, disp)
    else if disp < upper then (disp, upper)
    else
      assert extent >= 0 ==> extent * (count - 1) >= 0;
      (upper, disp)
  }

  /** The remainder of the source language: it has the sign of the dividend. */
  function Rem(a: int, b: nat): int
    requires b > 0
  {
    if a >= 0 then a % b else -((-a) % b)
  }

  lemma AtLeast(a: nat, m: int)
    requires m >= 1
    ensures a * m >= a
  {
  }

  lemma MultipleOf(x: int, a: nat, k: int)
    requires a > 0 && x == a * k
    ensures x % a == 0
  {
    var q, r := x / a, x % a;
    assert x == a * q + r;
    var m := k - q;
    assert a * m == a * k - a * q == r;
    if m >= 1 {
      AtLeast(a, m);
    } else if m <= -1 {
      AtLeast(a, -m);
      assert false;
    }
  }

  lemma RemainderIs(x: int, a: nat, q: int, r: nat)
    requires x == a * q + r && r < a
    ensures x % a == r
  {
    var m := x / a - q;
    assert a * m == a * (x / a) - a * q == r - x % a;
    if m >= 1 {
      AtLeast(a, m);
    } else if m <= -1 {
      AtLeast(a, -m);
    }
  }

  /** The upper bound rounded up so that the extent is a multiple of the alignment. */
  function Padded(lb: int, ub: int, align: nat): (r: int)
    requires align > 0
    ensures ub <= r < ub + 2 * align && Rem(r - lb, align) == 0
  {
    var epsilon := Rem(ub - lb, align);
    if epsilon == 0 then ub
    else
      Padding(ub - lb, align);
      ub + (align - epsilon)
  }

  /** Adding the alignment less the remainder gives a multiple of the alignment. */
  lemma Padding(n: int, align: nat)
    requires align > 0
    ensures 0 < align - Rem(n, align) < 2 * align
    ensures Rem(n + (align - Rem(n, align)), align) == 0
  {
    var x := n + (align - Rem(n, align));
    var k := if n >= 0 then n / align + 1 else 1 - (-n) / align;
    assert x == align * k;
    MultipleOf(x, align, k);
    assert -x == align * -k;
    MultipleOf(-x, align, -k);
  }

  /** The bounds of contiguous copies. */
  lemma ContigBounds(count: nat, disp: int, extent: int, size: nat, trueLb: int)
    requires count > 0 && (size == extent || count < 2)
    ensures Spread(count, disp, extent).0 + trueLb == disp + trueLb
    ensures Spread(count, disp, extent).1 + (trueLb + size) == disp + trueLb + count * size
  {
    if count > 1 {
      assert extent * (count - 1) + size == count * size;
    }
  }

  /** The state of a datatype under construction.  `loops` is the number of loops that it is believed to have. */
  datatype Info = Info(basic: bool, id: nat, size: nat, trueLb: int, trueUb: int, lb: int, ub: int, nbElems: nat,
                       align: nat,
                       contig: bool, noGaps: bool, userLb: bool, userUb: bool, loops: nat,
                       desc: seq<Entry>)
  {
    function AsPart(): Part {
      Part(basic, id, size, trueLb, lb, ub, contig, desc)
    }

    predicate IsMarker() {
      id == ID_LB || id == ID_UB
    }

    /** In particular the flag CONTIGUOUS tells the truth: the type map is one unbroken ascending
        byte range that starts at the true lower bound. */
    ghost predicate Valid() {
      AsPart().Sane() && Consistent()
    }

    ghost predicate Consistent() {
      && (size == 0 <==> desc == []) && (size > 0 ==> nbElems > 0) && align > 0
      && (size > 0 && contig ==> trueUb == trueLb + size)
      && (IsMarker() ==> size == 0)
      && (size == 0 && !IsMarker() ==> nbElems == 0 && trueLb == MAX_LONG && trueUb == MIN_LONG)
      && (noGaps ==> contig)
    }

    /** The markers only set a bound of their own. */
    function WithMarker(marker: nat, disp: int): Info {
      var moved := if marker == ID_LB then this.(lb := if userLb then Min(lb, disp) else disp, userLb := true)
                   else this.(ub := if userUb then Max(ub, disp) else disp, userUb := true);
      moved.(noGaps := moved.noGaps && moved.ub - moved.lb == moved.size)
    }

    /** Lower and upper bound and alignment; without a bound set by the user, the upper bound is
        padded so that the extent is a multiple of the alignment. */
    function WithBounds(add: Info, count: nat, disp: int, extent: int): Info
      requires count > 0 && align > 0
    {
      var low, high := Spread(count, disp, extent).0 + add.lb, Spread(count, disp, extent).1 + add.ub;
      var lower := if add.userLb == userLb then Min(lb, low) else if userLb then lb else low;
      var upper := if add.userUb == userUb then Max(ub, high) else if userUb then ub else high;
      var a := Max(align, add.align);
      this.(lb := lower, ub := if userUb || add.userUb then upper else Padded(lower, upper, a),
            userLb := userLb || add.userLb, userUb := userUb || add.userUb, align := a)
    }

    /** The copies fit the machine's type for displacements. */
    ghost predicate Representable(count: nat, disp: int, extent: int) {
      count > 0 && size > 0 ==>
        && MIN_LONG <= Spread(count, disp, extent).0 + trueLb <= MAX_LONG
        && MIN_LONG <= Spread(count, disp, extent).1 + trueUb <= MAX_LONG
    }

    /** Where data that is added must begin to continue this type without a gap. */
    function Edge(disp: int): int {
      if nbElems == 0 then disp else trueUb
    }

    predicate Continues(add: Info, count: nat, disp: int, extent: int) {
      contig && add.contig && disp + add.trueLb == Edge(disp) && (add.size == extent || count < 2)
    }

    /** The number of loops: a loop around a predefined type sets it, other loops add to it. */
    function LoopsWith(add: Info, count: nat, extent: int): nat {
      if add.basic then if add.AsPart().Strides(count, extent) then 1 else loops
      else loops + add.loops + if add.AsPart().Single(extent) || count == 1 then 0 else 2
    }

    /** Size, true bounds, entries and flags after `count` copies of `add` are appended. */
    function WithCopies(add: Info, count: nat, disp: int, extent: int): Info
      requires count > 0 && Shape(add.desc) && add.desc != []
    {
      var x, y := Spread(count, disp, extent).0 + add.trueLb, Spread(count, disp, extent).1 + add.trueUb;
      var n, c := size + count * add.size, Continues(add, count, disp, extent);
      this.(size := n, trueLb := Min(Min(x, y), trueLb), trueUb := Max(Max(x, y), trueUb),
            desc := desc + add.AsPart().Entries(count, disp, extent), loops := LoopsWith(add, count, extent),
            contig := c, noGaps := c && n == ub - lb, nbElems := nbElems + count * add.nbElems)
    }
  }

  lemma MarkerKeepsValid(b: Info, marker: nat, disp: int)
    requires b.Valid()
    ensures var r := b.WithMarker(marker, disp);
      r.Valid() && r.desc == b.desc && r.contig == b.contig && r.basic == b.basic && r.IsMarker() == b.IsMarker()
  {
    hide Map, Expand, Shape, ContigLoops, Unbroken, Range;
  }

  /** A marker and the displacement it is added at. */
  type Mark = m: (nat, int) | m.0 == ID_LB || m.0 == ID_UB witness (ID_LB, 0)

  function WithMarks(b: Info, marks: seq<Mark>): Info {
    if marks == [] then b else WithMarks(b, marks[..|marks| - 1]).WithMarker(marks[|marks| - 1].0, marks[|marks| - 1].1)
  }

  /** The lower bound is the least that the user has set, and as it was if there is none. */
  ghost predicate Least(b: Info, marks: seq<Mark>, r: Info) {
    && (forall m :: m in marks && m.0 == ID_LB ==> r.userLb && r.lb <= m.1)
    && (b.userLb ==> r.userLb && r.lb <= b.lb)
    && if r.userLb then (ID_LB, r.lb) in marks || (b.userLb && r.lb == b.lb) else r.lb == b.lb
  }

  /** The upper bound is the greatest. */
  ghost predicate Greatest(b: Info, marks: seq<Mark>, r: Info) {
    && (forall m :: m in marks && m.0 == ID_UB ==> r.userUb && r.ub >= m.1)
    && (b.userUb ==> r.userUb && r.ub >= b.ub)
    && if r.userUb then (ID_UB, r.ub) in marks || (b.userUb && r.ub == b.ub) else r.ub == b.ub
  }

  lemma LeastMore(b: Info, marks: seq<Mark>, r: Info, m: Mark)
    requires Least(b, marks, r)
    ensures Least(b, marks + [m], r.WithMarker(m.0, m.1))
  {
  }

  lemma GreatestMore(b: Info, marks: seq<Mark>, r: Info, m: Mark)
    requires Greatest(b, marks, r)
    ensures Greatest(b, marks + [m], r.WithMarker(m.0, m.1))
  {
  }

  /** However many markers are added. */
  lemma {:induction false} MarksBound(b: Info, marks: seq<Mark>)
    ensures Least(b, marks, WithMarks(b, marks)) && Greatest(b, marks, WithMarks(b, marks))
  {
    if marks != [] {
      hide Least, Greatest, Info.WithMarker;
      var n := |marks| - 1;
      MarksBound(b, marks[..n]);
      LeastMore(b, marks[..n], WithMarks(b, marks[..n]), marks[n]);
      GreatestMore(b, marks[..n], WithMarks(b, marks[..n]), marks[n]);
      assert marks == marks[..n] + [marks[n]];
    }
  }

  /** The bounds of a type and of copies of another one: the lower bound is the least of those that the user has set, or
      of all if the user has set none; so is the upper one the greatest, except for padding. */
  lemma BoundsAreExtreme(b: Info, a: Info, count: nat, disp: int, extent: int)
    requires b.align > 0 && count > 0
    ensures var r := b.WithBounds(a, count, disp, extent);
      var first, last := disp, disp + (count - 1) * extent;
      var mine, others := b.userLb || !a.userLb, a.userLb || !b.userLb;
      && r.userLb == (b.userLb || a.userLb) && (mine ==> r.lb <= b.lb)
      && (others ==> r.lb <= first + a.lb && r.lb <= last + a.lb)
      && ((mine && r.lb == b.lb) || (others && (r.lb == first + a.lb || r.lb == last + a.lb)))
    ensures var r := b.WithBounds(a, count, disp, extent);
      var first, last := disp, disp + (count - 1) * extent;
      var mine, others := b.userUb || !a.userUb, a.userUb || !b.userUb;
      && r.userUb == (b.userUb || a.userUb) && (mine ==> r.ub >= b.ub)
      && (others ==> r.ub >= first + a.ub && r.ub >= last + a.ub)
      && (r.userUb ==> (mine && r.ub == b.ub) || (others && (r.ub == first + a.ub || r.ub == last + a.ub)))
  {
    assert extent * (count - 1) == (count - 1) * extent;
    hide Rem;
  }

  /** Bounds never touch the data, and without a bound set by the user the extent is a multiple of
      the alignment. */
  lemma BoundsKeepValid(b: Info, a: Info, count: nat, disp: int, extent: int)
    requires b.Valid() && count > 0
    ensures var r := b.WithBounds(a, count, disp, extent);
      && r.Valid() && r.desc == b.desc && r.contig == b.contig && r.basic == b.basic
      && r.IsMarker() == b.IsMarker() && r.size == b.size
    ensures var r := b.WithBounds(a, count, disp, extent); !r.userUb ==> Rem(r.ub - r.lb, r.align) == 0
  {
    hide Map, Expand, Shape, ContigLoops, Unbroken, Range, Spread, Rem, Padded;
  }

  /** Appending copies appends exactly the shifted, repeated type map, unless copies of a single
      element overlap; sizes agree in either case. */
  lemma CopiesAppend(b: Info, a: Info, count: nat, disp: int, extent: int)
    requires b.Valid() && a.Valid() && count > 0 && a.size > 0
    ensures var r := b.WithCopies(a, count, disp, extent);
      && Shape(r.desc) && ContigLoops(r.desc) && r.desc != []
      && |Expand(Map(r.desc))| == r.size == b.size + count * a.size && r.size > b.size
      && (Map(r.desc) == Map(b.desc) + a.AsPart().Copies(count, disp, extent) <==>
            !a.AsPart().Overlapping(count, extent))
  {
    hide Map, Expand, Shape, ContigLoops, Range, Displace, Repeat;
    var more := a.AsPart().Entries(count, disp, extent);
    EntriesDescribe(a.AsPart(), count, disp, extent);
    AppendDescription(b.desc, more);
    O.EqualParts(Map(b.desc), Map(more), Map(b.desc), a.AsPart().Copies(count, disp, extent));
    AtLeast(a.size, count);
  }

  lemma NoData(edge: int)
    ensures Shape([]) && Expand(Map([])) == Range(edge, 0)
  {
  }

  /** The flag CONTIGUOUS keeps telling the truth. */
  lemma CopiesContiguous(b: Info, a: Info, count: nat, disp: int, extent: int)
    requires b.Valid() && a.Valid() && count > 0 && a.size > 0 && !b.IsMarker()
    requires a.Representable(count, disp, extent) && b.Continues(a, count, disp, extent)
    ensures var r := b.WithCopies(a, count, disp, extent);
      && Shape(r.desc) && Expand(Map(r.desc)) == Range(r.trueLb, r.size) && r.trueUb == r.trueLb + r.size
  {
    hide Map, Expand, Shape, ContigLoops, Displace, Repeat, Spread, Range, Moved, FirstDisp, Part.Entries, Part.Copies,
         Unbroken;
    NoData(b.Edge(disp));
    var more := a.AsPart().Entries(count, disp, extent);
    CopiesRange(a.AsPart(), count, disp, extent);
    CopiesLength(a.AsPart(), count, disp, extent);
    EntriesDescribe(a.AsPart(), count, disp, extent);
    StillContiguous(b.desc, more, b.Edge(disp) - b.size, b.size, count * a.size);
    ContigBounds(count, disp, extent, a.size, a.trueLb);
    AtLeast(a.size, count);
  }

  lemma StillUnbroken(b: Info, a: Info, count: nat, disp: int, extent: int)
    requires b.Valid() && a.Valid() && count > 0 && a.size > 0 && b.Continues(a, count, disp, extent)
    ensures var r := b.WithCopies(a, count, disp, extent); Shape(r.desc) && Unbroken(r.desc)
  {
    hide Map, Expand, Shape, ContigLoops, Spread, Range, Part.Entries, Unbroken;
    NoEntries();
    CopiesUnbroken(a.AsPart(), count, disp, extent);
    UnbrokenConcat(b.desc, a.AsPart().Entries(count, disp, extent));
  }

  lemma CopiesKeepValid(b: Info, a: Info, count: nat, disp: int, extent: int)
    requires b.Valid() && a.Valid() && count > 0 && a.size > 0 && !b.IsMarker() && !b.basic
    requires a.Representable(count, disp, extent)
    ensures var r := b.WithCopies(a, count, disp, extent);
      r.Valid() && r.IsMarker() == b.IsMarker() && r.basic == b.basic
  {
    hide Map, Expand, Shape, ContigLoops, Unbroken, Displace, Repeat, Spread, Range;
    CopiesAppend(b, a, count, disp, extent);
    AtLeast(a.nbElems, count);
    if b.Continues(a, count, disp, extent) {
      CopiesContiguous(b, a, count, disp, extent);
      StillUnbroken(b, a, count, disp, extent);
    }
  }

  /** Every byte lies between two bounds. */
  ghost predicate Within(m: seq<Block>, lo: int, hi: int) {
    forall x :: x in Expand(m) ==> lo <= x < hi
  }

  lemma WithinConcat(a: seq<Block>, b: seq<Block>, lo: int, hi: int)
    ensures Within(a + b, lo, hi) <==> Within(a, lo, hi) && Within(b, lo, hi)
  {
    ExpandConcat(a, b);
    hide Expand;
    var x, y := Expand(a), Expand(b);
    assert forall i :: i in x + y <==> i in x || i in y;
  }

  lemma WithinDisplace(m: seq<Block>, lo: int, hi: int, k: int)
    requires Within(m, lo, hi)
    ensures Within(Displace(m, k), lo + k, hi + k)
  {
    ExpandDisplace(m, k);
    hide Expand, Displace;
    forall x | x in Expand(Displace(m, k))
      ensures lo + k <= x < hi + k
    {
      var i :| 0 <= i < |Expand(m)| && Shift(Expand(m), k)[i] == x;
      assert Expand(m)[i] in Expand(m);
    }
  }

  lemma WithinWider(m: seq<Block>, lo: int, hi: int, lo': int, hi': int)
    requires Within(m, lo, hi) && lo' <= lo && hi <= hi'
    ensures Within(m, lo', hi')
  {
    hide Expand;
  }

  lemma {:induction false} WithinRepeat(m: seq<Block>, lo: int, hi: int, extent: int, n: nat)
    requires Within(m, lo, hi) && n > 0
    ensures Within(Repeat(m, extent, n), lo + Min(0, extent * (n - 1)), hi + Max(0, extent * (n - 1)))
  {
    hide Within, Expand, Displace, Repeat;
    if n == 1 {
      O.OneIteration(m, extent);
      assert extent * (n - 1) == 0;
    } else {
      WithinRepeat(m, lo, hi, extent, n - 1);
      WithinMore(m, Repeat(m, extent, n - 1), lo, hi, extent, extent * (n - 2));
      RepeatStep(m, extent, n);
      assert extent * (n - 1) == extent * (n - 2) + extent;
      assert (extent >= 0 ==> extent * (n - 2) >= 0) && (extent < 0 ==> extent * (n - 2) <= 0);
    }
  }

  lemma RepeatStep(m: seq<Block>, extent: int, n: nat)
    requires n > 0
    ensures Repeat(m, extent, n) == m + Displace(Repeat(m, extent, n - 1), extent)
  {
  }

  lemma WithinMore(m: seq<Block>, rest: seq<Block>, lo: int, hi: int, extent: int, x: int)
    requires Within(m, lo, hi) && Within(rest, lo + Min(0, x), hi + Max(0, x))
    ensures (extent >= 0 ==> x >= 0) && (extent < 0 ==> x <= 0) ==>
      Within(m + Displace(rest, extent), lo + Min(0, x + extent), hi + Max(0, x + extent))
  {
    hide Within, Expand, Displace;
    if (extent >= 0 ==> x >= 0) && (extent < 0 ==> x <= 0) {
      var lo', hi' := lo + Min(0, x + extent), hi + Max(0, x + extent);
      WithinDisplace(rest, lo + Min(0, x), hi + Max(0, x), extent);
      WithinWider(Displace(rest, extent), lo + Min(0, x) + extent, hi + Max(0, x) + extent, lo', hi');
      WithinWider(m, lo, hi, lo', hi');
      WithinConcat(m, Displace(rest, extent), lo', hi');
    }
  }

  /** Elements in a row lie between two bounds exactly if the first and the last one do. */
  lemma {:induction false} WithinElems(disp: int, size: nat, extent: int, count: nat, lo: int, hi: int)
    requires size > 0 && count > 0
    ensures Within(ElemMap(disp, size, extent, count), lo, hi) <==>
      lo <= disp && disp + size <= hi && lo <= disp + (count - 1) * extent && disp + (count - 1) * extent + size <= hi
    decreases count
  {
    hide ElemMap, Within;
    WithinElem(disp, size, extent, count, lo, hi);
    if count == 1 {
      assert (count - 1) * extent == 0;
    } else {
      WithinElems(disp + extent, size, extent, count - 1, lo, hi);
      Between(disp, extent, count - 1);
      assert (count - 1) * extent == extent + (count - 2) * extent;
    }
  }

  /** The second of several equal steps is between the first and the last one. */
  lemma Between(disp: int, extent: int, n: nat)
    requires n > 0
    ensures Min(disp, disp + n * extent) <= disp + extent <= Max(disp, disp + n * extent)
  {
    assert extent >= 0 ==> n * extent >= extent;
    assert extent <= 0 ==> n * extent <= extent;
  }

  lemma WithinElem(disp: int, size: nat, extent: int, count: nat, lo: int, hi: int)
    requires size > 0 && count > 0
    ensures Within(ElemMap(disp, size, extent, count), lo, hi) <==>
      lo <= disp && disp + size <= hi && (count > 1 ==> Within(ElemMap(disp + extent, size, extent, count - 1), lo, hi))
  {
    var rest := ElemMap(disp + extent, size, extent, count - 1);
    assert ElemMap(disp, size, extent, count) == [Block(disp, size)] + rest;
    WithinConcat([Block(disp, size)], rest, lo, hi);
    WithinBlock(disp, size, lo, hi);
  }

  lemma WithinBlock(disp: int, size: nat, lo: int, hi: int)
    requires size > 0
    ensures Within([Block(disp, size)], lo, hi) <==> lo <= disp && disp + size <= hi
  {
    assert Expand([Block(disp, size)]) == Range(disp, size) + Expand([]) == Range(disp, size);
    var r := Range(disp, size);
    assert r[0] == disp && r[size - 1] == disp + size - 1;
    assert disp in r && disp + size - 1 in r;
    assert forall x :: x in r ==> disp <= x < disp + size;
  }

  /** Where the last element of a single entry is, once its count has been multiplied. */
  function Far(a: Info, count: nat, disp: int): int
    requires |a.desc| == 1 && a.desc[0].Elem?
  {
    a.desc[0].disp + disp + (a.desc[0].count * count - 1) * a.desc[0].extent
  }

  /** The true bounds enclose every byte, unless copies overlap and the last element ends up outside of the type so
      far and of the copies. */
  lemma TrueBoundsEnclose(b: Info, a: Info, count: nat, disp: int, extent: int)
    requires b.Valid() && a.Valid() && count > 0 && a.size > 0
    requires Within(Map(b.desc), b.trueLb, b.trueUb) && Within(Map(a.desc), a.trueLb, a.trueUb)
    ensures var r := b.WithCopies(a, count, disp, extent);
      var x, y := Spread(count, disp, extent).0 + a.trueLb, Spread(count, disp, extent).1 + a.trueUb;
      && Shape(r.desc)
      && (Within(Map(r.desc), r.trueLb, r.trueUb) <==>
            a.AsPart().Overlapping(count, extent) ==>
              && Min(Min(x, y), b.trueLb) <= Far(a, count, disp)
              && Far(a, count, disp) + BasicSize(a.desc[0].id) <= Max(Max(x, y), b.trueUb))
  {
    hide Map, Expand, Shape, ContigLoops, Displace, Repeat, Range, Within, Unbroken, Part.Copies, Part.Entries;
    CopiesAppend(b, a, count, disp, extent);
    var r := b.WithCopies(a, count, disp, extent);
    var more := a.AsPart().Entries(count, disp, extent);
    EntriesDescribe(a.AsPart(), count, disp, extent);
    MapConcat(b.desc, more);
    WithinWider(Map(b.desc), b.trueLb, b.trueUb, r.trueLb, r.trueUb);
    WithinConcat(Map(b.desc), Map(more), r.trueLb, r.trueUb);
    CopiesWithin(b, a, count, disp, extent);
    if a.AsPart().Overlapping(count, extent) {
      MergedWithin(a, count, disp, extent, r.trueLb, r.trueUb);
    } else {
      assert Map(more) == a.AsPart().Copies(count, disp, extent);
    }
  }

  /** The copies themselves, and with them the first element, are always inside. */
  lemma CopiesWithin(b: Info, a: Info, count: nat, disp: int, extent: int)
    requires a.Valid() && count > 0 && a.size > 0 && Within(Map(a.desc), a.trueLb, a.trueUb)
    ensures var r := b.WithCopies(a, count, disp, extent);
      Within(a.AsPart().Copies(count, disp, extent), r.trueLb, r.trueUb)
  {
    var r := b.WithCopies(a, count, disp, extent);
    var e := extent * (count - 1);
    hide Map, Expand, Shape, ContigLoops, Displace, Repeat, Range, Unbroken;
    WithinRepeat(Map(a.desc), a.trueLb, a.trueUb, extent, count);
    WithinDisplace(Repeat(Map(a.desc), extent, count), a.trueLb + Min(0, e), a.trueUb + Max(0, e), disp);
    WithinWider(a.AsPart().Copies(count, disp, extent), a.trueLb + Min(0, e) + disp, a.trueUb + Max(0, e) + disp,
                r.trueLb, r.trueUb);
  }

  lemma MergedWithin(a: Info, count: nat, disp: int, extent: int, lo: int, hi: int)
    requires a.Valid() && count > 0 && a.AsPart().Overlapping(count, extent)
    requires Within(a.AsPart().Copies(count, disp, extent), lo, hi)
    ensures Shape(a.AsPart().Entries(count, disp, extent))
    ensures Within(Map(a.AsPart().Entries(count, disp, extent)), lo, hi) <==>
      lo <= Far(a, count, disp) && Far(a, count, disp) + BasicSize(a.desc[0].id) <= hi
  {
    var e := a.desc[0];
    var size, first := BasicSize(e.id), e.disp + disp;
    SingleShape(a.desc);
    hide Map, Expand, Shape, ContigLoops, Displace, Repeat, Range, Within, BasicSize, ElemMap, Unbroken;
    assert e.count * count > 0;
    O.OneElem(Elem(e.id, e.contig, e.count * count, first, extent));
    WithinElems(first, size, extent, e.count * count, lo, hi);
    RepeatStep(Map(a.desc), extent, count);
    DisplaceConcat(Map(a.desc), Displace(Repeat(Map(a.desc), extent, count - 1), extent), disp);
    DisplaceElemMap(e.disp, size, extent, e.count, disp);
    WithinConcat(ElemMap(first, size, extent, e.count),
                 Displace(Displace(Repeat(Map(a.desc), extent, count - 1), extent), disp), lo, hi);
    WithinElems(first, size, extent, e.count, lo, hi);
  }

  /** Without bounds set by the user, the bounds cover those of the type so far and of every copy; the
      lower one is one of them, and the upper one is only rounded up. */
  lemma BoundsCover(b: Info, a: Info, count: nat, disp: int, extent: int, i: nat)
    requires b.align > 0 && i < count && !b.userLb && !a.userLb && !b.userUb && !a.userUb
    ensures var r := b.WithBounds(a, count, disp, extent);
      && r.lb <= b.lb && r.lb <= disp + i * extent + a.lb && r.ub >= b.ub && r.ub >= disp + i * extent + a.ub
      && (r.lb == b.lb || r.lb == disp + a.lb || r.lb == disp + (count - 1) * extent + a.lb)
      && (r.ub < b.ub + 2 * r.align || r.ub < disp + a.ub + 2 * r.align ||
          r.ub < disp + (count - 1) * extent + a.ub + 2 * r.align)
  {
    var e := (count - 1) * extent;
    assert extent * (count - 1) == e;
    assert extent >= 0 ==> 0 <= i * extent <= e;
    assert extent <= 0 ==> e <= i * extent <= 0;
  }

  lemma AppendDescription(s: seq<Entry>, more: seq<Entry>)
    requires Shape(s) && Shape(more) && ContigLoops(s) && ContigLoops(more) && more != []
    ensures Shape(s + more) && ContigLoops(s + more) && Map(s + more) == Map(s) + Map(more)
    ensures |Expand(Map(s + more))| == |Expand(Map(s))| + |Expand(Map(more))|
    ensures |Expand(Map(more))| > 0
  {
    MapConcat(s, more);
    ContigConcat(s, more);
    ExpandConcat(Map(s), Map(more));
    LeadingByte(more);
  }

  /** Appending contiguous data right behind contiguous data. */
  lemma StillContiguous(s: seq<Entry>, more: seq<Entry>, lo: int, n: nat, m: nat)
    requires Shape(s) && Shape(more)
    requires Expand(Map(s)) == Range(lo, n) && Expand(Map(more)) == Range(lo + n, m)
    ensures Shape(s + more) && Expand(Map(s + more)) == Range(lo, n + m)
  {
    MapConcat(s, more);
    hide Map, Expand, Shape;
    ExpandConcat(Map(s), Map(more));
    RangeSplit(lo, n, m);
  }

  /** The description with its closing marker: what commit hands to the optimizer and convertors. */
  function Closed(t: Info): Layout {
    Layout(t.desc + [EndLoop(|t.desc|, FirstDisp(t.desc, 0), t.size)], t.size, t.ub - t.lb)
  }

  /** Whatever is built by adding can be walked, and one item of it is its type map. */
  lemma ClosedLayout(t: Info)
    requires t.Valid()
    ensures Closed(t).Sane() && Body(Closed(t).desc, 0) == Map(t.desc) && Nesting(Closed(t).desc, 0) == Depth(t.desc)
    ensures Closed(t).desc[0].EndLoop? <==> t.desc == []
  {
    if t.desc != [] {
      O.StartsWithData(t.desc);
    }
    hide Map, Expand, Shape, ContigLoops, Range, Sound, Honest, Body, Close, Nesting, Depth, Unbroken;
    var d := Closed(t).desc;
    assert d[0..|t.desc|] == t.desc;
    BodyIsMap(d, 0, |t.desc|);
    HonestIsContig(d, 0, |t.desc|);
    NestingIsDepth(d, 0, |t.desc|);
  }

  /** Contiguous types: the data begins at the true lower bound, is always rewritten rightly, and becomes a single
      element exactly if no element but the first one has an extent of its own. */
  lemma ContiguousCommit(t: Info)
    requires t.Valid() && t.contig && t.size > 0
    ensures var d := Closed(t).desc;
      && Sound(d, 0) && !d[0].EndLoop? && O.Plain(d, 0) && FirstDisp(d, 0) == t.trueLb == FirstDisp(t.desc, 0)
      && O.Clean(d, 0, O.NoTail) && Sound(d, Next(d, 0))
      && (O.Pieces(d, 0, O.NoTail) == 1 <==> O.Dense(d, Next(d, 0)))
  {
    hide Map, Expand, Shape, ContigLoops, Range, Honest, Body, Close, Nesting, Depth, Unbroken;
    ClosedLayout(t);
    var d := Closed(t).desc;
    assert d[0..|t.desc|] == t.desc;
    O.PlainIsUnbroken(d, 0, |t.desc|);
    FirstDispClosed(t.desc, d[|t.desc|], 0);
    RangeLength(t.trueLb, t.size);
    O.RangeEntry(d, 0, t.trueLb);
    O.RangeMerges(d, Next(d, 0), t.trueLb + |Expand(One(d, 0))|, O.TailAfter(d, 0));
  }

  /** No element but the first one has an extent of its own. */
  ghost predicate DenseBehindFirst(t: Info)
    requires t.Valid()
  {
    t.size > 0 ==> (ClosedLayout(t); O.BodyNext(Closed(t).desc, 0); O.Dense(Closed(t).desc, Next(Closed(t).desc, 0)))
  }

  /** The description is rewritten rightly. */
  ghost predicate CleanlyCommitted(t: Info)
    requires t.Valid()
  {
    ClosedLayout(t);
    O.Clean(Closed(t).desc, 0, O.NoTail)
  }

  // ---------------------------------------------------------------- room on the stacks

  /** Entries of the stack that is part of a convertor. */
  const STATIC_STACK: nat := 5

  /** Both stacks are sized by the number of loops.  The optimizer needs one entry more than kept loops are nested,
      a convertor two more than loops of the rewritten description are. */
  ghost predicate StackFits(t: Info)
    requires t.Valid()
  {
    ClosedLayout(t);
    && KeptDepth(t.desc) + 1 <= t.loops + 2
    && O.WrittenDepth(Closed(t).desc, 0, O.NoTail) + 2 <= Max(STATIC_STACK, t.loops + 1)
  }

  /** What adding keeps. */
  ghost predicate Roomy(t: Info)
    requires Shape(t.desc)
  {
    2 * KeptDepth(t.desc) <= t.loops
  }

  /** Rewriting adds at most one level to the loops that it keeps. */
  lemma WrittenNesting(t: Info)
    requires t.Valid()
    ensures Sound(Closed(t).desc, 0) && O.KeptNesting(Closed(t).desc, 0) == KeptDepth(t.desc)
    ensures KeptDepth(t.desc) <= O.WrittenDepth(Closed(t).desc, 0, O.NoTail) <= KeptDepth(t.desc) + 1
  {
    hide Map, Expand, Shape, ContigLoops, Range, Sound, Honest, Body, Unbroken, KeptDepth, O.KeptNesting,
         O.WrittenDepth;
    ClosedLayout(t);
    assert Closed(t).desc[0..|t.desc|] == t.desc;
    O.KeptNestingIsDepth(Closed(t).desc, 0, |t.desc|);
    O.KeptWritten(Closed(t).desc, 0, O.NoTail);
  }

  lemma RoomyFits(t: Info)
    requires t.Valid() && Roomy(t)
    ensures StackFits(t)
  {
    hide Info.Valid, KeptDepth, O.KeptNesting, O.WrittenDepth, Shape, Closed;
    WrittenNesting(t);
  }

  lemma KeptWithCopies(b: Info, a: Info, count: nat, disp: int, extent: int)
    requires b.Valid() && a.Valid() && count > 0 && a.size > 0
    ensures var r := b.WithCopies(a, count, disp, extent);
      Shape(r.desc) && KeptDepth(r.desc) == Max(KeptDepth(b.desc), EntryKept(a.AsPart(), count, extent))
  {
    hide Map, Expand, Shape, ContigLoops, Range, KeptDepth, Unbroken, Part.Entries, EntryKept;
    EntriesKept(a.AsPart(), count, disp, extent);
    KeptConcat(b.desc, a.AsPart().Entries(count, disp, extent));
  }

  /** The room is kept, except when copies of a predefined type with gaps between them are added to a type with loops
      that are kept; it is then enough only if these are at most two deep. */
  lemma LoopsCounted(b: Info, a: Info, count: nat, disp: int, extent: int)
    requires b.Valid() && a.Valid() && count > 0 && a.size > 0 && !b.IsMarker() && !b.basic
    requires a.Representable(count, disp, extent) && Roomy(b) && Roomy(a)
    ensures var r := b.WithCopies(a, count, disp, extent);
      && r.Valid()
      && (Roomy(r) <==> !(a.AsPart().Strides(count, extent) && KeptDepth(b.desc) > 0))
      && (StackFits(r) <==> !(a.AsPart().Strides(count, extent) && KeptDepth(b.desc) > 2))
  {
    hide Map, Expand, Shape, ContigLoops, Range, KeptDepth, Unbroken, Part.Entries, Spread, Closed, O.WrittenDepth,
         Sound;
    CopiesKeepValid(b, a, count, disp, extent);
    KeptWithCopies(b, a, count, disp, extent);
    WrittenNesting(b.WithCopies(a, count, disp, extent));
  }

  // ---------------------------------------------------------------- the flag NO_GAPS

  /** Items without gaps follow each other directly. */
  predicate GapFlagTrue(t: Info) {
    t.noGaps ==> t.size == t.ub - t.lb
  }

  /** The bounds of copies without data leave the extent of a type without gaps as it is.  A lower bound set by the
      user in the added type only replaces that of the type; otherwise the lower bound can only go down, by `slack`. */
  predicate KeepsExtent(b: Info, a: Info, count: nat, disp: int, extent: int)
    requires count > 0 && b.align > 0
  {
    var low, high := Spread(count, disp, extent).0 + a.lb, Spread(count, disp, extent).1 + a.ub;
    var align := Max(b.align, a.align);
    if a.userLb && !b.userLb then
      if b.userUb && !a.userUb then low == b.lb
      else if a.userUb && !b.userUb then high - low == b.size
      else if a.userUb then Max(b.ub, high) - low == b.size
      else Rem(b.size, align) == 0 && PadsTo(Max(b.ub, high) - low, align, b.size)
    else
      var slack := if a.userLb == b.userLb then Max(0, b.lb - low) else 0;
      if a.userUb && !b.userUb then b.ub - high == slack
      else
        && slack == 0 && (high <= b.ub || (b.userUb && !a.userUb))
        && (b.userUb || Rem(b.size, align) == 0)
  }

  /** An extent `n` that is padded up to the multiple `size` of the alignment; one below zero gains more than one. */
  predicate PadsTo(n: int, align: nat, size: nat) {
    if n >= 0 then size - align < n <= size else size - 2 * align < n < size - align
  }

  lemma PaddedTo(lb: int, ub: int, align: nat, size: nat)
    requires align > 0
    ensures Padded(lb, ub, align) - lb == size <==> Rem(size, align) == 0 && PadsTo(ub - lb, align, size)
  {
    var n := ub - lb;
    if Rem(size, align) == 0 && PadsTo(n, align, size) {
      PadsRightly(n, align, size);
    }
  }

  lemma PadsRightly(n: int, align: nat, size: nat)
    requires align > 0 && size % align == 0 && PadsTo(n, align, size)
    ensures Padded(0, n, align) == size
  {
    var k := size / align;
    assert size == align * k;
    if n >= 0 {
      if n < size {
        assert n == align * (k - 1) + (n - size + align);
        RemainderIs(n, align, k - 1, n - size + align);
      } else {
        RemainderIs(n, align, k, 0);
      }
    } else {
      assert -n == align * (1 - k) + (size - align - n);
      RemainderIs(-n, align, 1 - k, size - align - n);
    }
  }

  lemma ExtentKept(b: Info, a: Info, count: nat, disp: int, extent: int)
    requires count > 0 && b.align > 0
    ensures var r := b.WithBounds(a, count, disp, extent);
      && r.size == b.size && r.noGaps == b.noGaps
      && (b.size == b.ub - b.lb ==> (r.size == r.ub - r.lb <==> KeepsExtent(b, a, count, disp, extent)))
  {
    hide Spread, Padded, Rem;
    var low, high := Spread(count, disp, extent).0 + a.lb, Spread(count, disp, extent).1 + a.ub;
    if !a.userUb && !b.userUb {
      var lower := if a.userLb == b.userLb then Min(b.lb, low) else if b.userLb then b.lb else low;
      PaddedTo(lower, Max(b.ub, high), Max(b.align, a.align), b.size);
    }
  }

  /** The flag NO_GAPS keeps telling the truth, except when a type without data changes the extent. */
  lemma GapFlagKept(b: Info, a: Info, count: nat, disp: int, extent0: int)
    requires b.Valid() && a.Valid() && GapFlagTrue(b) && Added(b, a, count, disp, extent0).Some?
    ensures
      GapFlagTrue(Added(b, a, count, disp, extent0).value) <==>
        || count == 0 || a.IsMarker() || a.size > 0 || !b.noGaps
        || KeepsExtent(b, a, count, disp, if extent0 == -1 then a.ub - a.lb else extent0)
  {
    hide Map, Expand, Shape, ContigLoops, Range, Unbroken, Spread, Part.Entries, Part.Sane, KeepsExtent,
         Info.WithBounds;
    if count > 0 {
      ExtentKept(b, a, count, disp, if extent0 == -1 then a.ub - a.lb else extent0);
    }
  }

  // ---------------------------------------------------------------- the whole operation

  /** What adding makes of a datatype; None if there would be too many entries. */
  function Added(b: Info, a: Info, count: nat, disp: int, extent0: int): Option<Info>
    requires b.align > 0 && Shape(a.desc) && (a.size > 0 ==> a.desc != [])
  {
    var extent := if extent0 == -1 then a.ub - a.lb else extent0;
    if count == 0 then Some(b)
    else if a.IsMarker() then Some(b.WithMarker(a.id, disp))
    else if !a.basic && count != 1 && |a.desc| >= MAX_COMPONENTS - 2 then None
    else
      var r := b.WithBounds(a, count, disp, extent);
      if a.size == 0 then Some(r) else Some(r.WithCopies(a, count, disp, extent))
  }

  // ---------------------------------------------------------------- types that are always rewritten rightly

  /** Several elements are back to back, and a contiguous loop has no gaps. */
  ghost predicate SimpleAt(s: seq<Entry>, i: nat)
    requires i < |s|
  {
    match s[i]
    case Elem(id, _, count, _, extent) => count == 1 || extent == BasicSize(id)
    case Loop(contig, _, items, extent) =>
      contig ==> i + items < |s| && s[i + items].EndLoop? && extent == s[i + items].size
    case EndLoop(_, _, _) => true
  }

  ghost predicate Simple(s: seq<Entry>) {
    forall i :: 0 <= i < |s| ==> SimpleAt(s, i)
  }

  lemma SimpleConcat(a: seq<Entry>, b: seq<Entry>)
    requires Simple(a)
    ensures Simple(a + b) <==> Simple(b)
  {
    var s := a + b;
    forall i | 0 <= i < |a|
      ensures SimpleAt(s, i)
    {
      assert SimpleAt(a, i);
    }
    forall i | 0 <= i < |b|
      ensures SimpleAt(s, |a| + i) == SimpleAt(b, i)
    {
    }
    if Simple(b) {
      forall i | |a| <= i < |s|
        ensures SimpleAt(s, i)
      {
        assert SimpleAt(b, i - |a|);
      }
    }
  }

  lemma SimpleMoved(s: seq<Entry>, k: int)
    requires Simple(s)
    ensures Simple(Moved(s, k))
  {
    forall i | 0 <= i < |s|
      ensures SimpleAt(Moved(s, k), i)
    {
      assert SimpleAt(s, i);
    }
  }

  lemma SimpleOne(e: Entry)
    ensures Simple([e]) <==> match e
      case Elem(id, _, count, _, extent) => count == 1 || extent == BasicSize(id)
      case Loop(contig, _, items, extent) => !contig
      case EndLoop(_, _, _) => true
  {
    assert Simple([e]) <==> SimpleAt([e], 0);
  }

  lemma SimpleLoop(lp: Entry, body: seq<Entry>, end: Entry)
    requires lp.Loop? && lp.items == |body| + 1 && end.EndLoop? && Simple(body)
    ensures Simple([lp] + body + [end]) <==> lp.contig ==> lp.extent == end.size
  {
    var s := [lp] + body + [end];
    assert SimpleAt(s, 0) <==> lp.contig ==> lp.extent == end.size;
    forall i | 0 < i < |s|
      ensures SimpleAt(s, i)
    {
      assert i <= |body| ==> SimpleAt(body, i - 1);
    }
  }

  /** Copies of a predefined type can always be added; those of a type that consists of one element, or that is
      contiguous, only back to back. */
  predicate StaysSimple(a: Info, count: nat, extent: int)
    requires a.desc != []
  {
    a.basic || count == 1 ||
    if a.AsPart().Single(extent) then extent == BasicSize(a.desc[0].id) else a.contig ==> extent == a.size
  }

  lemma EntriesSimple(a: Info, count: nat, disp: int, extent: int)
    requires a.Valid() && a.size > 0 && Simple(a.desc) && count > 0
    ensures Simple(a.AsPart().Entries(count, disp, extent)) <==> StaysSimple(a, count, extent)
  {
    hide Shape, Map, Expand, ContigLoops, Unbroken, BasicSize;
    var p, s := a.AsPart(), a.AsPart().Entries(count, disp, extent);
    if a.basic {
      if p.Strides(count, extent) {
        SimpleOne(Elem(a.id, true, 1, disp, a.size));
        SimpleLoop(s[0], [Elem(a.id, true, 1, disp, a.size)], s[2]);
      } else {
        SimpleOne(s[0]);
      }
    } else if p.Single(extent) {
      SingleShape(a.desc);
      assert SimpleAt(a.desc, 0);
      SimpleOne(s[0]);
      assert count > 1 ==> a.desc[0].count * count > 1;
    } else {
      SimpleMoved(a.desc, disp);
      if count != 1 {
        SimpleLoop(s[0], Moved(a.desc, disp), s[|a.desc| + 1]);
      }
    }
  }

  /** Which adds keep a type simple. */
  lemma AddedSimple(b: Info, a: Info, count: nat, disp: int, extent0: int)
    requires b.Valid() && a.Valid() && Simple(b.desc) && Simple(a.desc)
    ensures var r := Added(b, a, count, disp, extent0);
      r.Some? ==>
        (Simple(r.value.desc) <==>
         count == 0 || a.size == 0 || StaysSimple(a, count, if extent0 == -1 then a.ub - a.lb else extent0))
  {
    hide Simple, StaysSimple, Shape, Map, Expand, ContigLoops, Unbroken, Spread;
    if count > 0 && a.size > 0 {
      var extent := if extent0 == -1 then a.ub - a.lb else extent0;
      EntriesSimple(a, count, disp, extent);
      SimpleConcat(b.desc, a.AsPart().Entries(count, disp, extent));
    }
  }

  lemma {:induction false} SimpleClean(d: seq<Entry>, pos: nat, tail: O.Tail)
    requires Sound(d, pos) && Simple(d) && (tail.Tail? ==> !tail.strided)
    ensures O.Clean(d, pos, tail)
    decreases |d| - pos
  {
    hide Close, BasicSize;
    assert SimpleAt(d, pos);
    if d[pos].Elem? {
      SimpleClean(d, pos + 1, O.TailAfter(d, pos));
    } else if d[pos].Loop? {
      O.BodyNotEmpty(d, pos);
      SimpleClean(d, pos + 1, O.NoTail);
      O.BodyNext(d, pos);
      SimpleClean(d, Next(d, pos), O.TailAfter(d, pos));
    }
  }

  /** A simple type is always committed rightly. */
  lemma SimpleCommits(t: Info)
    requires t.Valid() && Simple(t.desc)
    ensures CleanlyCommitted(t)
  {
    ClosedLayout(t);
    var end := EndLoop(|t.desc|, FirstDisp(t.desc, 0), t.size);
    SimpleConcat(t.desc, [end]);
    SimpleOne(end);
    hide Simple, O.Clean, Sound;
    SimpleClean(Closed(t).desc, 0, O.NoTail);
  }

  const EMPTY: Info :=
    Info(false, 0, 0, MAX_LONG, MIN_LONG, MAX_LONG, MIN_LONG, 0, 1, true, false, false, false, 0, [])

  /** A predefined type. */
  function Predefined(id: nat, align: nat): Info {
    var n := BasicSize(id);
    Info(true, id, n, 0, n, 0, n, 1, align, true, true, false, false, 0, [Elem(id, true, 1, 0, n)])
  }

  /** The two markers. */
  function Marker(id: nat): Info {
    Info(false, id, 0, 0, 0, 0, 0, 1, 1, false, false, false, false, 0, [])
  }

  lemma PredefinedValid(id: nat, align: nat)
    requires 4 <= id && BasicSize(id) > 0 && align > 0
    ensures Predefined(id, align).Valid() && Map(Predefined(id, align).desc) == [Block(0, BasicSize(id))]
  {
    var n := BasicSize(id);
    O.OneElem(Elem(id, true, 1, 0, n));
    assert ElemMap(0, n, n, 1) == [Block(0, n)];
    assert Expand([Block(0, n)]) == Range(0, n) + Expand([]);
    assert [Elem(id, true, 1, 0, n)][1..] == [];
  }

  class Datatype {
    var info: Info

    ghost predicate Valid()
      reads this
    {
      info.Valid()
    }

    ghost function Meaning(): seq<Block>
      reads this
      requires Valid()
    {
      Map(info.desc)
    }

    /** An empty datatype. */
    constructor ()
      ensures Valid() && Meaning() == [] && info == EMPTY
    {
      info := EMPTY;
      new;
      assert Expand(Map([])) == [];
    }

    /** A predefined datatype. */
    constructor Basic(id: nat, align: nat)
      requires 4 <= id && BasicSize(id) > 0 && align > 0
      ensures Valid() && Meaning() == [Block(0, BasicSize(id))] && info == Predefined(id, align)
      ensures info.contig && info.noGaps && info.size == info.ub - info.lb == BasicSize(id)
    {
      info := Predefined(id, align);
      new;
      PredefinedValid(id, align);
    }

    /** A marker of the lower or upper bound. */
    constructor Bound(id: nat)
      requires id == ID_LB || id == ID_UB
      ensures Valid() && info == Marker(id)
    {
      info := Marker(id);
      new;
      assert Expand(Map([])) == [];
    }

    /** Appends `count` copies of `add`, `extent` apart, the first one at `disp`; an extent of -1
        stands for the one of the added type. */
    method Add(add: Datatype, count: nat, disp: int, extent0: int) returns (ok: bool)
      requires Valid() && add.Valid() && !info.IsMarker() && !info.basic
      requires add.info.Representable(count, disp, if extent0 == -1 then add.info.ub - add.info.lb else extent0)
      modifies this
      ensures Valid() && !info.IsMarker() && !info.basic
      ensures var r := Added(old(info), old(add.info), count, disp, extent0);
        ok == r.Some? && info == if ok then r.value else old(info)
      ensures !ok || count == 0 || old(add.info).size == 0 ==>
        Meaning() == old(Meaning()) && info.contig == old(info.contig)
      ensures ok && count > 0 && old(add.info).size > 0 ==>
        var a := old(add.info);
        var extent := if extent0 == -1 then a.ub - a.lb else extent0;
        && info.size == old(info.size) + count * a.size
        && (Meaning() == old(Meaning()) + a.AsPart().Copies(count, disp, extent) <==>
              !a.AsPart().Overlapping(count, extent))
    {
      hide Map, Expand, Shape, ContigLoops, Displace, Repeat, Spread, Range, Unbroken;
      hide Info.WithMarker, Info.WithBounds, Info.WithCopies, Part.Copies, Info.Representable;
      if count == 0 {
        return true;
      }
      var a := add.info;
      var extent := if extent0 == -1 then a.ub - a.lb else extent0;
      if a.IsMarker() {
        MarkerKeepsValid(info, a.id, disp);
        info := info.WithMarker(a.id, disp);
        return true;
      }
      if !a.basic && count != 1 && |a.desc| >= MAX_COMPONENTS - 2 {
        return false;
      }
      var b := info.WithBounds(a, count, disp, extent);
      BoundsKeepValid(info, a, count, disp, extent);
      info := b;
      if a.size == 0 {
        return true;
      }
      CopiesAppend(b, a, count, disp, extent);
      CopiesKeepValid(b, a, count, disp, extent);
      info := b.WithCopies(a, count, disp, extent);
      ok := true;
    }

    /** The rewritten description that convertors use.  It keeps the bytes and their order exactly
        when the description is clean. */
    method Commit() returns (opt: Option<Layout>, ghost deepest: nat)
      requires Valid()
      ensures opt.None? <==> info.size == 0
      ensures opt.Some? ==>
        && opt.value.size == info.size && opt.value.extent == info.ub - info.lb && Sound(opt.value.desc, 0)
        && (Expand(Body(opt.value.desc, 0)) == Expand(Meaning()) <==> CleanlyCommitted(info))
        && (CleanlyCommitted(info) ==> opt.value.WellFormed())
        && deepest == KeptDepth(info.desc) <= Nesting(opt.value.desc, 0) <= Depth(info.desc)
        && (ClosedLayout(info); Nesting(opt.value.desc, 0) == O.WrittenDepth(Closed(info).desc, 0, O.NoTail))
        && opt.value.desc[|opt.value.desc| - 1] == EndLoop(|opt.value.desc| - 1, FirstDisp(info.desc, 0), info.size)
      ensures opt.Some? && info.contig ==>
        && FirstDisp(info.desc, 0) == info.trueLb && CleanlyCommitted(info)
        && 0 < O.Covers(opt.value.desc[0]) <= info.size
        && (O.Covers(opt.value.desc[0]) == info.size <==> DenseBehindFirst(info))
    {
      ClosedLayout(info);
      WrittenNesting(info);
      if info.size > 0 {
        FirstDispClosed(info.desc, Closed(info).desc[|info.desc|], 0);
        if info.contig {
          ContiguousCommit(info);
        }
      }
      hide Map, Expand, Shape, ContigLoops, Range, Sound, Honest, Body, Close, O.Clean, Closed, Unbroken, Depth,
           Nesting,
           KeptDepth, O.KeptNesting, O.WrittenDepth;
      opt, deepest := O.Commit(Closed(info));
    }
  }
}

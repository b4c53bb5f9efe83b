/** Datatypes that are built by adding and do not mean, or are not sent as, what one would expect. */
module BuiltTypes {
  import opened Common
  import opened TypeMap
  import opened Walking
  import opened DatatypeAdd
  import opened Packing
  import O = Optimizer
  import Gaps = ContiguousWithGaps
  import Contiguous

  const INT1: nat := 4
  const INT2: nat := 5
  const INT4: nat := 6

  /** One step of building, as a fact about values. */
  ghost predicate Makes(b: Info, a: Info, count: nat, disp: int, extent: int, r: Info) {
    && b.align > 0 && Shape(a.desc) && (a.size > 0 ==> a.desc != [])
    && a.Representable(count, disp, if extent == -1 then a.ub - a.lb else extent)
    && Added(b, a, count, disp, extent) == Some(r)
  }

  lemma Sizes()
    ensures BasicSize(INT1) == 1 && BasicSize(INT2) == 2 && BasicSize(INT4) == 4 && BasicSize(UINT1) == 1
  {
  }

  lemma OneEntry(e: Entry)
    requires e.Elem? && BasicSize(e.id) > 0 && e.count > 0
    ensures Shape([e])
  {
    assert [e][1..] == [];
  }

  // ---------------------------------------------------------------- copies that overlap

  /** A 2-byte integer with an extent of one byte, before and after its upper bound is set. */
  const NARROW: Info :=
    Info(false, 0, 2, 0, 2, 0, 2, 1, 2, true, true, false, false, 0, [Elem(INT2, true, 1, 0, 1)])
  const NARROWED: Info := NARROW.(ub := 1, userUb := true, noGaps := false)

  /** Two of them, one byte apart, before and after the lower bound is set so that the extent is one byte again. */
  const PAIR: Info :=
    Info(false, 0, 4, 0, 3, 0, 2, 2, 2, false, false, false, true, 0, [Elem(INT2, true, 2, 0, 1)])
  const PAIRED: Info := PAIR.(lb := 1, userLb := true)

  /** Two pairs, one byte apart. */
  const PAIRS: Info :=
    Info(false, 0, 8, 0, 4, 1, 3, 4, 2, false, false, true, true, 0, [Elem(INT2, true, 4, 0, 1)])

  lemma MakesNarrow()
    ensures Makes(EMPTY, Predefined(INT2, 2), 1, 0, 1, NARROW)
  {
    Sizes();
    OneEntry(Elem(INT2, true, 1, 0, 2));
    hide Shape, BasicSize;
    var a := Predefined(INT2, 2);
    var b := EMPTY.WithBounds(a, 1, 0, 1);
    assert b == EMPTY.(lb := 0, ub := 2, align := 2);
    assert a.AsPart().Entries(1, 0, 1) == [Elem(INT2, true, 1, 0, 1)];
    assert b.desc + [Elem(INT2, true, 1, 0, 1)] == [Elem(INT2, true, 1, 0, 1)];
  }

  lemma MakesPair()
    ensures Makes(EMPTY, NARROWED, 2, 0, -1, PAIR)
  {
    Sizes();
    OneEntry(Elem(INT2, true, 1, 0, 1));
    hide Shape, BasicSize;
    var b := EMPTY.WithBounds(NARROWED, 2, 0, 1);
    assert b == EMPTY.(lb := 0, ub := 2, align := 2, userUb := true);
    assert NARROWED.AsPart().Entries(2, 0, 1) == [Elem(INT2, true, 2, 0, 1)];
    assert b.desc + [Elem(INT2, true, 2, 0, 1)] == [Elem(INT2, true, 2, 0, 1)];
  }

  lemma MakesPairs()
    ensures Makes(EMPTY, PAIRED, 2, 0, -1, PAIRS)
  {
    Sizes();
    OneEntry(Elem(INT2, true, 2, 0, 1));
    hide Shape, BasicSize;
    var b := EMPTY.WithBounds(PAIRED, 2, 0, 1);
    assert b == EMPTY.(lb := 1, ub := 3, align := 2, userLb := true, userUb := true);
    assert PAIRED.AsPart().Entries(2, 0, 1) == [Elem(INT2, true, 4, 0, 1)];
    assert b.desc + [Elem(INT2, true, 4, 0, 1)] == [Elem(INT2, true, 4, 0, 1)];
  }

  lemma MarksBounds()
    ensures Makes(NARROW, Marker(ID_UB), 1, 1, 0, NARROWED) && Makes(PAIR, Marker(ID_LB), 1, 1, 0, PAIRED)
  {
  }

  /** The maps: the second copy starts at byte 2 instead of byte 1, and its last byte is byte 4. */
  lemma PairMaps()
    ensures Shape(PAIRED.desc) && Shape(PAIRS.desc)
    ensures PAIRED.AsPart().Copies(2, 0, 1) == [Block(0, 2), Block(1, 2), Block(1, 2), Block(2, 2)]
    ensures Map(PAIRS.desc) == [Block(0, 2), Block(1, 2), Block(2, 2), Block(3, 2)]
  {
    Sizes();
    hide BasicSize, Shape, Map;
    O.OneElem(Elem(INT2, true, 2, 0, 1));
    O.OneElem(Elem(INT2, true, 4, 0, 1));
    assert ElemMap(2, 2, 1, 2) == [Block(2, 2)] + ElemMap(3, 2, 1, 1) == [Block(2, 2), Block(3, 2)];
    assert ElemMap(0, 2, 1, 4) == [Block(0, 2)] + ElemMap(1, 2, 1, 3)
                               == [Block(0, 2)] + ([Block(1, 2)] + ElemMap(2, 2, 1, 2));
    var m := [Block(0, 2), Block(1, 2)];
    assert ElemMap(0, 2, 1, 2) == [Block(0, 2)] + ElemMap(1, 2, 1, 1) == m;
    assert Repeat(m, 1, 1) == m + Displace(Repeat(m, 1, 0), 1) == m;
    assert Repeat(m, 1, 2) == m + Displace(m, 1);
    DisplaceZero(Repeat(m, 1, 2));
  }

  /** Two 2-byte integers one byte apart, added twice: the copies overlap, their count is multiplied instead, and a byte
      lies outside the true bounds. */
  method OverlappingCopiesAreMerged() returns (pair: Datatype, t: Datatype)
    ensures pair.Valid() && t.Valid() && pair.info == PAIRED && t.info == PAIRS
    ensures t.Meaning() != pair.info.AsPart().Copies(2, 0, 1)
    ensures Expand(t.Meaning())[7] == 4 == t.info.trueUb
  {
    hide Info.WithBounds, Info.WithCopies, Info.WithMarker, Info.Representable, BasicSize, Part.Copies, Shape, Map,
         Info.Valid, Added;
    Sizes();
    MakesNarrow();
    MakesPair();
    MakesPairs();
    MarksBounds();
    var int2 := new Datatype.Basic(INT2, 2);
    var lb := new Datatype.Bound(ID_LB);
    var ub := new Datatype.Bound(ID_UB);
    var one := new Datatype();
    var ok := one.Add(int2, 1, 0, 1);
    ok := one.Add(ub, 1, 1, 0);
    pair := new Datatype();
    ok := pair.Add(one, 2, 0, -1);
    ok := pair.Add(lb, 1, 1, 0);
    t := new Datatype();
    ok := t.Add(pair, 2, 0, -1);
    PairMaps();
    PairBytes();
  }

  lemma PairBytes()
    ensures |Expand([Block(0, 2), Block(1, 2), Block(2, 2), Block(3, 2)])| == 8
    ensures Expand([Block(0, 2), Block(1, 2), Block(2, 2), Block(3, 2)])[7] == 4
  {
    var m := [Block(0, 2), Block(1, 2), Block(2, 2), Block(3, 2)];
    assert m[1..] == [Block(1, 2), Block(2, 2), Block(3, 2)] && m[1..][1..] == [Block(2, 2), Block(3, 2)];
    assert [Block(2, 2), Block(3, 2)][1..] == [Block(3, 2)] && [Block(3, 2)][1..] == [];
    assert Expand([Block(3, 2)]) == Range(3, 2) + [];
  }

  // ---------------------------------------------------------------- descriptions that are not rewritten rightly

  /** A byte, before and after its extent is set to three. */
  const BYTE: Info :=
    Info(false, 0, 1, 0, 1, 0, 1, 1, 1, true, true, false, false, 0, [Elem(UINT1, true, 1, 0, 1)])
  const SPACED: Info := BYTE.(ub := 3, userUb := true, noGaps := false)

  /** A byte, and four more that start right behind it and are three bytes apart. */
  const ROWS: Info :=
    Info(false, 0, 5, 0, 11, 0, 13, 5, 1, false, false, false, true, 2,
         [Elem(UINT1, true, 1, 0, 1), Loop(true, 4, 2, 3), Elem(UINT1, true, 1, 1, 1), EndLoop(2, 1, 1)])

  lemma MakesByte()
    ensures Makes(EMPTY, Predefined(UINT1, 1), 1, 0, -1, BYTE)
  {
    Sizes();
    OneEntry(Elem(UINT1, true, 1, 0, 1));
    hide Shape, BasicSize;
    var a := Predefined(UINT1, 1);
    var b := EMPTY.WithBounds(a, 1, 0, 1);
    assert b == EMPTY.(lb := 0, ub := 1, align := 1);
    assert a.AsPart().Entries(1, 0, 1) == [Elem(UINT1, true, 1, 0, 1)];
    assert b.desc + [Elem(UINT1, true, 1, 0, 1)] == [Elem(UINT1, true, 1, 0, 1)];
  }

  lemma MarksSpaced()
    ensures Makes(BYTE, Marker(ID_UB), 1, 3, 0, SPACED)
  {
  }

  lemma MakesRows()
    ensures Makes(BYTE, SPACED, 4, 1, -1, ROWS)
  {
    Sizes();
    OneEntry(Elem(UINT1, true, 1, 0, 1));
    hide Shape, BasicSize;
    var b := BYTE.WithBounds(SPACED, 4, 1, 3);
    assert b == BYTE.(ub := 13, userUb := true);
    var e := Elem(UINT1, true, 1, 1, 1);
    assert Moved(SPACED.desc, 1) == [e];
    assert FirstDisp(SPACED.desc, 0) == 0;
    assert SPACED.AsPart().Entries(4, 1, 3) == [Loop(true, 4, 2, 3)] + [e] + [EndLoop(2, 1, 1)];
    assert b.desc + ([Loop(true, 4, 2, 3)] + [e] + [EndLoop(2, 1, 1)]) == ROWS.desc;
  }

  /** The first row is joined to the byte, and the loop that is written for the other three starts at the first row. */
  method RowIsLost() returns (t: Datatype, opt: Layout)
    ensures t.Valid() && t.info == ROWS && Sound(opt.desc, 0)
    ensures Expand(Body(opt.desc, 0)) != Expand(t.Meaning())
  {
    hide Info.WithBounds, Info.WithCopies, Info.WithMarker, Info.Representable, BasicSize, Shape, Map, Info.Valid,
         Added, Expand, Body, FirstDisp, Depth, Nesting, KeptDepth, O.WrittenDepth, Closed, Layout.WellFormed,
         CleanlyCommitted, DenseBehindFirst, Sound, O.Covers, Repeat, Displace, Part.Copies;
    Sizes();
    MakesByte();
    MakesRows();
    MarksSpaced();
    var byte := new Datatype.Basic(UINT1, 1);
    var ub := new Datatype.Bound(ID_UB);
    var row := new Datatype();
    var ok := row.Add(byte, 1, 0, -1);
    ok := row.Add(ub, 1, 3, 0);
    t := new Datatype();
    ok := t.Add(byte, 1, 0, -1);
    ok := t.Add(row, 4, 1, -1);
    var r, _ := t.Commit();
    opt := r.value;
    RowsNotClean();
  }

  lemma RowsNotClean()
    requires ROWS.Valid()
    ensures !CleanlyCommitted(ROWS)
  {
    hide Info.Valid;
    O.GappedLoopLosesARow();
    assert Closed(ROWS).desc ==
      [Elem(UINT1, true, 1, 0, 1), Loop(true, 4, 2, 3), Elem(UINT1, true, 1, 1, 1), EndLoop(2, 1, 1), EndLoop(4, 0, 5)];
  }

  /** A 4-byte integer in the middle of eight bytes, before and after its extent is set. */
  const WIDE: Info :=
    Info(false, 0, 4, 0, 4, 0, 4, 1, 4, true, true, false, false, 0, [Elem(INT4, true, 1, 0, 8)])
  const WIDENED: Info := WIDE.(ub := 8, userUb := true, noGaps := false)

  /** Two of them, and a third integer where the second would end if they were back to back. */
  const STRIDED: Info :=
    Info(false, 0, 8, 0, 12, 0, 16, 2, 4, false, false, false, true, 0, [Elem(INT4, true, 2, 0, 8)])
  const CLOSED_UP: Info :=
    Info(false, 0, 12, 0, 12, 0, 16, 3, 4, false, false, false, true, 0,
         [Elem(INT4, true, 2, 0, 8), Elem(INT4, true, 1, 8, 4)])

  lemma MakesWide()
    ensures Makes(EMPTY, Predefined(INT4, 4), 1, 0, 8, WIDE)
  {
    Sizes();
    OneEntry(Elem(INT4, true, 1, 0, 4));
    hide Shape, BasicSize;
    var a := Predefined(INT4, 4);
    var b := EMPTY.WithBounds(a, 1, 0, 8);
    assert b == EMPTY.(lb := 0, ub := 4, align := 4);
    assert a.AsPart().Entries(1, 0, 8) == [Elem(INT4, true, 1, 0, 8)];
    assert b.desc + [Elem(INT4, true, 1, 0, 8)] == [Elem(INT4, true, 1, 0, 8)];
  }

  lemma MarksWidened()
    ensures Makes(WIDE, Marker(ID_UB), 1, 8, 0, WIDENED)
  {
  }

  lemma MakesStrided()
    ensures Makes(EMPTY, WIDENED, 2, 0, -1, STRIDED)
  {
    Sizes();
    OneEntry(Elem(INT4, true, 1, 0, 8));
    hide Shape, BasicSize;
    var b := EMPTY.WithBounds(WIDENED, 2, 0, 8);
    assert b == EMPTY.(lb := 0, ub := 16, align := 4, userUb := true);
    assert WIDENED.AsPart().Entries(2, 0, 8) == [Elem(INT4, true, 2, 0, 8)];
    assert b.desc + [Elem(INT4, true, 2, 0, 8)] == [Elem(INT4, true, 2, 0, 8)];
  }

  lemma MakesClosedUp()
    ensures Makes(STRIDED, Predefined(INT4, 4), 1, 8, -1, CLOSED_UP)
  {
    Sizes();
    OneEntry(Elem(INT4, true, 1, 0, 4));
    hide Shape, BasicSize;
    var a := Predefined(INT4, 4);
    var b := STRIDED.WithBounds(a, 1, 8, 4);
    assert b == STRIDED;
    assert a.AsPart().Entries(1, 8, 4) == [Elem(INT4, true, 1, 8, 4)];
    assert b.desc + [Elem(INT4, true, 1, 8, 4)] == CLOSED_UP.desc;
  }

  /** Together they are taken for one range. */
  method StrideIsLost() returns (t: Datatype, opt: Layout)
    ensures t.Valid() && t.info == CLOSED_UP && Sound(opt.desc, 0)
    ensures Expand(Body(opt.desc, 0)) != Expand(t.Meaning())
  {
    hide Info.WithBounds, Info.WithCopies, Info.WithMarker, Info.Representable, BasicSize, Shape, Map, Info.Valid,
         Added, Expand, Body, FirstDisp, Depth, Nesting, KeptDepth, O.WrittenDepth, Closed, Layout.WellFormed,
         CleanlyCommitted, DenseBehindFirst, Sound, O.Covers, Repeat, Displace, Part.Copies;
    Sizes();
    MakesWide();
    MakesStrided();
    MakesClosedUp();
    MarksWidened();
    var int4 := new Datatype.Basic(INT4, 4);
    var ub := new Datatype.Bound(ID_UB);
    var wide := new Datatype();
    var ok := wide.Add(int4, 1, 0, 8);
    ok := wide.Add(ub, 1, 8, 0);
    t := new Datatype();
    ok := t.Add(wide, 2, 0, -1);
    ok := t.Add(int4, 1, 8, -1);
    var r, _ := t.Commit();
    opt := r.value;
    StrideNotClean();
  }

  lemma StrideNotClean()
    requires CLOSED_UP.Valid()
    ensures !CleanlyCommitted(CLOSED_UP)
  {
    hide Info.Valid;
    O.StridedElementIsClosedUp();
    assert Closed(CLOSED_UP).desc == [Elem(INT4, true, 2, 0, 8), Elem(INT4, true, 1, 8, 4), EndLoop(2, 0, 12)];
  }

  // ---------------------------------------------------------------- a first element that is too short

  /** A byte and a 4-byte integer behind it: five bytes in a row, with an extent of eight. */
  const TINY: Info :=
    Info(false, 0, 1, 0, 1, 0, 1, 1, 1, true, true, false, false, 0, [Elem(INT1, true, 1, 0, 1)])
  const MIXED: Info :=
    Info(false, 0, 5, 0, 5, 0, 8, 2, 4, true, false, false, false, 0,
         [Elem(INT1, true, 1, 0, 1), Elem(INT4, true, 1, 1, 8)])

  lemma MakesTiny()
    ensures Makes(EMPTY, Predefined(INT1, 1), 1, 0, -1, TINY)
  {
    Sizes();
    OneEntry(Elem(INT1, true, 1, 0, 1));
    hide Shape, BasicSize;
    var a := Predefined(INT1, 1);
    var b := EMPTY.WithBounds(a, 1, 0, 1);
    assert b == EMPTY.(lb := 0, ub := 1, align := 1);
    assert a.AsPart().Entries(1, 0, 1) == [Elem(INT1, true, 1, 0, 1)];
    assert b.desc + [Elem(INT1, true, 1, 0, 1)] == [Elem(INT1, true, 1, 0, 1)];
  }

  lemma MakesMixed()
    ensures Makes(TINY, Predefined(INT4, 4), 1, 1, 8, MIXED)
  {
    Sizes();
    OneEntry(Elem(INT4, true, 1, 0, 4));
    hide Shape, BasicSize;
    var a := Predefined(INT4, 4);
    var b := TINY.WithBounds(a, 1, 1, 8);
    assert b == TINY.(ub := 8, align := 4);
    assert a.AsPart().Entries(1, 1, 8) == [Elem(INT4, true, 1, 1, 8)];
    assert b.desc + [Elem(INT4, true, 1, 1, 8)] == MIXED.desc;
  }

  /** Its two elements stay apart, so that the stack of the convertor expects fewer bytes than an item has, and packing
      two items takes bytes from the gap. */
  method SecondElementIsSkipped(mem: Memory) returns (t: Datatype, opt: Layout, out: seq<Byte>)
    requires forall i, j :: 0 <= i < j < 16 ==> mem(i) != mem(j)
    ensures t.Valid() && t.info == MIXED && t.info.contig && opt.desc != [] && O.Covers(opt.desc[0]) < t.info.size
    ensures out != Read(mem, Expand(Repeat(t.Meaning(), 8, 2)))
  {
    hide Info.WithBounds, Info.WithCopies, Info.WithMarker, Info.Representable, BasicSize, Shape, Map, Info.Valid,
         Added, Expand, Body, Depth, Nesting, KeptDepth, O.WrittenDepth, Closed, Layout.WellFormed,
         Repeat, Read, Sound, O.Covers, Gaps.Stream, Gaps.Places, DenseBehindFirst, Gaps.Encodes;
    Sizes();
    MakesTiny();
    MakesMixed();
    var int1 := new Datatype.Basic(INT1, 1);
    var int4 := new Datatype.Basic(INT4, 4);
    t := new Datatype();
    var ok := t.Add(int1, 1, 0, -1);
    ok := t.Add(int4, 1, 1, 8);
    var r, _ := t.Commit();
    opt := r.value;
    O.Marked(opt.desc);
    MixedNotDense();
    var items := Gaps.Items(5, 8, 0, 2);
    var first := O.Covers(opt.desc[0]);
    var c := new Gaps.Convertor(items, first);
    out := c.Pack(mem, [10]);
    MixedItems();
    WrongByte(mem, first);
  }

  lemma MixedNotDense()
    requires MIXED.Valid()
    ensures !DenseBehindFirst(MIXED)
  {
    hide Info.Valid;
    Sizes();
    hide BasicSize;
    ClosedLayout(MIXED);
    assert Closed(MIXED).desc == [Elem(INT1, true, 1, 0, 1), Elem(INT4, true, 1, 1, 8), EndLoop(2, 0, 5)];
  }

  lemma MixedItems()
    requires MIXED.Valid()
    ensures Gaps.Places(Gaps.Items(5, 8, 0, 2), 0, Gaps.Items(5, 8, 0, 2).Total()) ==
            Expand(Repeat(Map(MIXED.desc), 8, 2))
  {
    hide Shape, Map, Expand, Repeat, ContigLoops, Unbroken, Gaps.Places;
    Gaps.PlacesOfItems(Gaps.Items(5, 8, 0, 2), Map(MIXED.desc));
  }

  /** The byte behind the first element is taken from the wrong place. */
  lemma WrongByte(mem: Memory, first: nat)
    requires 0 < first < 5 && forall i, j :: 0 <= i < j < 16 ==> mem(i) != mem(j)
    ensures var t := Gaps.Items(5, 8, 0, 2);
      Read(mem, Gaps.Stream(t, Gaps.Stack(2, 0, first, 0), 0, [10])) != Read(mem, Gaps.Places(t, 0, t.Total()))
  {
    var t, k := Gaps.Items(5, 8, 0, 2), Gaps.Stack(2, 0, first, 0);
    hide Gaps.Walked, Gaps.After, Gaps.Places, Gaps.Stream;
    Gaps.StreamStep(t, k, 0, [10]);
    Gaps.StreamEnd(t, Gaps.After(t, k, 10), 10, [10][1..]);
    Gaps.ShortByte(t, first, 10);
    assert mem(first) != mem(3 + first);
    Gaps.PlacesBegin(t, mem, 10);
    assert Read(mem, Gaps.Walked(t, k, 10))[first] == mem(3 + first);
    assert Read(mem, Gaps.Places(t, 0, 10))[first] == mem(first);
  }

  // ---------------------------------------------------------------- a gap that is overlooked

  /** A 4-byte integer, before and after a type without data that ends at byte 8 is added. */
  const WHOLE: Info :=
    Info(false, 0, 4, 0, 4, 0, 4, 1, 4, true, true, false, false, 0, [Elem(INT4, true, 1, 0, 4)])
  const LONGER: Info := WHOLE.(ub := 8, userUb := true)

  lemma MakesWhole()
    ensures Makes(EMPTY, Predefined(INT4, 4), 1, 0, -1, WHOLE)
  {
    Sizes();
    OneEntry(Elem(INT4, true, 1, 0, 4));
    hide Shape, BasicSize;
    var a := Predefined(INT4, 4);
    var b := EMPTY.WithBounds(a, 1, 0, 4);
    assert b == EMPTY.(lb := 0, ub := 4, align := 4);
    assert a.AsPart().Entries(1, 0, 4) == [Elem(INT4, true, 1, 0, 4)];
    assert b.desc + [Elem(INT4, true, 1, 0, 4)] == [Elem(INT4, true, 1, 0, 4)];
  }

  lemma MakesLonger()
    ensures Makes(EMPTY, Marker(ID_UB), 1, 8, 0, EMPTY.(ub := 8, userUb := true))
    ensures Makes(WHOLE, EMPTY.(ub := 8, userUb := true), 1, 0, 0, LONGER)
  {
  }

  /** The flag NO_GAPS stays, and two items are taken for one block of eight bytes. */
  method GapIsOverlooked(mem: Memory) returns (t: Datatype, out: seq<Byte>)
    requires forall i, j :: 0 <= i < j < 16 ==> mem(i) != mem(j)
    ensures t.Valid() && t.info == LONGER && t.info.noGaps && !GapFlagTrue(t.info)
    ensures out != Read(mem, Expand(Repeat(t.Meaning(), 8, 2)))
  {
    hide Info.WithBounds, Info.WithCopies, Info.WithMarker, Info.Representable, BasicSize, Shape, Map, Info.Valid,
         Added, Expand,
         Repeat, Read, Range;
    Sizes();
    MakesWhole();
    MakesLonger();
    var int4 := new Datatype.Basic(INT4, 4);
    var ub := new Datatype.Bound(ID_UB);
    var end := new Datatype();
    var ok := end.Add(ub, 1, 8, 0);
    t := new Datatype();
    ok := t.Add(int4, 1, 0, -1);
    ok := t.Add(end, 1, 0, 0);
    var c := new Contiguous.Convertor(mem, t.info.trueLb, 2 * t.info.size);
    var rc, bufs := c.PackNoOp([8]);
    out := Flatten(bufs);
    assert Sum([8]) == 8 + Sum([8][1..]) == 8;
    SecondItem(mem);
  }

  lemma SecondItem(mem: Memory)
    requires LONGER.Valid() && forall i, j :: 0 <= i < j < 16 ==> mem(i) != mem(j)
    ensures Read(mem, Range(0, 8)) != Read(mem, Expand(Repeat(Map(LONGER.desc), 8, 2)))
  {
    var m := Map(LONGER.desc);
    hide Map, Repeat, Expand, Shape, ContigLoops, Unbroken;
    assert Expand(m) == Range(0, 4);
    O.LoopRows(m, 0, 4, 8, 2);
    O.RowsStep(0, 4, 8, 2);
    O.RowsFirst(8, 4, 8, 1);
    var rows := O.Rows(0, 4, 8, 2);
    assert rows[4] == 8;
    assert Read(mem, rows)[4] == mem(8) && Read(mem, Range(0, 8))[4] == mem(4);
  }

  // ---------------------------------------------------------------- a stack that is too small

  /** Two copies of a type that is not contiguous, in a new type. */
  lemma NestedType(a: Info, extent: nat)
    requires a.Valid() && a.size > 0 && !a.basic && !a.contig && 2 < |a.desc| < 100
    requires a.trueLb == 0 && 0 <= a.trueUb < 10000 && extent < 10000
    ensures var r := Added(EMPTY, a, 2, 0, extent);
      && a.Representable(2, 0, extent) && r.Some? && Shape(r.value.desc)
      && KeptDepth(r.value.desc) == KeptDepth(a.desc) + 1 && !r.value.contig
      && |r.value.desc| == |a.desc| + 2 && r.value.loops == a.loops + 2 && r.value.size == 2 * a.size
      && r.value.trueLb == 0 && r.value.trueUb == a.trueUb + extent
  {
    hide Shape, Map, Expand, ContigLoops, Unbroken, KeptDepth, Range, Padded, Rem;
    var b := EMPTY.WithBounds(a, 2, 0, extent);
    NoEntries();
    EmptyValid();
    BoundsKeepValid(EMPTY, a, 2, 0, extent);
    KeptWithCopies(b, a, 2, 0, extent);
  }

  lemma EmptyValid()
    ensures EMPTY.Valid()
  {
    assert Expand(Map([])) == [];
  }

  /** Two bytes with a gap between them, behind a type whose loops are already counted. */
  lemma StridedLast(b: Info)
    requires b.Valid() && b.size > 0 && !b.basic && !b.IsMarker() && b.trueLb == 0
    ensures var a, r := Predefined(INT1, 1), Added(b, Predefined(INT1, 1), 2, 5000, 3);
      && Shape(a.desc) && a.Representable(2, 5000, 3) && r.Some? && Shape(r.value.desc)
      && KeptDepth(r.value.desc) == KeptDepth(b.desc) && r.value.loops == 1
  {
    hide Shape, Map, Expand, ContigLoops, Unbroken, KeptDepth, Range, Padded, Rem;
    Sizes();
    hide BasicSize;
    var a := Predefined(INT1, 1);
    PredefinedValid(INT1, 1);
    BoundsKeepValid(b, a, 2, 5000, 3);
    KeptWithCopies(b.WithBounds(a, 2, 5000, 3), a, 2, 5000, 3);
  }

  /** The innermost loop: two bytes with a gap between them. */
  lemma FirstLoop()
    ensures var a, r := Predefined(INT1, 1), Added(EMPTY, Predefined(INT1, 1), 2, 0, 3);
      && Shape(a.desc) && a.Representable(2, 0, 3) && r.Some? && Shape(r.value.desc) && |r.value.desc| == 3
      && KeptDepth(r.value.desc) == 0 && !r.value.contig
      && r.value.size == 2 && r.value.trueLb == 0 && r.value.trueUb == 4
  {
    hide Shape, Map, Expand, ContigLoops, Unbroken, KeptDepth, Range, Padded, Rem;
    Sizes();
    hide BasicSize;
    NoEntries();
    var a := Predefined(INT1, 1);
    PredefinedValid(INT1, 1);
    EmptyValid();
    BoundsKeepValid(EMPTY, a, 2, 0, 3);
    KeptWithCopies(EMPTY.WithBounds(a, 2, 0, 3), a, 2, 0, 3);
  }

  /** Three loops around each other that are kept, and then two bytes with a gap: only one loop is counted, and
      the optimizer goes one level deeper than its stack is large. */
  method LoopsAreForgotten() returns (t: Datatype, ghost deepest: nat)
    ensures t.Valid() && t.info.loops == 1 && !StackFits(t.info)
    ensures deepest == KeptDepth(t.info.desc) == 3 && deepest + 1 > t.info.loops + 2
  {
    hide Info.WithBounds, Info.WithCopies, Info.WithMarker, Info.Representable, BasicSize, Shape, Map, Info.Valid,
         Added,
         KeptDepth, O.WrittenDepth, Depth, Nesting, Body, Expand, Layout.WellFormed, Part.Copies, Closed;
    Sizes();
    FirstLoop();
    var int1 := new Datatype.Basic(INT1, 1);
    var small := new Datatype();
    var ok := small.Add(int1, 2, 0, 3);
    NestedType(small.info, 10);
    var inner := new Datatype();
    ok := inner.Add(small, 2, 0, 10);
    NestedType(inner.info, 100);
    var middle := new Datatype();
    ok := middle.Add(inner, 2, 0, 100);
    NestedType(middle.info, 1000);
    t := new Datatype();
    ok := t.Add(middle, 2, 0, 1000);
    StridedLast(t.info);
    ok := t.Add(int1, 2, 5000, 3);
    var opt;
    opt, deepest := t.Commit();
  }
}

/** Packing and unpacking items whose data is one block each, with gaps between the items. */
module ContiguousWithGaps {
  import opened Common
  import opened TypeMap
  import opened Packing
  import O = Optimizer

  /** `count` items of `size` bytes, `extent` apart; the data of the first one starts at `initial`. */
  datatype Items = Items(size: nat, extent: int, initial: int, count: nat) {

    /** The number of the first byte of item `q`. */
    ghost function First(q: nat): nat {
      q * size
    }

    ghost function Total(): nat {
      First(count)
    }

    /** How far item `q` is from the first one. */
    ghost function Disp(q: nat): int {
      q * extent
    }

    /** Where byte `b` of the data lies. */
    ghost function Place(b: nat): int
      requires size > 0
    {
      initial + (b / size) * extent + b % size
    }

    /** All data lies in the memory that the user has given. */
    ghost predicate Fits(memory: seq<Byte>) {
      size > 0 && forall b: nat :: b < Total() ==> 0 <= Place(b) < |memory|
    }
  }

  /** Where bytes `b` up to `e` of the data lie. */
  ghost function Places(t: Items, b: nat, e: nat): seq<int>
    requires t.size > 0 && b <= e
  {
    seq(e - b, i requires 0 <= i < e - b => t.Place(b + i))
  }

  /** The memory after bytes have been written to the places from byte `b` of the data on. */
  ghost function Written(t: Items, memory: seq<Byte>, b: nat, bytes: seq<Byte>): (r: seq<Byte>)
    requires t.Fits(memory) && b + |bytes| <= t.Total()
    ensures |r| == |memory|
    decreases |bytes|
  {
    if bytes == [] then memory else Written(t, memory[t.Place(b) := bytes[0]], b + 1, bytes[1..])
  }

  // ---------------------------------------------------------------- places

  lemma FirstNext(t: Items, q: nat)
    ensures t.First(0) == 0 && t.First(q + 1) == t.First(q) + t.size && t.Disp(0) == 0
    ensures t.Disp(q + 1) == t.Disp(q) + t.extent
  {
  }

  lemma {:induction false} FirstOrder(t: Items, q: nat, r: nat)
    requires q <= r
    ensures t.First(q) <= t.First(r) && (q < r ==> t.First(q) + t.size <= t.First(r))
    decreases r
  {
    hide Items.First;
    if q < r {
      FirstOrder(t, q, r - 1);
      FirstNext(t, r - 1);
    }
  }

  /** Byte `b` is byte `m` of item `q` exactly when that is quotient and remainder. */
  lemma DivMod(t: Items, q: nat, m: nat)
    requires m < t.size
    ensures (t.First(q) + m) / t.size == q && (t.First(q) + m) % t.size == m
  {
    var b := t.First(q) + m;
    var k := b / t.size;
    assert b == t.First(k) + b % t.size;
    hide Items.First;
    if k < q {
      FirstOrder(t, k, q);
    } else if q < k {
      FirstOrder(t, q, k);
    }
  }

  /** Within an item places follow each other. */
  lemma InItem(t: Items, q: nat, m: nat)
    requires m < t.size
    ensures t.Place(t.First(q) + m) == t.initial + t.Disp(q) + m
  {
    DivMod(t, q, m);
  }

  lemma PlacesSplit(t: Items, b: nat, c: nat, e: nat)
    requires t.size > 0 && b <= c <= e
    ensures Places(t, b, e) == Places(t, b, c) + Places(t, c, e)
  {
    hide Items.Place;
  }

  /** The places of a part of an item follow each other. */
  lemma PlacesInItem(t: Items, q: nat, m: nat, n: nat)
    requires m + n <= t.size && t.size > 0
    ensures Places(t, t.First(q) + m, t.First(q) + m + n) == Range(t.initial + t.Disp(q) + m, n)
  {
    var places, range := Places(t, t.First(q) + m, t.First(q) + m + n), Range(t.initial + t.Disp(q) + m, n);
    forall i | 0 <= i < n
      ensures places[i] == range[i]
    {
      InItem(t, q, m + i);
    }
  }

  /** The places are the displacements of the bytes of any number of items whose type map is one range. */
  lemma PlacesOfItems(t: Items, m: seq<Block>)
    requires t.size > 0 && Expand(m) == Range(t.initial, t.size)
    ensures Places(t, 0, t.Total()) == Expand(Repeat(m, t.extent, t.count))
  {
    O.LoopRows(m, t.initial, t.size, t.extent, t.count);
    FirstNext(t, 0);
    RowsPlaces(t, 0, t.count);
  }

  lemma {:induction false} RowsPlaces(t: Items, q: nat, n: nat)
    requires t.size > 0 && t.First(q) <= t.First(q + n)
    ensures O.Rows(t.initial + t.Disp(q), t.size, t.extent, n) == Places(t, t.First(q), t.First(q + n))
    decreases n
  {
    hide Items.First, Items.Disp, Items.Place, Places, Range;
    if n == 0 {
      NoPlaces(t, t.First(q));
    } else {
      FirstNext(t, q);
      FirstOrder(t, q + 1, q + n);
      PlacesInItem(t, q, 0, t.size);
      RowsPlaces(t, q + 1, n - 1);
      PlacesSplit(t, t.First(q), t.First(q + 1), t.First(q + n));
    }
  }

  lemma NoPlaces(t: Items, b: nat)
    requires t.size > 0
    ensures Places(t, b, b) == []
  {
  }

  // ---------------------------------------------------------------- packing

  /** The two entries of the convertor's stack: items to go and where they are, and the bytes to go in
      the current item and how many are behind. */
  datatype Stack = Stack(count: int, disp: int, left: int, offset: int)

  /** The stack stands at byte `m` of item `q`. */
  ghost predicate StandsAt(t: Items, k: Stack, q: nat, m: nat) {
    q < t.count && m < t.size && k == Stack(t.count - q, t.Disp(q), t.size - m, m)
  }

  /** `b` bytes have been converted; once all have been, the stack is not used any more. */
  ghost predicate Encodes(t: Items, k: Stack, b: nat)
    requires t.size > 0
  {
    b <= t.Total() && (b < t.Total() ==> StandsAt(t, k, b / t.size, b % t.size))
  }

  lemma Position(t: Items, b: nat)
    requires t.size > 0 && b < t.Total()
    ensures b == t.First(b / t.size) + b % t.size && b / t.size < t.count
  {
    var q := b / t.size;
    assert b == t.First(q) + b % t.size;
    hide Items.First;
    if q >= t.count {
      FirstOrder(t, t.count, q);
    }
  }

  lemma EncodesAt(t: Items, k: Stack, q: nat, m: nat)
    requires StandsAt(t, k, q, m)
    ensures t.First(q) + m < t.Total() && Encodes(t, k, t.First(q) + m)
  {
    DivMod(t, q, m);
    FirstOrder(t, q, t.count);
  }

  /** `n` bytes in whole items from `a` on, and the beginning of the next one. */
  ghost function Strip(t: Items, a: int, n: nat): seq<int>
    requires t.size > 0
    decreases n
  {
    if n < t.size then Range(a, n) else Range(a, t.size) + Strip(t, a + t.extent, n - t.size)
  }

  lemma {:induction false} StripPlaces(t: Items, q: nat, n: nat)
    requires t.size > 0
    ensures Strip(t, t.initial + t.Disp(q), n) == Places(t, t.First(q), t.First(q) + n)
    decreases n
  {
    hide Items.Place, Places, Range;
    if n < t.size {
      PlacesInItem(t, q, 0, n);
    } else {
      FirstNext(t, q);
      PlacesInItem(t, q, 0, t.size);
      StripPlaces(t, q + 1, n - t.size);
      PlacesSplit(t, t.First(q), t.First(q + 1), t.First(q) + n);
    }
  }

  /** Packs whole items as long as they fit into the buffer, and the beginning of the next one. */
  method PackItems(t: Items, mem: Memory, start: int, room: nat) returns (i: nat, out: seq<Byte>, n: nat)
    requires t.size > 0
    ensures out == Read(mem, Strip(t, start, room)) && n < t.size && room == i * t.size + n
  {
    hide Strip, Range, Read;
    var a := start;
    i, out, n := 0, [], room;
    assert [] + Read(mem, Strip(t, a, n)) == Read(mem, Strip(t, a, n));
    while t.size <= n
      invariant Read(mem, Strip(t, start, room)) == out + Read(mem, Strip(t, a, n)) && room == i * t.size + n
    {
      StripStep(t, mem, a, n);
      assert (i + 1) * t.size == i * t.size + t.size;
      Assoc(out, Copy(mem, a, t.size), Read(mem, Strip(t, a + t.extent, n - t.size)));
      out := out + Copy(mem, a, t.size);
      a, n, i := a + t.extent, n - t.size, i + 1;
    }
    StripEnd(t, mem, a, n);
    if n != 0 {
      out := out + Copy(mem, a, n);
    }
  }

  lemma StripEnd(t: Items, mem: Memory, a: int, n: nat)
    requires n < t.size
    ensures Strip(t, a, n) == Range(a, n) && (n == 0 ==> Read(mem, Range(a, n)) == [])
  {
  }

  lemma StripStep(t: Items, mem: Memory, a: int, n: nat)
    requires 0 < t.size <= n
    ensures Read(mem, Strip(t, a, n)) == Read(mem, Range(a, t.size)) + Read(mem, Strip(t, a + t.extent, n - t.size))
  {
  }

  /** The stack once `i` whole items are done and `n` bytes of the next one. */
  function Moved(t: Items, k: Stack, i: nat, n: nat): Stack {
    Stack(k.count - i, k.disp + i * t.extent, k.left - n, k.offset + n)
  }

  /** The stack once the item is done that was begun earlier. */
  function ItemDone(t: Items, k: Stack): Stack {
    if k.count == 1 then Stack(0, k.disp + t.extent, 0, k.offset) else Stack(k.count - 1, k.disp + t.extent, t.size, 0)
  }

  function NextItem(t: Items, k: Stack): Stack {
    if k.left == 0 then Stack(k.count, k.disp, t.size, 0) else k
  }

  /** What packing `n` bytes makes of any stack, and where it takes them from: the rest of the current item if it fits,
      whole items, and the beginning of the next one. */
  ghost function After(t: Items, k: Stack, n: nat): Stack
    requires t.size > 0
  {
    if 0 < k.left <= n then NextItem(t, Moved(t, ItemDone(t, k), (n - k.left) / t.size, (n - k.left) % t.size))
    else NextItem(t, Moved(t, k, n / t.size, n % t.size))
  }

  ghost function Walked(t: Items, k: Stack, n: nat): seq<int>
    requires t.size > 0
  {
    var a := t.initial + k.disp + k.offset;
    if 0 < k.left <= n then Range(a, k.left) + Strip(t, a + (t.extent - t.size + k.left), n - k.left)
    else Strip(t, a, n)
  }

  /** Fills one buffer, whatever the stack is. */
  method PackOne(t: Items, k: Stack, converted: nat, mem: Memory, room: nat) returns (k': Stack, out: seq<Byte>)
    requires t.size > 0 && converted < t.Total()
    ensures var n := Min(room, t.Total() - converted); out == Read(mem, Walked(t, k, n)) && k' == After(t, k, n)
  {
    var remaining: nat := Min(room, t.count * t.size - converted);
    var a := t.initial + k.disp + k.offset;
    var k1, head: seq<Byte> := k, [];
    if 0 < k.left <= remaining {
      head := Copy(mem, a, k.left);
      a := a + (t.extent - t.size + k.left);
      remaining := remaining - k.left;
      k1 := ItemDone(t, k);
    }
    var i, more, n := PackItems(t, mem, a, remaining);
    Quotient(t, remaining, i, n);
    out := head + more;
    k' := NextItem(t, Moved(t, k1, i, n));
  }

  lemma Quotient(t: Items, room: nat, i: nat, n: nat)
    requires n < t.size && room == i * t.size + n
    ensures room / t.size == i && room % t.size == n
  {
    DivMod(t, i, n);
  }

  /** From a stack that stands at a byte of the data, packing takes the next bytes of the data, and the stack stands
      behind them. */
  lemma WalkedPlaces(t: Items, k: Stack, b: nat, n: nat)
    requires t.size > 0 && b < t.Total() && b + n <= t.Total() && Encodes(t, k, b)
    ensures Walked(t, k, n) == Places(t, b, b + n) && Encodes(t, After(t, k, n), b + n)
  {
    Position(t, b);
    var q, m := b / t.size, b % t.size;
    hide Items.First, Items.Disp, Items.Place, Places, Encodes, Range, Strip;
    if k.left <= n {
      WalkedAcross(t, k, q, m, n);
    } else {
      WalkedWithin(t, k, q, m, n);
    }
  }

  lemma WalkedWithin(t: Items, k: Stack, q: nat, m: nat, n: nat)
    requires StandsAt(t, k, q, m) && n < k.left
    ensures Walked(t, k, n) == Places(t, t.First(q) + m, t.First(q) + m + n)
    ensures Encodes(t, After(t, k, n), t.First(q) + m + n)
  {
    PlacesInItem(t, q, m, n);
    Quotient(t, n, 0, n);
    EncodesAt(t, After(t, k, n), q, m + n);
  }

  lemma WalkedAcross(t: Items, k: Stack, q: nat, m: nat, n: nat)
    requires StandsAt(t, k, q, m) && k.left <= n && t.First(q) + m + n <= t.Total()
    ensures Walked(t, k, n) == Places(t, t.First(q) + m, t.First(q) + m + n)
    ensures Encodes(t, After(t, k, n), t.First(q) + m + n)
  {
    FirstNext(t, q);
    PlacesInItem(t, q, m, t.size - m);
    StripPlaces(t, q + 1, n - k.left);
    PlacesSplit(t, t.First(q) + m, t.First(q + 1), t.First(q) + m + n);
    AfterAcross(t, k, q, m, n);
  }

  lemma AfterAcross(t: Items, k: Stack, q: nat, m: nat, n: nat)
    requires StandsAt(t, k, q, m) && k.left <= n && t.First(q) + m + n <= t.Total()
    ensures Encodes(t, After(t, k, n), t.First(q) + m + n)
  {
    hide Items.Disp, Encodes, Moved, ItemDone, NextItem;
    var rest := n - k.left;
    FirstNext(t, q);
    FirstMore(t, q + 1, rest / t.size);
    assert rest == rest / t.size * t.size + rest % t.size;
    hide Items.First;
    AcrossStands(t, k, q, m, rest / t.size, rest % t.size);
  }

  /** The stack after the rest of an item and `i` whole items, with `n` bytes of the next one. */
  lemma AcrossStands(t: Items, k: Stack, q: nat, m: nat, i: nat, n: nat)
    requires StandsAt(t, k, q, m) && n < t.size && t.First(q + 1 + i) + n <= t.Total()
    ensures q + 1 + i <= t.count && (n > 0 ==> q + 1 + i < t.count)
    ensures var k' := Moved(t, ItemDone(t, k), i, n);
      Encodes(t, k', t.First(q + 1 + i) + n) && Encodes(t, NextItem(t, k'), t.First(q + 1 + i) + n)
  {
    AtMost(t, q + 1 + i);
    FirstNext(t, q);
    DispMore(t, q + 1, i);
    hide Items.First, Items.Disp;
    if q + 1 + i < t.count {
      EncodesAt(t, Moved(t, ItemDone(t, k), i, n), q + 1 + i, n);
    }
  }

  lemma FirstMore(t: Items, q: nat, i: nat)
    ensures t.First(q + i) == t.First(q) + i * t.size
  {
  }

  lemma {:induction false} DispMore(t: Items, q: nat, i: nat)
    ensures t.Disp(q + i) == t.Disp(q) + i * t.extent
  {
  }

  lemma AtMost(t: Items, q: nat)
    requires t.First(q) <= t.Total() && t.size > 0
    ensures q <= t.count
  {
    if q > t.count {
      FirstOrder(t, t.count, q);
    }
  }

  /** There is room for another part of an item, so there is another item. */
  lemma AnotherPart(t: Items, q: nat, n: nat)
    requires t.First(q) + n <= t.Total() && n > 0
    ensures q < t.count
  {
    if q >= t.count {
      FirstOrder(t, t.count, q);
    }
  }

  /** When the stack expects only `first` bytes in an item, the data is left at once after them: what is packed is right
      exactly if nothing comes after them. */
  lemma ShortFirst(t: Items, first: nat, n: nat)
    requires 0 < first <= t.size && t.extent != t.size
    ensures Walked(t, Stack(t.count, 0, first, 0), n) == Places(t, 0, n) <==> first == t.size || n <= first
  {
    FirstNext(t, 0);
    if n < first {
      PlacesInItem(t, 0, 0, n);
    } else if first < t.size && first < n {
      ShortByte(t, first, n);
    } else {
      PlacesSplit(t, 0, first, n);
      PlacesInItem(t, 0, 0, first);
      if first == t.size {
        FirstNext(t, 1);
        StripPlaces(t, 1, n - first);
      } else {
        NoPlaces(t, first);
      }
    }
  }

  /** The byte after them is taken from another place. */
  lemma ShortByte(t: Items, first: nat, n: nat)
    requires 0 < first < t.size && first < n
    ensures |Walked(t, Stack(t.count, 0, first, 0), n)| == |Places(t, 0, n)| == n
    ensures Walked(t, Stack(t.count, 0, first, 0), n)[first] == t.initial + t.extent - t.size + first
    ensures Places(t, 0, n)[first] == t.initial + first
  {
    var k := Stack(t.count, 0, first, 0);
    WalkedLength(t, k, n);
    StripFirst(t, t.initial + (t.extent - t.size + first), n - first);
    FirstNext(t, 0);
    InItem(t, 0, first);
  }

  lemma StripFirst(t: Items, a: int, n: nat)
    requires t.size > 0 && n > 0
    ensures Strip(t, a, n) != [] && Strip(t, a, n)[0] == a
  {
  }

  // ---------------------------------------------------------------- unpacking

  lemma {:induction false} WrittenSplit(t: Items, memory: seq<Byte>, b: nat, x: seq<Byte>, y: seq<Byte>)
    requires t.Fits(memory) && b + |x| + |y| <= t.Total()
    ensures t.Fits(Written(t, memory, b, x))
    ensures Written(t, memory, b, x + y) == Written(t, Written(t, memory, b, x), b + |x|, y)
    decreases |x|
  {
    if x == [] {
      assert x + y == y;
    } else {
      WrittenSplit(t, memory[t.Place(b) := x[0]], b + 1, x[1..], y);
      assert (x + y)[1..] == x[1..] + y;
    }
  }

  /** Writing a part of an item replaces a slice of the memory. */
  lemma {:induction false} WrittenSlice(t: Items, memory: seq<Byte>, q: nat, m: nat, bytes: seq<Byte>)
    requires t.Fits(memory) && bytes != [] && m + |bytes| <= t.size && q < t.count
    ensures var a := t.initial + t.Disp(q) + m;
      0 <= a && a + |bytes| <= |memory| && t.First(q) + m + |bytes| <= t.Total() &&
      Written(t, memory, t.First(q) + m, bytes) == memory[..a] + bytes + memory[a + |bytes|..]
    decreases |bytes|
  {
    FirstOrder(t, q, t.count);
    InItem(t, q, m);
    InItem(t, q, m + |bytes| - 1);
    assert 0 <= t.Place(t.First(q) + m + |bytes| - 1) < |memory| && 0 <= t.Place(t.First(q) + m) < |memory|;
    var next := memory[t.Place(t.First(q) + m) := bytes[0]];
    assert t.Fits(next);
    hide Items.First, Items.Place, Items.Disp, Items.Fits;
    if |bytes| > 1 {
      WrittenSlice(t, next, q, m + 1, bytes[1..]);
    } else {
      assert Written(t, next, t.First(q) + m + 1, bytes[1..]) == next;
    }
  }

  /** Without gaps the places are consecutive. */
  lemma {:induction false} WrittenDense(t: Items, memory: seq<Byte>, b: nat, bytes: seq<Byte>)
    requires t.Fits(memory) && t.extent == t.size && bytes != [] && b + |bytes| <= t.Total()
    ensures var a := t.initial + b;
      0 <= a && a + |bytes| <= |memory| && Written(t, memory, b, bytes) == memory[..a] + bytes + memory[a + |bytes|..]
    decreases |bytes|
  {
    hide Items.Place, Items.Fits, Items.Total;
    Dense(t, memory, b);
    Dense(t, memory, b + |bytes| - 1);
    var next := memory[t.Place(b) := bytes[0]];
    FitsSame(t, memory, next);
    if |bytes| > 1 {
      WrittenDense(t, next, b + 1, bytes[1..]);
    } else {
      assert Written(t, next, b + 1, bytes[1..]) == next;
    }
  }

  lemma Dense(t: Items, memory: seq<Byte>, b: nat)
    requires t.extent == t.size && t.Fits(memory) && b < t.Total()
    ensures t.size > 0 && t.Place(b) == t.initial + b && 0 <= t.Place(b) < |memory|
  {
    assert b == t.size * (b / t.size) + b % t.size;
  }

  method CopyIn(memory: array<Byte>, a: int, bytes: seq<Byte>)
    requires 0 <= a && a + |bytes| <= memory.Length
    modifies memory
    ensures memory[..] == old(memory[..])[..a] + bytes + old(memory[..])[a + |bytes|..]
  {
    forall i | 0 <= i < |bytes| {
      memory[a + i] := bytes[i];
    }
  }

  /** Unpacks whole items, and the beginning of the next one. */
  method UnpackItems(t: Items, memory: array<Byte>, start: int, bytes: seq<Byte>, ghost q: nat) returns (i: nat, n: nat)
    requires t.size > 0 && t.Fits(memory[..]) && t.First(q) + |bytes| <= t.Total() && start == t.initial + t.Disp(q)
    modifies memory
    ensures n < t.size && t.First(q + i) + n == t.First(q) + |bytes|
    ensures memory[..] == Written(t, old(memory[..]), t.First(q), bytes)
  {
    hide Items.First, Items.Disp, Items.Fits, Written;
    ghost var before := memory[..];
    var a, rest := start, bytes;
    i := 0;
    assert rest == bytes;
    while t.size <= |rest|
      invariant t.First(q) <= t.First(q + i) == t.First(q) + |bytes| - |rest| && a == t.initial + t.Disp(q + i)
      invariant t.Fits(memory[..]) && |memory[..]| == |before|
      invariant Written(t, memory[..], t.First(q + i), rest) == Written(t, before, t.First(q), bytes)
    {
      UnpackStep(t, memory[..], q + i, rest, t.size);
      CopyIn(memory, a, rest[..t.size]);
      a := a + t.extent;
      rest := rest[t.size..];
      i := i + 1;
    }
    n := |rest|;
    if n != 0 {
      UnpackStep(t, memory[..], q + i, rest, n);
      CopyIn(memory, a, rest);
      assert rest[..n] == rest && rest[n..] == [];
    }
    NothingWritten(t, memory[..], t.First(q) + |bytes|);
  }

  lemma NothingWritten(t: Items, memory: seq<Byte>, b: nat)
    requires t.Fits(memory) && b <= t.Total()
    ensures Written(t, memory, b, []) == memory
  {
  }

  /** Writing the next `n` bytes, and then the rest. */
  lemma UnpackStep(t: Items, memory: seq<Byte>, q: nat, bytes: seq<Byte>, n: nat)
    requires t.size > 0 && t.Fits(memory) && 0 < n <= t.size && n <= |bytes| && t.First(q) + |bytes| <= t.Total()
    ensures var a := t.initial + t.Disp(q);
      && q < t.count && 0 <= a && a + n <= |memory|
      && t.First(q + 1) == t.First(q) + t.size && t.Disp(q + 1) == t.Disp(q) + t.extent
      && var now := memory[..a] + bytes[..n] + memory[a + n..];
      && t.Fits(now) && Written(t, now, t.First(q) + n, bytes[n..]) == Written(t, memory, t.First(q), bytes)
  {
    AnotherPart(t, q, n);
    FirstNext(t, q);
    WrittenSlice(t, memory, q, 0, bytes[..n]);
    WrittenSplit(t, memory, t.First(q), bytes[..n], bytes[n..]);
    assert bytes[..n] + bytes[n..] == bytes;
  }

  /** Empties one buffer. */
  method UnpackOne(t: Items, k: Stack, converted: nat, memory: array<Byte>, buffer: seq<Byte>) returns (k': Stack)
    requires t.size > 0 && t.Fits(memory[..]) && converted < t.Total()
    requires (t.extent != t.size ==> Encodes(t, k, converted))
    modifies memory
    ensures var n := Min(|buffer|, t.Total() - converted);
      && memory[..] == Written(t, old(memory[..]), converted, buffer[..n])
      && (t.extent != t.size ==> Encodes(t, k', converted + n))
  {
    var n := Min(|buffer|, t.count * t.size - converted);
    var bytes := buffer[..n];
    k' := k;
    if t.extent == t.size {
      NothingWritten(t, memory[..], converted);
      if n != 0 {
        WrittenDense(t, memory[..], converted, bytes);
        CopyIn(memory, t.initial + converted, bytes);
      }
    } else {
      Position(t, converted);
      var a := t.initial + k.disp + k.offset;
      if k.left <= n {
        k' := UnpackAcross(t, k, memory, a, bytes, converted / t.size, converted % t.size);
      } else {
        k' := UnpackWithin(t, k, memory, a, bytes, converted / t.size, converted % t.size);
      }
    }
  }

  method UnpackAcross(t: Items, k: Stack, memory: array<Byte>, start: int, bytes: seq<Byte>, ghost q: nat, ghost m: nat)
    returns (k': Stack)
    requires t.Fits(memory[..]) && StandsAt(t, k, q, m) && k.left <= |bytes| && t.First(q) + m + |bytes| <= t.Total()
    requires start == t.initial + k.disp + k.offset
    modifies memory
    ensures memory[..] == Written(t, old(memory[..]), t.First(q) + m, bytes) && Encodes(t, k', t.First(q) + m + |bytes|)
  {
    hide Items.Fits, Written, Encodes, Moved, ItemDone, NextItem;
    FirstNext(t, q);
    ghost var before := memory[..];
    WrittenSlice(t, before, q, m, bytes[..k.left]);
    WrittenSplit(t, before, t.First(q) + m, bytes[..k.left], bytes[k.left..]);
    assert bytes[..k.left] + bytes[k.left..] == bytes;
    hide Items.First, Items.Disp;
    CopyIn(memory, start, bytes[..k.left]);
    var i, n := UnpackItems(t, memory, start + (t.extent - (t.size - k.left)), bytes[k.left..], q + 1);
    AcrossStands(t, k, q, m, i, n);
    k' := Moved(t, ItemDone(t, k), i, n);
  }

  method UnpackWithin(t: Items, k: Stack, memory: array<Byte>, start: int, bytes: seq<Byte>, ghost q: nat, ghost m: nat)
    returns (k': Stack)
    requires t.Fits(memory[..]) && StandsAt(t, k, q, m) && |bytes| < k.left && t.First(q) + m + |bytes| <= t.Total()
    requires start == t.initial + k.disp + k.offset
    modifies memory
    ensures memory[..] == Written(t, old(memory[..]), t.First(q) + m, bytes) && Encodes(t, k', t.First(q) + m + |bytes|)
  {
    NothingWritten(t, memory[..], t.First(q) + m);
    if |bytes| != 0 {
      WrittenSlice(t, memory[..], q, m, bytes);
      CopyIn(memory, start, bytes);
    }
    k' := Stack(k.count, k.disp, k.left - |bytes|, k.offset + |bytes|);
    EncodesAt(t, k', q, m + |bytes|);
  }

  // ---------------------------------------------------------------- convertors

  class Convertor {
    const items: Items
    var stack: Stack
    var converted: nat
    var completed: bool

    ghost predicate Valid()
      reads this
    {
      items.size > 0 && converted <= items.Total() && (items.extent != items.size ==> Encodes(items, stack, converted))
    }

    /** A convertor at the beginning.  `first` is the number of bytes that the first element of the
        description covers; the stack is right exactly when that is a whole item. */
    constructor (items: Items, first: nat)
      requires items.size > 0
      ensures converted == 0 && !completed && this.items == items && stack == Stack(items.count, 0, first, 0)
      ensures Encodes(items, stack, 0) <==> items.count == 0 || first == items.size
      ensures first == items.size ==> Valid()
    {
      this.items := items;
      stack := Stack(items.count, 0, first, 0);
      converted, completed := 0, false;
      new;
      Beginning(items, first);
    }

    /** Moves to any byte of the data. */
    method SetPosition(position: nat, first: nat)
      requires items.size > 0 && position <= items.Total()
      modifies this
      ensures converted == position
      ensures Encodes(items, stack, position) <==>
        position == items.Total() || position % items.size != 0 || first == items.size
      ensures first == items.size ==> Valid()
    {
      var q := position / items.size;
      var m := position - q * items.size;
      stack := Stack(items.count - q, q * items.extent, if m == 0 then first else items.size - m, m);
      converted := position;
      if position < items.count * items.size {
        Position(items, position);
      }
    }

    /** Packs into buffers of the given sizes, whatever the stack is. */
    method Pack(mem: Memory, rooms: seq<nat>) returns (out: seq<Byte>)
      requires items.size > 0 && converted <= items.Total() && items.extent != items.size
      modifies this
      ensures out == Read(mem, Stream(items, old(stack), old(converted), rooms))
      ensures old(converted) <= converted <= items.Total()
      ensures converted == Min(items.Total(), old(converted) + Sum(rooms)) && completed == (converted == items.Total())
      ensures |out| == converted - old(converted)
      ensures old(Valid()) ==> Valid() && out == Read(mem, Places(items, old(converted), converted))
    {
      hide Walked, After, Encodes, Places, Stream, Sum, Items.Total, Read, Min;
      ghost var start := converted;
      var todo := rooms;
      StreamPlaces(items, stack, converted, rooms);
      All(items);
      out := [];
      while todo != [] && converted < items.count * items.size
        invariant start <= converted <= items.Total() && |out| == converted - start
        invariant out + Read(mem, Stream(items, stack, converted, todo)) ==
                  Read(mem, Stream(items, old(stack), start, rooms))
        invariant Min(items.Total(), converted + Sum(todo)) == Min(items.Total(), start + Sum(rooms))
        invariant old(Encodes(items, stack, converted)) ==> Encodes(items, stack, converted)
      {
        StreamStep(items, stack, converted, todo);
        StreamRead(items, stack, converted, todo, mem, out);
        var k, bytes := PackOne(items, stack, converted, mem, todo[0]);
        out := out + bytes;
        stack, converted := k, converted + |bytes|;
        todo := todo[1..];
      }
      StreamEnd(items, stack, converted, todo);
      ReadBoth(mem, [], []);
      completed := converted == items.count * items.size;
    }

    /** Unpacks the contents of buffers. */
    method Unpack(memory: array<Byte>, buffers: seq<seq<Byte>>)
      requires Valid() && items.Fits(memory[..])
      modifies this, memory
      ensures Valid() && completed == (converted == items.Total())
      ensures var n := Min(items.Total() - old(converted), |Flatten(buffers)|);
        && converted == old(converted) + n
        && memory[..] == Written(items, old(memory[..]), old(converted), Flatten(buffers)[..n])
    {
      hide Items.Fits, Encodes, Written, Taking, Flatten, Min;
      ghost var before, start := memory[..], converted;
      ghost var done: seq<Byte> := [];
      var todo := buffers;
      NothingWritten(items, memory[..], converted);
      TakingStarts(buffers, items.Total() - start);
      while todo != [] && converted < items.count * items.size
        invariant Valid() && items.Fits(memory[..]) && |memory[..]| == |before| && converted == start + |done|
        invariant memory[..] == Written(items, before, start, done)
        invariant Taking(Flatten(buffers), done, todo, items.Total() - start)
      {
        TakingNext(Flatten(buffers), done, todo, items.Total() - start);
        var n := Min(|todo[0]|, items.count * items.size - converted);
        stack := UnpackOne(items, stack, converted, memory, todo[0]);
        FitsSame(items, before, memory[..]);
        WrittenSplit(items, before, start, done, todo[0][..n]);
        done := done + todo[0][..n];
        converted := converted + n;
        todo := todo[1..];
      }
      TakingEnds(Flatten(buffers), done, todo, items.Total() - start);
      completed := converted == items.count * items.size;
    }
  }

  /** What is done so far is the beginning of all buffers, and `todo` are the buffers that are left; at most `most`
      bytes are taken. */
  ghost predicate Taking(all: seq<Byte>, done: seq<Byte>, todo: seq<seq<Byte>>, most: nat) {
    && |done| <= most
    && if todo != [] && |done| < most then all == done + Flatten(todo) else done == all[..Min(most, |all|)]
  }

  lemma TakingStarts(buffers: seq<seq<Byte>>, most: nat)
    ensures Taking(Flatten(buffers), [], buffers, most)
  {
    assert [] + Flatten(buffers) == Flatten(buffers);
  }

  /** Taking what fits of the next buffer. */
  lemma TakingNext(all: seq<Byte>, done: seq<Byte>, todo: seq<seq<Byte>>, most: nat)
    requires todo != [] && |done| < most && Taking(all, done, todo, most)
    ensures var n := Min(|todo[0]|, most - |done|);
      0 <= n <= |todo[0]| && n <= most - |done| && Taking(all, done + todo[0][..n], todo[1..], most)
  {
  }

  lemma TakingEnds(all: seq<Byte>, done: seq<Byte>, todo: seq<seq<Byte>>, most: nat)
    requires (todo == [] || |done| >= most) && Taking(all, done, todo, most)
    ensures 0 <= Min(most, |all|) == |done| <= |all| && done == all[..Min(most, |all|)]
  {
  }

  /** Where a sequence of buffers takes its bytes from. */
  ghost function Stream(t: Items, k: Stack, converted: nat, rooms: seq<nat>): seq<int>
    requires t.size > 0
    decreases rooms
  {
    if rooms == [] || converted >= t.Total() then []
    else
      var n := Min(rooms[0], t.Total() - converted);
      Walked(t, k, n) + Stream(t, After(t, k, n), converted + n, rooms[1..])
  }

  /** From a stack that stands where it should, the bytes are those of the data, in order. */
  lemma {:induction false} StreamPlaces(t: Items, k: Stack, converted: nat, rooms: seq<nat>)
    requires t.size > 0 && converted <= t.Total()
    ensures Encodes(t, k, converted) ==>
      Stream(t, k, converted, rooms) == Places(t, converted, Min(t.Total(), converted + Sum(rooms)))
    decreases rooms
  {
    hide Walked, After, Encodes, Items.First, Items.Place;
    if rooms == [] || converted >= t.Total() {
    } else if Encodes(t, k, converted) {
      var n := Min(rooms[0], t.Total() - converted);
      WalkedPlaces(t, k, converted, n);
      StreamPlaces(t, After(t, k, n), converted + n, rooms[1..]);
      PlacesSplit(t, converted, converted + n, Min(t.Total(), converted + Sum(rooms)));
    }
  }

  lemma StreamStep(t: Items, k: Stack, converted: nat, rooms: seq<nat>)
    requires t.size > 0 && converted < t.Total() && rooms != []
    ensures var n := Min(rooms[0], t.Total() - converted);
      && Stream(t, k, converted, rooms) == Walked(t, k, n) + Stream(t, After(t, k, n), converted + n, rooms[1..])
      && |Walked(t, k, n)| == n && (Encodes(t, k, converted) ==> Encodes(t, After(t, k, n), converted + n))
      && Min(t.Total(), converted + n + Sum(rooms[1..])) == Min(t.Total(), converted + Sum(rooms))
  {
    hide Walked, After, Encodes, Items.Total;
    var n := Min(rooms[0], t.Total() - converted);
    WalkedLength(t, k, n);
    if Encodes(t, k, converted) {
      WalkedPlaces(t, k, converted, n);
    }
  }

  lemma StreamEnd(t: Items, k: Stack, converted: nat, rooms: seq<nat>)
    requires t.size > 0 && (rooms == [] || converted >= t.Total())
    ensures Stream(t, k, converted, rooms) == []
    ensures converted <= t.Total() ==> Min(t.Total(), converted + Sum(rooms)) == converted
  {
  }

  /** Reading one buffer more. */
  lemma StreamRead(t: Items, k: Stack, converted: nat, rooms: seq<nat>, mem: Memory, out: seq<Byte>)
    requires t.size > 0 && converted < t.Total() && rooms != []
    ensures var n := Min(rooms[0], t.Total() - converted);
      && |Read(mem, Walked(t, k, n))| == n <= t.Total() - converted
      && out + Read(mem, Stream(t, k, converted, rooms)) ==
         out + Read(mem, Walked(t, k, n)) + Read(mem, Stream(t, After(t, k, n), converted + n, rooms[1..]))
  {
    hide Walked, After, Items.Total, Read;
    var n := Min(rooms[0], t.Total() - converted);
    var rest := Stream(t, After(t, k, n), converted + n, rooms[1..]);
    WalkedLength(t, k, n);
    ReadBoth(mem, Walked(t, k, n), rest);
    Assoc(out, Read(mem, Walked(t, k, n)), Read(mem, rest));
  }

  lemma All(t: Items)
    ensures t.Total() == t.count * t.size
  {
  }

  lemma ReadBoth(mem: Memory, a: seq<int>, b: seq<int>)
    ensures Read(mem, a + b) == Read(mem, a) + Read(mem, b) && |Read(mem, a)| == |a|
  {
  }

  lemma WalkedLength(t: Items, k: Stack, n: nat)
    requires t.size > 0
    ensures |Walked(t, k, n)| == n
  {
    StripLength(t, t.initial + k.disp + k.offset, n);
    if 0 < k.left <= n {
      StripLength(t, t.initial + k.disp + k.offset + (t.extent - t.size + k.left), n - k.left);
    }
  }

  lemma {:induction false} StripLength(t: Items, a: int, n: nat)
    requires t.size > 0
    ensures |Strip(t, a, n)| == n
    decreases n
  {
    if n >= t.size {
      StripLength(t, a + t.extent, n - t.size);
    }
  }

  /** Any sequence of calls; a single one even from a stack that does not stand where it should. */
  method PackCalls(c: Convertor, mem: Memory, calls: seq<seq<nat>>) returns (out: seq<Byte>)
    requires c.items.size > 0 && c.converted <= c.items.Total() && c.items.extent != c.items.size
    modifies c
    ensures c.converted == Min(c.items.Total(), old(c.converted) + TotalRoom(calls))
    ensures |out| == c.converted - old(c.converted)
    ensures old(c.Valid()) ==> c.Valid() && out == Read(mem, Places(c.items, old(c.converted), c.converted))
    ensures |calls| == 1 ==> out == Read(mem, Stream(c.items, old(c.stack), old(c.converted), calls[0]))
  {
    hide Encodes, Places, Read, Stream, Sum, Items.Total, Convertor.Valid, TotalRoom;
    out := [];
    assert TotalRoom(calls[..0]) == 0 by {
      NoRoom();
    }
    NoPlaces(c.items, c.converted);
    ReadBoth(mem, [], []);
    for i := 0 to |calls|
      invariant c.converted == Min(c.items.Total(), old(c.converted) + TotalRoom(calls[..i]))
      invariant |out| == c.converted - old(c.converted)
      invariant old(c.Valid()) ==> c.Valid() && out == Read(mem, Places(c.items, old(c.converted), c.converted))
      invariant i == 0 ==> c.stack == old(c.stack) && c.converted == old(c.converted) && out == []
      invariant i == 1 ==> out == Read(mem, Stream(c.items, old(c.stack), old(c.converted), calls[0]))
    {
      ghost var before := c.converted;
      MoreRoom(calls[..i], calls[i]);
      assert calls[..i] + [calls[i]] == calls[..i + 1];
      var more := c.Pack(mem, calls[i]);
      PlacesSplit(c.items, old(c.converted), before, c.converted);
      ReadBoth(mem, Places(c.items, old(c.converted), before), Places(c.items, before, c.converted));
      assert i == 0 ==> out + more == more;
      out := out + more;
    }
    assert calls[..|calls|] == calls;
  }

  /** A single buffer. */
  lemma StreamOnce(t: Items, k: Stack, room: nat)
    requires t.size > 0 && t.Total() > 0
    ensures Stream(t, k, 0, [room]) == Walked(t, k, Min(room, t.Total()))
  {
    hide Walked, Items.Total;
    assert [room][1..] == [];
  }

  /** The first bytes of the data. */
  lemma PlacesBegin(t: Items, mem: Memory, n: nat)
    requires t.size > 0 && n <= t.Total()
    ensures |Places(t, 0, t.Total())| == t.Total() == |Read(mem, Places(t, 0, t.Total()))|
    ensures |Read(mem, Places(t, 0, n))| == n
    ensures Read(mem, Places(t, 0, n)) == Read(mem, Places(t, 0, t.Total()))[..n]
  {
    hide Items.Place;
    PlacesSplit(t, 0, n, t.Total());
  }

  // ---------------------------------------------------------------- round trip

  /** A byte of the data lies at `x`. */
  ghost predicate IsData(t: Items, b: nat, e: nat, x: int)
    requires t.size > 0
  {
    exists c: nat :: b <= c < e && t.Place(c) == x
  }

  /** What has been packed from one memory and unpacked into another is there at the same places, and
      nothing else has changed. */
  lemma {:induction false} Copied(t: Items, from: Memory, to: seq<Byte>, b: nat, e: nat, x: nat)
    requires t.Fits(to) && b <= e <= t.Total() && x < |to|
    ensures Written(t, to, b, Read(from, Places(t, b, e)))[x] == if IsData(t, b, e, x) then from(x) else to[x]
    decreases e - b
  {
    if b < e {
      var y := t.Place(b);
      var to' := to[y := from(y)];
      FitsSame(t, to, to');
      Copied(t, from, to', b + 1, e, x);
      assert Read(from, Places(t, b, e))[1..] == Read(from, Places(t, b + 1, e));
      DataAt(t, b, e, x);
    }
  }

  lemma DataPlaces(t: Items)
    requires t.size > 0
    ensures forall x :: IsData(t, 0, t.Total(), x) <==> x in Places(t, 0, t.Total())
  {
    hide Items.Place, Items.Total;
    forall x
      ensures IsData(t, 0, t.Total(), x) <==> x in Places(t, 0, t.Total())
    {
      var places := Places(t, 0, t.Total());
      if IsData(t, 0, t.Total(), x) {
        var c: nat :| c < t.Total() && t.Place(c) == x;
        assert places[c] == x;
      }
      if x in places {
        var i :| 0 <= i < |places| && places[i] == x;
        assert t.Place(i) == x;
      }
    }
  }

  lemma PlacesFit(t: Items, memory: seq<Byte>)
    requires t.size > 0 && forall x :: x in Places(t, 0, t.Total()) ==> 0 <= x < |memory|
    ensures t.Fits(memory) && |Places(t, 0, t.Total())| == t.Total()
  {
    hide Items.Place, Items.Total;
    forall b: nat | b < t.Total()
      ensures 0 <= t.Place(b) < |memory|
    {
      var places := Places(t, 0, t.Total());
      assert places[b] == t.Place(b) && places[b] in places;
    }
  }

  lemma DataAt(t: Items, b: nat, e: nat, x: int)
    requires t.size > 0 && b < e
    ensures IsData(t, b, e, x) <==> t.Place(b) == x || IsData(t, b + 1, e, x)
  {
  }

  lemma FitsSame(t: Items, a: seq<Byte>, b: seq<Byte>)
    requires t.Fits(a) && |a| == |b|
    ensures t.Fits(b)
  {
  }

  /** Packs everything from one memory through buffers of any sizes, and unpacks it into another one from
      buffers of any other sizes. */
  method Transfer(t: Items, first: nat, from: Memory, to: array<Byte>, rooms: seq<nat>, sizes: seq<nat>)
    requires t.extent != t.size && t.Fits(to[..]) && first == t.size
    requires Sum(rooms) >= t.Total() && Sum(sizes) >= t.Total()
    modifies to
    ensures forall x :: 0 <= x < to.Length ==> to[x] == if IsData(t, 0, t.Total(), x) then from(x) else old(to[x])
  {
    var sender := new Convertor(t, first);
    var packed := sender.Pack(from, rooms);
    var buffers := Cut(packed, sizes);
    var receiver := new Convertor(t, first);
    ghost var before := to[..];
    receiver.Unpack(to, buffers);
    assert packed[..|packed|] == packed;
    forall x | 0 <= x < to.Length
      ensures to[..][x] == if IsData(t, 0, t.Total(), x) then from(x) else before[x]
    {
      Copied(t, from, before, 0, t.Total(), x);
    }
  }

  /** Cuts a stream into pieces of the given sizes. */
  method Cut(stream: seq<Byte>, sizes: seq<nat>) returns (buffers: seq<seq<Byte>>)
    requires Sum(sizes) >= |stream|
    ensures Flatten(buffers) == stream
  {
    if sizes == [] {
      return [];
    }
    var n := Min(sizes[0], |stream|);
    var rest := Cut(stream[n..], sizes[1..]);
    buffers := [stream[..n]] + rest;
    assert buffers[1..] == rest;
  }

  lemma Beginning(t: Items, first: nat)
    requires t.size > 0
    ensures Encodes(t, Stack(t.count, 0, first, 0), 0) <==> t.count == 0 || first == t.size
  {
    if t.count > 0 {
      FirstOrder(t, 0, t.count);
    }
  }
}

/** Trees and their token streams. */
module TreeCodec {

  type Payload = string

  /** An ordered tree, as a value. */
  datatype Tree = Node(payload: Payload, children: seq<Tree>)

  /** What the buffer holds: the strings for the start and the end of an item and for the end of the
      stream, and the item's own data. */
  datatype Token = Start | End | Stop | Data(payload: Payload)

  function Serialized(t: Tree): seq<Token>
    decreases t, 0
  {
    [Start, Data(t.payload)] + SerializedAll(t.children) + [End]
  }

  function SerializedAll(ts: seq<Tree>): seq<Token>
    decreases ts, 1
  {
    if ts == [] then [] else Serialized(ts[0]) + SerializedAll(ts[1..])
  }

  function Count(t: Tree): nat
    decreases t, 0
  {
    1 + CountAll(t.children)
  }

  function CountAll(ts: seq<Tree>): nat
    decreases ts, 1
  {
    if ts == [] then 0 else Count(ts[0]) + CountAll(ts[1..])
  }

  class Item {
    const payload: Payload
    var children: seq<Item>
    var numAncestors: int
    ghost var repr: set<Item>

    constructor (payload: Payload)
      ensures this.payload == payload && children == [] && repr == {this} && Shows(Node(payload, []))
      ensures numAncestors == 0
    {
      this.payload := payload;
      children, numAncestors, repr := [], 0, {this};
    }

    /** This item and everything below it is the tree `t`. */
    ghost predicate Shows(t: Tree)
      reads this, repr
      decreases t
    {
      && this in repr && payload == t.payload && |children| == |t.children|
      && (forall i :: 0 <= i < |children| ==>
            && children[i] in repr && children[i].repr <= repr && this !in children[i].repr
            && children[i].numAncestors == numAncestors + 1 && children[i].Shows(t.children[i]))
      && (forall i, j :: 0 <= i < j < |children| ==> children[i].repr !! children[j].repr)
    }
  }

  ghost predicate ShowAll(items: seq<Item>, ts: seq<Tree>)
    reads items, set i, x | 0 <= i < |items| && x in items[i].repr :: x
  {
    |items| == |ts| && forall i :: 0 <= i < |ts| ==> items[i].Shows(ts[i])
  }

  /** Writes an item with all items below it, and, unless it is where it all starts, its later siblings. */
  method AddItems(items: seq<Item>, depth: nat, ghost ts: seq<Tree>) returns (buffer: seq<Token>)
    requires items != [] && ShowAll(items, ts) && depth > 0
    ensures buffer == if depth > 1 then SerializedAll(ts) else Serialized(ts[0])
    decreases ts, 1
  {
    hide Serialized, Item.Shows;
    buffer := AddItem(items[0], depth, ts[0]);
    var i := 1;
    while i < |items| && depth > 1
      invariant 1 <= i <= |items|
      invariant depth > 1 ==> buffer + SerializedAll(ts[i..]) == SerializedAll(ts)
      invariant depth <= 1 ==> buffer == Serialized(ts[0])
    {
      var more := AddItem(items[i], depth, ts[i]);
      SplitAll(ts, i);
      assert buffer + (more + SerializedAll(ts[i + 1..])) == buffer + more + SerializedAll(ts[i + 1..]);
      buffer := buffer + more;
      i := i + 1;
    }
  }

  lemma SplitAll(ts: seq<Tree>, i: nat)
    requires i < |ts|
    ensures SerializedAll(ts[i..]) == Serialized(ts[i]) + SerializedAll(ts[i + 1..])
  {
    assert ts[i..][0] == ts[i] && ts[i..][1..] == ts[i + 1..];
  }

  method AddItem(item: Item, depth: nat, ghost t: Tree) returns (buffer: seq<Token>)
    requires item.Shows(t) && depth > 0
    ensures buffer == Serialized(t)
    decreases t, 0
  {
    buffer := [Start, Data(item.payload)];
    if item.children != [] {
      var below := AddItems(item.children, depth + 1, t.children);
      buffer := buffer + below;
    }
    buffer := buffer + [End];
  }

  method Serialize(item: Item, ghost t: Tree) returns (buffer: seq<Token>)
    requires item.Shows(t)
    ensures buffer == Serialized(t) + [Stop]
  {
    var items := AddItems([item], 1, [t]);
    buffer := items + [Stop];
  }

  // ---------------------------------------------------------------- reading

  /** The tokens of children `cs` and of the end of their parent: what comes first. */
  lemma NextToken(cs: seq<Tree>, after: seq<Token>)
    ensures cs == [] ==> SerializedAll(cs) + [End] + after == [End] + after
    ensures cs != [] ==>
      SerializedAll(cs) + [End] + after == Serialized(cs[0]) + (SerializedAll(cs[1..]) + [End] + after)
    ensures var s := SerializedAll(cs) + [End] + after; s != [] && s[0] == if cs == [] then End else Start
  {
    if cs != [] {
      assert Serialized(cs[0]) + SerializedAll(cs[1..]) + [End] + after ==
             Serialized(cs[0]) + (SerializedAll(cs[1..]) + [End] + after);
    }
  }

  lemma FirstTokens(t: Tree, after: seq<Token>)
    ensures var s := Serialized(t) + after;
      |s| >= 2 && s[0] == Start && s[1] == Data(t.payload) && s[2..] == SerializedAll(t.children) + [End] + after
  {
    var s := Serialized(t) + after;
    assert s == [Start, Data(t.payload)] + (SerializedAll(t.children) + [End] + after);
  }

  lemma {:induction false} CountMore(ts: seq<Tree>, t: Tree)
    ensures CountAll(ts + [t]) == CountAll(ts) + Count(t)
  {
    if ts == [] {
      assert ts + [t] == [t];
    } else {
      CountMore(ts[1..], t);
      assert (ts + [t])[0] == ts[0] && (ts + [t])[1..] == ts[1..] + [t];
    }
  }

  class Container {
    var numItems: nat

    constructor ()
      ensures numItems == 0
    {
      numItems := 0;
    }

    /** Appends a new item to the children of `parent`. */
    method AddChild(parent: Item, item: Item)
      requires parent != item
      modifies this`numItems, parent`children, item`numAncestors
      ensures parent.children == old(parent.children) + [item] && numItems == old(numItems) + 1
      ensures item.numAncestors == parent.numAncestors + 1
    {
      item.numAncestors := parent.numAncestors + 1;
      parent.children := parent.children + [item];
      numItems := numItems + 1;
    }

    /** Makes a new item and appends it to the children of `parent`. */
    method Open(parent: Item, tokens: seq<Token>, start: nat, ghost s: Reading) returns (item: Item, pos: nat)
      requires Here(parent, null, s, -1, {}) && At(tokens, start, s, -1)
      modifies this`numItems, parent`children
      ensures fresh(item) && Here(parent, item, s, 0, {item}) && numItems - s.Done(0) == old(numItems) - s.Done(-1)
      ensures start < pos < |tokens| && At(tokens, pos + 1, s, 0)
    {
      Opening(tokens, start, s.t, s.after);
      item := new Item(tokens[start].payload);
      AddChild(parent, item);
      pos := start + 1;
    }

    /** Reads the next child of an item. */
    method ReadChild(tokens: seq<Token>, start: nat, parent: Item, item: Item, depth: nat, ghost s: Reading,
                     ghost k: nat, ghost mine: set<Item>)
      returns (pos: nat, ghost mine': set<Item>)
      requires depth > 0 && k < |s.t.children| && Here(parent, item, s, k, mine)
      requires At(tokens, start, s, k)
      modifies this`numItems, item`children, item`repr
      ensures Here(parent, item, s, k + 1, mine') && fresh(mine' - mine)
      ensures numItems - s.Done(k + 1) == old(numItems) - s.Done(k)
      ensures start <= pos < |tokens| && At(tokens, pos + 1, s, k + 1)
      decreases s.t, 0
    {
      hide SerializedAll, Serialized, Count, Item.Shows, Kept;
      AtToken(tokens, start, s.t, k, s.after);
      pos := ReadItem(tokens, start, true, item, depth + 1, Node(s.t.payload, s.t.children[..k]), s.t.children[k],
                      s.Left(k + 1));
      mine' := item.repr;
    }

    /** Everything below the item has been read. */
    ghost method Close(parent: Item, item: Item, s: Reading, mine: set<Item>)
      requires Here(parent, item, s, |s.t.children|, mine)
      modifies parent`repr
      ensures Here(parent, item, s, |s.t.children| + 1, mine)
    {
      assert Node(s.t.payload, s.t.children[..|s.t.children|]) == s.t;
      parent.repr := parent.repr + item.repr;
    }

    /** Reads one item with everything below it and appends it to the children of `parent`; the first
        token may have been read already. */
    method ReadItem(tokens: seq<Token>, start: nat, known: bool, parent: Item, depth: nat, ghost p: Tree,
                    ghost t: Tree, ghost after: seq<Token>)
      returns (pos: nat)
      requires parent.Shows(p) && depth > 0 && known == (depth > 1)
      requires start <= |tokens| && (known ==> start > 0)
      requires tokens[if known then start - 1 else start..] == Serialized(t) + after
      requires depth == 1 ==> after != [] && after[0] == Stop
      modifies this`numItems, parent`children, parent`repr
      ensures parent.Shows(Node(p.payload, p.children + [t])) && parent in parent.repr
      ensures fresh(parent.repr - old(parent.repr))
      ensures old(parent.repr) <= parent.repr && numItems == old(numItems) + Count(t)
      ensures pos <= |tokens| && tokens[pos..] == if depth > 1 then after else after[1..]
      decreases t, 2
    {
      ghost var s := Reading(parent.children, parent.repr - {parent}, p, t, after);
      Begun(parent, s);
      assert At(tokens, if known then start else start + 1, s, -1) by {
        FirstTokens(t, after);
      }
      hide Here, At, Reading.Left, Reading.Done, Serialized, SerializedAll, Count, Item.Shows, Kept;
      pos := if known then start else start + 1;
      ghost var mine;
      pos, mine := ReadTokens(tokens, pos, parent, depth, s);
    }

    method ReadTokens(tokens: seq<Token>, start: nat, parent: Item, depth: nat, ghost s: Reading)
      returns (pos: nat, ghost mine: set<Item>)
      requires depth > 0 && At(tokens, start, s, -1) && Here(parent, null, s, -1, {})
      requires depth == 1 ==> s.after != [] && s.after[0] == Stop
      modifies this`numItems, parent`children, parent`repr
      ensures fresh(mine) && parent.Shows(Node(s.p.payload, s.p.children + [s.t]))
      ensures parent.repr == s.others + {parent} + mine
      ensures numItems - old(numItems) == Count(s.t) - s.Done(-1)
      ensures pos <= |tokens| && tokens[pos..] == if depth > 1 then s.after else s.after[1..]
      decreases s.t, 1
    {
      hide Here, At, Reading.Left, Reading.Done, Serialized, SerializedAll, Count, Item.Shows, Kept;
      ghost var k: int, n: int := -1, |s.t.children|;
      mine := {};
      pos := start;
      NextIs(tokens, pos, s, k);
      var level := 0;
      var item: Item? := null;
      var delim := tokens[pos - 1];
      while delim != Stop
        invariant 0 < pos <= |tokens| && delim == tokens[pos - 1] && At(tokens, pos, s, k)
        invariant -1 <= k <= n + 1 && (k == n + 1 ==> depth == 1) && level == (if 0 <= k <= n then 1 else 0)
        invariant Here(parent, item, s, k, mine) && fresh(mine) && numItems - old(numItems) == s.Done(k) - s.Done(-1)
        invariant (k < 0 ==> item == null && mine == {}) && (0 <= k <= n ==> item != null && fresh(item))
        invariant (k < n ==> delim == Start) && (k == n ==> delim == End) && (k == n + 1 ==> delim == Stop)
        decreases |tokens| - pos
      {
        level := if delim == Start then level + 1 else level - 1;
        if level == 0 {
          NextIs(tokens, pos, s, k);
          Close(parent, item, s, mine);
          k := n + 1;
          if depth > 1 {
            Ended(parent, item, s, mine);
            return;
          }
        } else if level == 1 {
          item, pos := Open(parent, tokens, pos, s);
          k, mine := 0, {item};
        } else if level == 2 {
          pos, mine := ReadChild(tokens, pos, parent, item, depth, s, k, mine);
          level := level - 1;
          k := k + 1;
        }
        delim := tokens[pos];
        pos := pos + 1;
        NextIs(tokens, pos, s, k);
      }
      NextIs(tokens, pos, s, k);
      Ended(parent, item, s, mine);
    }

    /** Reads a stream into the tree under `parent`. */
    method Deserialize(tokens: seq<Token>, parent: Item, ghost p: Tree, ghost t: Tree, ghost after: seq<Token>)
      returns (pos: nat)
      requires parent.Shows(p) && tokens == Serialized(t) + [Stop] + after
      modifies this`numItems, parent`children, parent`repr
      ensures parent.Shows(Node(p.payload, p.children + [t])) && fresh(parent.repr - old(parent.repr))
      ensures numItems == old(numItems) + Count(t)
      ensures pos <= |tokens| && tokens[pos..] == after
    {
      assert tokens[0..] == Serialized(t) + ([Stop] + after);
      pos := ReadItem(tokens, 0, false, parent, 1, p, t, [Stop] + after);
    }
  }

  /** One call of the reader: the children of the parent and the items below it before the call, the
      parent's tree, the tree to be read, and the tokens after it. */
  datatype Reading = Reading(before: seq<Item>, others: set<Item>, p: Tree, t: Tree, after: seq<Token>) {

    /** The tokens that are left when nothing has been read (-1), when the item and `k` of its children
        have been, and when all of it has been. */
    ghost function Left(k: int): seq<Token> {
      if k < 0 then Serialized(t) + after
      else if k <= |t.children| then SerializedAll(t.children[k..]) + [End] + after
      else after
    }

    /** The number of items that have been made. */
    ghost function Done(k: int): nat {
      if k < 0 then 0 else if k <= |t.children| then Count(Node(t.payload, t.children[..k])) else Count(t)
    }
  }

  /** What has been built at that point; `mine` are the items that were made. */
  ghost predicate Here(parent: Item, item: Item?, s: Reading, k: int, mine: set<Item>)
    reads parent, item, s.others, mine
  {
    && parent !in s.others && mine !! s.others + {parent} && parent.payload == s.p.payload
    && Kept(s.before, s.p.children, s.others, parent.numAncestors)
    && (if k < 0 then parent.children == s.before && parent.repr == s.others + {parent} && mine == {}
        else if k <= |s.t.children| then
          && item != null && item.repr == mine && item in mine && item.numAncestors == parent.numAncestors + 1
          && item.Shows(Node(s.t.payload, s.t.children[..k]))
          && parent.children == s.before + [item] && parent.repr == s.others + {parent}
        else parent.repr == s.others + {parent} + mine && parent.Shows(Node(s.p.payload, s.p.children + [s.t])))
  }

  lemma Begun(parent: Item, s: Reading)
    requires parent.Shows(s.p) && s.before == parent.children && s.others == parent.repr - {parent}
    ensures Here(parent, null, s, -1, {}) && s.Done(-1) == 0 && s.Left(-1) == Serialized(s.t) + s.after
  {
    KeptBefore(parent, s.p);
  }

  lemma Ended(parent: Item, item: Item?, s: Reading, mine: set<Item>)
    requires Here(parent, item, s, |s.t.children| + 1, mine)
    ensures parent.Shows(Node(s.p.payload, s.p.children + [s.t])) && parent.repr == s.others + {parent} + mine
    ensures s.Done(|s.t.children| + 1) == Count(s.t) && s.Left(|s.t.children| + 1) == s.after
  {
  }

  ghost predicate At(tokens: seq<Token>, pos: nat, s: Reading, k: int) {
    0 < pos <= |tokens| && tokens[pos - 1..] == s.Left(k)
  }

  /** The token that is read next tells what has to be read next. */
  lemma NextIs(tokens: seq<Token>, pos: nat, s: Reading, k: int)
    requires -1 <= k <= |s.t.children| + 1 && At(tokens, pos, s, k)
    ensures 0 < pos <= |tokens| && (k < |s.t.children| ==> tokens[pos - 1] == Start)
    ensures k == |s.t.children| ==> tokens[pos - 1] == End && tokens[pos..] == s.after && s.Done(k + 1) == s.Done(k)
    ensures k == |s.t.children| && s.after != [] ==> pos < |tokens| && At(tokens, pos + 1, s, k + 1)
    ensures k > |s.t.children| && s.after != [] ==> tokens[pos - 1] == s.after[0] && tokens[pos..] == s.after[1..]
  {
    assert tokens[pos - 1..][1..] == tokens[pos..];
    if k < 0 {
      FirstTokens(s.t, s.after);
      assert tokens[pos - 1..][0] == tokens[pos - 1];
    } else if k <= |s.t.children| {
      AtToken(tokens, pos, s.t, k, s.after);
    }
  }

  /** The items that were children of the parent before. */
  ghost predicate Kept(before: seq<Item>, ts: seq<Tree>, others: set<Item>, numAncestors: int)
    reads others
  {
    && |before| == |ts|
    && (forall i :: 0 <= i < |before| ==>
          && before[i] in others && before[i].repr <= others
          && before[i].numAncestors == numAncestors + 1 && before[i].Shows(ts[i]))
    && (forall i, j :: 0 <= i < j < |before| ==> before[i].repr !! before[j].repr)
  }

  lemma KeptBefore(parent: Item, p: Tree)
    requires parent.Shows(p)
    ensures parent in parent.repr && parent.payload == p.payload
    ensures Kept(parent.children, p.children, parent.repr - {parent}, parent.numAncestors)
  {
  }

  lemma Opening(tokens: seq<Token>, pos: nat, t: Tree, after: seq<Token>)
    requires 0 < pos <= |tokens| && tokens[pos - 1..] == Serialized(t) + after
    ensures pos + 1 < |tokens| && tokens[pos] == Data(t.payload)
    ensures tokens[pos + 1..] == SerializedAll(t.children[0..]) + [End] + after
    ensures Node(t.payload, []) == Node(t.payload, t.children[..0]) && Count(Node(t.payload, t.children[..0])) == 1
  {
    FirstTokens(t, after);
    assert tokens[pos - 1..][1] == tokens[pos] && tokens[pos - 1..][2..] == tokens[pos + 1..];
    assert t.children[0..] == t.children;
  }

  /** What the next token is when `k` children have been read. */
  lemma AtToken(tokens: seq<Token>, pos: nat, t: Tree, k: nat, after: seq<Token>)
    requires 0 < pos <= |tokens| && k <= |t.children|
    requires tokens[pos - 1..] == SerializedAll(t.children[k..]) + [End] + after
    ensures k == |t.children| ==>
      tokens[pos - 1] == End && tokens[pos..] == after && Node(t.payload, t.children[..k]) == t
    ensures k < |t.children| ==>
      && tokens[pos - 1] == Start && |Serialized(t.children[k])| > 1
      && tokens[pos - 1..] == Serialized(t.children[k]) + (SerializedAll(t.children[k + 1..]) + [End] + after)
      && t.children[..k] + [t.children[k]] == t.children[..k + 1]
      && Count(Node(t.payload, t.children[..k + 1])) == Count(Node(t.payload, t.children[..k])) + Count(t.children[k])
  {
    NextToken(t.children[k..], after);
    assert tokens[pos - 1..][0] == tokens[pos - 1] && tokens[pos - 1..][1..] == tokens[pos..];
    if k < |t.children| {
      CountMore(t.children[..k], t.children[k]);
      assert t.children[k..][1..] == t.children[k + 1..];
    }
  }

  // ---------------------------------------------------------------- round trip

  /** Different trees have different streams, and no stream is the beginning of another. */
  lemma {:induction false} OnlyOneTree(a: Tree, b: Tree, x: seq<Token>, y: seq<Token>)
    requires Serialized(a) + x == Serialized(b) + y
    ensures a == b && x == y
    decreases a, 0
  {
    FirstTokens(a, x);
    FirstTokens(b, y);
    OnlyOneList(a.children, b.children, x, y);
  }

  lemma {:induction false} OnlyOneList(a: seq<Tree>, b: seq<Tree>, x: seq<Token>, y: seq<Token>)
    requires SerializedAll(a) + [End] + x == SerializedAll(b) + [End] + y
    ensures a == b && x == y
    decreases a, 1
  {
    NextToken(a, x);
    NextToken(b, y);
    hide Serialized, SerializedAll;
    if a == [] {
      assert ([End] + x)[1..] == x && ([End] + y)[1..] == y;
    } else {
      OnlyOneTree(a[0], b[0], SerializedAll(a[1..]) + [End] + x, SerializedAll(b[1..]) + [End] + y);
      OnlyOneList(a[1..], b[1..], x, y);
      assert a == [a[0]] + a[1..] && b == [b[0]] + b[1..];
    }
  }

  /** What is written from one tree and read under an item of another appears there as its last child. */
  method Copy(item: Item, container: Container, parent: Item, ghost t: Tree, ghost p: Tree)
    requires item.Shows(t) && parent.Shows(p)
    modifies container`numItems, parent`children, parent`repr
    ensures parent.Shows(Node(p.payload, p.children + [t])) && container.numItems == old(container.numItems) + Count(t)
  {
    var buffer := Serialize(item, t);
    assert buffer == Serialized(t) + [Stop] + [];
    var pos := container.Deserialize(buffer, parent, p, t, []);
  }
}

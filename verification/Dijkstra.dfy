/** Shortest paths in a graph whose weights are 32-bit words and whose infinity is 0x7fffffff. */
module Graphs {

  type Vertex = int
  type Word = x: int | 0 <= x < 0x1_0000_0000

  const INFINITY: Word := 0x7fff_ffff

  /** The first number that is not a word. */
  const WRAP: int := 0x1_0000_0000

  datatype Edge = Edge(end: Vertex, weight: Word)

  /** Sum of two words, as the machine forms it. */
  function Plus(a: Word, b: Word): Word {
    (a + b) % WRAP
  }

  datatype Graph = Graph(vertices: seq<Vertex>, edges: map<Vertex, seq<Edge>>) {

    ghost predicate Valid() {
      && (forall i, j :: 0 <= i < j < |vertices| ==> vertices[i] != vertices[j])
      && (forall v :: v in vertices ==> v in edges)
    }

    ghost function Set(): set<Vertex> {
      set v | v in vertices
    }

    /** No edge is heavier than infinity and one. */
    ghost predicate Bounded() {
      forall v, i :: v in edges && 0 <= i < |edges[v]| ==> edges[v][i].weight <= INFINITY + 1
    }

    /** The weight from `u` to `v`: the first edge counts, and infinity stands for none. */
    ghost function Weight(u: Vertex, v: Vertex): Word
      requires Valid()
    {
      if u !in vertices || v !in vertices then INFINITY
      else if u == v then 0
      else FirstWeight(edges[u], v)
    }
  }

  ghost function FirstWeight(edges: seq<Edge>, v: Vertex): Word {
    if edges == [] then INFINITY else if edges[0].end == v then edges[0].weight else FirstWeight(edges[1..], v)
  }

  lemma {:induction false} FirstWeightBounded(edges: seq<Edge>, v: Vertex)
    requires forall i :: 0 <= i < |edges| ==> edges[i].weight <= INFINITY + 1
    ensures FirstWeight(edges, v) <= INFINITY + 1
  {
    if edges != [] {
      FirstWeightBounded(edges[1..], v);
    }
  }

  lemma WeightBounded(g: Graph, u: Vertex, v: Vertex)
    requires g.Valid() && g.Bounded()
    ensures g.Weight(u, v) <= INFINITY + 1
  {
    if u in g.vertices && v in g.vertices {
      FirstWeightBounded(g.edges[u], v);
    }
  }

  method Adjacent(g: Graph, u: Vertex, v: Vertex) returns (w: Word)
    requires g.Valid()
    ensures w == g.Weight(u, v)
  {
    if u !in g.vertices || v !in g.vertices {
      return INFINITY;
    }
    if u == v {
      return 0;
    }
    var list := g.edges[u];
    var i := 0;
    while i < |list|
      invariant 0 <= i <= |list| && FirstWeight(list, v) == FirstWeight(list[i..], v)
    {
      if list[i].end == v {
        return list[i].weight;
      }
      i := i + 1;
    }
    w := INFINITY;
  }

  // ---------------------------------------------------------------- paths

  /** A walk in the graph from `s` to `v`, whose steps may be as long as infinity. */
  ghost predicate PathTo(g: Graph, s: Vertex, v: Vertex, p: seq<Vertex>) {
    && p != [] && p[0] == s && p[|p| - 1] == v
    && forall i :: 0 <= i < |p| ==> p[i] in g.vertices
  }

  /** A path along edges. */
  ghost predicate EdgesPath(g: Graph, s: Vertex, v: Vertex, p: seq<Vertex>)
    requires g.Valid()
  {
    PathTo(g, s, v, p) && forall i :: 0 <= i < |p| - 1 ==> HasEdge(g.edges[p[i]], p[i + 1])
  }

  ghost predicate HasEdge(edges: seq<Edge>, v: Vertex) {
    exists k :: 0 <= k < |edges| && edges[k].end == v
  }

  ghost function Length(g: Graph, p: seq<Vertex>): nat
    requires g.Valid()
  {
    if |p| < 2 then 0 else Length(g, p[..|p| - 1]) + g.Weight(p[|p| - 2], p[|p| - 1])
  }

  lemma {:induction false} NoEdge(edges: seq<Edge>, v: Vertex)
    requires FirstWeight(edges, v) < INFINITY
    ensures HasEdge(edges, v)
  {
    if edges[0].end == v {
    } else {
      NoEdge(edges[1..], v);
      var k :| 0 <= k < |edges[1..]| && edges[1..][k].end == v;
      assert edges[k + 1].end == v;
    }
  }

  // ---------------------------------------------------------------- the working queue

  datatype Item = Item(vertex: Vertex, weight: Word)

  /** A weight below infinity is the length of a path along edges. */
  ghost predicate Reached(g: Graph, s: Vertex, e: Item)
    requires g.Valid()
  {
    && e.weight <= INFINITY
    && (e.weight < INFINITY ==> exists p :: EdgesPath(g, s, e.vertex, p) && Length(g, p) == e.weight)
  }

  /** The weight is the smaller of the shortest distance and infinity. */
  ghost predicate Shortest(g: Graph, s: Vertex, e: Item)
    requires g.Valid()
  {
    Reached(g, s, e) && forall p :: PathTo(g, s, e.vertex, p) ==> e.weight <= Length(g, p)
  }

  ghost predicate Relaxed(g: Graph, q: seq<Item>, k: nat, e: Item)
    requires g.Valid() && k <= |q|
  {
    forall j :: 0 <= j < k ==> e.weight <= q[j].weight + g.Weight(q[j].vertex, e.vertex)
  }

  ghost function Vertices(q: seq<Item>): set<Vertex> {
    set e | e in q :: e.vertex
  }

  ghost predicate Sorted(q: seq<Item>, k: nat) {
    forall i, j :: k <= i < j < |q| ==> q[i].weight <= q[j].weight
  }

  /** The first `k` items are settled. */
  ghost predicate Settled(g: Graph, s: Vertex, q: seq<Item>, k: nat)
    requires g.Valid() && k <= |q|
  {
    && Vertices(q) == g.Set()
    && (forall i :: 0 <= i < k ==> Shortest(g, s, q[i]))
    && (forall i :: k <= i < |q| ==> Reached(g, s, q[i]) && Relaxed(g, q, k, q[i]))
    && (if k == 0 then q != [] && q[0] == Item(s, 0) else q[0].vertex == s)
  }

  /** The lightest item that is not settled cannot become lighter. */
  lemma Lightest(g: Graph, s: Vertex, q: seq<Item>, k: nat)
    requires g.Valid() && k < |q| && Settled(g, s, q, k) && Sorted(q, k)
    ensures Shortest(g, s, q[k])
  {
    forall p | PathTo(g, s, q[k].vertex, p)
      ensures q[k].weight <= Length(g, p)
    {
      if k > 0 {
        PathLeaves(g, s, q, k, p);
      }
    }
  }

  /** A path to an item that is not settled leaves the settled ones somewhere. */
  lemma {:induction false} PathLeaves(g: Graph, s: Vertex, q: seq<Item>, k: nat, p: seq<Vertex>)
    requires g.Valid() && 0 < k < |q| && Settled(g, s, q, k) && Sorted(q, k)
    requires p != [] && PathTo(g, s, p[|p| - 1], p)
    ensures q[k].weight <= Length(g, p) || exists i :: 0 <= i < k && q[i].vertex == p[|p| - 1]
  {
    hide Reached;
    if |p| == 1 {
      assert q[0].vertex == s;
    } else {
      var p' := p[..|p| - 1];
      PathLeaves(g, s, q, k, p');
      var x := p[|p| - 1];
      if q[k].weight > Length(g, p') {
        var i :| 0 <= i < k && q[i].vertex == p'[|p'| - 1];
        assert x in Vertices(q);
        var j :| 0 <= j < |q| && q[j].vertex == x;
        if j >= k {
          assert Relaxed(g, q, k, q[j]);
        }
      }
    }
  }

  // ---------------------------------------------------------------- relaxation

  /** One step further along an edge. */
  lemma Further(g: Graph, s: Vertex, c: Item, v: Vertex, e: Item)
    requires g.Valid() && Reached(g, s, c) && v in g.vertices && c.vertex in g.vertices
    requires c.weight < INFINITY && g.Weight(c.vertex, v) < INFINITY
    requires e.vertex == v && e.weight == c.weight + g.Weight(c.vertex, v) && e.weight <= INFINITY
    ensures Reached(g, s, e)
  {
    var p :| EdgesPath(g, s, c.vertex, p) && Length(g, p) == c.weight;
    if c.vertex != v {
      NoEdge(g.edges[c.vertex], v);
      Extended(g, s, c.vertex, v, p);
      assert EdgesPath(g, s, v, p + [v]);
    }
  }

  lemma Extended(g: Graph, s: Vertex, u: Vertex, v: Vertex, p: seq<Vertex>)
    requires g.Valid() && EdgesPath(g, s, u, p) && v in g.vertices && u in g.vertices && HasEdge(g.edges[u], v)
    ensures EdgesPath(g, s, v, p + [v]) && Length(g, p + [v]) == Length(g, p) + g.Weight(u, v)
  {
    hide HasEdge;
    var p' := p + [v];
    assert p'[..|p|] == p;
    forall i | 0 <= i < |p'| - 1
      ensures HasEdge(g.edges[p'[i]], p'[i + 1])
    {
      if i < |p| - 1 {
        assert HasEdge(g.edges[p[i]], p[i + 1]);
      }
    }
  }

  /** What relaxation does to one item. */
  function Lower(c: Item, w: Word, e: Item): Item {
    if Plus(c.weight, w) < e.weight then e.(weight := Plus(w, c.weight)) else e
  }

  /** A sum that does not wrap lowers the weight to a true distance, or not at all; one that wraps makes the item
      lighter
      than the one it is reached from. */
  lemma Lowered(c: Item, w: Word, e: Item)
    ensures var r := Lower(c, w, e);
      && r.vertex == e.vertex && r.weight <= e.weight
      && (c.weight + w < WRAP ==> r.weight <= c.weight + w && (r == e || r.weight == c.weight + w))
      && (c.weight + w >= WRAP && c.weight <= e.weight ==> r.weight < c.weight)
  {
    if c.weight + w >= WRAP {
      assert Plus(c.weight, w) == c.weight + w - WRAP;
    }
  }

  // ---------------------------------------------------------------- when sums wrap

  /** There is a path to `v` that is shorter than `d`. */
  ghost predicate Nearer(g: Graph, s: Vertex, v: Vertex, d: int)
    requires g.Valid()
  {
    exists p :: PathTo(g, s, v, p) && Length(g, p) < d
  }

  /** Going on from `u` to `v` wraps. */
  ghost predicate Wraps(g: Graph, s: Vertex, u: Item, v: Vertex)
    requires g.Valid()
  {
    u.vertex in g.vertices && v in g.vertices && Shortest(g, s, u) && u.weight + g.Weight(u.vertex, v) >= WRAP
  }

  /** Sums wrap only towards vertices that are nearer, which are done with by then. */
  ghost predicate NoWrap(g: Graph, s: Vertex)
    requires g.Valid()
  {
    forall u, v :: Wraps(g, s, u, v) ==> Nearer(g, s, v, u.weight)
  }

  /** Some order of equal weights lets a sum wrap: going on from `u` to `v` wraps, `v` is not nearer, and `u` can be
      done with before `v`, since a shortest path to it does not pass through `v`. */
  ghost predicate CanWrapAt(g: Graph, s: Vertex, u: Item, v: Vertex)
    requires g.Valid()
  {
    && Wraps(g, s, u, v) && !Nearer(g, s, v, u.weight)
    && (u.weight == INFINITY || exists p :: EdgesPath(g, s, u.vertex, p) && Length(g, p) == u.weight && v !in p)
  }

  ghost predicate CanWrap(g: Graph, s: Vertex)
    requires g.Valid()
  {
    exists u, v :: CanWrapAt(g, s, u, v)
  }

  /** Some sum wraps in any case: towards a vertex that is farther, or in both directions between two that are equally
      far. */
  ghost predicate MustWrap(g: Graph, s: Vertex)
    requires g.Valid()
  {
    exists u, v :: Wraps(g, s, u, v) && (Farther(g, s, u, v) || Wraps(g, s, Item(v, u.weight), u.vertex))
  }

  ghost predicate Farther(g: Graph, s: Vertex, u: Item, v: Vertex)
    requires g.Valid()
  {
    u.weight < INFINITY && !Nearer(g, s, v, u.weight + 1)
  }

  lemma BoundedNoWrap(g: Graph, s: Vertex)
    requires g.Valid() && g.Bounded()
    ensures NoWrap(g, s)
  {
    forall u, v
      ensures !Wraps(g, s, u, v)
    {
      WeightBounded(g, u.vertex, v);
    }
  }

  /** Without steps from a vertex to itself, a walk that is shorter than infinity goes along edges. */
  lemma {:induction false} AlongEdges(g: Graph, s: Vertex, p: seq<Vertex>) returns (e: seq<Vertex>)
    requires g.Valid() && p != [] && PathTo(g, s, p[|p| - 1], p) && Length(g, p) < INFINITY
    ensures EdgesPath(g, s, p[|p| - 1], e) && Length(g, e) == Length(g, p)
    decreases |p|
  {
    if |p| == 1 {
      e := p;
    } else {
      var u, v := p[|p| - 2], p[|p| - 1];
      e := AlongEdges(g, s, p[..|p| - 1]);
      if u != v {
        NoEdge(g.edges[u], v);
        Extended(g, s, u, v, e);
        e := e + [v];
      }
    }
  }

  /** What is left between the two: a sum that wraps in one direction only, between two vertices that are equally far.
      It is formed exactly if sorting puts the one before the other. */
  lemma OnlyTies(g: Graph, s: Vertex) returns (u: Item, v: Vertex)
    requires g.Valid() && !NoWrap(g, s) && !MustWrap(g, s)
    ensures Wraps(g, s, u, v) && Shortest(g, s, Item(v, u.weight)) && !Wraps(g, s, Item(v, u.weight), u.vertex)
  {
    u, v :| Wraps(g, s, u, v) && !Nearer(g, s, v, u.weight);
    if u.weight < INFINITY {
      assert !Farther(g, s, u, v);
      var p :| PathTo(g, s, v, p) && Length(g, p) < u.weight + 1;
      assert Length(g, p) == u.weight;
      var e := AlongEdges(g, s, p);
      assert EdgesPath(g, s, v, e) && Length(g, e) == u.weight;
    }
    assert Reached(g, s, Item(v, u.weight));
  }

  /** Lighter than any path. */
  ghost predicate TooLight(g: Graph, s: Vertex, e: Item)
    requires g.Valid()
  {
    e.weight < INFINITY && !Nearer(g, s, e.vertex, e.weight + 1)
  }

  lemma NearerStill(g: Graph, s: Vertex, v: Vertex, d: int, e: int)
    requires g.Valid() && d <= e
    ensures Nearer(g, s, v, d) ==> Nearer(g, s, v, e)
  {
  }

  ghost predicate Broken(g: Graph, s: Vertex, q: seq<Item>)
    requires g.Valid()
  {
    exists j :: 0 <= j < |q| && TooLight(g, s, q[j])
  }

  lemma NotTooLight(g: Graph, s: Vertex, e: Item)
    requires g.Valid() && Shortest(g, s, e)
    ensures !TooLight(g, s, e)
  {
    if e.weight < INFINITY {
      var p :| EdgesPath(g, s, e.vertex, p) && Length(g, p) == e.weight;
      assert Nearer(g, s, e.vertex, e.weight + 1);
    }
  }

  /** There is only one shortest distance. */
  lemma OneDistance(g: Graph, s: Vertex, a: Item, b: Item)
    requires g.Valid() && Shortest(g, s, a) && Shortest(g, s, b) && a.vertex == b.vertex
    ensures a == b
  {
  }

  // ---------------------------------------------------------------- which paths, and which order

  /** Every vertex of a path but the last one is among the given ones. */
  ghost predicate Inside(p: seq<Vertex>, done: set<Vertex>) {
    forall i :: 0 <= i < |p| - 1 ==> p[i] in done
  }

  /** A weight below infinity is the length of a path through the given vertices. */
  ghost predicate Through(g: Graph, s: Vertex, e: Item, done: set<Vertex>)
    requires g.Valid()
  {
    e.weight < INFINITY ==> exists p :: EdgesPath(g, s, e.vertex, p) && Length(g, p) == e.weight && Inside(p, done)
  }

  lemma ThroughMore(g: Graph, s: Vertex, e: Item, done: set<Vertex>, more: set<Vertex>)
    requires g.Valid() && Through(g, s, e, done) && done <= more
    ensures Through(g, s, e, more)
  {
    if e.weight < INFINITY {
      var p :| EdgesPath(g, s, e.vertex, p) && Length(g, p) == e.weight && Inside(p, done);
      assert Inside(p, more);
    }
  }

  lemma FurtherThrough(g: Graph, s: Vertex, c: Item, e: Item, done: set<Vertex>)
    requires g.Valid() && Through(g, s, c, done) && e.vertex in g.vertices && c.vertex in g.vertices
    requires c.weight < INFINITY && g.Weight(c.vertex, e.vertex) < INFINITY
    requires e.weight == c.weight + g.Weight(c.vertex, e.vertex)
    ensures Through(g, s, e, done + {c.vertex})
  {
    var p :| EdgesPath(g, s, c.vertex, p) && Length(g, p) == c.weight && Inside(p, done);
    if c.vertex == e.vertex {
      assert Inside(p, done + {c.vertex});
    } else {
      NoEdge(g.edges[c.vertex], e.vertex);
      Extended(g, s, c.vertex, e.vertex, p);
      assert Inside(p + [e.vertex], done + {c.vertex});
    }
  }

  ghost predicate Distinct(q: seq<Item>) {
    forall i, j :: 0 <= i < j < |q| ==> q[i].vertex != q[j].vertex
  }

  /** The items from `k` on are reached through the ones in front of them. */
  ghost predicate Passed(g: Graph, s: Vertex, q: seq<Item>, k: nat)
    requires g.Valid() && k <= |q|
  {
    Distinct(q) && forall j :: k <= j < |q| ==> Through(g, s, q[j], Vertices(q[..k]))
  }

  /** So is the `k`-th item, while the later ones are compared with it. */
  ghost predicate Passing(g: Graph, s: Vertex, q: seq<Item>, k: nat)
    requires g.Valid() && k < |q|
  {
    Passed(g, s, q, k + 1) && Through(g, s, q[k], Vertices(q[..k]))
  }

  lemma OneMoreVertex(q: seq<Item>, k: nat)
    requires k < |q|
    ensures Vertices(q[..k + 1]) == Vertices(q[..k]) + {q[k].vertex}
  {
    assert q[..k + 1] == q[..k] + [q[k]];
    assert forall e :: e in q[..k + 1] <==> e in q[..k] || e == q[k];
  }

  lemma PassBegin(g: Graph, s: Vertex, q: seq<Item>, k: nat)
    requires g.Valid() && k < |q| && Passed(g, s, q, k)
    ensures Passing(g, s, q, k)
  {
    hide Through, Vertices;
    OneMoreVertex(q, k);
    forall j | k < j < |q|
      ensures Through(g, s, q[j], Vertices(q[..k + 1]))
    {
      ThroughMore(g, s, q[j], Vertices(q[..k]), Vertices(q[..k + 1]));
    }
  }

  lemma PassOne(g: Graph, s: Vertex, q: seq<Item>, k: nat, i: nat)
    requires g.Valid() && k < i < |q| && Passing(g, s, q, k) && Vertices(q) == g.Set() && q[i].weight <= INFINITY
    requires q[k].weight + g.Weight(q[k].vertex, q[i].vertex) < WRAP
    ensures Passing(g, s, q[i := Lower(q[k], g.Weight(q[k].vertex, q[i].vertex), q[i])], k)
  {
    hide Through;
    InGraph(g, q, i);
    InGraph(g, q, k);
    hide Vertices;
    OneMoreVertex(q, k);
    var w := g.Weight(q[k].vertex, q[i].vertex);
    var e := Lower(q[k], w, q[i]);
    Lowered(q[k], w, q[i]);
    if e != q[i] {
      FurtherThrough(g, s, q[k], e, Vertices(q[..k]));
    }
    var t := q[i := e];
    assert t[..k] == q[..k] && t[..k + 1] == q[..k + 1];
    assert Through(g, s, t[i], Vertices(t[..k + 1]));
  }

  lemma PassResorted(g: Graph, s: Vertex, q: seq<Item>, t: seq<Item>, k: nat)
    requires g.Valid() && k <= |q| == |t| && q[..k] == t[..k] && multiset(q[k..]) == multiset(t[k..])
    requires Passed(g, s, q, k)
    requires |Vertices(t)| == |t|
    ensures Passed(g, s, t, k)
  {
    SameItems(q, t, k);
    CountDifferent(t);
    hide Through, Vertices;
    forall j | k <= j < |t|
      ensures Through(g, s, t[j], Vertices(t[..k]))
    {
      var i :| k <= i < |q| && q[i] == t[j];
    }
  }

  /** How sorting compares: by weight first. */
  predicate Before(a: int, x: int, b: int, y: int) {
    a < b || (a == b && x <= y)
  }

  type Order = (nat, Vertex) -> int

  /** The `i`-th item was in front of the `j`-th one when it was settled: its weight is not larger than infinity and
      any sum from the items before it, and if it is equal, the order of round `i` has decided. */
  ghost predicate ChosenAt(g: Graph, order: Order, q: seq<Item>, i: nat, j: nat)
    requires g.Valid() && i < |q| && j < |q|
  {
    && Before(q[i].weight, order(i, q[i].vertex), INFINITY, order(i, q[j].vertex))
    && forall l :: 0 <= l < i ==>
         Before(q[i].weight, order(i, q[i].vertex),
                q[l].weight + g.Weight(q[l].vertex, q[j].vertex), order(i, q[j].vertex))
  }

  ghost predicate Chosen(g: Graph, order: Order, q: seq<Item>, k: nat)
    requires g.Valid() && k <= |q|
  {
    forall i, j :: 0 <= i < k && i < j < |q| ==> ChosenAt(g, order, q, i, j)
  }

  lemma ChosenNext(g: Graph, s: Vertex, order: Order, q: seq<Item>, k: nat)
    requires g.Valid() && k < |q| && Chosen(g, order, q, k) && Settled(g, s, q, k) && SortedBy(order, q, k)
    ensures Chosen(g, order, q, k + 1)
  {
    hide Vertices, Shortest;
    forall j | k < j < |q|
      ensures ChosenAt(g, order, q, k, j)
    {
      assert Reached(g, s, q[j]) && Relaxed(g, q, k, q[j]);
    }
  }

  ghost predicate Listed(q: seq<Item>, k: nat, v: Vertex) {
    exists i :: k <= i < |q| && q[i].vertex == v
  }

  lemma ChosenSame(g: Graph, order: Order, q: seq<Item>, t: seq<Item>, k: nat)
    requires g.Valid() && k <= |q| == |t| && q[..k] == t[..k] && Chosen(g, order, q, k)
    requires forall j :: k <= j < |t| ==> Listed(q, k, t[j].vertex)
    ensures Chosen(g, order, t, k)
  {
    assert forall x :: 0 <= x < k ==> t[x] == t[..k][x] == q[x];
    forall i, j | 0 <= i < k && i < j < |t|
      ensures ChosenAt(g, order, t, i, j)
    {
      if j < k {
        assert ChosenAt(g, order, q, i, j);
      } else {
        var j' :| k <= j' < |q| && q[j'].vertex == t[j].vertex;
        assert ChosenAt(g, order, q, i, j');
      }
    }
  }

  /** Items from `i` on are not yet compared with the `k`-th one. */
  ghost predicate Relaxing(g: Graph, s: Vertex, q: seq<Item>, k: nat, i: nat)
    requires g.Valid() && k < i <= |q|
  {
    && Vertices(q) == g.Set() && q[0].vertex == s
    && (forall j :: 0 <= j <= k ==> Shortest(g, s, q[j]))
    && (forall j :: k < j < i ==> Reached(g, s, q[j]) && Relaxed(g, q, k + 1, q[j]))
    && (forall j :: i <= j < |q| ==> Reached(g, s, q[j]) && Relaxed(g, q, k, q[j]))
  }

  lemma SameVertices(q: seq<Item>, i: nat, e: Item)
    requires i < |q| && e.vertex == q[i].vertex
    ensures Vertices(q[i := e]) == Vertices(q)
  {
    var t := q[i := e];
    forall v | v in Vertices(q)
      ensures v in Vertices(t)
    {
      var j :| 0 <= j < |q| && q[j].vertex == v;
      assert t[j].vertex == v && t[j] in t;
    }
    forall v | v in Vertices(t)
      ensures v in Vertices(q)
    {
      var j :| 0 <= j < |t| && t[j].vertex == v;
      assert q[j].vertex == v && q[j] in q;
    }
  }

  lemma InGraph(g: Graph, q: seq<Item>, i: nat)
    requires Vertices(q) == g.Set() && i < |q|
    ensures q[i].vertex in g.vertices
  {
    assert q[i] in q && q[i].vertex in Vertices(q);
  }

  lemma RelaxOne(g: Graph, s: Vertex, q: seq<Item>, k: nat, i: nat)
    requires g.Valid() && k < i < |q| && Relaxing(g, s, q, k, i)
    requires q[k].weight + g.Weight(q[k].vertex, q[i].vertex) < WRAP
    ensures Relaxing(g, s, q[i := Lower(q[k], g.Weight(q[k].vertex, q[i].vertex), q[i])], k, i + 1)
  {
    InGraph(g, q, i);
    InGraph(g, q, k);
    var w := g.Weight(q[k].vertex, q[i].vertex);
    var e := Lower(q[k], w, q[i]);
    Lowered(q[k], w, q[i]);
    if e != q[i] {
      Further(g, s, q[k], e.vertex, e);
    }
    SameVertices(q, i, e);
    hide Vertices, Reached, Lower;
    var t := q[i := e];
    assert Relaxed(g, t, k + 1, t[i]);
    forall j | k < j < |q| && j != i
      ensures Relaxed(g, t, if j < i then k + 1 else k, t[j])
    {
      assert Relaxed(g, q, if j < i then k + 1 else k, q[j]);
    }
  }

  /** The settled items are in order and lighter than the others, and no sum from the first `k` on to later ones
      wraps. */
  ghost predicate InOrder(g: Graph, q: seq<Item>, k: nat)
    requires g.Valid()
  {
    forall i, j :: 0 <= i < k && i < j < |q| ==>
      q[i].weight <= q[j].weight && q[i].weight + g.Weight(q[i].vertex, q[j].vertex) < WRAP
  }

  /** What holds while the `k`-th item is compared with the later ones: those from `i` on are as they were. */
  ghost predicate Comparing(g: Graph, s: Vertex, q: seq<Item>, k: nat, i: nat)
    requires g.Valid() && k < i <= |q|
  {
    && Relaxing(g, s, q, k, i) && InOrder(g, q, k)
    && (forall j :: k < j < |q| ==> q[k].weight <= q[j].weight && !Nearer(g, s, q[j].vertex, q[k].weight))
    && (forall j :: k < j < i ==> q[k].weight + g.Weight(q[k].vertex, q[j].vertex) < WRAP)
  }

  lemma CompareOne(g: Graph, s: Vertex, q: seq<Item>, k: nat, i: nat)
    requires g.Valid() && k < i < |q| && Comparing(g, s, q, k, i)
    requires q[k].weight + g.Weight(q[k].vertex, q[i].vertex) < WRAP
    ensures Comparing(g, s, q[i := Lower(q[k], g.Weight(q[k].vertex, q[i].vertex), q[i])], k, i + 1)
  {
    hide Relaxing, Nearer, Lower;
    RelaxOne(g, s, q, k, i);
    Lowered(q[k], g.Weight(q[k].vertex, q[i].vertex), q[i]);
    EachOneLater(g, q, k, i, Lower(q[k], g.Weight(q[k].vertex, q[i].vertex), q[i]));
  }

  /** The new weight is still not below those of the settled items. */
  lemma EachOneLater(g: Graph, q: seq<Item>, k: nat, i: nat, e: Item)
    requires g.Valid() && k < i < |q| && InOrder(g, q, k) && e.vertex == q[i].vertex
    requires e == q[i] || e.weight == q[k].weight + g.Weight(q[k].vertex, q[i].vertex)
    requires q[k].weight <= q[i].weight
    ensures InOrder(g, q[i := e], k) && q[k].weight <= e.weight
  {
  }

  /** A sum that wraps leaves an item that is too light. */
  lemma CompareWraps(g: Graph, s: Vertex, q: seq<Item>, k: nat, i: nat)
    requires g.Valid() && k < i < |q| && Comparing(g, s, q, k, i)
    requires q[k].weight + g.Weight(q[k].vertex, q[i].vertex) >= WRAP
    ensures Broken(g, s, q[i := Lower(q[k], g.Weight(q[k].vertex, q[i].vertex), q[i])])
    ensures Wraps(g, s, q[k], q[i].vertex) && !NoWrap(g, s)
  {
    var w := g.Weight(q[k].vertex, q[i].vertex);
    var e := Lower(q[k], w, q[i]);
    Lowered(q[k], w, q[i]);
    InGraph(g, q, i);
    InGraph(g, q, k);
    hide Lower, Vertices;
    assert TooLight(g, s, e) by {
      assert !Nearer(g, s, q[i].vertex, q[k].weight);
    }
    assert q[i := e][i] == e;
    assert Wraps(g, s, q[k], q[i].vertex);
  }

  /** Once an item is too light, there is always one. */
  lemma StillBroken(g: Graph, s: Vertex, q: seq<Item>, i: nat, e: Item)
    requires g.Valid() && i < |q| && Broken(g, s, q) && e.vertex == q[i].vertex && e.weight <= q[i].weight
    ensures Broken(g, s, q[i := e])
  {
    var j :| 0 <= j < |q| && TooLight(g, s, q[j]);
    NearerStill(g, s, e.vertex, e.weight + 1, q[i].weight + 1);
    hide Nearer;
    assert q[i := e][j] == if j == i then e else q[j];
  }

  /** All that is known while the `k`-th item is compared with the later ones. */
  ghost predicate Tracked(g: Graph, s: Vertex, order: Order, q: seq<Item>, k: nat, i: nat)
    requires g.Valid() && k < i <= |q|
  {
    Comparing(g, s, q, k, i) && Passing(g, s, q, k) && Chosen(g, order, q, k + 1)
  }

  lemma TrackOne(g: Graph, s: Vertex, order: Order, q: seq<Item>, k: nat, i: nat)
    requires g.Valid() && k < i < |q| && Tracked(g, s, order, q, k, i)
    requires q[k].weight + g.Weight(q[k].vertex, q[i].vertex) < WRAP
    ensures Tracked(g, s, order, q[i := Lower(q[k], g.Weight(q[k].vertex, q[i].vertex), q[i])], k, i + 1)
  {
    CompareOne(g, s, q, k, i);
    assert Relaxing(g, s, q, k, i) && Reached(g, s, q[i]);
    PassOne(g, s, q, k, i);
    hide Comparing, Passing, Chosen, Lower, Relaxing, Reached;
    var e := Lower(q[k], g.Weight(q[k].vertex, q[i].vertex), q[i]);
    Lowered(q[k], g.Weight(q[k].vertex, q[i].vertex), q[i]);
    var t := q[i := e];
    forall j | k + 1 <= j < |t|
      ensures Listed(q, k + 1, t[j].vertex)
    {
      assert q[j].vertex == t[j].vertex;
    }
    ChosenSame(g, order, q, t, k + 1);
  }

  lemma TrackWraps(g: Graph, s: Vertex, order: Order, q: seq<Item>, k: nat, i: nat)
    requires g.Valid() && k < i < |q| && Tracked(g, s, order, q, k, i)
    requires q[k].weight + g.Weight(q[k].vertex, q[i].vertex) >= WRAP
    ensures Broken(g, s, q[i := Lower(q[k], g.Weight(q[k].vertex, q[i].vertex), q[i])]) && CanWrap(g, s)
  {
    CompareWraps(g, s, q, k, i);
    assert !Nearer(g, s, q[i].vertex, q[k].weight);
    hide Comparing, Chosen, Broken, Lower;
    NotPassed(g, s, q, k, i);
    assert CanWrapAt(g, s, q[k], q[i].vertex);
  }

  /** The path to the `k`-th item does not pass through a later one. */
  lemma NotPassed(g: Graph, s: Vertex, q: seq<Item>, k: nat, i: nat)
    requires g.Valid() && k < i < |q| && Passing(g, s, q, k)
    ensures q[k].weight < INFINITY ==>
      exists p :: EdgesPath(g, s, q[k].vertex, p) && Length(g, p) == q[k].weight && q[i].vertex !in p
  {
    if q[k].weight < INFINITY {
      var p :| EdgesPath(g, s, q[k].vertex, p) && Length(g, p) == q[k].weight && Inside(p, Vertices(q[..k]));
      assert q[i].vertex !in Vertices(q[..k]);
      assert forall x :: 0 <= x < |p| ==> p[x] != q[i].vertex;
    }
  }

  /** Compares all other items with the `k`-th one. */
  method Relax(g: Graph, q: array<Item>, k: nat, ghost s: Vertex, ghost order: Order, ghost wrapped: bool)
    returns (ghost wrapped': bool)
    requires g.Valid() && k < q.Length && (wrapped ==> CanWrap(g, s))
    requires if wrapped then Broken(g, s, q[..]) else Tracked(g, s, order, q[..], k, k + 1)
    modifies q
    ensures q[..k + 1] == old(q[..k + 1]) && Vertices(q[..]) == old(Vertices(q[..])) && (wrapped' ==> CanWrap(g, s))
    ensures if wrapped' then Broken(g, s, q[..]) else Tracked(g, s, order, q[..], k, q.Length)
  {
    hide Tracked, Broken, Lower, CanWrap, Vertices;
    wrapped' := wrapped;
    var i := k + 1;
    while i < q.Length
      invariant k < i <= q.Length && q[..k + 1] == old(q[..k + 1]) && (wrapped' ==> CanWrap(g, s))
      invariant Vertices(q[..]) == old(Vertices(q[..]))
      invariant if wrapped' then Broken(g, s, q[..]) else Tracked(g, s, order, q[..], k, i)
    {
      ghost var t := q[..];
      var weight := Adjacent(g, q[k].vertex, q[i].vertex);
      Lowered(t[k], weight, t[i]);
      SameVertices(t, i, Lower(t[k], weight, t[i]));
      if wrapped' {
        StillBroken(g, s, t, i, Lower(t[k], weight, t[i]));
      } else if t[k].weight + weight < WRAP {
        TrackOne(g, s, order, t, k, i);
      } else {
        TrackWraps(g, s, order, t, k, i);
        wrapped' := true;
      }
      q[i] := Lower(q[k], weight, q[i]);
      assert q[..] == t[i := Lower(t[k], weight, t[i])];
      i := i + 1;
    }
  }

  // ---------------------------------------------------------------- sorting

  predicate Precedes(a: Item, b: Item, order: Order, k: nat) {
    Before(a.weight, order(k, a.vertex), b.weight, order(k, b.vertex))
  }

  ghost predicate SortedBy(order: Order, q: seq<Item>, k: nat) {
    forall i, j :: k <= i < j < |q| ==> Precedes(q[i], q[j], order, k)
  }

  ghost predicate Ordered(q: seq<Item>, order: Order, k: nat) {
    forall i, j :: 0 <= i < j < |q| ==> Precedes(q[i], q[j], order, k)
  }

  function Insert(e: Item, q: seq<Item>, order: Order, k: nat): seq<Item> {
    if q == [] || Precedes(e, q[0], order, k) then [e] + q else [q[0]] + Insert(e, q[1..], order, k)
  }

  function Sort(q: seq<Item>, order: Order, k: nat): seq<Item> {
    if q == [] then [] else Insert(q[0], Sort(q[1..], order, k), order, k)
  }

  lemma {:induction false} InsertedItems(e: Item, q: seq<Item>, order: Order, k: nat)
    ensures multiset(Insert(e, q, order, k)) == multiset(q) + multiset{e}
  {
    hide Precedes;
    if q != [] && !Precedes(e, q[0], order, k) {
      InsertedItems(e, q[1..], order, k);
      assert q == [q[0]] + q[1..];
    }
  }

  lemma {:induction false} Inserted(e: Item, q: seq<Item>, order: Order, k: nat)
    requires Ordered(q, order, k)
    ensures Ordered(Insert(e, q, order, k), order, k)
  {
    if q == [] {
    } else if Precedes(e, q[0], order, k) {
      Prepend(e, q, order, k);
    } else {
      var r := Insert(e, q[1..], order, k);
      InsertedItems(e, q[1..], order, k);
      Inserted(e, q[1..], order, k);
      forall i | 0 <= i < |r|
        ensures Precedes(q[0], r[i], order, k)
      {
        FromEither(r, q[1..], e, r[i]);
      }
      Prepend(q[0], r, order, k);
    }
  }

  lemma FromEither(r: seq<Item>, q: seq<Item>, e: Item, x: Item)
    requires multiset(r) == multiset(q) + multiset{e} && x in r
    ensures x == e || x in q
  {
    assert x in multiset(r);
  }

  lemma Prepend(x: Item, r: seq<Item>, order: Order, k: nat)
    requires Ordered(r, order, k) && (r != [] ==> Precedes(x, r[0], order, k))
    ensures Ordered([x] + r, order, k)
  {
  }

  lemma {:induction false} SortSorts(q: seq<Item>, order: Order, k: nat)
    ensures multiset(Sort(q, order, k)) == multiset(q) && Ordered(Sort(q, order, k), order, k)
  {
    hide Ordered, Insert;
    if q == [] {
      NothingToSort(order, k);
    } else {
      SortSorts(q[1..], order, k);
      InsertedItems(q[0], Sort(q[1..], order, k), order, k);
      Inserted(q[0], Sort(q[1..], order, k), order, k);
      assert q == [q[0]] + q[1..];
    }
  }

  lemma NothingToSort(order: Order, k: nat)
    ensures Ordered([], order, k)
  {
  }

  /** Sorts the items from `k` on by weight, and equal weights as the order says. */
  method SortFrom(q: array<Item>, k: nat, order: Order)
    requires k <= q.Length
    modifies q
    ensures q[..k] == old(q[..k]) && multiset(q[k..]) == multiset(old(q[k..])) && SortedBy(order, q[..], k)
  {
    hide Precedes;
    ghost var head := q[..k];
    var r := Sort(q[k..], order, k);
    SortSorts(q[k..], order, k);
    assert |r| == |multiset(r)| == q.Length - k;
    forall i | k <= i < q.Length {
      q[i] := r[i - k];
    }
    assert q[k..] == r && q[..k] == head;
  }

  lemma SortedByWeight(order: Order, q: seq<Item>, k: nat)
    requires SortedBy(order, q, k)
    ensures Sorted(q, k)
  {
  }

  /** Sorting the items that are not settled changes nothing that matters. */
  lemma Resorted(g: Graph, s: Vertex, q: seq<Item>, t: seq<Item>, k: nat)
    requires g.Valid() && 0 < k <= |q| == |t| && q[..k] == t[..k] && multiset(q[k..]) == multiset(t[k..])
    requires Settled(g, s, q, k)
    ensures Settled(g, s, t, k)
  {
    SameItems(q, t, k);
    hide Reached, Vertices;
    forall i | k <= i < |t|
      ensures Reached(g, s, t[i]) && Relaxed(g, t, k, t[i])
    {
      var j :| k <= j < |q| && q[j] == t[i];
      assert Relaxed(g, q, k, q[j]);
      assert forall x :: 0 <= x < k ==> t[x] == t[..k][x] == q[x];
    }
    assert forall x :: 0 <= x < k ==> t[x] == t[..k][x] == q[x];
  }

  lemma SameItems(q: seq<Item>, t: seq<Item>, k: nat)
    requires k <= |q| == |t| && q[..k] == t[..k] && multiset(q[k..]) == multiset(t[k..])
    ensures Vertices(q) == Vertices(t)
    ensures forall i :: k <= i < |t| ==> exists j :: k <= j < |q| && q[j] == t[i]
  {
    assert q == q[..k] + q[k..] && t == t[..k] + t[k..];
    assert multiset(q) == multiset(t);
    assert forall e :: e in q <==> e in multiset(q);
    assert forall e :: e in t <==> e in multiset(t);
    forall i | k <= i < |t|
      ensures exists j :: k <= j < |q| && q[j] == t[i]
    {
      assert t[i] == t[k..][i - k] && t[i] in multiset(t[k..]);
      assert t[i] in q[k..];
      var j :| 0 <= j < |q[k..]| && q[k..][j] == t[i];
      assert q[k + j] == t[i];
    }
  }

  // ---------------------------------------------------------------- the algorithm

  lemma Settle(g: Graph, s: Vertex, q: seq<Item>, k: nat)
    requires g.Valid() && k < |q| && Settled(g, s, q, k) && Sorted(q, k)
    ensures Relaxing(g, s, q, k, k + 1)
  {
    Lightest(g, s, q, k);
    hide Reached, Vertices;
  }

  /** The items behind the `k`-th one are not nearer. */
  lemma NotNearer(g: Graph, s: Vertex, q: seq<Item>, k: nat, j: nat)
    requires g.Valid() && k < j < |q| == |g.vertices| && Settled(g, s, q, k) && Sorted(q, k)
    ensures !Nearer(g, s, q[j].vertex, q[k].weight)
  {
    if Nearer(g, s, q[j].vertex, q[k].weight) {
      var p :| PathTo(g, s, q[j].vertex, p) && Length(g, p) < q[k].weight;
      DifferentCount(g.vertices);
      CountDifferent(q);
      if k > 0 {
        PathLeaves(g, s, q, k, p);
      }
    }
  }

  lemma CompareBegin(g: Graph, s: Vertex, q: seq<Item>, k: nat)
    requires g.Valid() && k < |q| == |g.vertices| && Settled(g, s, q, k) && Sorted(q, k) && InOrder(g, q, k)
    ensures Comparing(g, s, q, k, k + 1)
  {
    Settle(g, s, q, k);
    hide Settled, Relaxing, Nearer;
    forall j | k < j < |q|
      ensures !Nearer(g, s, q[j].vertex, q[k].weight)
    {
      NotNearer(g, s, q, k, j);
    }
  }

  lemma CompareEnd(g: Graph, s: Vertex, q: seq<Item>, k: nat)
    requires g.Valid() && k < |q| && Comparing(g, s, q, k, |q|)
    ensures Settled(g, s, q, k + 1) && InOrder(g, q, k + 1)
  {
  }

  /** The queue at the start: the source at no distance, all other vertices at infinity. */
  lemma Start(g: Graph, s: Vertex, q: seq<Item>, t: seq<Item>)
    requires g.Valid() && s in g.vertices && |q| == |t| == |g.vertices|
    requires forall i :: 0 <= i < |q| ==> q[i] == Item(g.vertices[i], if g.vertices[i] == s then 0 else INFINITY)
    requires multiset(q) == multiset(t) && Sorted(t, 0)
    ensures Settled(g, s, t, 0)
  {
    assert q[0..] == q && t[0..] == t;
    SameItems(q, t, 0);
    AllVertices(g, q);
    var n :| 0 <= n < |g.vertices| && g.vertices[n] == s;
    assert q[n] in multiset(q);
    assert Item(s, 0) in t;
    var m :| 0 <= m < |t| && t[m] == Item(s, 0);
    assert m > 0 ==> t[0].weight <= t[m].weight;
    forall i | 0 <= i < |t|
      ensures Reached(g, s, t[i]) && (t[i].weight == 0 ==> t[i].vertex == s)
    {
      var j :| 0 <= j < |q| && q[j] == t[i];
      if t[i].vertex == s {
        assert EdgesPath(g, s, s, [s]) && Length(g, [s]) == 0;
      }
    }
  }

  lemma AllVertices(g: Graph, q: seq<Item>)
    requires |q| == |g.vertices| && forall i :: 0 <= i < |q| ==> q[i].vertex == g.vertices[i]
    ensures Vertices(q) == g.Set()
  {
    forall v | v in g.Set()
      ensures v in Vertices(q)
    {
      var i :| 0 <= i < |g.vertices| && g.vertices[i] == v;
      assert q[i] in q;
    }
  }

  /** The result lists every vertex but the source, with its distance. */
  ghost predicate Distances(g: Graph, s: Vertex, r: seq<Item>)
    requires g.Valid()
  {
    && Vertices(r) == g.Set() - {s} && |r| == |g.vertices| - 1
    && (forall i, j :: 0 <= i < j < |r| ==> r[i].vertex != r[j].vertex)
    && (forall i :: 0 <= i < |r| ==> Shortest(g, s, r[i]))
  }

  /** What the queue is like when the first `k` items are done with. */
  ghost predicate Progress(g: Graph, s: Vertex, order: Order, q: seq<Item>, k: nat, wrapped: bool)
    requires g.Valid() && k <= |q|
  {
    && |q| == |g.vertices| && Vertices(q) == g.Set() && SortedBy(order, q, k) && q != [] && q[0] == Item(s, 0)
    && if wrapped then Broken(g, s, q) && CanWrap(g, s)
       else Settled(g, s, q, k) && InOrder(g, q, k) && Passed(g, s, q, k) && Chosen(g, order, q, k)
  }

  /** `v` comes behind all vertices with the same weight. */
  ghost predicate PutsLast(order: Order, v: Vertex) {
    forall k, x :: x != v ==> order(k, x) < order(k, v)
  }

  /** Distances are right exactly if no sum has wrapped.  No sum wraps, whatever the order of equal weights is, exactly
      if none can; if one can, an order in which its target comes last lets it wrap.  `order` compares vertices of equal
      weight when the item of each round is sorted to the front. */
  method Dijkstra(g: Graph, s: Vertex, order: Order) returns (r: seq<Item>, ghost wrapped: bool)
    requires g.Valid()
    ensures s !in g.vertices ==> r == [] && !wrapped
    ensures s in g.vertices ==> Vertices(r) == g.Set() - {s} && |r| == |g.vertices| - 1
    ensures s in g.vertices ==> (Distances(g, s, r) <==> !wrapped)
    ensures s in g.vertices && wrapped ==> CanWrap(g, s)
    ensures s in g.vertices && (exists u, v :: CanWrapAt(g, s, u, v) && PutsLast(order, v)) ==> wrapped
    ensures s in g.vertices ==> (NoWrap(g, s) ==> !wrapped) && (MustWrap(g, s) ==> wrapped)
  {
    wrapped := false;
    if s !in g.vertices {
      return [], false;
    }
    hide Progress, NoWrap, MustWrap, CanWrap, CanWrapAt, PutsLast;
    var q := Enqueue(g, s, order);
    var k := 0;
    while k < q.Length
      invariant 0 <= k <= q.Length && Progress(g, s, order, q[..], k, wrapped)
    {
      wrapped := Round(g, s, order, q, k, wrapped);
      k := k + 1;
    }
    ProgressEnd(g, s, order, q[..], wrapped);
    r := q[1..];
  }

  lemma ProgressBegin(g: Graph, s: Vertex, order: Order, q: seq<Item>)
    requires g.Valid() && |q| == |g.vertices| && Settled(g, s, q, 0) && SortedBy(order, q, 0)
    requires forall i :: 0 <= i < |q| ==> q[i].weight < INFINITY ==> q[i] == Item(s, 0)
    ensures Progress(g, s, order, q, 0, false)
  {
    DifferentCount(g.vertices);
    CountDifferent(q);
    hide SortedBy, Vertices;
    forall j | 0 <= j < |q|
      ensures Through(g, s, q[j], Vertices(q[..0]))
    {
      if q[j].weight < INFINITY {
        var p := [s];
        InGraph(g, q, j);
        assert EdgesPath(g, s, s, p) && Length(g, p) == 0 && Inside(p, Vertices(q[..0]));
      }
    }
  }

  lemma RoundBegin(g: Graph, s: Vertex, order: Order, q: seq<Item>, k: nat)
    requires g.Valid() && k < |q| && Progress(g, s, order, q, k, false)
    ensures Tracked(g, s, order, q, k, k + 1)
  {
    hide Settled, Comparing, InOrder, Sorted, SortedBy, Vertices, Passed, Passing, Chosen;
    SortedByWeight(order, q, k);
    CompareBegin(g, s, q, k);
    PassBegin(g, s, q, k);
    ChosenNext(g, s, order, q, k);
  }

  /** One more item is done with, and the rest is sorted again. */
  method Round(g: Graph, s: Vertex, order: Order, q: array<Item>, k: nat, ghost wrapped: bool)
    returns (ghost wrapped': bool)
    requires g.Valid() && k < q.Length && Progress(g, s, order, q[..], k, wrapped)
    modifies q
    ensures Progress(g, s, order, q[..], k + 1, wrapped')
  {
    hide Settled, Comparing, Broken, CanWrap, InOrder, Sorted, SortedBy, Vertices, Passed, Chosen;
    if !wrapped {
      RoundBegin(g, s, order, q[..], k);
    }
    ghost var first := q[0];
    wrapped' := Relax(g, q, k, s, order, wrapped);
    ghost var t := q[..];
    assert t[0] == t[..k + 1][0] == first;
    SortFrom(q, k + 1, order);
    assert q[..][0] == q[..][..k + 1][0] == t[..k + 1][0];
    SameItems(t, q[..], k + 1);
    if wrapped' {
      ResortedBroken(g, s, t, q[..], k + 1);
    } else {
      CompareEnd(g, s, t, k);
      ResortedAll(g, s, order, t, q[..], k + 1);
    }
  }

  lemma ResortedAll(g: Graph, s: Vertex, order: Order, q: seq<Item>, t: seq<Item>, k: nat)
    requires g.Valid() && 0 < k <= |q| == |t| == |g.vertices| && q[..k] == t[..k]
    requires multiset(q[k..]) == multiset(t[k..])
    requires Settled(g, s, q, k) && InOrder(g, q, k) && Passed(g, s, q, k) && Chosen(g, order, q, k)
    ensures Settled(g, s, t, k) && InOrder(g, t, k) && Passed(g, s, t, k) && Chosen(g, order, t, k)
  {
    Resorted(g, s, q, t, k);
    assert Vertices(t) == g.Set();
    hide Settled, InOrder, Passed, Chosen, Vertices;
    ResortedOrder(g, q, t, k);
    DifferentCount(g.vertices);
    PassResorted(g, s, q, t, k);
    SameItems(q, t, k);
    forall j | k <= j < |t|
      ensures Listed(q, k, t[j].vertex)
    {
      var i :| k <= i < |q| && q[i] == t[j];
    }
    ChosenSame(g, order, q, t, k);
  }

  lemma ResortedOrder(g: Graph, q: seq<Item>, t: seq<Item>, k: nat)
    requires g.Valid() && k <= |q| == |t| && q[..k] == t[..k] && multiset(q[k..]) == multiset(t[k..])
    requires InOrder(g, q, k)
    ensures InOrder(g, t, k)
  {
    SameItems(q, t, k);
    hide Vertices;
    assert forall x :: 0 <= x < k ==> t[x] == t[..k][x] == q[x];
    forall i, j | 0 <= i < k && i < j < |t|
      ensures t[i].weight <= t[j].weight && t[i].weight + g.Weight(t[i].vertex, t[j].vertex) < WRAP
    {
      if j >= k {
        var l :| k <= l < |q| && q[l] == t[j];
      }
    }
  }

  lemma ResortedBroken(g: Graph, s: Vertex, q: seq<Item>, t: seq<Item>, k: nat)
    requires g.Valid() && k <= |q| == |t| && q[..k] == t[..k] && multiset(q[k..]) == multiset(t[k..]) && Broken(g, s, q)
    ensures Broken(g, s, t)
  {
    SameItems(t, q, k);
    hide Vertices, TooLight;
    var j :| 0 <= j < |q| && TooLight(g, s, q[j]);
    if j < k {
      assert t[j] == t[..k][j] == q[j];
    } else {
      var l :| k <= l < |t| && t[l] == q[j];
    }
  }

  lemma ProgressEnd(g: Graph, s: Vertex, order: Order, q: seq<Item>, wrapped: bool)
    requires g.Valid() && s in g.vertices && Progress(g, s, order, q, |q|, wrapped)
    ensures Vertices(q[1..]) == g.Set() - {s} && |q[1..]| == |g.vertices| - 1
    ensures Distances(g, s, q[1..]) <==> !wrapped
    ensures wrapped ==> CanWrap(g, s) && !NoWrap(g, s)
    ensures (exists u, v :: CanWrapAt(g, s, u, v) && PutsLast(order, v)) ==> wrapped
    ensures MustWrap(g, s) ==> wrapped
  {
    OthersOnce(g, q);
    hide Settled, InOrder, MustWrap, Vertices, Chosen, PutsLast, Passed;
    if wrapped {
      BrokenEnd(g, s, q);
      var u, v :| CanWrapAt(g, s, u, v);
    } else {
      Finished(g, s, q);
      NotForced(g, s, q);
      InOrderSorted(g, q);
      forall u, v | CanWrapAt(g, s, u, v) && PutsLast(order, v)
        ensures u.weight + g.Weight(u.vertex, v) < WRAP
      {
        var a, b := LastComesLater(g, s, order, q, u, v);
        TwoInOrder(g, q, a, b);
      }
    }
  }

  /** If the target of a sum that can wrap comes last, the vertex it starts from is settled first. */
  lemma LastComesLater(g: Graph, s: Vertex, order: Order, q: seq<Item>, u: Item, v: Vertex) returns (a: nat, b: nat)
    requires g.Valid() && Settled(g, s, q, |q|) && Sorted(q, 0) && Chosen(g, order, q, |q|)
    requires q != [] && q[0].vertex == s && PutsLast(order, v) && CanWrapAt(g, s, u, v)
    ensures a < b < |q| && q[a] == u && q[b].vertex == v
  {
    hide Settled, Chosen;
    a := Find(g, s, q, u.vertex);
    b := Find(g, s, q, v);
    OneDistance(g, s, u, q[a]);
    if b < a {
      EquallyFar(g, s, q[b], u);
      NotInfinite(g, order, q, b, a);
      var p :| EdgesPath(g, s, u.vertex, p) && Length(g, p) == u.weight && v !in p;
      a := DoneBefore(g, s, order, q, b, p);
      OneDistance(g, s, u, q[a]);
    }
  }

  lemma InOrderSorted(g: Graph, q: seq<Item>)
    requires g.Valid() && InOrder(g, q, |q|)
    ensures Sorted(q, 0)
  {
  }

  lemma TwoChosen(g: Graph, order: Order, q: seq<Item>, i: nat, j: nat)
    requires g.Valid() && i < j < |q| && Chosen(g, order, q, |q|)
    ensures ChosenAt(g, order, q, i, j)
  {
  }

  lemma NotInfinite(g: Graph, order: Order, q: seq<Item>, i: nat, j: nat)
    requires g.Valid() && i < j < |q| && Chosen(g, order, q, |q|) && PutsLast(order, q[i].vertex)
    requires q[i].vertex != q[j].vertex
    ensures q[i].weight < INFINITY
  {
    TwoChosen(g, order, q, i, j);
  }

  lemma EquallyFar(g: Graph, s: Vertex, e: Item, u: Item)
    requires g.Valid() && Shortest(g, s, e) && e.weight <= u.weight <= INFINITY && !Nearer(g, s, e.vertex, u.weight)
    ensures e.weight == u.weight
  {
  }

  /** Where a path leads that does not pass through the `b`-th vertex and is no longer than its distance, is settled
      before
      that vertex, if that vertex comes last. */
  lemma {:induction false} DoneBefore(g: Graph, s: Vertex, order: Order, q: seq<Item>, b: nat, p: seq<Vertex>)
    returns (i: nat)
    requires g.Valid() && b < |q| && Settled(g, s, q, |q|) && Chosen(g, order, q, |q|) && q[0].vertex == s
    requires PutsLast(order, q[b].vertex) && p != [] && PathTo(g, s, p[|p| - 1], p)
    requires q[b].vertex !in p && Length(g, p) <= q[b].weight
    ensures i < b && q[i].vertex == p[|p| - 1] && Shortest(g, s, q[i])
    decreases |p|
  {
    hide Settled, Chosen, Reached;
    if |p| == 1 {
      assert p[0] == s;
      FirstShortest(g, s, q);
      i := 0;
    } else {
      var l := DoneBefore(g, s, order, q, b, p[..|p| - 1]);
      i := Find(g, s, q, p[|p| - 1]);
      if b < i {
        TwoChosen(g, order, q, b, i);
      }
    }
  }

  lemma FirstShortest(g: Graph, s: Vertex, q: seq<Item>)
    requires g.Valid() && q != [] && Settled(g, s, q, |q|)
    ensures Shortest(g, s, q[0])
  {
  }

  lemma NotForced(g: Graph, s: Vertex, q: seq<Item>)
    requires g.Valid() && Settled(g, s, q, |q|) && InOrder(g, q, |q|)
    ensures !MustWrap(g, s)
  {
    hide Settled, InOrder, Farther;
    forall u, v | Wraps(g, s, u, v)
      ensures !Farther(g, s, u, v) && !Wraps(g, s, Item(v, u.weight), u.vertex)
    {
      NeedNotWrap(g, s, q, u, v);
    }
  }

  lemma BrokenEnd(g: Graph, s: Vertex, q: seq<Item>)
    requires g.Valid() && s in g.vertices && q != [] && q[0] == Item(s, 0) && Broken(g, s, q)
    ensures !Distances(g, s, q[1..])
  {
    var j :| 0 <= j < |q| && TooLight(g, s, q[j]);
    assert PathTo(g, s, s, [s]) && Length(g, [s]) < 1;
    assert Nearer(g, s, s, 1);
    assert q[1..][j - 1] == q[j];
    if Shortest(g, s, q[j]) {
      NotTooLight(g, s, q[j]);
    }
  }

  /** If no sum has wrapped, none had to: of two vertices, the one that is done with first tells. */
  lemma NeedNotWrap(g: Graph, s: Vertex, q: seq<Item>, u: Item, v: Vertex)
    requires g.Valid() && Settled(g, s, q, |q|) && InOrder(g, q, |q|) && Wraps(g, s, u, v)
    ensures !Farther(g, s, u, v) && !Wraps(g, s, Item(v, u.weight), u.vertex)
  {
    hide InOrder;
    var a := Find(g, s, q, u.vertex);
    var b := Find(g, s, q, v);
    TwoInOrder(g, q, a, b);
    TwoInOrder(g, q, b, a);
    OneDistance(g, s, u, q[a]);
    NotFarther(g, s, u, q[b]);
    if Wraps(g, s, Item(v, u.weight), u.vertex) {
      OneDistance(g, s, Item(v, u.weight), q[b]);
    }
  }

  lemma TwoInOrder(g: Graph, q: seq<Item>, i: nat, j: nat)
    requires g.Valid() && i < |q| && j < |q| && InOrder(g, q, |q|)
    ensures i < j ==> q[i].weight <= q[j].weight && q[i].weight + g.Weight(q[i].vertex, q[j].vertex) < WRAP
  {
  }

  lemma NotFarther(g: Graph, s: Vertex, u: Item, e: Item)
    requires g.Valid() && Reached(g, s, e) && e.weight <= u.weight
    ensures !Farther(g, s, u, e.vertex)
  {
    if u.weight < INFINITY {
      var p :| EdgesPath(g, s, e.vertex, p) && Length(g, p) == e.weight;
      assert Nearer(g, s, e.vertex, u.weight + 1);
    }
  }

  lemma Find(g: Graph, s: Vertex, q: seq<Item>, v: Vertex) returns (i: nat)
    requires g.Valid() && Settled(g, s, q, |q|) && v in g.vertices
    ensures i < |q| && q[i].vertex == v && Shortest(g, s, q[i])
  {
    assert v in Vertices(q);
    i :| 0 <= i < |q| && q[i].vertex == v;
  }

  method Enqueue(g: Graph, s: Vertex, order: Order) returns (q: array<Item>)
    requires g.Valid() && s in g.vertices
    ensures fresh(q) && q.Length == |g.vertices| && Progress(g, s, order, q[..], 0, false)
  {
    q := new Item[|g.vertices|](i requires 0 <= i < |g.vertices| =>
      Item(g.vertices[i], if g.vertices[i] == s then 0 else INFINITY));
    ghost var t := q[..];
    SortFrom(q, 0, order);
    assert t[0..] == t && q[0..] == q[..];
    hide Settled, SortedBy;
    SortedByWeight(order, q[..], 0);
    SameItems(t, q[..], 0);
    Start(g, s, t, q[..]);
    ProgressBegin(g, s, order, q[..]);
  }

  lemma Finished(g: Graph, s: Vertex, q: seq<Item>)
    requires g.Valid() && s in g.vertices && |q| == |g.vertices| && Settled(g, s, q, |q|)
    ensures Distances(g, s, q[1..])
  {
    DifferentCount(g.vertices);
    CountDifferent(q);
    VerticesSplit(q);
    NotAgain(q);
    hide Vertices, Shortest;
    assert forall i :: 0 <= i < |q| - 1 ==> q[1..][i] == q[i + 1];
  }

  /** Every vertex but that of the first item is there. */
  lemma OthersOnce(g: Graph, q: seq<Item>)
    requires g.Valid() && q != [] && |q| == |g.vertices| && Vertices(q) == g.Set()
    ensures Vertices(q[1..]) == g.Set() - {q[0].vertex}
  {
    DifferentCount(g.vertices);
    CountDifferent(q);
    VerticesSplit(q);
    NotAgain(q);
  }

  lemma NotAgain(q: seq<Item>)
    requires q != [] && forall i, j :: 0 <= i < j < |q| ==> q[i].vertex != q[j].vertex
    ensures q[0].vertex !in Vertices(q[1..])
  {
    forall e | e in q[1..]
      ensures e.vertex != q[0].vertex
    {
      var i :| 0 <= i < |q| - 1 && q[1..][i] == e;
    }
  }

  lemma {:induction false} DifferentCount(vs: seq<Vertex>)
    requires forall i, j :: 0 <= i < j < |vs| ==> vs[i] != vs[j]
    ensures |set v | v in vs| == |vs|
  {
    if vs != [] {
      DifferentCount(vs[1..]);
      assert vs == [vs[0]] + vs[1..];
      assert (set v | v in vs) == (set v | v in vs[1..]) + {vs[0]};
    }
  }

  lemma VerticesSplit(q: seq<Item>)
    requires q != []
    ensures Vertices(q) == Vertices(q[1..]) + {q[0].vertex}
  {
    assert q == [q[0]] + q[1..];
  }

  /** As many vertices as items: no vertex is repeated. */
  lemma {:induction false} CountDifferent(q: seq<Item>)
    requires |Vertices(q)| == |q|
    ensures forall i, j :: 0 <= i < j < |q| ==> q[i].vertex != q[j].vertex
  {
    if q != [] {
      VerticesSplit(q);
      CountMost(q[1..]);
      CountDifferent(q[1..]);
      assert q[0].vertex !in Vertices(q[1..]);
      forall i, j | 0 <= i < j < |q|
        ensures q[i].vertex != q[j].vertex
      {
        assert q[j] == q[1..][j - 1] && q[j] in q[1..];
        if i > 0 {
          assert q[i] == q[1..][i - 1];
        }
      }
    }
  }

  lemma {:induction false} CountMost(q: seq<Item>)
    ensures |Vertices(q)| <= |q|
  {
    if q != [] {
      VerticesSplit(q);
      CountMost(q[1..]);
    }
  }

  /** The shortest distance between two vertices; a vertex and itself are reported as not connected. */
  method ShortestPath(g: Graph, u: Vertex, v: Vertex, order: Order) returns (d: Word)
    requires g.Valid()
    ensures u in g.vertices && v in g.vertices && u != v && !CanWrap(g, u) ==> Shortest(g, u, Item(v, d))
    ensures u !in g.vertices || v !in g.vertices || u == v ==> d == INFINITY
  {
    if u !in g.vertices || v !in g.vertices {
      return INFINITY;
    }
    hide Shortest, NoWrap, MustWrap, CanWrap;
    ghost var wrapped;
    var r;
    r, wrapped := Dijkstra(g, u, order);
    assert u != v ==> v in Vertices(r);
    var i := 0;
    while i < |r|
      invariant 0 <= i <= |r| && forall j :: 0 <= j < i ==> r[j].vertex != v
    {
      if r[i].vertex == v {
        assert r[i].vertex in Vertices(r);
        return r[i].weight;
      }
      i := i + 1;
    }
    d := INFINITY;
  }

  // ---------------------------------------------------------------- an edge that is too heavy

  /** Two vertices that cannot be reached from the first one, with edges of infinity and two between them. */
  const TOO_HEAVY: Graph := Graph([0, 1, 2], map[0 := [], 1 := [Edge(2, 0x8000_0001)], 2 := [Edge(1, 0x8000_0001)]])

  /** Whichever is done with first, the other one seems to be reached at no distance. */
  method HeavyEdgeWraps(order: Order) returns (r: seq<Item>)
    ensures TOO_HEAVY.Valid() && !Distances(TOO_HEAVY, 0, r)
  {
    HeavyMustWrap();
    hide MustWrap, NoWrap, Distances, CanWrap;
    ghost var wrapped;
    r, wrapped := Dijkstra(TOO_HEAVY, 0, order);
  }

  lemma HeavyMustWrap()
    ensures TOO_HEAVY.Valid() && MustWrap(TOO_HEAVY, 0)
  {
    var g := TOO_HEAVY;
    assert g.Valid();
    Unreachable(1);
    Unreachable(2);
    assert FirstWeight(g.edges[1], 2) == 0x8000_0001 && FirstWeight(g.edges[2], 1) == 0x8000_0001;
    assert Wraps(g, 0, Item(1, INFINITY), 2) && Wraps(g, 0, Item(2, INFINITY), 1);
  }

  lemma Unreachable(v: Vertex)
    requires v == 1 || v == 2
    ensures TOO_HEAVY.Valid() && Shortest(TOO_HEAVY, 0, Item(v, INFINITY))
  {
    forall p | PathTo(TOO_HEAVY, 0, v, p)
      ensures INFINITY <= Length(TOO_HEAVY, p)
    {
      FarAway(p);
    }
  }

  lemma {:induction false} FarAway(p: seq<Vertex>)
    requires TOO_HEAVY.Valid() && p != [] && p[0] == 0 && p[|p| - 1] != 0
    requires forall i :: 0 <= i < |p| ==> p[i] in TOO_HEAVY.vertices
    ensures INFINITY <= Length(TOO_HEAVY, p)
  {
    var x := p[|p| - 2];
    if x == 0 {
      assert FirstWeight(TOO_HEAVY.edges[0], p[|p| - 1]) == INFINITY;
    } else {
      FarAway(p[..|p| - 1]);
    }
  }

  // ---------------------------------------------------------------- a tie that no order can turn

  /** The second and the third vertex are equally far, and going back from the third to the second one wraps. */
  const BEHIND: Graph := Graph([0, 1, 2], map[0 := [Edge(1, 1)], 1 := [Edge(2, 0)], 2 := [Edge(1, 0xffff_ffff)]])

  /** The third vertex is only reached through the second one, which is therefore settled first in any order. */
  lemma TieInOneOrder()
    ensures BEHIND.Valid() && !NoWrap(BEHIND, 0) && !CanWrap(BEHIND, 0)
  {
    var g := BEHIND;
    BehindWeights();
    BehindShortest();
    assert !Nearer(g, 0, 1, 1) by {
      forall p | PathTo(g, 0, 1, p)
        ensures Length(g, p) >= 1
      {
        NotAtOnce(p);
      }
    }
    assert Wraps(g, 0, Item(2, 1), 1);
    forall u, v | Wraps(g, 0, u, v)
      ensures !CanWrapAt(g, 0, u, v)
    {
      assert u.vertex == 2 && v == 1;
      OneDistance(g, 0, u, Item(2, 1));
      forall p | EdgesPath(g, 0, 2, p)
        ensures 1 in p
      {
        assert HasEdge(g.edges[p[|p| - 2]], p[|p| - 1]);
        assert p[|p| - 2] == 1;
      }
    }
  }

  lemma BehindWeights()
    ensures BEHIND.Valid() && BEHIND.Weight(0, 1) == 1 && BEHIND.Weight(1, 2) == 0 && BEHIND.Weight(2, 1) == 0xffff_ffff
    ensures BEHIND.Weight(0, 2) == BEHIND.Weight(1, 0) == BEHIND.Weight(2, 0) == INFINITY
  {
    var g := BEHIND;
    assert g.Valid();
    assert g.edges[0][1..] == [] && g.edges[1][1..] == [] && g.edges[2][1..] == [];
  }

  lemma BehindShortest()
    ensures BEHIND.Valid() && Shortest(BEHIND, 0, Item(2, 1))
  {
    var g := BEHIND;
    BehindWeights();
    var p := [0, 1, 2];
    assert p[..2] == [0, 1] && p[..2][..1] == [0];
    assert Length(g, [0, 1]) == 1 && Length(g, p) == 1;
    assert HasEdge(g.edges[0], 1) by {
      assert g.edges[0][0].end == 1;
    }
    assert HasEdge(g.edges[1], 2) by {
      assert g.edges[1][0].end == 2;
    }
    assert EdgesPath(g, 0, 2, p);
    forall r | PathTo(g, 0, 2, r)
      ensures Length(g, r) >= 1
    {
      NotAtOnce(r);
    }
  }

  lemma {:induction false} NotAtOnce(p: seq<Vertex>)
    requires BEHIND.Valid() && p != [] && p[0] == 0 && p[|p| - 1] != 0
    requires forall i :: 0 <= i < |p| ==> p[i] in BEHIND.vertices
    ensures Length(BEHIND, p) >= 1
  {
    BehindWeights();
    if p[|p| - 2] != 0 {
      NotAtOnce(p[..|p| - 1]);
    }
  }
}

/** The backtracking search for the best assignment of local to peer interfaces. */
module Assignment {
  import opened Common

  type Matrix = seq<seq<nat>>

  ghost predicate Square(w: Matrix, n: nat) {
    |w| == n && forall i :: 0 <= i < n ==> |w[i]| == n
  }

  /** Interface `i` is assigned to interface `p[i]` of the peer. */
  ghost predicate Permutation(p: seq<int>, n: nat) {
    && |p| == n && (forall i :: 0 <= i < n ==> 0 <= p[i] < n)
    && (forall i, j :: 0 <= i < j < n ==> p[i] != p[j])
  }

  /** Number and sum of the weights of the connections among the first `n` interfaces. */
  function Cardinality(w: Matrix, p: seq<int>, n: nat): nat
    requires n <= |p| && n <= |w| && forall i :: 0 <= i < n ==> 0 <= p[i] < |w[i]|
  {
    if n == 0 then 0 else Cardinality(w, p, n - 1) + if 0 < w[n - 1][p[n - 1]] then 1 else 0
  }

  function Weight(w: Matrix, p: seq<int>, n: nat): nat
    requires n <= |p| && n <= |w| && forall i :: 0 <= i < n ==> 0 <= p[i] < |w[i]|
  {
    if n == 0 then 0 else Weight(w, p, n - 1) + w[n - 1][p[n - 1]]
  }

  /** First the number of connections counts, then their weight. */
  datatype Score = Score(cardinality: int, weight: int) {
    predicate Beats(other: Score) {
      cardinality > other.cardinality || (cardinality == other.cardinality && weight > other.weight)
    }
  }

  function ScoreOf(w: Matrix, p: seq<int>): Score
    requires |p| == |w| && forall i :: 0 <= i < |p| ==> 0 <= p[i] < |w[i]|
  {
    Score(Cardinality(w, p, |p|), Weight(w, p, |p|))
  }

  /** The interfaces that are connected, and the weights of all. */
  ghost function Connections(w: Matrix, p: seq<int>): set<int>
    requires |p| == |w| && forall i :: 0 <= i < |p| ==> 0 <= p[i] < |w[i]|
  {
    set i | 0 <= i < |p| && w[i][p[i]] > 0
  }

  ghost function Weights(w: Matrix, p: seq<int>): seq<nat>
    requires |p| == |w| && forall i :: 0 <= i < |p| ==> 0 <= p[i] < |w[i]|
  {
    seq(|p|, i requires 0 <= i < |p| => w[i][p[i]])
  }

  /** The score of an assignment is the number of its connections and the sum of their weights. */
  lemma ScoreCounts(w: Matrix, p: seq<int>)
    requires |p| == |w| && forall i :: 0 <= i < |p| ==> 0 <= p[i] < |w[i]|
    ensures ScoreOf(w, p) == Score(|Connections(w, p)|, Sum(Weights(w, p)))
  {
    CountFirst(w, p, |p|);
    SumFirst(w, p, |p|);
    assert (set i | 0 <= i < |p| && w[i][p[i]] > 0) == Connections(w, p);
    assert Weights(w, p)[..|p|] == Weights(w, p);
  }

  lemma {:induction false} CountFirst(w: Matrix, p: seq<int>, n: nat)
    requires n <= |p| == |w| && forall i :: 0 <= i < |p| ==> 0 <= p[i] < |w[i]|
    ensures Cardinality(w, p, n) == |set i | 0 <= i < n && w[i][p[i]] > 0|
    decreases n
  {
    if n > 0 {
      CountFirst(w, p, n - 1);
      var before, now := set i | 0 <= i < n - 1 && w[i][p[i]] > 0, set i | 0 <= i < n && w[i][p[i]] > 0;
      assert now == if w[n - 1][p[n - 1]] > 0 then before + {n - 1} else before;
    }
  }

  lemma {:induction false} SumFirst(w: Matrix, p: seq<int>, n: nat)
    requires n <= |p| == |w| && forall i :: 0 <= i < |p| ==> 0 <= p[i] < |w[i]|
    ensures Weight(w, p, n) == Sum(Weights(w, p)[..n])
    decreases n
  {
    if n > 0 {
      SumFirst(w, p, n - 1);
      SumLast(Weights(w, p)[..n]);
      assert Weights(w, p)[..n][..n - 1] == Weights(w, p)[..n - 1];
    }
  }

  lemma {:induction false} SumLast(s: seq<nat>)
    requires s != []
    ensures Sum(s) == Sum(s[..|s| - 1]) + s[|s| - 1]
  {
    if |s| > 1 {
      assert s[1..][..|s| - 2] == s[..|s| - 1][1..];
      SumLast(s[1..]);
    }
  }

  const NOTHING: Score := Score(-1, -1)

  // ---------------------------------------------------------------- the work array

  /** The levels 1 to `level` are given to different interfaces; the others have 0. */
  ghost predicate Partial(a: seq<int>, level: nat) {
    && (forall i :: 0 <= i < |a| ==> 0 <= a[i] <= level)
    && (forall i, j :: 0 <= i < j < |a| && a[i] != 0 ==> a[i] != a[j])
    && (forall v :: 1 <= v <= level ==> Has(a, v))
  }

  ghost predicate Has(a: seq<int>, v: int) {
    exists i :: 0 <= i < |a| && a[i] == v
  }

  /** The assignment `p` agrees with the levels that are given. */
  ghost predicate Extends(p: seq<int>, a: seq<int>) {
    |p| == |a| && forall i :: 0 <= i < |a| && a[i] != 0 ==> p[i] == a[i] - 1
  }

  ghost function Range(n: nat): (r: set<int>)
    ensures |r| == n && forall x :: x in r <==> 0 <= x < n
  {
    if n == 0 then {} else Range(n - 1) + {n - 1}
  }

  ghost function Elements(s: seq<int>): set<int> {
    set x | x in s
  }

  lemma {:induction false} DistinctSize(s: seq<int>)
    requires forall i, j :: 0 <= i < j < |s| ==> s[i] != s[j]
    ensures |Elements(s)| == |s|
  {
    if s != [] {
      DistinctSize(s[1..]);
      assert s == [s[0]] + s[1..];
      assert Elements(s) == Elements(s[1..]) + {s[0]};
    }
  }

  lemma {:induction false} Atmost(s: seq<int>)
    ensures |Elements(s)| <= |s|
  {
    if s != [] {
      Atmost(s[1..]);
      assert s == [s[0]] + s[1..];
      assert Elements(s) == Elements(s[1..]) + {s[0]};
    }
  }

  /** Every interface of the peer is assigned. */
  lemma Onto(p: seq<int>, n: nat, v: int)
    requires Permutation(p, n) && 0 <= v < n
    ensures v in p
  {
    DistinctSize(p);
    Subset(Elements(p), Range(n));
    assert v in Range(n);
  }

  /** When all levels are given, the work array is an assignment. */
  lemma Complete(a: seq<int>)
    requires Partial(a, |a|)
    ensures Permutation(Assigned(a), |a|)
  {
    forall i | 0 <= i < |a|
      ensures a[i] != 0
    {
      NoZero(a, i);
    }
  }

  lemma NoZero(a: seq<int>, i: nat)
    requires Partial(a, |a|) && i < |a|
    ensures a[i] != 0
  {
    if a[i] == 0 {
      var b := a[..i] + a[i + 1..];
      var p := Assigned(b);
      forall v | v in Range(|a|)
        ensures v in Elements(p)
      {
        assert Has(a, v + 1);
        var j :| 0 <= j < |a| && a[j] == v + 1;
        var k := if j < i then j else j - 1;
        assert b[k] == v + 1;
        assert p[k] == v;
      }
      Atmost(p);
      Subset(Range(|a|), Elements(p));
      assert false;
    }
  }

  function Assigned(a: seq<int>): seq<int> {
    seq(|a|, i requires 0 <= i < |a| => a[i] - 1)
  }

  // ---------------------------------------------------------------- the search

  class Search {
    const weights: Matrix
    const size: nat
    const best: array<int>
    var max: Score

    ghost predicate Valid()
      reads this, best
    {
      && Square(weights, size) && best.Length == size
      && (max == NOTHING || (Permutation(best[..], size) && max == ScoreOf(weights, best[..])))
    }

    constructor (weights: Matrix, size: nat)
      requires Square(weights, size)
      ensures Valid() && fresh(best) && max == NOTHING && this.weights == weights && this.size == size
    {
      this.weights, this.size := weights, size;
      best := new int[size];
      max := NOTHING;
    }

    /** Scores a complete assignment, and keeps it if it beats all before it. */
    method Evaluate(a: array<int>)
      requires Valid() && a.Length == size && a != best && Permutation(Assigned(a[..]), size)
      modifies this`max, best
      ensures Valid()
      ensures var score := ScoreOf(weights, Assigned(a[..]));
        max == if score.Beats(old(max)) then score else old(max)
      ensures max == old(max) ==> best[..] == old(best[..])
    {
      var cardinality, weight := 0, 0;
      ghost var p := Assigned(a[..]);
      var i := 0;
      while i < size
        invariant 0 <= i <= size && cardinality == Cardinality(weights, p, i) && weight == Weight(weights, p, i)
      {
        assert p[i] == a[i] - 1;
        if 0 < weights[i][a[i] - 1] {
          cardinality := cardinality + 1;
          weight := weight + weights[i][a[i] - 1];
        }
        i := i + 1;
      }
      var score := Score(cardinality, weight);
      if score.Beats(max) {
        forall i | 0 <= i < size {
          best[i] := a[i] - 1;
        }
        assert best[..] == p && a[..] == old(a[..]);
        max := score;
      }
      assert score == ScoreOf(weights, p);
    }

    /** Gives the next level to interface `k` and tries everything from there; the work array is then as
        it was. */
    method Visit(k: nat, level0: int, a: array<int>)
      requires Valid() && a.Length == size && a != best && k < size && -1 <= level0 < size && a[k] == 0
      requires Partial(a[..], if level0 < 0 then 0 else level0)
      modifies this`max, best, a
      ensures Valid() && a[..] == old(a[..]) && !old(max).Beats(max)
      ensures Tops(weights, max, old(a[..])[k := level0 + 1])
      decreases size - level0
    {
      hide Permutation, Partial, Tops;
      var level := level0 + 1;
      ghost var before := a[..];
      a[k] := level;
      ghost var now := a[..];
      assert now == before[k := level];
      Given(before, k, level);
      if level == size {
        Complete(now);
        Evaluate(a);
        TopsOne(weights, max, now);
      } else {
        var i := 0;
        while i < size
          invariant 0 <= i <= size && Valid() && a[..] == now && !old(max).Beats(max)
          invariant forall j :: 0 <= j < i && now[j] == 0 ==> Tops(weights, max, now[j := level + 1])
        {
          if a[i] == 0 {
            ghost var was := max;
            Visit(i, level, a);
            TopsMore(weights, was, max);
          }
          i := i + 1;
        }
        TopsAll(weights, max, now, level);
      }
      a[k] := 0;
      assert a[..] == before;
    }
  }

  /** No assignment that extends the work array beats the score. */
  ghost predicate Tops(w: Matrix, max: Score, a: seq<int>) {
    Square(w, |a|) ==> forall p :: Permutation(p, |a|) && Extends(p, a) ==> !ScoreOf(w, p).Beats(max)
  }

  lemma TopsMore(w: Matrix, was: Score, max: Score)
    requires !was.Beats(max)
    ensures forall a :: Tops(w, was, a) ==> Tops(w, max, a)
  {
  }

  lemma TopsOne(w: Matrix, max: Score, a: seq<int>)
    requires Square(w, |a|) && Permutation(Assigned(a), |a|) && !ScoreOf(w, Assigned(a)).Beats(max)
    ensures Tops(w, max, a)
  {
    forall p | Permutation(p, |a|) && Extends(p, a)
      ensures p == Assigned(a)
    {
      forall i | 0 <= i < |a|
        ensures p[i] == Assigned(a)[i]
      {
        assert Assigned(a)[i] == a[i] - 1;
      }
    }
  }

  /** Every assignment gives the next level to some interface. */
  lemma TopsAll(w: Matrix, max: Score, a: seq<int>, level: nat)
    requires Partial(a, level) && level < |a|
    requires forall j :: 0 <= j < |a| && a[j] == 0 ==> Tops(w, max, a[j := level + 1])
    ensures Tops(w, max, a)
  {
    if Square(w, |a|) {
      forall p | Permutation(p, |a|) && Extends(p, a)
        ensures !ScoreOf(w, p).Beats(max)
      {
        Onto(p, |a|, level);
        var i :| 0 <= i < |p| && p[i] == level;
        assert a[i] == 0;
        assert Extends(p, a[i := level + 1]);
        assert Tops(w, max, a[i := level + 1]);
      }
    }
  }

  lemma Given(a: seq<int>, k: nat, level: nat)
    requires k < |a| && a[k] == 0 && Partial(a, if level == 0 then 0 else level - 1)
    ensures Partial(a[k := level], level)
  {
    var b := a[k := level];
    forall v | 1 <= v <= level
      ensures Has(b, v)
    {
      if v == level {
        assert b[k] == v;
      } else {
        assert Has(a, v);
        var j :| 0 <= j < |a| && a[j] == v;
        assert b[j] == v;
      }
    }
  }

  /** The search as it is started: of all assignments, none beats the one that is found. */
  method FindBest(weights: Matrix, n: nat) returns (best: seq<int>, ghost max: Score)
    requires n > 0 && Square(weights, n)
    ensures Permutation(best, n) && max == ScoreOf(weights, best)
    ensures forall p :: Permutation(p, n) ==> !ScoreOf(weights, p).Beats(max)
    ensures forall p :: Permutation(p, n) ==>
      || |Connections(weights, p)| < |Connections(weights, best)|
      || (|Connections(weights, p)| == |Connections(weights, best)| &&
          Sum(Weights(weights, p)) <= Sum(Weights(weights, best)))
  {
    hide Connections, Weights;
    var search := new Search(weights, n);
    var a := new int[n](_ => 0);
    search.Visit(0, -1, a);
    Unconstrained(weights, search.max, a[..][0 := 0]);
    best, max := search.best[..], search.max;
    ScoreCounts(weights, best);
    forall p | Permutation(p, n)
      ensures ScoreOf(weights, p) == Score(|Connections(weights, p)|, Sum(Weights(weights, p)))
    {
      ScoreCounts(weights, p);
    }
  }

  /** Nothing is given: every assignment counts, and there is one. */
  lemma Unconstrained(w: Matrix, max: Score, a: seq<int>)
    requires Square(w, |a|) && Tops(w, max, a) && forall i :: 0 <= i < |a| ==> a[i] == 0
    ensures max != NOTHING
    ensures forall p :: Permutation(p, |a|) ==> !ScoreOf(w, p).Beats(max)
  {
    var id := seq(|a|, i => i);
    assert Permutation(id, |a|) && Extends(id, a);
    assert ScoreOf(w, id).Beats(NOTHING);
  }
}

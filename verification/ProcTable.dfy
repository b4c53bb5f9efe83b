/** The two-level process table: jobids lead to tables of vpids. */
module ProcTables {
  import opened Common
  import opened HashTables

  type Uint32 = x: int | 0 <= x < 0x1_0000_0000

  function Identity(k: Uint32): nat {
    k
  }

  /** The pairs (jobid, vpid) of a table of tables. */
  ghost predicate Joins<V>(m: map<(Uint32, Uint32), V>, byJob: map<Uint32, map<Uint32, V>>) {
    && (forall p :: p in m <==> p.0 in byJob && p.1 in byJob[p.0])
    && (forall p :: p in m ==> m[p] == byJob[p.0][p.1])
  }

  function With<V>(m: map<Uint32, V>, v: Uint32, x: V): map<Uint32, V> {
    m[v := x]
  }

  lemma JoinsSet<V>(m: map<(Uint32, Uint32), V>, byJob: map<Uint32, map<Uint32, V>>, j: Uint32, v: Uint32, x: V)
    requires Joins(m, byJob) && j in byJob
    ensures Joins(m[(j, v) := x], byJob[j := With(byJob[j], v, x)])
  {
  }

  lemma JoinsJob<V>(m: map<(Uint32, Uint32), V>, byJob: map<Uint32, map<Uint32, V>>, j: Uint32)
    requires Joins(m, byJob) && j !in byJob
    ensures Joins(m, byJob[j := map[]])
  {
  }

  lemma JoinsRemove<V>(m: map<(Uint32, Uint32), V>, byJob: map<Uint32, map<Uint32, V>>, j: Uint32, v: Uint32)
    requires Joins(m, byJob) && j in byJob
    ensures Joins(m - {(j, v)}, byJob[j := byJob[j] - {v}])
  {
  }

  lemma JoinsDrop<V>(m: map<(Uint32, Uint32), V>, byJob: map<Uint32, map<Uint32, V>>, j: Uint32)
    requires Joins(m, byJob) && j in byJob && byJob[j] == map[]
    ensures Joins(m, byJob - {j})
  {
  }

  type Jobs<V> = HashTable<Uint32, HashTable<Uint32, V>>
  type Vpids<V> = HashTable<Uint32, V>

  /** What the table holds: the bindings, the same by job, and the objects it is made of. */
  datatype Model<V> = Model(contents: map<(Uint32, Uint32), V>, byJob: map<Uint32, map<Uint32, V>>, repr: set<object>)

  /** An element and its place: the slot of its job and its slot in the job's table. */
  datatype Node<V> = Node(a: nat, b: nat, jobid: Uint32, vpid: Uint32, value: V)

  predicate Less(a: int, b: int, c: int, d: int) {
    a < c || (a == c && b < d)
  }

  class ProcTable<V> {
    const jobs: Jobs<V>
    const vpidsSize: nat
    ghost var model: Model<V>

    /** The table of a job belongs to this table alone. */
    ghost predicate Inner(j: Uint32, t: Vpids<V>)
      reads this, jobs, t, t.table
    {
      && t in model.repr && t.table in model.repr && t.Valid() && j in model.byJob && t.contents == model.byJob[j]
      && (t as object) !in {this, jobs, jobs.table} && (t.table as object) !in {this, jobs, jobs.table}
    }

    ghost predicate Apart(s: Vpids<V>, t: Vpids<V>)
      reads s, t
    {
      s != t && s.table != t.table
    }

    ghost predicate Own()
      reads this, jobs
    {
      this in model.repr && jobs in model.repr && jobs.table in model.repr && (jobs as object) != this
    }

    ghost predicate Inners()
      reads this, jobs, model.repr
      requires Own()
    {
      && (forall j :: j in jobs.contents ==>
            jobs.contents[j] in model.repr && jobs.contents[j].table in model.repr && Inner(j, jobs.contents[j]))
      && (forall i, j :: i in jobs.contents && j in jobs.contents && i != j ==>
            Apart(jobs.contents[i], jobs.contents[j]))
    }

    ghost predicate Consistent()
      reads this, jobs, model.repr
    {
      Own() && jobs.Valid() && jobs.contents.Keys == model.byJob.Keys && Joins(model.contents, model.byJob) && Inners()
    }

    /** No job has an empty table. */
    ghost predicate Valid()
      reads this, jobs, model.repr
    {
      Consistent() && forall j :: j in model.byJob ==> model.byJob[j] != map[]
    }

    constructor (jobids: nat, vpids: nat)
      ensures Valid() && fresh(model.repr) && model.contents == map[] && vpidsSize == vpids
    {
      hide Good, HashTable.Valid;
      jobs := new HashTable<Uint32, HashTable<Uint32, V>>(Identity, jobids, 1, 2, 2, 1);
      vpidsSize := vpids;
      new;
      model := Model(map[], map[], {this, jobs, jobs.table});
    }

    method Get(jobid: Uint32, vpid: Uint32) returns (r: Option<V>)
      requires Consistent()
      ensures r == if (jobid, vpid) in model.contents then Some(model.contents[(jobid, vpid)]) else None
    {
      hide Good, HashTable.Valid;
      assert (jobid, vpid) in model.contents ==> jobid in model.byJob;
      var vpids := jobs.Get(jobid);
      if vpids.None? {
        return None;
      }
      assert Inner(jobid, vpids.value);
      r := vpids.value.Get(vpid);
    }

    /** With one job's table new or changed, the tables belong to this table alone. */
    twostate lemma Reassembled(jobid: Uint32, new vpids: Vpids<V>)
      requires old(Own() && Inners()) && Own() && old(model.repr) <= model.repr
      requires jobs.table == old(jobs.table) || jobs.table !in old(model.repr)
      requires jobs.contents == old(jobs.contents)[jobid := vpids]
      requires Inner(jobid, vpids)
      requires forall j :: j in old(jobs.contents) && j != jobid ==>
        old(jobs.contents[j]) != vpids && old(jobs.contents[j].table) != vpids.table
      requires forall j :: j in old(model.byJob) && j != jobid ==>
        j in model.byJob && model.byJob[j] == old(model.byJob[j])
      requires forall j :: j in old(jobs.contents) && j != jobid ==>
        unchanged(old(jobs.contents[j])) && unchanged(old(jobs.contents[j].table))
      ensures Inners()
    {
      hide Good, HashTable.Valid, Joins;
      forall j | j in jobs.contents && j != jobid
        ensures Inner(j, jobs.contents[j])
      {
        assert old(Inner(j, jobs.contents[j]));
      }
      forall i, j | i in jobs.contents && j in jobs.contents && i != j
        ensures Apart(jobs.contents[i], jobs.contents[j])
      {
        if i != jobid && j != jobid {
          assert old(Apart(jobs.contents[i], jobs.contents[j]));
        }
      }
    }

    /** One job's table has changed in place. */
    twostate lemma Changed(jobid: Uint32, new vpids: Vpids<V>)
      requires old(Own() && jobs.Valid() && Inners()) && jobid in old(jobs.contents)
      requires vpids == old(jobs.contents[jobid])
      requires forall o: object :: o in old(model.repr) && o !in {this, vpids, old(vpids.table)} ==> unchanged(o)
      requires model.repr == old(model.repr) + {vpids.table}
      requires (vpids.table == old(vpids.table) || vpids.table !in old(model.repr))
      requires vpids.Valid() && model.byJob == old(model.byJob)[jobid := vpids.contents]
      ensures Own() && Inners() && jobs.Valid() && jobs.contents == old(jobs.contents)
    {
      hide Good, HashTable.Valid, Joins;
      assert old(Inner(jobid, vpids));
      assert unchanged(jobs) && unchanged(jobs.table);
      assert jobs.contents == old(jobs.contents)[jobid := vpids];
      assert forall j :: j in old(jobs.contents) && j != jobid ==> old(Apart(jobs.contents[j], vpids));
      Reassembled(jobid, vpids);
    }

    method SetIn(jobid: Uint32, vpids: Vpids<V>, vpid: Uint32, value: V)
      requires Consistent() && jobid in jobs.contents && vpids == jobs.contents[jobid]
      modifies model.repr
      ensures Consistent() && model.repr == old(model.repr) + {vpids.table}
      ensures (vpids.table in old(model.repr) || fresh(vpids.table))
      ensures model.contents == old(model.contents)[(jobid, vpid) := value]
      ensures model.byJob == old(model.byJob)[jobid := With(old(model.byJob[jobid]), vpid, value)]
    {
      hide Good, HashTable.Valid;
      ghost var m := model;
      JoinsSet(m.contents, m.byJob, jobid, vpid, value);
      hide Joins;
      assert Inner(jobid, vpids);
      vpids.Set(vpid, value);
      model := Model(m.contents[(jobid, vpid) := value], m.byJob[jobid := With(m.byJob[jobid], vpid, value)],
                     m.repr + {vpids.table});
      Changed(jobid, vpids);
    }

    /** A new job gets an empty table. */
    method AddJob(jobid: Uint32) returns (vpids: Vpids<V>)
      requires Consistent() && jobid !in jobs.contents
      modifies model.repr
      ensures Consistent() && fresh(model.repr - old(model.repr)) && model.contents == old(model.contents)
      ensures model.byJob == old(model.byJob)[jobid := map[]] && jobid in jobs.contents && vpids == jobs.contents[jobid]
    {
      hide Good, HashTable.Valid, Joins, Inners;
      vpids := new HashTable<Uint32, V>(Identity, vpidsSize, 1, 2, 2, 1);
      Register(jobid, vpids);
    }

    method Register(jobid: Uint32, vpids: Vpids<V>)
      requires Consistent() && jobid !in jobs.contents
      requires vpids.Valid() && vpids.contents == map[] && vpids !in model.repr && vpids.table !in model.repr
      modifies this, jobs, jobs.table
      ensures Consistent() && model.repr == old(model.repr) + {vpids, vpids.table, jobs.table}
      ensures jobs.table == old(jobs.table) || fresh(jobs.table)
      ensures model.contents == old(model.contents) && model.byJob == old(model.byJob)[jobid := map[]]
      ensures jobid in jobs.contents && vpids == jobs.contents[jobid]
    {
      hide Good, HashTable.Valid;
      ghost var m := model;
      JoinsJob(m.contents, m.byJob, jobid);
      hide Joins;
      jobs.Set(jobid, vpids);
      model := Model(m.contents, m.byJob[jobid := map[]], m.repr + {vpids, vpids.table, jobs.table});
      Reassembled(jobid, vpids);
    }

    method Set(jobid: Uint32, vpid: Uint32, value: V)
      requires Valid()
      modifies model.repr
      ensures Valid() && fresh(model.repr - old(model.repr))
      ensures model.contents == old(model.contents)[(jobid, vpid) := value]
    {
      hide Good, HashTable.Valid, Joins, Inners;
      var found := jobs.Get(jobid);
      var vpids;
      if found.None? {
        vpids := AddJob(jobid);
      } else {
        vpids := found.value;
      }
      SetIn(jobid, vpids, vpid, value);
      assert vpid in model.byJob[jobid];
    }

    method RemoveIn(jobid: Uint32, vpids: Vpids<V>, vpid: Uint32) returns (ok: bool)
      requires Consistent() && jobid in jobs.contents && vpids == jobs.contents[jobid]
      modifies model.repr
      ensures Consistent() && model.repr == old(model.repr) && jobs.contents == old(jobs.contents)
      ensures ok == ((jobid, vpid) in old(model.contents)) && model.contents == old(model.contents) - {(jobid, vpid)}
      ensures model.byJob == old(model.byJob)[jobid := old(model.byJob[jobid]) - {vpid}]
      ensures vpids.Valid() && vpids.contents == model.byJob[jobid]
    {
      hide Good, HashTable.Valid;
      ghost var m := model;
      JoinsRemove(m.contents, m.byJob, jobid, vpid);
      assert (jobid, vpid) in m.contents <==> vpid in m.byJob[jobid];
      hide Joins;
      assert Inner(jobid, vpids);
      ok := vpids.Remove(vpid);
      model := Model(m.contents - {(jobid, vpid)}, m.byJob[jobid := m.byJob[jobid] - {vpid}], m.repr);
      Changed(jobid, vpids);
    }

    /** A table that has become empty is dropped. */
    method DropJob(jobid: Uint32)
      requires Consistent() && jobid in model.byJob && model.byJob[jobid] == map[]
      modifies model.repr
      ensures Consistent() && model.repr == old(model.repr) && model.contents == old(model.contents)
      ensures model.byJob == old(model.byJob) - {jobid}
    {
      hide Good, HashTable.Valid;
      ghost var m := model;
      JoinsDrop(m.contents, m.byJob, jobid);
      hide Joins;
      var _ := jobs.Remove(jobid);
      model := Model(m.contents, m.byJob - {jobid}, m.repr);
      forall j | j in jobs.contents
        ensures Inner(j, jobs.contents[j])
      {
        assert old(Inner(j, jobs.contents[j]));
      }
    }

    method Remove(jobid: Uint32, vpid: Uint32) returns (ok: bool)
      requires Valid()
      modifies model.repr
      ensures Valid() && model.repr == old(model.repr)
      ensures ok == ((jobid, vpid) in old(model.contents)) && model.contents == old(model.contents) - {(jobid, vpid)}
    {
      hide HashTable.Valid, Inners;
      var found := jobs.Get(jobid);
      if found.None? {
        assert (jobid, vpid) !in model.contents;
        return false;
      }
      ok := RemoveFound(jobid, found.value, vpid);
    }

    method RemoveFound(jobid: Uint32, vpids: Vpids<V>, vpid: Uint32) returns (ok: bool)
      requires Valid() && jobid in jobs.contents && vpids == jobs.contents[jobid]
      modifies model.repr
      ensures Valid() && model.repr == old(model.repr)
      ensures ok == ((jobid, vpid) in old(model.contents)) && model.contents == old(model.contents) - {(jobid, vpid)}
    {
      hide HashTable.Valid, Inners;
      assert (jobid, vpid) in model.contents <==> vpid in model.byJob[jobid];
      hide Joins;
      ok := RemoveIn(jobid, vpids, vpid);
      vpids.Sized();
      if ok && vpids.size == 0 {
        DropJob(jobid);
      }
    }

    // -------------------------------------------------------------- traversal

    /** The slots of this table, with the slots of the jobs' tables. */
    ghost predicate Shows(rows: Rows<V>)
      reads this, jobs, jobs.table,
        set i: int | 0 <= i < jobs.table.Length && jobs.table[i].Full? :: jobs.table[i].value,
        set i: int | 0 <= i < jobs.table.Length && jobs.table[i].Full? :: jobs.table[i].value.table
    {
      |rows| == jobs.table.Length && forall i :: 0 <= i < |rows| ==>
        match jobs.table[i]
        case Empty => rows[i].Empty?
        case Full(j, t) => rows[i] == Full(j, t.table[..])
    }

    /** The first element from slot `from` of the jobs on. */
    method FirstFrom(from: nat, ghost rows: Rows<V>) returns (r: Option<Node<V>>)
      requires Shows(rows) && NoEmptyRow(rows) && from <= jobs.table.Length
      ensures match r
        case None => forall i :: from <= i < |rows| ==> rows[i].Empty?
        case Some(n) =>
          && At(rows, n) && from <= n.a && (forall i :: from <= i < n.a ==> rows[i].Empty?)
          && forall y :: 0 <= y < n.b ==> rows[n.a].value[y].Empty?
    {
      var a := NextElement(jobs.table, from);
      if a == jobs.table.Length {
        return None;
      }
      var vpids := jobs.table[a].value;
      var b := NextElement(vpids.table, 0);
      assert rows[a] == Full(jobs.table[a].key, vpids.table[..]);
      r := Some(Node(a, b, jobs.table[a].key, vpids.table[b].key, vpids.table[b].value));
    }

    /** First and next: the least occupied place, or the least one behind a given element. */
    method FirstKey(ghost rows: Rows<V>) returns (r: Option<Node<V>>)
      requires Shows(rows) && NoEmptyRow(rows)
      ensures FirstAfter(rows, -1, 0, r)
    {
      r := FirstFrom(0, rows);
    }

    method NextKey(n: Node<V>, ghost rows: Rows<V>) returns (r: Option<Node<V>>)
      requires Shows(rows) && NoEmptyRow(rows) && At(rows, n)
      ensures FirstAfter(rows, n.a, n.b, r)
    {
      var vpids := jobs.table[n.a].value;
      assert rows[n.a] == Full(jobs.table[n.a].key, vpids.table[..]);
      var b := NextElement(vpids.table, n.b + 1);
      if b < vpids.table.Length {
        r := Some(Node(n.a, b, jobs.table[n.a].key, vpids.table[b].key, vpids.table[b].value));
      } else {
        r := FirstFrom(n.a + 1, rows);
      }
    }

    /** Goes through the table with first and next until there is no next element: every binding is
        visited exactly once. */
    method Traverse() returns (nodes: seq<Node<V>>)
      requires Valid()
      ensures Lists(Pairs(nodes), model.contents)
    {
      ghost var rows := Snapshot();
      nodes := VisitRows(rows);
      AllVisited(rows, nodes, model.contents);
    }

    method VisitRows(ghost rows: Rows<V>) returns (nodes: seq<Node<V>>)
      requires Shows(rows) && NoEmptyRow(rows)
      ensures Covers(rows, nodes, None)
    {
      hide Shows, NoEmptyRow, FirstAfter, Covers, Rank;
      nodes := [];
      var r := FirstKey(rows);
      CoversFirst(rows, r);
      while r.Some?
        invariant Covers(rows, nodes, r) && (r.Some? ==> At(rows, r.value))
        decreases Rank(rows, r).0, Rank(rows, r).1
      {
        var n := r.value;
        r := NextKey(n, rows);
        CoversNext(rows, nodes, n, r);
        nodes := nodes + [n];
      }
    }

    lemma Snapshot() returns (rows: Rows<V>)
      requires Valid()
      ensures Shows(rows) && NoEmptyRow(rows) && Grid(rows, model.contents)
    {
      hide HashTable.Valid, Joins, Inners, RowStored, Grid, NoEmptyRow;
      rows := Collect(jobs.table.Length);
      ghost var ats := map j: Uint32 | j in model.byJob :: jobs.contents[j].at;
      forall a | 0 <= a < |rows| && rows[a].Full?
        ensures RowStored(rows, a, model.byJob, jobs.at, ats)
      {
        ShownRow(rows, ats, a);
      }
      forall j | j in model.byJob
        ensures j in jobs.at && jobs.at[j] < |rows| && rows[jobs.at[j]].Full? && rows[jobs.at[j]].key == j
      {
        jobs.Found(j);
      }
      RowsGrid(rows, model.contents, model.byJob, jobs.at, ats);
    }

    lemma ShownRow(rows: Rows<V>, ats: map<Uint32, map<Uint32, nat>>, a: nat)
      requires Consistent() && Shows(rows)
      requires ats.Keys == model.byJob.Keys && forall j :: j in ats ==> ats[j] == jobs.contents[j].at
      requires a < |rows| && rows[a].Full?
      ensures RowStored(rows, a, model.byJob, jobs.at, ats)
    {
      hide HashTable.Valid, Joins, Stored;
      jobs.Occupies(a);
      var t := jobs.table[a].value;
      assert Inner(rows[a].key, t);
      t.Holds();
    }

    lemma {:induction false} Collect(n: nat) returns (rows: Rows<V>)
      requires n <= jobs.table.Length
      ensures |rows| == n && forall i :: 0 <= i < n ==>
        match jobs.table[i]
        case Empty => rows[i].Empty?
        case Full(j, t) => rows[i] == Full(j, t.table[..])
    {
      rows := [];
      if n > 0 {
        rows := Collect(n - 1);
        match jobs.table[n - 1]
        case Empty => rows := rows + [Empty];
        case Full(j, t) => rows := rows + [Full(j, t.table[..])];
      }
    }
  }

  ghost predicate RowStored<V>(rows: Rows<V>, a: int, byJob: map<Uint32, map<Uint32, V>>, at: map<Uint32, nat>,
                               ats: map<Uint32, map<Uint32, nat>>)
    requires 0 <= a < |rows| && rows[a].Full?
  {
    var j := rows[a].key;
    j in byJob && j in at && at[j] == a && j in ats && Stored(rows[a].value, byJob[j], ats[j])
  }

  /** When every row holds a job's bindings, rows and bindings correspond. */
  lemma RowsGrid<V>(rows: Rows<V>, m: map<(Uint32, Uint32), V>, byJob: map<Uint32, map<Uint32, V>>, at: map<Uint32,
                    nat>, ats: map<Uint32, map<Uint32, nat>>)
    requires Joins(m, byJob) && (forall j :: j in byJob ==> byJob[j] != map[])
    requires forall a :: 0 <= a < |rows| && rows[a].Full? ==> RowStored(rows, a, byJob, at, ats)
    requires forall j :: j in byJob ==> j in at && at[j] < |rows| && rows[at[j]].Full? && rows[at[j]].key == j
    ensures NoEmptyRow(rows) && Grid(rows, m)
  {
    forall p | p in m
      ensures exists a, b :: FullAt(rows, a, b) && KeyAt(rows, a, b) == p
    {
      assert RowStored(rows, at[p.0], byJob, at, ats);
      assert FullAt(rows, at[p.0], ats[p.0][p.1]) && KeyAt(rows, at[p.0], ats[p.0][p.1]) == p;
    }
    forall a | 0 <= a < |rows| && rows[a].Full?
      ensures exists b :: FullAt(rows, a, b)
    {
      assert RowStored(rows, a, byJob, at, ats);
      var j := rows[a].key;
      var v :| v in byJob[j];
      assert FullAt(rows, a, ats[j][v]);
    }
    forall a, b | FullAt(rows, a, b)
      ensures KeyAt(rows, a, b) in m && m[KeyAt(rows, a, b)] == rows[a].value[b].value
    {
      assert RowStored(rows, a, byJob, at, ats);
    }
    forall a, b, c, d | FullAt(rows, a, b) && FullAt(rows, c, d) && KeyAt(rows, a, b) == KeyAt(rows, c, d)
      ensures a == c && b == d
    {
      assert RowStored(rows, a, byJob, at, ats) && RowStored(rows, c, byJob, at, ats);
    }
  }

  /** The visited elements are those before the current one, in order. */
  ghost predicate Covers<V>(rows: Rows<V>, nodes: seq<Node<V>>, r: Option<Node<V>>) {
    && (r.Some? ==> At(rows, r.value))
    && (forall k :: 0 <= k < |nodes| ==>
          At(rows, nodes[k]) && (r.Some? ==> Less(nodes[k].a, nodes[k].b, r.value.a, r.value.b)))
    && (forall k, l :: 0 <= k < l < |nodes| ==> Less(nodes[k].a, nodes[k].b, nodes[l].a, nodes[l].b))
    && (forall x, y :: FullAt(rows, x, y) && (r.Some? ==> Less(x, y, r.value.a, r.value.b)) ==>
          exists k :: 0 <= k < |nodes| && nodes[k].a == x && nodes[k].b == y)
  }

  ghost function Rank<V>(rows: Rows<V>, r: Option<Node<V>>): (nat, nat) {
    if r.None? || !At(rows, r.value) then (0, 0)
    else (|rows| - r.value.a + 1, |rows[r.value.a].value| - r.value.b)
  }

  lemma CoversFirst<V>(rows: Rows<V>, r: Option<Node<V>>)
    requires FirstAfter(rows, -1, 0, r)
    ensures Covers(rows, [], r) && (r.Some? ==> At(rows, r.value))
  {
  }

  lemma CoversNext<V>(rows: Rows<V>, nodes: seq<Node<V>>, n: Node<V>, r: Option<Node<V>>)
    requires Covers(rows, nodes, Some(n)) && FirstAfter(rows, n.a, n.b, r)
    ensures Covers(rows, nodes + [n], r)
    ensures r.Some? ==> At(rows, r.value)
    ensures Less(Rank(rows, r).0, Rank(rows, r).1, Rank(rows, Some(n)).0, Rank(rows, Some(n)).1)
  {
    var more := nodes + [n];
    forall x, y | FullAt(rows, x, y) && (r.Some? ==> Less(x, y, r.value.a, r.value.b))
      ensures exists k :: 0 <= k < |more| && more[k].a == x && more[k].b == y
    {
      if x == n.a && y == n.b {
        assert more[|nodes|] == n;
      } else {
        var k :| 0 <= k < |nodes| && nodes[k].a == x && nodes[k].b == y;
        assert more[k] == nodes[k];
      }
    }
  }

  function Pairs<V>(nodes: seq<Node<V>>): seq<((Uint32, Uint32), V)> {
    seq(|nodes|, i requires 0 <= i < |nodes| => ((nodes[i].jobid, nodes[i].vpid), nodes[i].value))
  }

  /** The occupied places and the bindings correspond. */
  ghost predicate Grid<V>(rows: Rows<V>, m: map<(Uint32, Uint32), V>) {
    && (forall a, b :: FullAt(rows, a, b) ==> KeyAt(rows, a, b) in m && m[KeyAt(rows, a, b)] == rows[a].value[b].value)
    && (forall a, b, c, d :: FullAt(rows, a, b) && FullAt(rows, c, d) && KeyAt(rows, a, b) == KeyAt(rows, c, d) ==>
          a == c && b == d)
    && (forall p :: p in m ==> exists a, b :: FullAt(rows, a, b) && KeyAt(rows, a, b) == p)
  }

  ghost function KeyAt<V>(rows: Rows<V>, a: int, b: int): (Uint32, Uint32)
    requires FullAt(rows, a, b)
  {
    (rows[a].key, rows[a].value[b].key)
  }

  lemma AllVisited<V>(rows: Rows<V>, nodes: seq<Node<V>>, m: map<(Uint32, Uint32), V>)
    requires Covers(rows, nodes, None) && Grid(rows, m)
    ensures Lists(Pairs(nodes), m)
  {
    var ps := Pairs(nodes);
    forall k | 0 <= k < |ps|
      ensures ps[k].0 in m && m[ps[k].0] == ps[k].1
    {
      assert At(rows, nodes[k]) && KeyAt(rows, nodes[k].a, nodes[k].b) == ps[k].0;
    }
    assert forall k, l :: 0 <= k < l < |ps| ==> ps[k].0 != ps[l].0 by {
      NodesDiffer(rows, nodes, m);
    }
    hide Covers;
    forall p | p in m
      ensures p in Visited(ps)
    {
      var k := VisitedKey(rows, nodes, m, p);
      assert ps[k].0 == p;
    }
  }

  lemma NodesDiffer<V>(rows: Rows<V>, nodes: seq<Node<V>>, m: map<(Uint32, Uint32), V>)
    requires Covers(rows, nodes, None) && Grid(rows, m)
    ensures forall k, l :: 0 <= k < l < |nodes| ==> Pairs(nodes)[k].0 != Pairs(nodes)[l].0
  {
    forall k, l | 0 <= k < l < |nodes|
      ensures Pairs(nodes)[k].0 != Pairs(nodes)[l].0
    {
      assert At(rows, nodes[k]) && At(rows, nodes[l]) && Less(nodes[k].a, nodes[k].b, nodes[l].a, nodes[l].b);
      assert KeyAt(rows, nodes[k].a, nodes[k].b) != KeyAt(rows, nodes[l].a, nodes[l].b);
    }
  }

  lemma VisitedKey<V>(rows: Rows<V>, nodes: seq<Node<V>>, m: map<(Uint32, Uint32), V>, p: (Uint32, Uint32))
    returns (k: nat)
    requires Covers(rows, nodes, None) && Grid(rows, m) && p in m
    ensures k < |nodes| && (nodes[k].jobid, nodes[k].vpid) == p
  {
    var a, b :| FullAt(rows, a, b) && KeyAt(rows, a, b) == p;
    k :| 0 <= k < |nodes| && nodes[k].a == a && nodes[k].b == b;
    assert At(rows, nodes[k]);
  }

  type Rows<V> = seq<Slot<Uint32, seq<Slot<Uint32, V>>>>

  ghost predicate FullAt<V>(rows: Rows<V>, a: int, b: int) {
    0 <= a < |rows| && rows[a].Full? && 0 <= b < |rows[a].value| && rows[a].value[b].Full?
  }

  /** The place and the binding are those of an element. */
  ghost predicate At<V>(rows: Rows<V>, n: Node<V>) {
    FullAt(rows, n.a, n.b) && n.jobid == rows[n.a].key && rows[n.a].value[n.b] == Full(n.vpid, n.value)
  }

  ghost predicate NoEmptyRow<V>(rows: Rows<V>) {
    forall a :: 0 <= a < |rows| && rows[a].Full? ==> exists b :: FullAt(rows, a, b)
  }

  /** The least occupied place behind (a, b). */
  ghost predicate FirstAfter<V>(rows: Rows<V>, a: int, b: int, r: Option<Node<V>>) {
    && (r.Some? ==> At(rows, r.value) && Less(a, b, r.value.a, r.value.b))
    && forall x, y :: FullAt(rows, x, y) && Less(a, b, x, y) ==> r.Some? && !Less(x, y, r.value.a, r.value.b)
  }
}

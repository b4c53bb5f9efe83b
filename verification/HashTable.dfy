/** The open-addressing hash table: linear probing with wrap-around, removal that re-places the rest of
    the cluster, and growth.  Sizes are unbounded and allocation succeeds. */
module HashTables {
  import opened Common

  datatype Slot<K, V> = Empty | Full(key: K, value: V)

  /** How far one has to go up, with wrap-around, from slot `a` to slot `b`. */
  function Dist(a: nat, b: nat, capacity: nat): nat
    requires a < capacity && b < capacity
  {
    if a <= b then b - a else b + capacity - a
  }

  /** The table holds exactly the bindings `m`, and the key `k` is in slot `at[k]`. */
  ghost predicate Stored<K(!new), V>(s: seq<Slot<K, V>>, m: map<K, V>, at: map<K, nat>) {
    && at.Keys == m.Keys
    && (forall k :: k in m ==> at[k] < |s| && s[at[k]] == Full(k, m[k]))
    && (forall i :: 0 <= i < |s| && s[i].Full? ==> s[i].key in m && at[s[i].key] == i)
  }

  /** Every slot from `h` up to `i` is occupied. */
  ghost predicate Path<K, V>(s: seq<Slot<K, V>>, h: nat, i: nat)
    requires h < |s| && i < |s|
  {
    forall x :: 0 <= x < |s| && Dist(h, x, |s|) <= Dist(h, i, |s|) ==> s[x].Full?
  }

  /** The probe invariant: every key is found by probing from its home. */
  ghost predicate Probed<K, V>(s: seq<Slot<K, V>>, hash: K -> nat) {
    forall i :: 0 <= i < |s| && s[i].Full? ==> Path(s, hash(s[i].key) % |s|, i)
  }

  ghost predicate Good<K(!new), V>(s: seq<Slot<K, V>>, hash: K -> nat, m: map<K, V>, at: map<K, nat>) {
    |s| > |m| && Stored(s, m, at) && Probed(s, hash)
  }

  /** As long as there are fewer bindings than slots, a slot is empty. */
  lemma EmptySlot<K(!new), V>(s: seq<Slot<K, V>>, m: map<K, V>, at: map<K, nat>) returns (e: nat)
    requires Stored(s, m, at) && |m| < |s|
    ensures e < |s| && s[e].Empty?
  {
    if forall i :: 0 <= i < |s| ==> s[i].Full? {
      Occupied(s, m, at, |s|);
      assert false;
    }
    e :| e < |s| && s[e].Empty?;
  }

  lemma {:induction false} Occupied<K(!new), V>(s: seq<Slot<K, V>>, m: map<K, V>, at: map<K, nat>, n: nat)
    requires Stored(s, m, at) && n <= |s| && forall i :: 0 <= i < |s| ==> s[i].Full?
    ensures n <= |m|
  {
    var keys := Keys(s, n);
    KeysCount(s, m, at, n);
    assert keys <= m.Keys;
    Subset(keys, m.Keys);
  }

  ghost function Keys<K(!new), V>(s: seq<Slot<K, V>>, n: nat): set<K>
    requires n <= |s| && forall i :: 0 <= i < |s| ==> s[i].Full?
  {
    set i | 0 <= i < n :: s[i].key
  }

  lemma {:induction false} KeysCount<K(!new), V>(s: seq<Slot<K, V>>, m: map<K, V>, at: map<K, nat>, n: nat)
    requires Stored(s, m, at) && n <= |s| && forall i :: 0 <= i < |s| ==> s[i].Full?
    ensures |Keys(s, n)| == n
  {
    if n > 0 {
      KeysCount(s, m, at, n - 1);
      assert Keys(s, n) == Keys(s, n - 1) + {s[n - 1].key};
    }
  }

  /** Probes for a key: its slot, or the empty slot where it belongs. */
  method Probe<K(==,!new), V>(table: array<Slot<K, V>>, hash: K -> nat, key: K, ghost m: map<K, V>, ghost at: map<K,
                 nat>)
    returns (i: nat)
    requires Good(table[..], hash, m, at)
    ensures i < table.Length
    ensures if key in m then table[i] == Full(key, m[key]) else table[i].Empty?
    ensures table[i].Empty? ==>
      forall x ::
        && 0 <= x < table.Length
        && Dist(hash(key) % table.Length, x, table.Length) < Dist(hash(key) % table.Length, i, table.Length) ==>
          table[x].Full?
  {
    ghost var e := EmptySlot(table[..], m, at);
    var capacity := table.Length;
    var home := hash(key) % capacity;
    ghost var d := 0;
    i := home;
    while true
      invariant 0 <= i <= capacity && 0 <= d <= Dist(home, e, capacity)
      invariant i == (if home + d <= capacity then home + d else home + d - capacity)
      invariant forall x :: 0 <= x < capacity && Dist(home, x, capacity) < d ==> table[x].Full? && table[x].key != key
      decreases Dist(home, e, capacity) - d
    {
      if i == capacity {
        i := 0;
      }
      assert Dist(home, i, capacity) == d;
      if table[i].Empty? {
        return;
      } else if table[i].key == key {
        return;
      }
      assert forall x :: 0 <= x < capacity && Dist(home, x, capacity) == d ==> x == i;
      i := i + 1;
      d := d + 1;
    }
  }

  /** Filling slots breaks no path. */
  lemma PathGrows<K, V>(s: seq<Slot<K, V>>, t: seq<Slot<K, V>>, h: nat, i: nat)
    requires |s| == |t| && h < |s| && i < |s| && Path(s, h, i)
    requires forall x :: 0 <= x < |s| && s[x].Full? ==> t[x].Full?
    ensures Path(t, h, i)
  {
  }

  lemma PathEnds<K, V>(s: seq<Slot<K, V>>, h: nat, i: nat)
    requires h < |s| && i < |s| && s[i].Full?
    requires forall x :: 0 <= x < |s| && Dist(h, x, |s|) < Dist(h, i, |s|) ==> s[x].Full?
    ensures Path(s, h, i)
  {
    assert forall x :: 0 <= x < |s| && Dist(h, x, |s|) == Dist(h, i, |s|) ==> x == i;
  }

  lemma Inserted<K(!new), V>(s: seq<Slot<K, V>>, hash: K -> nat, m: map<K, V>, at: map<K, nat>, i: nat, key: K,
                   value: V)
    requires Stored(s, m, at) && Probed(s, hash) && i < |s| && s[i].Empty? && key !in m
    requires forall x :: 0 <= x < |s| && Dist(hash(key) % |s|, x, |s|) < Dist(hash(key) % |s|, i, |s|) ==> s[x].Full?
    ensures var t := s[i := Full(key, value)]; Stored(t, m[key := value], at[key := i]) && Probed(t, hash)
  {
    hide Path, Dist;
    var t := s[i := Full(key, value)];
    forall j | 0 <= j < |t| && t[j].Full?
      ensures Path(t, hash(t[j].key) % |t|, j)
    {
      if j == i {
        PathEnds(t, hash(key) % |s|, i);
      } else {
        PathGrows(s, t, hash(s[j].key) % |s|, j);
      }
    }
  }

  lemma Replaced<K(!new), V>(s: seq<Slot<K, V>>, hash: K -> nat, m: map<K, V>, at: map<K, nat>, i: nat, value: V)
    requires Stored(s, m, at) && Probed(s, hash) && i < |s| && s[i].Full?
    ensures var t := s[i := Full(s[i].key, value)]; Stored(t, m[s[i].key := value], at) && Probed(t, hash)
  {
    hide Path, Dist;
    var t := s[i := Full(s[i].key, value)];
    forall j | 0 <= j < |t| && t[j].Full?
      ensures Path(t, hash(t[j].key) % |t|, j)
    {
      PathGrows(s, t, hash(s[j].key) % |s|, j);
    }
  }

  // ---------------------------------------------------------------- removal

  /** Seen from an empty slot `e`, which no probe passes: every element lies at or behind its home, and
      the only empty slots between are holes from `r` on that are before `p`, for elements that are not. */
  ghost predicate Repairing<K, V>(s: seq<Slot<K, V>>, hash: K -> nat, e: nat, r: nat, p: nat)
    requires e < |s| && r < |s|
  {
    s[e].Empty? && forall i :: 0 <= i < |s| && s[i].Full? ==> HolesBefore(s, hash(s[i].key) % |s|, i, e, r, p)
  }

  ghost predicate HolesBefore<K, V>(s: seq<Slot<K, V>>, h: nat, i: nat, e: nat, r: nat, p: nat)
    requires h < |s| && i < |s| && e < |s| && r < |s|
  {
    && h != e && Dist(e, h, |s|) <= Dist(e, i, |s|)
    && forall x :: 0 <= x < |s| && Dist(e, h, |s|) <= Dist(e, x, |s|) <= Dist(e, i, |s|) && s[x].Empty? ==>
         Dist(e, r, |s|) <= Dist(e, x, |s|) < p <= Dist(e, i, |s|)
  }

  lemma StartOne<K, V>(s: seq<Slot<K, V>>, h: nat, i: nat, e: nat, r: nat)
    requires h < |s| && i < |s| && e < |s| && r < |s| && s[e].Empty? && i != r && Path(s, h, i)
    ensures HolesBefore(s[r := Empty], h, i, e, r, Dist(e, r, |s|) + 1)
  {
    assert Dist(h, e, |s|) > Dist(h, i, |s|);
    assert forall x :: 0 <= x < |s| && x != e && Dist(e, h, |s|) <= Dist(e, x, |s|) <= Dist(e, i, |s|) ==>
      Dist(h, x, |s|) <= Dist(h, i, |s|);
  }

  lemma StartRepair<K, V>(s: seq<Slot<K, V>>, hash: K -> nat, e: nat, r: nat)
    requires Probed(s, hash) && e < |s| && r < |s| && s[e].Empty? && s[r].Full?
    ensures Repairing(s[r := Empty], hash, e, r, Dist(e, r, |s|) + 1)
  {
    hide HolesBefore, Path, Dist;
    var t := s[r := Empty];
    forall i | 0 <= i < |t| && t[i].Full?
      ensures HolesBefore(t, hash(t[i].key) % |t|, i, e, r, Dist(e, r, |s|) + 1)
    {
      StartOne(s, hash(s[i].key) % |s|, i, e, r);
    }
  }

  lemma EndOne<K, V>(s: seq<Slot<K, V>>, h: nat, i: nat, e: nat, r: nat, ii: nat)
    requires h < |s| && i < |s| && e < |s| && r < |s| && ii < |s| && s[ii].Empty? && s[e].Empty?
    requires HolesBefore(s, h, i, e, r, if ii == e then |s| else Dist(e, ii, |s|))
    ensures Path(s, h, i)
  {
    forall x | 0 <= x < |s| && Dist(h, x, |s|) <= Dist(h, i, |s|)
      ensures s[x].Full?
    {
      assert Dist(e, h, |s|) <= Dist(e, x, |s|) <= Dist(e, i, |s|);
    }
  }

  /** When the scan meets an empty slot the probe invariant holds again. */
  lemma EndRepair<K, V>(s: seq<Slot<K, V>>, hash: K -> nat, e: nat, r: nat, ii: nat)
    requires e < |s| && r < |s| && ii < |s| && s[ii].Empty?
    requires Repairing(s, hash, e, r, if ii == e then |s| else Dist(e, ii, |s|))
    ensures Probed(s, hash)
  {
    hide HolesBefore, Path, Dist;
    forall i | 0 <= i < |s| && s[i].Full?
      ensures Path(s, hash(s[i].key) % |s|, i)
    {
      EndOne(s, hash(s[i].key) % |s|, i, e, r, ii);
    }
  }

  lemma Apart(e: nat, i: nat, j: nat, capacity: nat)
    requires e < capacity && i < capacity && j < capacity && i != j
    ensures Dist(e, i, capacity) != Dist(e, j, capacity)
  {
  }

  /** The scanned element is reached from its home: it stays. */
  lemma Stay<K, V>(s: seq<Slot<K, V>>, hash: K -> nat, e: nat, r: nat, ii: nat)
    requires e < |s| && r < |s| && ii < |s| && ii != e && s[ii].Full? && Repairing(s, hash, e, r, Dist(e, ii, |s|))
    requires var h := hash(s[ii].key) % |s|;
      forall x :: 0 <= x < |s| && Dist(e, h, |s|) <= Dist(e, x, |s|) < Dist(e, ii, |s|) ==> s[x].Full?
    ensures Repairing(s, hash, e, r, Dist(e, ii, |s|) + 1)
  {
    hide Dist;
    var p := Dist(e, ii, |s|);
    forall i | 0 <= i < |s| && s[i].Full?
      ensures HolesBefore(s, hash(s[i].key) % |s|, i, e, r, p + 1)
    {
      assert HolesBefore(s, hash(s[i].key) % |s|, i, e, r, p);
      if i != ii {
        Apart(e, i, ii, |s|);
      }
    }
  }

  /** Elements that stay where they are while the scanned one moves. */
  lemma MoveOther<K, V>(s: seq<Slot<K, V>>, h: nat, i: nat, e: nat, r: nat, ii: nat, jj: nat)
    requires h < |s| && i < |s| && e < |s| && r < |s| && ii < |s| && jj < |s| && i != ii && s[ii].Full?
    requires HolesBefore(s, h, i, e, r, Dist(e, ii, |s|)) && Dist(e, r, |s|) < Dist(e, ii, |s|)
    ensures HolesBefore(s[jj := s[ii]][ii := Empty], h, i, e, r, Dist(e, ii, |s|) + 1)
  {
    hide Dist;
    Apart(e, i, ii, |s|);
  }

  lemma MoveThis<K, V>(s: seq<Slot<K, V>>, h: nat, e: nat, r: nat, ii: nat, jj: nat)
    requires h < |s| && e < |s| && r < |s| && ii < |s| && jj < |s| && s[ii].Full? && h != e
    requires Dist(e, h, |s|) <= Dist(e, jj, |s|) < Dist(e, ii, |s|)
    requires forall x :: 0 <= x < |s| && Dist(e, h, |s|) <= Dist(e, x, |s|) < Dist(e, jj, |s|) ==> s[x].Full?
    ensures HolesBefore(s[jj := s[ii]][ii := Empty], h, jj, e, r, Dist(e, ii, |s|) + 1)
  {
    assert forall x :: 0 <= x < |s| && Dist(e, x, |s|) == Dist(e, jj, |s|) ==> x == jj;
  }

  /** The first hole behind the home of the scanned element: it moves there. */
  lemma Move<K, V>(s: seq<Slot<K, V>>, hash: K -> nat, e: nat, r: nat, ii: nat, jj: nat)
    requires e < |s| && r < |s| && ii < |s| && jj < |s| && ii != e && s[ii].Full? && s[jj].Empty?
    requires Repairing(s, hash, e, r, Dist(e, ii, |s|)) && Dist(e, r, |s|) < Dist(e, ii, |s|)
    requires var h := hash(s[ii].key) % |s|;
      && Dist(e, h, |s|) <= Dist(e, jj, |s|) < Dist(e, ii, |s|)
      && forall x :: 0 <= x < |s| && Dist(e, h, |s|) <= Dist(e, x, |s|) < Dist(e, jj, |s|) ==> s[x].Full?
    ensures jj != e && Repairing(s[jj := s[ii]][ii := Empty], hash, e, r, Dist(e, ii, |s|) + 1)
  {
    var t := s[jj := s[ii]][ii := Empty];
    NotGap(s, hash(s[ii].key) % |s|, ii, e, r, Dist(e, ii, |s|), jj);
    hide HolesBefore, Dist;
    forall i | 0 <= i < |t| && t[i].Full?
      ensures HolesBefore(t, hash(t[i].key) % |t|, i, e, r, Dist(e, ii, |s|) + 1)
    {
      if i == jj {
        MoveThis(s, hash(s[ii].key) % |s|, e, r, ii, jj);
      } else {
        MoveOther(s, hash(s[i].key) % |s|, i, e, r, ii, jj);
      }
    }
  }

  lemma NotGap<K, V>(s: seq<Slot<K, V>>, h: nat, i: nat, e: nat, r: nat, p: nat, jj: nat)
    requires h < |s| && i < |s| && e < |s| && r < |s| && jj < |s| && HolesBefore(s, h, i, e, r, p)
    requires Dist(e, h, |s|) <= Dist(e, jj, |s|)
    ensures jj != e && h != e
  {
  }

  lemma Cleared<K(!new), V>(s: seq<Slot<K, V>>, m: map<K, V>, at: map<K, nat>, i: nat)
    requires Stored(s, m, at) && i < |s| && s[i].Full?
    ensures Stored(s[i := Empty], m - {s[i].key}, at - {s[i].key})
  {
  }

  lemma Relocated<K(!new), V>(s: seq<Slot<K, V>>, m: map<K, V>, at: map<K, nat>, i: nat, j: nat)
    requires Stored(s, m, at) && i < |s| && j < |s| && s[i].Full? && s[j].Empty?
    ensures Stored(s[j := s[i]][i := Empty], m, at[s[i].key := j])
  {
  }

  /** Clears a slot and re-places the elements that follow it. */
  method RemoveAt<K(!new), V>(table: array<Slot<K, V>>, hash: K -> nat, i: nat, ghost m: map<K, V>, ghost at: map<K,
                    nat>)
    returns (ghost at': map<K, nat>)
    requires Good(table[..], hash, m, at) && i < table.Length && table[i].Full?
    modifies table
    ensures Good(table[..], hash, m - {old(table[i].key)}, at')
  {
    hide Stored, Probed, Path, Repairing;
    ghost var s := table[..];
    ghost var e := EmptySlot(s, m, at);
    Subset((m - {s[i].key}).Keys, m.Keys);
    StartRepair(s, hash, e, i);
    Cleared(s, m, at, i);
    table[i] := Empty;
    assert table[..] == s[i := Empty];
    at' := Repair(table, hash, e, i, m - {s[i].key}, at - {s[i].key});
  }

  /** Scans the elements that follow slot `i` up to an empty one. */
  method Repair<K(!new), V>(table: array<Slot<K, V>>, hash: K -> nat, ghost e: nat, i: nat, ghost m: map<K, V>,
                  ghost at: map<K, nat>)
    returns (ghost at': map<K, nat>)
    requires e < table.Length && i < table.Length && table[e].Empty?
    requires Stored(table[..], m, at) && Repairing(table[..], hash, e, i, Dist(e, i, table.Length) + 1)
    modifies table
    ensures Stored(table[..], m, at') && Probed(table[..], hash)
  {
    hide Stored, Probed, Path, Repairing;
    var capacity := table.Length;
    at' := at;
    var ii := i + 1;
    ghost var p := Dist(e, i, capacity) + 1;
    while true
      invariant 0 <= ii <= capacity && Dist(e, i, capacity) < p <= capacity
      invariant e + p == ii || e + p == ii + capacity
      invariant table[e].Empty? && Stored(table[..], m, at') && Repairing(table[..], hash, e, i, p)
      decreases capacity - p
    {
      if ii == capacity {
        ii := 0;
      }
      assert p == if ii == e then capacity else Dist(e, ii, capacity);
      if table[ii].Empty? {
        EndRepair(table[..], hash, e, i, ii);
        return;
      }
      at' := Replace(table, hash, e, i, ii, m, at');
      ii := ii + 1;
      p := p + 1;
    }
  }

  /** The first empty slot from the home of the scanned element on, or the element's own slot. */
  method FindPlace<K(!new), V>(table: array<Slot<K, V>>, hash: K -> nat, ghost e: nat, ii: nat) returns (jj: nat)
    requires e < table.Length && ii < table.Length && ii != e && table[ii].Full?
    requires Dist(e, hash(table[ii].key) % table.Length, table.Length) <= Dist(e, ii, table.Length)
    ensures jj < table.Length && (jj == ii || table[jj].Empty?)
    ensures Dist(e, hash(table[ii].key) % table.Length, table.Length) <= Dist(e, jj, table.Length)
                                                                      <= Dist(e, ii, table.Length)
    ensures jj != ii ==> Dist(e, jj, table.Length) < Dist(e, ii, table.Length)
    ensures forall x ::
      && 0 <= x < table.Length
      && Dist(e, hash(table[ii].key) % table.Length, table.Length) <= Dist(e, x, table.Length)
      && Dist(e, x, table.Length) < Dist(e, jj, table.Length)
      ==> table[x].Full?
  {
    var capacity := table.Length;
    var home := hash(table[ii].key) % capacity;
    jj := home;
    ghost var d := Dist(e, home, capacity);
    while true
      invariant 0 <= jj <= capacity && Dist(e, home, capacity) <= d <= Dist(e, ii, capacity)
      invariant e + d == jj || e + d == jj + capacity
      invariant forall x :: 0 <= x < capacity && Dist(e, home, capacity) <= Dist(e, x, capacity) < d ==> table[x].Full?
      decreases Dist(e, ii, capacity) - d
    {
      if jj == capacity {
        jj := 0;
      }
      assert Dist(e, jj, capacity) == d;
      if jj == ii || table[jj].Empty? {
        return;
      }
      assert forall x :: 0 <= x < capacity && Dist(e, x, capacity) == d ==> x == jj;
      jj := jj + 1;
      d := d + 1;
    }
  }

  lemma HomeBefore<K, V>(s: seq<Slot<K, V>>, hash: K -> nat, e: nat, r: nat, ii: nat)
    requires e < |s| && r < |s| && ii < |s| && s[ii].Full? && Repairing(s, hash, e, r, Dist(e, ii, |s|))
    ensures s[e].Empty? && Dist(e, hash(s[ii].key) % |s|, |s|) <= Dist(e, ii, |s|)
  {
  }

  /** Moves one element of the cluster to the first hole behind its home, if there is one. */
  method Replace<K(!new), V>(table: array<Slot<K, V>>, hash: K -> nat, ghost e: nat, ghost r: nat, ii: nat,
                   ghost m: map<K, V>, ghost at: map<K, nat>)
    returns (ghost at': map<K, nat>)
    requires e < table.Length && r < table.Length && ii < table.Length && ii != e && table[ii].Full?
    requires Stored(table[..], m, at) && Repairing(table[..], hash, e, r, Dist(e, ii, table.Length))
    requires Dist(e, r, table.Length) < Dist(e, ii, table.Length)
    modifies table
    ensures Stored(table[..], m, at') && Repairing(table[..], hash, e, r, Dist(e, ii, table.Length) + 1)
    ensures table[e].Empty?
  {
    hide *;
    ghost var s := table[..];
    HomeBefore(s, hash, e, r, ii);
    var jj := FindPlace(table, hash, e, ii);
    if jj == ii {
      at' := at;
      Stay(s, hash, e, r, ii);
    } else {
      Move(s, hash, e, r, ii, jj);
      Relocated(s, m, at, ii, jj);
      at' := at[table[ii].key := jj];
      table[jj] := table[ii];
      table[ii] := Empty;
      assert table[..] == s[jj := s[ii]][ii := Empty];
    }
  }

  // ---------------------------------------------------------------- growth

  method FirstEmpty<K, V>(table: array<Slot<K, V>>, home: nat, ghost e: nat) returns (i: nat)
    requires home < table.Length && e < table.Length && table[e].Empty?
    ensures i < table.Length && table[i].Empty?
    ensures forall x :: 0 <= x < table.Length && Dist(home, x, table.Length) < Dist(home, i, table.Length) ==>
      table[x].Full?
  {
    var capacity := table.Length;
    ghost var d := 0;
    i := home;
    while true
      invariant 0 <= i <= capacity && 0 <= d <= Dist(home, e, capacity)
      invariant i == (if home + d <= capacity then home + d else home + d - capacity)
      invariant forall x :: 0 <= x < capacity && Dist(home, x, capacity) < d ==> table[x].Full?
      decreases Dist(home, e, capacity) - d
    {
      if i == capacity {
        i := 0;
      }
      assert Dist(home, i, capacity) == d;
      if table[i].Empty? {
        return;
      }
      assert forall x :: 0 <= x < capacity && Dist(home, x, capacity) == d ==> x == i;
      i := i + 1;
      d := d + 1;
    }
  }

  /** The bindings in the first `n` slots. */
  ghost function Below<K(!new), V>(m: map<K, V>, at: map<K, nat>, n: nat): map<K, V>
    requires at.Keys == m.Keys
  {
    map k | k in m && at[k] < n :: m[k]
  }

  lemma BelowNext<K(!new), V>(s: seq<Slot<K, V>>, m: map<K, V>, at: map<K, nat>, n: nat)
    requires Stored(s, m, at) && n < |s|
    ensures s[n].Empty? ==> Below(m, at, n + 1) == Below(m, at, n)
    ensures s[n].Full? ==>
      s[n].key !in Below(m, at, n) && Below(m, at, n + 1) == Below(m, at, n)[s[n].key := s[n].value]
    ensures s[n].Full? ==> |Below(m, at, n)| < |m|
  {
    if s[n].Full? {
      assert forall k :: k in m && at[k] == n ==> k == s[n].key;
      Subset(Below(m, at, n).Keys, m.Keys - {s[n].key});
    } else {
      assert forall k :: k in m ==> at[k] != n;
    }
  }

  lemma BelowEnds<K(!new), V>(s: seq<Slot<K, V>>, m: map<K, V>, at: map<K, nat>)
    requires Stored(s, m, at)
    ensures at.Keys == m.Keys && Below(m, at, 0) == map[] && Below(m, at, |s|) == m
  {
  }

  method Reinsert<K(!new), V>(table: array<Slot<K, V>>, hash: K -> nat, key: K, value: V, ghost m: map<K, V>,
                    ghost at: map<K, nat>)
    returns (ghost at': map<K, nat>)
    requires Good(table[..], hash, m, at) && key !in m
    modifies table
    ensures Stored(table[..], m[key := value], at') && Probed(table[..], hash)
  {
    hide Stored, Probed, Path, Dist;
    ghost var s := table[..];
    ghost var e := EmptySlot(s, m, at);
    var i := FirstEmpty(table, hash(key) % table.Length, e);
    Inserted(s, hash, m, at, i, key, value);
    at' := at[key := i];
    table[i] := Full(key, value);
    assert table[..] == s[i := Full(key, value)];
  }

  lemma NothingStored<K(!new), V>(s: seq<Slot<K, V>>, hash: K -> nat)
    requires forall i :: 0 <= i < |s| ==> s[i].Empty?
    ensures Stored(s, map[], map[]) && Probed(s, hash)
  {
  }

  method Rehash<K(!new), V>(table: array<Slot<K, V>>, hash: K -> nat, capacity: nat, ghost m: map<K, V>,
                  ghost at: map<K, nat>)
    returns (larger: array<Slot<K, V>>, ghost moved: map<K, nat>)
    requires Stored(table[..], m, at) && |m| < capacity
    ensures fresh(larger) && larger.Length == capacity && Good(larger[..], hash, m, moved)
  {
    hide Stored, Probed, Path;
    ghost var s := table[..];
    larger := new Slot<K, V>[capacity](_ => Empty);
    NothingStored(larger[..], hash);
    assert table[..] == s;
    moved := Refill(table, larger, hash, m, at);
  }

  method Refill<K(!new), V>(table: array<Slot<K, V>>, larger: array<Slot<K, V>>, hash: K -> nat, ghost m: map<K, V>,
                  ghost at: map<K, nat>)
    returns (ghost moved: map<K, nat>)
    requires table != larger && Stored(table[..], m, at) && |m| < larger.Length
    requires Stored(larger[..], map[], map[]) && Probed(larger[..], hash)
    modifies larger
    ensures Good(larger[..], hash, m, moved)
  {
    hide Stored, Probed, Path, Dist, Below;
    ghost var s := table[..];
    BelowEnds(s, m, at);
    moved := map[];
    var jj := 0;
    while jj < table.Length
      invariant 0 <= jj <= table.Length && table[..] == s
      invariant Stored(larger[..], Below(m, at, jj), moved) && Probed(larger[..], hash)
    {
      BelowNext(s, m, at, jj);
      if table[jj].Full? {
        moved := Reinsert(larger, hash, table[jj].key, table[jj].value, Below(m, at, jj), moved);
      }
      jj := jj + 1;
    }
  }

  // ---------------------------------------------------------------- the table

  /** Rounded up to one more than a multiple of 30. */
  function RoundUp(capacity: nat): (r: nat)
    ensures capacity < r <= capacity + 30 && r % 30 == 1
  {
    (capacity + 29) / 30 * 30 + 1
  }

  function Scale(n: nat, numer: nat, denom: nat): nat
    requires denom > 0
  {
    n * numer / denom
  }

  lemma Floor(x: nat, d: nat)
    requires d > 0
    ensures x < (x / d + 1) * d
  {
  }

  lemma Times(a: nat, b: nat, c: nat)
    requires a <= b
    ensures a * c <= b * c
  {
  }

  /** A table made for `n` elements has room for them before it grows. */
  lemma RoomEnough(n: nat, numer: nat, denom: nat, capacity: nat)
    requires 0 < numer && 0 < denom && capacity > Scale(n, denom, numer)
    ensures Scale(capacity, numer, denom) >= n
  {
    var q, r := Scale(n, denom, numer), Scale(capacity, numer, denom);
    Floor(n * denom, numer);
    Floor(capacity * numer, denom);
    hide Scale;
    Times(q + 1, capacity, numer);
    if r + 1 <= n {
      Times(r + 1, n, denom);
    }
  }

  ghost function Visited<K(!new), V>(visited: seq<(K, V)>): set<K> {
    set n | 0 <= n < |visited| :: visited[n].0
  }

  /** The sequence has every binding exactly once. */
  ghost predicate Lists<K(!new), V>(visited: seq<(K, V)>, m: map<K, V>) {
    && Visited(visited) == m.Keys
    && (forall n :: 0 <= n < |visited| ==> visited[n].0 in m && m[visited[n].0] == visited[n].1)
    && (forall n, n' :: 0 <= n < n' < |visited| ==> visited[n].0 != visited[n'].0)
  }

  lemma ListsMore<K(!new), V>(visited: seq<(K, V)>, m: map<K, V>, key: K, value: V)
    requires Lists(visited, m) && key !in m
    ensures Lists(visited + [(key, value)], m[key := value])
  {
    var more := visited + [(key, value)];
    assert more[|visited|] == (key, value);
    assert forall n :: 0 <= n < |visited| ==> more[n] == visited[n];
    assert Visited(more) == Visited(visited) + {key};
  }

  /** Empty slots hold nothing. */
  lemma {:induction false} BelowSkip<K(!new), V>(s: seq<Slot<K, V>>, m: map<K, V>, at: map<K, nat>, n: nat, i: nat)
    requires Stored(s, m, at) && n <= i <= |s| && forall x :: n <= x < i ==> s[x].Empty?
    ensures Below(m, at, i) == Below(m, at, n)
    decreases i - n
  {
    if n < i {
      BelowNext(s, m, at, n);
      BelowSkip(s, m, at, n + 1, i);
    }
  }

  class HashTable<K(==,!new), V> {
    const hash: K -> nat
    var table: array<Slot<K, V>>
    var size: nat
    var growthTrigger: nat
    const densityNumer: nat
    const densityDenom: nat
    const growthNumer: nat
    const growthDenom: nat
    ghost var contents: map<K, V>
    ghost var at: map<K, nat>

    /** An empty slot always remains. */
    ghost predicate Valid()
      reads this, table
    {
      && 0 < densityNumer <= densityDenom && 0 < growthDenom <= growthNumer
      && Good(table[..], hash, contents, at) && size == |contents|
      && growthTrigger == Scale(table.Length, densityNumer, densityDenom)
    }

    lemma Sized()
      requires Valid()
      ensures size == |contents|
    {
    }

    lemma Found(k: K)
      requires Valid() && k in contents
      ensures k in at && at[k] < table.Length && table[at[k]] == Full(k, contents[k])
    {
    }

    lemma Occupies(i: nat)
      requires Valid() && i < table.Length && table[i].Full?
      ensures var k := table[i].key; k in contents && contents[k] == table[i].value && k in at && at[k] == i
    {
    }

    lemma Holds()
      requires Valid()
      ensures Stored(table[..], contents, at)
    {
    }

    constructor (hash: K -> nat, estimatedMaxSize: nat, densityNumer: nat, densityDenom: nat, growthNumer: nat,
                 growthDenom: nat)
      requires 0 < densityNumer <= densityDenom && 0 < growthDenom <= growthNumer
      ensures Valid() && fresh(table) && contents == map[] && this.hash == hash
      ensures this.densityNumer == densityNumer && this.densityDenom == densityDenom
      ensures this.growthNumer == growthNumer && this.growthDenom == growthDenom
      ensures growthTrigger >= estimatedMaxSize
      ensures table.Length <= estimatedMaxSize * densityDenom / densityNumer + 30
    {
      this.hash := hash;
      this.densityNumer, this.densityDenom := densityNumer, densityDenom;
      this.growthNumer, this.growthDenom := growthNumer, growthDenom;
      var capacity := RoundUp(Scale(estimatedMaxSize, densityDenom, densityNumer));
      table := new Slot<K, V>[capacity](_ => Empty);
      size, growthTrigger := 0, Scale(capacity, densityNumer, densityDenom);
      contents, at := map[], map[];
      RoomEnough(estimatedMaxSize, densityNumer, densityDenom, capacity);
    }

    method Get(key: K) returns (r: Option<V>)
      requires Valid()
      ensures r == if key in contents then Some(contents[key]) else None
    {
      var i := Probe(table, hash, key, contents, at);
      match table[i]
      case Full(_, value) => r := Some(value);
      case Empty => r := None;
    }

    method Set(key: K, value: V)
      requires Valid()
      modifies this, table
      ensures Valid() && contents == old(contents)[key := value]
      ensures if key !in old(contents) && old(size) + 1 >= old(growthTrigger) then
                fresh(table) && table.Length == RoundUp(Scale(old(table.Length), growthNumer, growthDenom))
              else table == old(table)
    {
      hide Stored, Probed, Path, Dist, Scale;
      ghost var s := table[..];
      var i := Probe(table, hash, key, contents, at);
      if table[i].Empty? {
        Inserted(s, hash, contents, at, i, key, value);
        table[i] := Full(key, value);
        assert table[..] == s[i := Full(key, value)];
        contents, at := contents[key := value], at[key := i];
        size := size + 1;
        TriggerBelow(table.Length, densityNumer, densityDenom);
        if size >= growthTrigger {
          Grow();
        }
      } else {
        Replaced(s, hash, contents, at, i, value);
        table[i] := Full(key, value);
        assert table[..] == s[i := Full(key, value)];
        contents := contents[key := value];
        assert contents.Keys == old(contents).Keys;
      }
    }

    /** Re-inserts every element into a larger table. */
    method Grow()
      requires 0 < densityNumer <= densityDenom && 0 < growthDenom <= growthNumer
      requires Stored(table[..], contents, at) && size == |contents| <= table.Length
      modifies this
      ensures Valid() && contents == old(contents) && fresh(table)
      ensures table.Length == RoundUp(Scale(old(table.Length), growthNumer, growthDenom)) > old(table.Length)
    {
      hide Stored, Probed, Path, Dist, Scale;
      var capacity := RoundUp(Scale(table.Length, growthNumer, growthDenom));
      NotSmaller(table.Length, growthNumer, growthDenom);
      var larger, moved := Rehash(table, hash, capacity, contents, at);
      table, at := larger, moved;
      growthTrigger := Scale(capacity, densityNumer, densityDenom);
    }

    method Remove(key: K) returns (ok: bool)
      requires Valid()
      modifies this, table
      ensures Valid() && ok == (key in old(contents)) && contents == old(contents) - {key} && table == old(table)
    {
      hide Stored, Probed, Path, Dist, Scale;
      var i := Probe(table, hash, key, contents, at);
      if table[i].Empty? {
        return false;
      }
      at := RemoveAt(table, hash, i, contents, at);
      contents := contents - {key};
      size := size - 1;
      ok := true;
    }

    method Traverse() returns (visited: seq<(K, V)>)
      requires Valid()
      ensures Lists(visited, contents)
    {
      visited := VisitAll(table, contents, at);
    }
  }

  /** The first element from slot `from` on, or the number of slots. */
  method NextElement<K, V>(table: array<Slot<K, V>>, from: nat) returns (i: nat)
    requires from <= table.Length
    ensures from <= i <= table.Length && (i < table.Length ==> table[i].Full?)
    ensures forall x :: from <= x < i ==> table[x].Empty?
  {
    i := from;
    while i < table.Length
      invariant from <= i <= table.Length
      invariant forall x :: from <= x < i ==> table[x].Empty?
    {
      if table[i].Full? {
        return;
      }
      i := i + 1;
    }
  }

  /** Goes through the table with first and next until there is no next element: every binding is
      visited exactly once. */
  method VisitAll<K(!new), V>(table: array<Slot<K, V>>, ghost m: map<K, V>, ghost at: map<K, nat>)
    returns (visited: seq<(K, V)>)
    requires Stored(table[..], m, at)
    ensures Lists(visited, m)
  {
    ghost var s := table[..];
    visited := [];
    BelowEnds(s, m, at);
    NothingListed<K, V>();
    hide Stored, Below, Lists;
    var i := NextElement(table, 0);
    BelowSkip(s, m, at, 0, i);
    while i < table.Length
      invariant 0 <= i <= table.Length && (i < table.Length ==> s[i].Full?)
      invariant Lists(visited, Below(m, at, i))
    {
      ghost var was := i;
      BelowNext(s, m, at, i);
      ListsMore(visited, Below(m, at, i), s[i].key, s[i].value);
      visited := visited + [(table[i].key, table[i].value)];
      i := NextElement(table, i + 1);
      BelowSkip(s, m, at, was + 1, i);
    }
  }

  lemma NothingListed<K(!new), V>()
    ensures Lists<K, V>([], map[])
  {
  }

  lemma NotSmaller(capacity: nat, numer: nat, denom: nat)
    requires 0 < denom <= numer
    ensures Scale(capacity, numer, denom) >= capacity
  {
    var q := capacity * numer / denom;
    Times(denom, numer, capacity);
    if q < capacity {
      Times(q + 1, capacity, denom);
    }
  }

  lemma TriggerBelow(capacity: nat, numer: nat, denom: nat)
    requires 0 < numer <= denom
    ensures Scale(capacity, numer, denom) <= capacity
  {
  }
}

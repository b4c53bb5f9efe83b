/** The lock-free FIFO with counted pointers: any number of threads push and pop, and every read, write
    and compare-and-swap of shared memory is one step.  Memory is sequentially consistent, reads of a
    counted pointer are atomic and the counters do not wrap. */
module Fifo {

  import opened Common
  import opened Interleaving

  /** Where a thread stands.  `seen` tells that the queue was empty at some moment of the running pop. */
  datatype Pc =
    | Idle
    | PushLink(item: Node)
    | PushRead(item: Node)
    | PushCas(item: Node, was: Counted)
    | PushHead(item: Node)
    | PushNext(item: Node, prev: Node)
    | Pushed(prev: Node)
    | PopHead(seen: bool)
    | PopTail(head: Counted, seen: bool)
    | PopNext(head: Counted, tail: Counted, seen: bool)
    | PopCas(head: Counted, tail: Counted, next: Node, seen: bool)
    | PopTailCas(item: Node, tail: Counted)
    | PopWait(item: Node)
    | PopReread(item: Node)
    | PopReload(item: Node, head: Counted)
    | PopFix(item: Node, next: Node)
    | PopClear(item: Node)
    | Popped(item: Node)
    | Empty(seen: bool)
  {
    predicate Resting() {
      Idle? || Pushed? || Popped? || Empty?
    }
  }

  /** The shared memory and the program counters; then what is only recorded: the order of the
      successful updates of the tail by push and of the head by pop, the queue that this makes, who has
      an item, the thread that still has to make head and tail consistent, and the thread that still
      has to link an item to its successor. */
  datatype State = State(
    head: Counted, tail: Counted, next: Node -> Node, pc: Tid -> Pc,
    pushed: seq<Node>, popped: seq<Node>, queue: seq<Node>, place: Node -> Place, fixer: Tid, linker: Node -> Tid)

  // ---------------------------------------------------------------- the steps of a thread

  ghost predicate Init(s: State) {
    && s.head == s.tail == Counted(0, GHOST) && s.next(GHOST) == GHOST
    && (forall t :: s.pc(t) == Idle) && (forall x :: s.place(x) == Free) && (forall x :: s.linker(x) == NOBODY)
    && s.pushed == s.popped == s.queue == [] && s.fixer == NOBODY
  }

  function At(s: State, t: Tid, pc: Pc): State {
    s.(pc := Put(s.pc, t, pc))
  }

  /** A push may be called with any item that its caller has. */
  ghost predicate CallPush(s: State, s': State, t: Tid, x: Node) {
    && t != NOBODY && s.pc(t).Resting() && x > 0 && s.place(x) == Free
    && s' == At(s, t, PushLink(x)).(place := Put(s.place, x, Held(t)))
  }

  ghost predicate CallPop(s: State, s': State, t: Tid) {
    t != NOBODY && s.pc(t).Resting() && s' == At(s, t, PopHead(s.queue == []))
  }

  function StepPushCas(s: State, t: Tid, x: Node, was: Counted): State {
    if s.tail != was then At(s, t, PushRead(x))
    else
      var s1 := s.(tail := Counted(was.counter + 1, x), pushed := s.pushed + [x], queue := s.queue + [x],
                   place := Put(s.place, x, Queued));
      if was.item == GHOST then At(s1, t, PushHead(x)).(fixer := t)
      else At(s1, t, PushNext(x, was.item)).(linker := Put(s.linker, was.item, t))
  }

  function StepPopNext(s: State, t: Tid, head: Counted, tail: Counted, seen: bool): State {
    var next := s.next(head.item);
    if tail.item == GHOST && head.item == GHOST then At(s, t, Empty(seen))
    else if tail.item != head.item && tail.item != GHOST && next == GHOST then At(s, t, PopHead(seen))
    else At(s, t, PopCas(head, tail, next, seen))
  }

  function StepPopCas(s: State, t: Tid, head: Counted, tail: Counted, next: Node, seen: bool): State {
    if s.head != head then At(s, t, PopHead(seen))
    else
      var s1 := s.(head := Counted(head.counter + 1, next), popped := s.popped + [head.item],
                   queue := if s.queue == [] then [] else s.queue[1..], place := Put(s.place, head.item, Held(t)));
      if next == GHOST then At(s1, t, PopTailCas(head.item, tail)).(fixer := t)
      else At(s1, t, PopClear(head.item))
  }

  function StepPopTailCas(s: State, t: Tid, x: Node, tail: Counted): State {
    if s.tail != tail then At(s, t, PopWait(x))
    else At(s, t, PopClear(x)).(tail := Counted(tail.counter + 1, GHOST), fixer := NOBODY)
  }

  function Step(s: State, t: Tid): State {
    var none := s.queue == [];
    match s.pc(t)
    case Idle | Pushed(_) | Popped(_) | Empty(_) => s
    case PushLink(x) => At(s, t, PushRead(x)).(next := Put(s.next, x, GHOST))
    case PushRead(x) => At(s, t, PushCas(x, s.tail))
    case PushCas(x, was) => StepPushCas(s, t, x, was)
    case PushHead(x) => At(s, t, Pushed(GHOST)).(head := s.head.(item := x), fixer := NOBODY)
    case PushNext(x, prev) =>
      At(s, t, Pushed(prev)).(next := Put(s.next, prev, x), linker := Put(s.linker, prev, NOBODY))
    case PopHead(seen) => At(s, t, PopTail(s.head, seen || none))
    case PopTail(head, seen) => At(s, t, PopNext(head, s.tail, seen || none))
    case PopNext(head, tail, seen) => StepPopNext(s, t, head, tail, seen || none)
    case PopCas(head, tail, next, seen) => StepPopCas(s, t, head, tail, next, seen || none)
    case PopTailCas(x, tail) => StepPopTailCas(s, t, x, tail)
    case PopWait(x) => if s.next(x) == GHOST then s else At(s, t, PopReread(x))
    case PopReread(x) => At(s, t, PopReload(x, s.head))
    case PopReload(x, _) => At(s, t, PopFix(x, s.next(x)))
    case PopFix(x, next) => At(s, t, PopClear(x)).(head := s.head.(item := next), fixer := NOBODY)
    case PopClear(x) => At(s, t, Popped(x)).(next := Put(s.next, x, NULL), place := Put(s.place, x, Free))
  }

  /** Thread `t` takes a step, or calls pop, or calls push with item `x`. */
  ghost predicate Moves(s: State, s': State, t: Tid, x: Node) {
    t != NOBODY && (s' == Step(s, t) || CallPop(s, s', t) || CallPush(s, s', t, x))
  }

  ghost predicate Next(s: State, s': State) {
    exists t, x :: Moves(s, s', t, x)
  }

  // ---------------------------------------------------------------- what every step keeps

  /** Item `p` is followed by `x`, or a thread is about to link it. */
  ghost predicate LinksTo(s: State, p: Node, x: Node) {
    if s.linker(p) == NOBODY then s.next(p) == x
    else s.next(p) == GHOST && s.pc(s.linker(p)) == PushNext(x, p)
  }

  ghost predicate Unlinked(s: State, p: Node) {
    s.linker(p) == NOBODY && s.next(p) == GHOST
  }

  ghost predicate Chain(s: State) {
    var q := s.queue;
    && s.next(GHOST) == GHOST
    && (forall i :: 0 <= i < |q| ==> q[i] > 0 && s.place(q[i]) == Queued)
    && (forall i, j :: 0 <= i < j < |q| ==> q[i] != q[j])
    && (forall i :: 0 <= i < |q| - 1 ==> LinksTo(s, q[i], q[i + 1]))
    && (q != [] ==> Unlinked(s, q[|q| - 1]) && s.tail.item == q[|q| - 1])
    && (forall x :: s.place(x) == Free ==> s.linker(x) == NOBODY)
    && s.pushed == s.popped + q
  }

  /** What the thread that has to make head and tail consistent knows. */
  ghost predicate Fixing(s: State, pc: Pc) {
    match pc
    case PushHead(x) => s.queue != [] && s.queue[0] == x
    case PopTailCas(p, tail) =>
      && tail.item == p
      && (if s.tail == tail then s.queue == [] && Unlinked(s, p) else s.queue != [] && LinksTo(s, p, s.queue[0]))
    case PopWait(p) => s.queue != [] && LinksTo(s, p, s.queue[0])
    case PopReread(p) => s.queue != [] && s.linker(p) == NOBODY && s.next(p) == s.queue[0]
    case PopReload(p, _) => s.queue != [] && s.linker(p) == NOBODY && s.next(p) == s.queue[0]
    case PopFix(p, next) => s.queue != [] && s.linker(p) == NOBODY && next == s.queue[0]
    case _ => false
  }

  ghost predicate Ends(s: State) {
    && (s.head.item != GHOST ==> s.queue != [] && s.head.item == s.queue[0])
    && (s.tail.item == GHOST ==> s.queue == [])
    && (if s.fixer == NOBODY then s.head.item == GHOST <==> s.tail.item == GHOST
        else s.head.item == GHOST && s.tail.item != GHOST && Fixing(s, s.pc(s.fixer)))
  }

  predicate Since(was: Counted, now: Counted) {
    was.counter <= now.counter && (was.counter == now.counter ==> was == now)
  }

  /** For one value of its counter the head changes at most once, from the ghost. */
  predicate HeadSince(was: Counted, now: Counted) {
    was.counter <= now.counter && (was.counter == now.counter && was.item != GHOST ==> was == now)
  }

  ghost predicate Owns(s: State, t: Tid, x: Node) {
    x > 0 && s.place(x) == Held(t)
  }

  /** A popper has read head and tail. */
  ghost predicate Snapshot(s: State, head: Counted, tail: Counted, seen: bool) {
    && HeadSince(head, s.head) && Since(tail, s.tail)
    && (tail.item == GHOST ==> seen && (head.item != GHOST ==> head.counter < s.head.counter))
    && (s.head == head && head.item != GHOST && tail.item == head.item ==> s.tail == tail || |s.queue| >= 2)
  }

  ghost predicate Local(s: State, t: Tid, pc: Pc) {
    match pc
    case Idle => true
    case PushLink(x) => Owns(s, t, x) && s.linker(x) == NOBODY
    case PushRead(x) => Owns(s, t, x) && Unlinked(s, x)
    case PushCas(x, was) => Owns(s, t, x) && Unlinked(s, x) && Since(was, s.tail)
    case PushHead(x) => s.fixer == t
    case PushNext(_, p) => p > 0 && s.linker(p) == t
    case Pushed(_) => true
    case PopHead(_) => true
    case PopTail(head, _) => HeadSince(head, s.head)
    case PopNext(head, tail, seen) => Snapshot(s, head, tail, seen)
    case PopCas(head, tail, next, seen) =>
      && Snapshot(s, head, tail, seen) && head.item != GHOST
      && (s.head == head ==> next == s.next(head.item) || next == GHOST)
      && (next == GHOST ==> tail.item == head.item || tail.item == GHOST)
    case PopTailCas(p, tail) => Owns(s, t, p) && s.fixer == t && Since(tail, s.tail)
    case PopWait(p) => Owns(s, t, p) && s.fixer == t
    case PopReread(p) => Owns(s, t, p) && s.fixer == t
    case PopReload(p, head) => Owns(s, t, p) && s.fixer == t && head.item == GHOST
    case PopFix(p, _) => Owns(s, t, p) && s.fixer == t
    case PopClear(p) => Owns(s, t, p) && s.linker(p) == NOBODY
    case Popped(_) => true
    case Empty(seen) => seen
  }

  ghost predicate Inv(s: State) {
    Chain(s) && Ends(s) && forall t :: t != NOBODY ==> Local(s, t, s.pc(t))
  }

  /** A step that only moves the thread's program counter. */
  lemma KeepMove(s: State, t: Tid, pc: Pc)
    requires Inv(s) && t != NOBODY && !s.pc(t).PushNext?
    requires Local(s, t, pc) && (s.fixer == t ==> Fixing(s, pc))
    ensures Inv(At(s, t, pc))
  {
    var s' := At(s, t, pc);
    assert forall p, x :: LinksTo(s, p, x) ==> LinksTo(s', p, x);
    forall u | u != NOBODY
      ensures Local(s', u, s'.pc(u))
    {
      MoveLocal(s, t, pc, u);
    }
    hide LinksTo, Local;
  }

  lemma MoveLocal(s: State, t: Tid, pc: Pc, u: Tid)
    requires Inv(s) && t != NOBODY && u != NOBODY && Local(s, t, pc)
    ensures Local(At(s, t, pc), u, At(s, t, pc).pc(u))
  {
    hide LinksTo, Fixing;
    assert Local(s, u, s.pc(u));
  }

  lemma KeepCallPush(s: State, s': State, t: Tid, x: Node)
    requires Inv(s) && CallPush(s, s', t, x)
    ensures Inv(s')
  {
    assert forall p, y :: LinksTo(s, p, y) ==> LinksTo(s', p, y);
    forall u | u != NOBODY
      ensures Local(s', u, s'.pc(u))
    {
      assert Local(s, u, s.pc(u));
    }
  }

  lemma KeepPushLink(s: State, t: Tid, x: Node)
    requires Inv(s) && t != NOBODY && s.pc(t) == PushLink(x)
    ensures Inv(Step(s, t))
  {
    var s' := Step(s, t);
    assert Local(s, t, s.pc(t));
    assert forall p, y :: p != x && LinksTo(s, p, y) ==> LinksTo(s', p, y);
    forall u | u != NOBODY
      ensures Local(s', u, s'.pc(u))
    {
      PushLinkLocal(s, t, x, u);
    }
    if s.fixer != NOBODY {
      assert Local(s, s.fixer, s.pc(s.fixer));
    }
  }

  lemma PushLinkLocal(s: State, t: Tid, x: Node, u: Tid)
    requires Inv(s) && t != NOBODY && u != NOBODY && s.pc(t) == PushLink(x)
    ensures Local(Step(s, t), u, Step(s, t).pc(u))
  {
    assert Local(s, t, s.pc(t)) && Local(s, u, s.pc(u));
    hide LinksTo, Fixing;
  }

  /** The item at the tail has no successor, neither linked nor on its way. */
  lemma TailUnlinked(s: State)
    requires Inv(s) && s.tail.item != GHOST
    ensures Unlinked(s, s.tail.item) && s.tail.item > 0 && s.place(s.tail.item) != Free
  {
    if s.queue == [] {
      assert Local(s, s.fixer, s.pc(s.fixer));
    }
  }

  lemma KeepPushCas(s: State, t: Tid, x: Node)
    requires Inv(s) && t != NOBODY && s.pc(t) == PushCas(x, s.tail)
    ensures Inv(Step(s, t))
  {
    var s' := Step(s, t);
    assert Local(s, t, s.pc(t));
    PushCasChain(s, t, x);
    PushCasEnds(s, t, x);
    forall u | u != NOBODY
      ensures Local(s', u, s'.pc(u))
    {
      PushCasLocal(s, t, x, u);
    }
  }

  lemma PushCasChain(s: State, t: Tid, x: Node)
    requires Inv(s) && t != NOBODY && s.pc(t) == PushCas(x, s.tail)
    ensures Chain(Step(s, t))
  {
    assert Local(s, t, s.pc(t));
    if s.tail.item != GHOST {
      TailUnlinked(s);
    }
    PushCasLinks(s, t, x);
    hide Ends, Local, LinksTo;
    assert Step(s, t).pushed == s.popped + (s.queue + [x]);
  }

  lemma PushCasLinks(s: State, t: Tid, x: Node)
    requires Inv(s) && t != NOBODY && s.pc(t) == PushCas(x, s.tail)
    ensures var s' := Step(s, t);
      s'.queue == s.queue + [x] && forall i :: 0 <= i < |s'.queue| - 1 ==> LinksTo(s', s'.queue[i], s'.queue[i + 1])
  {
    var s' := Step(s, t);
    assert Local(s, t, s.pc(t));
    if s.tail.item != GHOST {
      TailUnlinked(s);
    }
    hide Ends, Local;
    forall i | 0 <= i < |s'.queue| - 1
      ensures LinksTo(s', s'.queue[i], s'.queue[i + 1])
    {
      if i < |s.queue| - 1 {
        assert LinksTo(s, s.queue[i], s.queue[i + 1]);
      }
    }
  }

  lemma PushCasEnds(s: State, t: Tid, x: Node)
    requires Inv(s) && t != NOBODY && s.pc(t) == PushCas(x, s.tail)
    ensures Ends(Step(s, t))
  {
    var s' := Step(s, t);
    assert Local(s, t, s.pc(t));
    if s.tail.item != GHOST {
      TailUnlinked(s);
    }
    assert forall p, y :: p != s.tail.item && LinksTo(s, p, y) ==> LinksTo(s', p, y);
  }

  lemma PushCasLocal(s: State, t: Tid, x: Node, u: Tid)
    requires Inv(s) && t != NOBODY && s.pc(t) == PushCas(x, s.tail) && u != NOBODY
    ensures Local(Step(s, t), u, Step(s, t).pc(u))
  {
    assert Local(s, t, s.pc(t)) && Local(s, u, s.pc(u));
    if s.tail.item != GHOST {
      TailUnlinked(s);
    }
    hide Chain;
  }

  lemma KeepPushHead(s: State, t: Tid, x: Node)
    requires Inv(s) && t != NOBODY && s.pc(t) == PushHead(x)
    ensures Inv(Step(s, t))
  {
    var s' := Step(s, t);
    assert forall p, y :: LinksTo(s, p, y) ==> LinksTo(s', p, y);
    forall u | u != NOBODY
      ensures Local(s', u, s'.pc(u))
    {
      assert Local(s, u, s.pc(u));
    }
  }

  lemma KeepPushNext(s: State, t: Tid, x: Node, prev: Node)
    requires Inv(s) && t != NOBODY && s.pc(t) == PushNext(x, prev)
    ensures Inv(Step(s, t))
  {
    var s' := Step(s, t);
    assert Local(s, t, s.pc(t));
    assert forall p, y :: LinksTo(s, p, y) ==> LinksTo(s', p, y);
    hide LinksTo;
    forall u | u != NOBODY
      ensures Local(s', u, s'.pc(u))
    {
      PushNextLocal(s, t, x, prev, u);
    }
  }

  lemma PushNextLocal(s: State, t: Tid, x: Node, prev: Node, u: Tid)
    requires Inv(s) && t != NOBODY && u != NOBODY && s.pc(t) == PushNext(x, prev)
    ensures Local(Step(s, t), u, Step(s, t).pc(u))
  {
    hide LinksTo, Fixing;
    assert Local(s, t, s.pc(t)) && Local(s, u, s.pc(u));
    LinkedHead(s, t, x, prev);
  }

  lemma LinkedHead(s: State, t: Tid, x: Node, prev: Node)
    requires Inv(s) && t != NOBODY && s.pc(t) == PushNext(x, prev)
    ensures s.head.item == prev ==> s.next(prev) == GHOST
  {
    assert Local(s, t, s.pc(t));
    if |s.queue| >= 2 {
      assert LinksTo(s, s.queue[0], s.queue[0 + 1]);
    }
  }

  lemma KeepPopCas(s: State, t: Tid, tail: Counted, next: Node, seen: bool)
    requires Inv(s) && t != NOBODY && s.pc(t) == PopCas(s.head, tail, next, seen)
    ensures Inv(Step(s, t))
  {
    var s' := Step(s, t);
    PopCasTakes(s, t, tail, next, seen);
    PopCasChain(s, t, tail, next, seen);
    PopCasEnds(s, t, tail, next, seen);
    forall u | u != NOBODY
      ensures Local(s', u, s'.pc(u))
    {
      PopCasLocal(s, t, tail, next, seen, u);
    }
  }

  /** A successful update of the head takes the first item, and the new head is the second item, or
      the ghost when the item had no successor at some moment. */
  lemma PopCasTakes(s: State, t: Tid, tail: Counted, next: Node, seen: bool)
    requires Inv(s) && t != NOBODY && s.pc(t) == PopCas(s.head, tail, next, seen)
    ensures s.queue != [] && s.head.item == s.queue[0] && s.fixer == NOBODY
    ensures next != GHOST ==> |s.queue| >= 2 && next == s.queue[1] && s.linker(s.queue[0]) == NOBODY
    ensures next == GHOST ==> tail.item == s.queue[0] && (s.tail == tail <==> |s.queue| == 1)
  {
    assert Local(s, t, s.pc(t));
    if |s.queue| >= 2 {
      assert LinksTo(s, s.queue[0], s.queue[0 + 1]);
    }
  }

  lemma PopCasChain(s: State, t: Tid, tail: Counted, next: Node, seen: bool)
    requires Inv(s) && t != NOBODY && s.pc(t) == PopCas(s.head, tail, next, seen)
    ensures Chain(Step(s, t))
  {
    var s' := Step(s, t);
    PopCasTakes(s, t, tail, next, seen);
    var q, q' := s.queue, s'.queue;
    hide Ends, Local;
    forall i | 0 <= i < |q'| - 1
      ensures LinksTo(s', q'[i], q'[i + 1])
    {
      assert LinksTo(s, q[i + 1], q[i + 1 + 1]);
    }
    assert s.pushed == s.popped + [q[0]] + q[1..];
    hide LinksTo;
  }

  lemma PopCasEnds(s: State, t: Tid, tail: Counted, next: Node, seen: bool)
    requires Inv(s) && t != NOBODY && s.pc(t) == PopCas(s.head, tail, next, seen)
    ensures Ends(Step(s, t))
  {
    var s' := Step(s, t);
    PopCasTakes(s, t, tail, next, seen);
    hide Local;
    assert forall p, y :: LinksTo(s, p, y) ==> LinksTo(s', p, y);
    assert |s.queue| >= 2 ==> LinksTo(s, s.queue[0], s.queue[0 + 1]);
  }

  lemma PopCasLocal(s: State, t: Tid, tail: Counted, next: Node, seen: bool, u: Tid)
    requires Inv(s) && t != NOBODY && s.pc(t) == PopCas(s.head, tail, next, seen) && u != NOBODY
    ensures Local(Step(s, t), u, Step(s, t).pc(u))
  {
    PopCasTakes(s, t, tail, next, seen);
    assert Local(s, t, s.pc(t)) && Local(s, u, s.pc(u));
  }

  lemma KeepPopTailCas(s: State, t: Tid, x: Node)
    requires Inv(s) && t != NOBODY && s.pc(t) == PopTailCas(x, s.tail)
    ensures Inv(Step(s, t))
  {
    var s' := Step(s, t);
    assert Local(s, t, s.pc(t));
    assert forall p, y :: LinksTo(s, p, y) ==> LinksTo(s', p, y);
    forall u | u != NOBODY
      ensures Local(s', u, s'.pc(u))
    {
      assert Local(s, u, s.pc(u));
    }
  }

  lemma KeepPopFix(s: State, t: Tid, x: Node, next: Node)
    requires Inv(s) && t != NOBODY && s.pc(t) == PopFix(x, next)
    ensures Inv(Step(s, t))
  {
    var s' := Step(s, t);
    assert Local(s, t, s.pc(t));
    assert forall p, y :: LinksTo(s, p, y) ==> LinksTo(s', p, y);
    forall u | u != NOBODY
      ensures Local(s', u, s'.pc(u))
    {
      assert Local(s, u, s.pc(u));
    }
  }

  lemma KeepPopClear(s: State, t: Tid, x: Node)
    requires Inv(s) && t != NOBODY && s.pc(t) == PopClear(x)
    ensures Inv(Step(s, t))
  {
    var s' := Step(s, t);
    assert Local(s, t, s.pc(t));
    assert forall p, y :: p != x && LinksTo(s, p, y) ==> LinksTo(s', p, y);
    forall u | u != NOBODY
      ensures Local(s', u, s'.pc(u))
    {
      PopClearLocal(s, t, x, u);
    }
    if s.fixer != NOBODY {
      assert Local(s, s.fixer, s.pc(s.fixer));
    }
  }

  lemma PopClearLocal(s: State, t: Tid, x: Node, u: Tid)
    requires Inv(s) && t != NOBODY && u != NOBODY && s.pc(t) == PopClear(x)
    ensures Local(Step(s, t), u, Step(s, t).pc(u))
  {
    assert Local(s, t, s.pc(t)) && Local(s, u, s.pc(u));
    hide LinksTo, Fixing;
  }

  lemma KeepStep(s: State, t: Tid)
    requires Inv(s) && t != NOBODY
    ensures Inv(Step(s, t))
  {
    assert Local(s, t, s.pc(t));
    hide Inv;
    match s.pc(t)
    case Idle | Pushed(_) | Popped(_) | Empty(_) =>
    case PushLink(x) => KeepPushLink(s, t, x);
    case PushCas(x, was) =>
      if s.tail == was { KeepPushCas(s, t, x); } else { KeepRetry(s, t); }
    case PushHead(x) => KeepPushHead(s, t, x);
    case PushNext(x, prev) => KeepPushNext(s, t, x, prev);
    case PopCas(head, tail, next, seen) =>
      if s.head == head { KeepPopCas(s, t, tail, next, seen); } else { KeepRetry(s, t); }
    case PopTailCas(x, tail) =>
      if s.tail == tail { KeepPopTailCas(s, t, x); } else { KeepRetry(s, t); }
    case PopFix(x, next) => KeepPopFix(s, t, x, next);
    case PopClear(x) => KeepPopClear(s, t, x);
    case _ => KeepRead(s, t);
  }

  lemma KeepRetry(s: State, t: Tid)
    requires Inv(s) && t != NOBODY
    requires
      match s.pc(t)
      case PushCas(_, was) => s.tail != was
      case PopCas(head, _, _, _) => s.head != head
      case PopTailCas(_, tail) => s.tail != tail
      case _ => false
    ensures Inv(Step(s, t))
  {
    assert Local(s, t, s.pc(t));
    match s.pc(t)
    case PushCas(x, _) => KeepMove(s, t, PushRead(x));
    case PopCas(_, _, _, seen) => KeepMove(s, t, PopHead(seen || s.queue == []));
    case PopTailCas(x, _) => KeepMove(s, t, PopWait(x));
  }

  predicate Reading(pc: Pc) {
    pc.PushRead? || pc.PopHead? || pc.PopTail? || pc.PopNext? || pc.PopWait? || pc.PopReread? || pc.PopReload?
  }

  lemma KeepRead(s: State, t: Tid)
    requires Inv(s) && t != NOBODY && Reading(s.pc(t))
    ensures Inv(Step(s, t))
  {
    assert Local(s, t, s.pc(t));
    var none := s.queue == [];
    match s.pc(t)
    case PushRead(x) => KeepMove(s, t, PushCas(x, s.tail));
    case PopHead(seen) => KeepMove(s, t, PopTail(s.head, seen || none));
    case PopTail(head, seen) => KeepMove(s, t, PopNext(head, s.tail, seen || none));
    case PopNext(_, _, _) => KeepPopNext(s, t);
    case PopWait(x) =>
      if s.next(x) != GHOST { KeepMove(s, t, PopReread(x)); }
    case PopReread(x) => KeepMove(s, t, PopReload(x, s.head));
    case PopReload(x, _) => KeepMove(s, t, PopFix(x, s.next(x)));
  }

  lemma KeepPopNext(s: State, t: Tid)
    requires Inv(s) && t != NOBODY && s.pc(t).PopNext?
    ensures Inv(Step(s, t))
  {
    assert Local(s, t, s.pc(t));
    hide Chain;
    var PopNext(head, tail, seen') := s.pc(t);
    var seen := seen' || s.queue == [];
    if tail.item == GHOST && head.item == GHOST {
      KeepMove(s, t, Empty(seen));
    } else if tail.item != head.item && tail.item != GHOST && s.next(head.item) == GHOST {
      KeepMove(s, t, PopHead(seen));
    } else {
      KeepMove(s, t, PopCas(head, tail, s.next(head.item), seen));
    }
  }

  // ---------------------------------------------------------------- every run

  ghost predicate Run(run: seq<State>) {
    run != [] && Init(run[0]) && forall i :: 0 <= i < |run| - 1 ==> Next(run[i], run[i + 1])
  }

  lemma KeepNext(s: State, s': State)
    requires Inv(s) && Next(s, s')
    ensures Inv(s')
  {
    var t, x :| Moves(s, s', t, x);
    if s' == Step(s, t) {
      KeepStep(s, t);
    } else if CallPop(s, s', t) {
      KeepMove(s, t, PopHead(s.queue == []));
    } else {
      KeepCallPush(s, s', t, x);
    }
  }

  lemma {:induction false} RunKeeps(run: seq<State>, k: nat)
    requires Run(run) && k < |run|
    ensures Inv(run[k])
  {
    if k > 0 {
      RunKeeps(run, k - 1);
      assert Next(run[k - 1], run[k - 1 + 1]);
      KeepNext(run[k - 1], run[k]);
    }
  }

  /** In every interleaving items come out in the order in which they went in, and none is lost. */
  lemma FirstInFirstOut(run: seq<State>, k: nat)
    requires Run(run) && k < |run|
    ensures run[k].pushed == run[k].popped + run[k].queue
    ensures forall i, j :: 0 <= i < j < |run[k].queue| ==> run[k].queue[i] != run[k].queue[j]
  {
    RunKeeps(run, k);
  }

  /** The item that a thread is pushing, or has taken from the queue. */
  function Holding(pc: Pc): Node {
    match pc
    case PushLink(x) => x
    case PushRead(x) => x
    case PushCas(x, _) => x
    case PopTailCas(x, _) => x
    case PopWait(x) => x
    case PopReread(x) => x
    case PopReload(x, _) => x
    case PopFix(x, _) => x
    case PopClear(x) => x
    case _ => NULL
  }

  /** No item is taken by two threads, or taken while it is in the queue. */
  lemma OneOwner(run: seq<State>, k: nat, t: Tid, u: Tid)
    requires Run(run) && k < |run| && t != u && t != NOBODY && u != NOBODY && Holding(run[k].pc(t)) != NULL
    ensures Holding(run[k].pc(t)) != Holding(run[k].pc(u))
    ensures Holding(run[k].pc(t)) !in run[k].queue
  {
    RunKeeps(run, k);
    var s := run[k];
    assert Local(s, t, s.pc(t)) && Local(s, u, s.pc(u));
  }

  /** A successful update of the head takes the item that has waited longest. */
  lemma PopTakesFirst(run: seq<State>, k: nat, t: Tid)
    requires Run(run) && k < |run| && t != NOBODY && run[k].pc(t).PopCas? && run[k].head == run[k].pc(t).head
    ensures run[k].queue != [] && run[k].head.item == run[k].queue[0]
    ensures Step(run[k], t).queue == run[k].queue[1..] && Holding(Step(run[k], t).pc(t)) == run[k].queue[0]
  {
    RunKeeps(run, k);
    var s := run[k];
    PopCasTakes(s, t, s.pc(t).tail, s.pc(t).next, s.pc(t).seen);
  }

  // ---------------------------------------------------------------- what calls return

  /** Thread `t` has taken `y` and not been called again: it is still to return it, or has done so. */
  predicate Leaving(pc: Pc, y: Node) {
    match pc
    case PopTailCas(x, _) => x == y
    case PopWait(x) => x == y
    case PopReread(x) => x == y
    case PopReload(x, _) => x == y
    case PopFix(x, _) => x == y
    case PopClear(x) => x == y
    case Popped(x) => x == y
    case _ => false
  }

  /** Thread `t` updates the head, which takes the first item. */
  ghost predicate Takes(s: State, s': State, t: Tid, y: Node) {
    && s.pc(t).PopCas? && s' == Step(s, t)
    && s.queue != [] && y == s.queue[0] && s'.queue == s.queue[1..] && s'.popped == s.popped + [y]
  }

  lemma TakesNow(s: State, s': State, t: Tid, y: Node)
    requires Inv(s) && Next(s, s') && t != NOBODY && Leaving(s'.pc(t), y) && !Leaving(s.pc(t), y)
    ensures Takes(s, s', t, y)
  {
    OwnMoves(s, s', t);
    StepLeaves(s, t, y);
    PopCasTakes(s, t, s.pc(t).tail, s.pc(t).next, s.pc(t).seen);
  }

  lemma StepLeaves(s: State, t: Tid, y: Node)
    requires Leaving(Step(s, t).pc(t), y) && !Leaving(s.pc(t), y)
    ensures s.pc(t).PopCas? && s.head == s.pc(t).head && s.head.item == y
  {
  }

  /** A state of a run comes from the one before it, unless it is the first. */
  lemma RunStep(run: seq<State>, k: nat, t: Tid)
    requires Run(run) && k < |run|
    ensures if k == 0 then run[k].pc(t) == Idle else Next(run[k - 1], run[k])
  {
    hide Next;
    if k > 0 {
      assert Next(run[k - 1], run[k - 1 + 1]);
    }
  }

  lemma NotCalled(x: Node, prev: Node)
    ensures !Leaving(Idle, x) && !Pushing(Idle, x) && !Arriving(Idle, x, prev)
  {
  }

  /** A pop returns the item that its own update of the head has taken. */
  lemma {:induction false} PopReturns(run: seq<State>, k: nat, t: Tid, y: Node) returns (j: nat)
    requires Run(run) && k < |run| && t != NOBODY && Leaving(run[k].pc(t), y)
    ensures j < k && Takes(run[j], run[j + 1], t, y) && forall i :: j < i <= k ==> Leaving(run[i].pc(t), y)
  {
    hide Run, Next, Inv, Takes, Leaving;
    RunStep(run, k, t);
    NotCalled(y, y);
    j := k - 1;
    if Leaving(run[j].pc(t), y) {
      j := PopReturns(run, k - 1, t, y);
    } else {
      RunKeeps(run, j);
      TakesNow(run[j], run[k], t, y);
    }
  }

  lemma NextRecords(s: State, s': State)
    requires Next(s, s')
    ensures s.popped <= s'.popped && s.pushed <= s'.pushed
  {
    var t, x :| Moves(s, s', t, x);
    if s' == Step(s, t) {
      hide Moves, CallPop, CallPush;
    }
  }

  /** Nothing that has been recorded is changed later. */
  lemma {:induction false} PoppedStays(run: seq<State>, j: nat, k: nat)
    requires Run(run) && j <= k < |run|
    ensures run[j].popped <= run[k].popped && run[j].pushed <= run[k].pushed
  {
    if j < k {
      hide Run, Next;
      PoppedStays(run, j, k - 1);
      RunStep(run, k, NOBODY);
      NextRecords(run[k - 1], run[k]);
    }
  }

  /** Calls return the items in the order in which they were pushed: the call whose update of the head is the `n`-th
      one returns the `n`-th item. */
  lemma ReturnsInOrder(run: seq<State>, k: nat, t: Tid, y: Node) returns (n: nat, j: nat)
    requires Run(run) && k < |run| && t != NOBODY && run[k].pc(t) == Popped(y)
    ensures j < k && Takes(run[j], run[j + 1], t, y) && (forall i :: j < i <= k ==> Leaving(run[i].pc(t), y))
    ensures n == |run[j].popped| < |run[k].popped| <= |run[k].pushed| && y == run[k].popped[n] == run[k].pushed[n]
  {
    j := PopReturns(run, k, t, y);
    n := |run[j].popped|;
    PoppedStays(run, j + 1, k);
    FirstInFirstOut(run, k);
    hide Run, Leaving, Step;
  }

  /** Two updates of the head never have the same number: each item is returned once. */
  lemma OnePlaceEach(run: seq<State>, i: nat, t: Tid, x: Node, j: nat, u: Tid, y: Node)
    requires Run(run) && i < j && j + 1 < |run| && Takes(run[i], run[i + 1], t, x) && Takes(run[j], run[j + 1], u, y)
    ensures |run[i].popped| < |run[j].popped|
  {
    PoppedStays(run, i + 1, j);
  }

  lemma Clears(s: State, s': State, t: Tid, y: Node)
    requires Next(s, s') && t != NOBODY && s'.pc(t) == Popped(y) && s.pc(t) != Popped(y)
    ensures Holding(s.pc(t)) == y && s'.next(y) == NULL && s'.place(y) == Free
  {
    hide Moves;
    var u, x :| Moves(s, s', u, x);
    MovesOwn(s, s', u, x, t);
  }

  /** When a pop returns, its item is linked to nothing and may be pushed again. */
  lemma {:induction false} PopHandsOver(run: seq<State>, k: nat, t: Tid, y: Node) returns (m: nat)
    requires Run(run) && k < |run| && t != NOBODY && run[k].pc(t) == Popped(y)
    ensures 0 < m <= k && Holding(run[m - 1].pc(t)) == y && forall i :: m <= i <= k ==> run[i].pc(t) == Popped(y)
    ensures run[m].next(y) == NULL && run[m].place(y) == Free
  {
    hide Run, Next;
    RunStep(run, k, t);
    if run[k - 1].pc(t) == Popped(y) {
      m := PopHandsOver(run, k - 1, t, y);
    } else {
      m := k;
      Clears(run[k - 1], run[k], t, y);
    }
  }

  predicate Pushing(pc: Pc, x: Node) {
    match pc
    case PushLink(y) => x == y
    case PushRead(y) => x == y
    case PushCas(y, _) => x == y
    case _ => false
  }

  /** The item of a push that has updated the tail, and the item that it found there. */
  predicate Arriving(pc: Pc, x: Node, prev: Node) {
    match pc
    case PushHead(y) => x == y && prev == GHOST
    case PushNext(y, p) => x == y && prev == p
    case _ => false
  }

  /** Thread `t` updates the tail, which appends `x` behind `prev`. */
  ghost predicate Appends(s: State, s': State, t: Tid, x: Node, prev: Node) {
    && s.pc(t) == PushCas(x, s.tail) && s.tail.item == prev && s' == Step(s, t)
    && s'.queue == s.queue + [x] && s'.pushed == s.pushed + [x]
  }

  /** The steps of a push, seen from behind. */
  lemma PushSteps(s: State, s': State, t: Tid)
    requires Next(s, s') && t != NOBODY && s'.pc(t) != s.pc(t)
    ensures s'.pc(t).Pushed? ==>
      (s.pc(t).PushHead? || s.pc(t).PushNext?) && Arriving(s.pc(t), s.pc(t).item, s'.pc(t).prev)
    ensures forall x, prev :: Arriving(s'.pc(t), x, prev) ==> Appends(s, s', t, x, prev) && Pushing(s.pc(t), x)
    ensures forall x :: Pushing(s'.pc(t), x) ==> Pushing(s.pc(t), x) || CallPush(s, s', t, x)
  {
    hide Moves, Step;
    var u, y :| Moves(s, s', u, y);
    MovesOwn(s, s', u, y, t);
    if s' == Step(s, t) {
      PushStep(s, t);
    }
  }

  lemma MovesOwn(s: State, s': State, u: Tid, x: Node, t: Tid)
    requires Moves(s, s', u, x) && s'.pc(t) != s.pc(t)
    ensures u == t && (s' == Step(s, t) || CallPop(s, s', t) || CallPush(s, s', t, x))
  {
    if u != t {
      OthersStay(s, u, t);
    }
  }

  lemma PushStep(s: State, t: Tid)
    requires Step(s, t).pc(t) != s.pc(t)
    ensures var s' := Step(s, t);
      && (s'.pc(t).Pushed? ==>
            (s.pc(t).PushHead? || s.pc(t).PushNext?) && Arriving(s.pc(t), s.pc(t).item, s'.pc(t).prev))
      && (forall x, prev :: Arriving(s'.pc(t), x, prev) ==> Appends(s, s', t, x, prev) && Pushing(s.pc(t), x))
      && (forall x :: Pushing(s'.pc(t), x) ==> Pushing(s.pc(t), x))
  {
  }

  /** A push returns the item that was at the tail when its own update appended the item it was called with. */
  lemma {:induction false} PushAppends(run: seq<State>, k: nat, t: Tid, prev: Node)
    returns (c: nat, j: nat, m: nat, x: Node)
    requires Run(run) && k < |run| && t != NOBODY && run[k].pc(t) == Pushed(prev)
    ensures c < j < m <= k && CallPush(run[c], run[c + 1], t, x) && Appends(run[j], run[j + 1], t, x, prev)
    ensures forall i :: c < i <= j ==> Pushing(run[i].pc(t), x)
    ensures forall i :: j < i < m ==> Arriving(run[i].pc(t), x, prev)
    ensures forall i :: m <= i <= k ==> run[i].pc(t) == Pushed(prev)
  {
    hide Run, Next, CallPush, Appends, Pushing, Arriving;
    RunStep(run, k, t);
    if run[k - 1].pc(t) == Pushed(prev) {
      c, j, m, x := PushAppends(run, k - 1, t, prev);
    } else {
      PushSteps(run[k - 1], run[k], t);
      m := k;
      x := run[k - 1].pc(t).item;
      j := Appended(run, k - 1, t, x, prev);
      c := CalledWith(run, j, t, x);
    }
  }

  lemma {:induction false} Appended(run: seq<State>, k: nat, t: Tid, x: Node, prev: Node) returns (j: nat)
    requires Run(run) && k < |run| && t != NOBODY && Arriving(run[k].pc(t), x, prev)
    ensures j < k && Appends(run[j], run[j + 1], t, x, prev) && Pushing(run[j].pc(t), x)
    ensures forall i :: j < i <= k ==> Arriving(run[i].pc(t), x, prev)
  {
    hide Run, Next, Appends, Arriving, Pushing;
    RunStep(run, k, t);
    NotCalled(x, prev);
    j := k - 1;
    if Arriving(run[j].pc(t), x, prev) {
      j := Appended(run, k - 1, t, x, prev);
    } else {
      PushSteps(run[j], run[k], t);
    }
  }

  lemma {:induction false} CalledWith(run: seq<State>, k: nat, t: Tid, x: Node) returns (c: nat)
    requires Run(run) && k < |run| && t != NOBODY && Pushing(run[k].pc(t), x)
    ensures c < k && CallPush(run[c], run[c + 1], t, x) && forall i :: c < i <= k ==> Pushing(run[i].pc(t), x)
  {
    hide Run, Next, CallPush, Pushing;
    RunStep(run, k, t);
    NotCalled(x, x);
    c := k - 1;
    if Pushing(run[c].pc(t), x) {
      c := CalledWith(run, k - 1, t, x);
    } else {
      PushSteps(run[c], run[k], t);
    }
  }

  // ---------------------------------------------------------------- a thread that runs alone

  /** A push that runs alone appends its item and returns after four steps of its own. */
  lemma PushAlone(run: seq<State>, k: nat, t: Tid, x: Node)
    requires Run(run) && k < |run| && t != NOBODY && run[k].pc(t) == PushLink(x)
    ensures var s, s' := run[k], Steps(run[k], t, 4);
      s'.pc(t) == Pushed(s.tail.item) && s'.queue == s.queue + [x] && s'.tail.item == x
  {
    var s := run[k];
    FourSteps(s, t);
    hide Steps, Run;
    var a := Step(s, t);
    assert a.pc(t) == PushRead(x);
    var b := Step(a, t);
    assert b.pc(t) == PushCas(x, s.tail);
    var c := Step(b, t);
    assert if s.tail.item == GHOST then c.pc(t) == PushHead(x) else c.pc(t) == PushNext(x, s.tail.item);
  }

  /** How many steps a pop takes that runs alone. */
  function PopSteps(n: nat): nat {
    if n == 0 then 3 else if n == 1 then 6 else 5
  }

  /** A pop that runs alone returns the first item after a fixed number of steps, if no other thread is between its
      updates of head and tail or about to link the first item to the second one. */
  lemma PopAlone(run: seq<State>, k: nat, t: Tid, seen: bool)
    requires Run(run) && k < |run| && t != NOBODY && run[k].pc(t) == PopHead(seen) && run[k].fixer == NOBODY
    requires run[k].queue != [] ==> run[k].linker(run[k].queue[0]) == NOBODY
    ensures var s, s' := run[k], Steps(run[k], t, PopSteps(|run[k].queue|));
      if s.queue == [] then s'.pc(t).Empty? && s'.queue == []
      else s'.pc(t) == Popped(s.queue[0]) && s'.queue == s.queue[1..] && s'.fixer == NOBODY
  {
    var s := run[k];
    RunKeeps(run, k);
    var q := s.queue;
    if |q| >= 2 {
      assert LinksTo(s, q[0], q[0 + 1]);
    }
    var next := if |q| >= 2 then q[1] else GHOST;
    assert q != [] ==> s.head.item == q[0] && s.next(q[0]) == next && s.tail.item != GHOST;
    assert |q| == 1 ==> s.tail.item == q[0];
    hide Run, Steps, Inv, LinksTo;
    PopBegins(s, t, next, seen);
    if q != [] {
      PopEnds(s, Steps(s, t, 3), t, next, seen);
    }
  }

  lemma PopBegins(s: State, t: Tid, next: Node, seen: bool)
    requires s.pc(t) == PopHead(seen)
    requires if s.queue == [] then s.head.item == GHOST && s.tail.item == GHOST
             else s.head.item != GHOST && s.next(s.head.item) == next && s.tail.item != GHOST
    requires next == GHOST ==> s.tail.item == s.head.item
    ensures var c := Steps(s, t, 3);
      && c.head == s.head && c.tail == s.tail && c.queue == s.queue && c.fixer == s.fixer
      && if s.queue == [] then c.pc(t).Empty? else c.pc(t) == PopCas(s.head, s.tail, next, seen)
  {
    ThreeSteps(s, t);
    hide Steps;
    var a := Step(s, t);
    assert a.pc(t) == PopTail(s.head, seen || s.queue == []);
    var b := Step(a, t);
    assert b.pc(t) == PopNext(s.head, s.tail, seen || s.queue == []);
  }

  lemma PopEnds(s: State, c: State, t: Tid, next: Node, seen: bool)
    requires c == Steps(s, t, 3)
    requires s.queue != [] && s.head.item == s.queue[0] && (next == GHOST <==> |s.queue| == 1)
    requires c.pc(t) == PopCas(s.head, s.tail, next, seen)
    requires c.head == s.head && c.tail == s.tail && c.queue == s.queue && c.fixer == NOBODY
    ensures var s' := Steps(s, t, PopSteps(|s.queue|));
      s'.pc(t) == Popped(s.queue[0]) && s'.queue == s.queue[1..] && s'.fixer == NOBODY
  {
    StepsMore(s, t, 3);
    StepsMore(s, t, 4);
    StepsMore(s, t, 5);
    hide Steps;
    var d := Step(c, t);
    assert if next == GHOST then d.pc(t) == PopTailCas(s.queue[0], s.tail) else d.pc(t) == PopClear(s.queue[0]);
    var e := Step(d, t);
    assert if next == GHOST then e.pc(t) == PopClear(s.queue[0]) else e.pc(t) == Popped(s.queue[0]);
  }

  lemma StepsMore(s: State, t: Tid, n: nat)
    ensures Steps(s, t, n + 1) == Step(Steps(s, t, n), t)
  {
    hide Step;
  }

  lemma ThreeSteps(s: State, t: Tid)
    ensures Steps(s, t, 3) == Step(Step(Step(s, t), t), t)
  {
    hide Step;
    StepsMore(s, t, 2);
    StepsMore(s, t, 1);
    StepsMore(s, t, 0);
  }

  /** A pop waits only for a push that is about to link its item, and ends the wait when that has been done. */
  lemma WaitEnds(run: seq<State>, k: nat, t: Tid, x: Node)
    requires Run(run) && k < |run| && t != NOBODY && run[k].pc(t) == PopWait(x)
    ensures var s := run[k];
      && s.queue != []
      && if s.next(x) == GHOST then
           var u := s.linker(x);
           u != NOBODY && s.pc(u) == PushNext(s.queue[0], x) && Step(s, u).next(x) == s.queue[0]
         else Steps(s, t, 5).pc(t) == Popped(x) && Steps(s, t, 5).head.item == s.queue[0]
  {
    var s := run[k];
    RunKeeps(run, k);
    assert Local(s, t, s.pc(t));
    hide Run;
    if s.next(x) != GHOST {
      hide Inv, Local;
      Repairs(s, t, x);
    }
  }

  lemma Repairs(s: State, t: Tid, x: Node)
    requires s.pc(t) == PopWait(x) && s.next(x) != GHOST
    ensures Steps(s, t, 5).pc(t) == Popped(x) && Steps(s, t, 5).head.item == s.next(x)
  {
    ThreeSteps(s, t);
    StepsMore(s, t, 3);
    StepsMore(s, t, 4);
    hide Steps;
    var a := Step(s, t);
    assert a.pc(t) == PopReread(x);
    var b := Step(a, t);
    assert b.pc(t) == PopReload(x, s.head);
    var c := Step(b, t);
    assert c.pc(t) == PopFix(x, s.next(x));
    var d := Step(c, t);
    assert d.pc(t) == PopClear(x);
  }

  /** The assertion in pop holds whenever it is reached. */
  lemma HeadIsGhostInRepair(run: seq<State>, k: nat, t: Tid)
    requires Run(run) && k < |run| && t != NOBODY && run[k].pc(t).PopReload?
    ensures run[k].pc(t).head.item == GHOST && run[k].head.item == GHOST
  {
    RunKeeps(run, k);
    assert Local(run[k], t, run[k].pc(t));
  }

  /** A push returns the ghost exactly when the queue is empty and no pop is between its updates of
      head and tail; otherwise it returns the item before its own, which may be popped already. */
  lemma PushReturns(run: seq<State>, k: nat, t: Tid)
    requires Run(run) && k < |run| && t != NOBODY && run[k].pc(t).PushCas? && run[k].tail == run[k].pc(t).was
    ensures run[k].tail.item == GHOST <==> run[k].queue == [] && run[k].fixer == NOBODY
    ensures run[k].queue != [] ==> run[k].tail.item == run[k].queue[|run[k].queue| - 1]
    ensures run[k].queue == [] && run[k].fixer != NOBODY ==>
      run[k].pc(run[k].fixer) == PopTailCas(run[k].tail.item, run[k].tail)
  {
    RunKeeps(run, k);
  }

  ghost predicate Reaches(run: seq<State>, s: State) {
    Run(run) && run[|run| - 1] == s
  }

  lemma Extend(run: seq<State>, s: State, s': State, t: Tid, x: Node)
    requires Reaches(run, s) && Moves(s, s', t, x)
    ensures Reaches(run + [s'], s')
  {
    hide Moves, Init;
    var r := run + [s'];
    forall i | 0 <= i < |r| - 1
      ensures Next(r[i], r[i + 1])
    {
      if i < |run| - 1 {
        assert Next(run[i], run[i + 1]);
      }
    }
  }

  /** Thread `t`, called from rest, takes `n` steps. */
  ghost function Steps(s: State, t: Tid, n: nat): State {
    if n == 0 then s else Step(Steps(s, t, n - 1), t)
  }

  lemma {:induction false} ExtendSteps(run: seq<State>, s: State, t: Tid, n: nat) returns (more: seq<State>)
    requires Reaches(run, s) && t != NOBODY
    ensures Reaches(more, Steps(s, t, n))
  {
    hide Reaches, Step;
    more := run;
    if n > 0 {
      more := ExtendSteps(run, s, t, n - 1);
      Extend(more, Steps(s, t, n - 1), Steps(s, t, n), t, 0);
      more := more + [Steps(s, t, n)];
    }
  }

  /** A push into an empty queue need not return the ghost: here item 1 has been popped, and its
      popper has not reset the tail. */
  lemma EmptyQueueUnnoticed() returns (run: seq<State>, s: State)
    ensures Reaches(run, s) && s.queue == [] && s.pc(1) == PushCas(2, s.tail) && s.tail.item == 1
  {
    var s2, s4;
    run, s2 := ReachPush();
    run, s4 := ReachPop(run, s2);
    hide Reaches, Steps, Step;
    var s5 := At(s4, 1, PushLink(2)).(place := Put(s4.place, 2, Held(1)));
    Extend(run, s4, s5, 1, 2);
    s := Steps(s5, 1, 2);
    run := ExtendSteps(run + [s5], s5, 1, 2);
    StartPush(s5, s);
  }

  lemma Fresh() returns (s: State)
    ensures Init(s) && Reaches([s], s)
  {
    s := State(Counted(0, GHOST), Counted(0, GHOST), x => GHOST, t => Idle, [], [], [], x => Free, NOBODY, x => NOBODY);
  }

  lemma ReachPush() returns (run: seq<State>, s2: State)
    ensures Reaches(run, s2) && s2.tail == Counted(1, 1) && s2.head == Counted(0, 1) && s2.queue == [1]
    ensures s2.next(1) == GHOST
    ensures s2.pc(0) == Pushed(GHOST) && s2.pc(1) == Idle && s2.place(2) == Free
  {
    var s0 := Fresh();
    run := [s0];
    hide Reaches;
    var s1 := At(s0, 0, PushLink(1)).(place := Put(s0.place, 1, Held(0)));
    assert CallPush(s0, s1, 0, 1);
    hide Steps, Step, At, CallPush;
    Extend(run, s0, s1, 0, 1);
    run := ExtendSteps(run + [s1], s1, 0, 4);
    s2 := Steps(s1, 0, 4);
    FirstPush(s1, s2);
  }

  lemma ReachPop(before: seq<State>, s2: State) returns (run: seq<State>, s4: State)
    requires Reaches(before, s2) && s2.tail == Counted(1, 1) && s2.head == Counted(0, 1) && s2.queue == [1]
    requires s2.next(1) == GHOST
    requires s2.pc(0) == Pushed(GHOST) && s2.pc(1) == Idle && s2.place(2) == Free
    ensures Reaches(run, s4) && s4.tail == Counted(1, 1) && s4.queue == [] && s4.pc(1) == Idle && s4.place(2) == Free
  {
    var s3 := At(s2, 0, PopHead(false));
    assert CallPop(s2, s3, 0);
    hide Reaches, Steps, Step, At, CallPop;
    Extend(before, s2, s3, 0, 1);
    run := ExtendSteps(before + [s3], s3, 0, 4);
    s4 := Steps(s3, 0, 4);
    FirstPop(s3, s4);
  }

  lemma FirstPush(s1: State, s2: State)
    requires s1.tail == s1.head == Counted(0, GHOST) && s1.pc(0) == PushLink(1) && s1.queue == []
    requires s2 == Steps(s1, 0, 4)
    ensures s2.tail == Counted(1, 1) && s2.head == Counted(0, 1) && s2.pc(0) == Pushed(GHOST) && s2.queue == [1]
    ensures s2.next(1) == GHOST && forall t :: t != 0 ==> s2.pc(t) == s1.pc(t)
    ensures forall x :: x != 1 ==> s2.place(x) == s1.place(x)
  {
    FourSteps(s1, 0);
    hide Steps;
    var a := Step(s1, 0);
    assert a.pc(0) == PushRead(1);
    var b := Step(a, 0);
    assert b.pc(0) == PushCas(1, Counted(0, GHOST));
    var c := Step(b, 0);
    assert c.pc(0) == PushHead(1);
  }

  lemma FourSteps(s: State, t: Tid)
    ensures Steps(s, t, 4) == Step(Step(Step(Step(s, t), t), t), t)
  {
    hide Step;
    assert Steps(s, t, 4) == Step(Steps(s, t, 3), t);
    assert Steps(s, t, 2) == Step(Steps(s, t, 1), t);
  }

  lemma FirstPop(s3: State, s4: State)
    requires s3.tail == Counted(1, 1) && s3.head == Counted(0, 1) && s3.pc(0) == PopHead(false) && s3.queue == [1]
    requires s3.next(1) == GHOST && s4 == Steps(s3, 0, 4)
    ensures s4.tail == Counted(1, 1) && s4.queue == [] && forall t :: t != 0 ==> s4.pc(t) == s3.pc(t)
    ensures forall x :: x != 1 ==> s4.place(x) == s3.place(x)
  {
    FourSteps(s3, 0);
    hide Steps;
    var a := Step(s3, 0);
    assert a.pc(0) == PopTail(Counted(0, 1), false);
    var b := Step(a, 0);
    assert b.pc(0) == PopNext(Counted(0, 1), Counted(1, 1), false);
    var c := Step(b, 0);
    assert c.pc(0) == PopCas(Counted(0, 1), Counted(1, 1), GHOST, false);
  }

  lemma StartPush(s: State, s': State)
    requires s.pc(1) == PushLink(2) && s' == Steps(s, 1, 2)
    ensures s'.pc(1) == PushCas(2, s.tail) && s'.tail == s.tail && s'.queue == s.queue
  {
    TwoSteps(s, 1);
    hide Steps;
    var a := Step(s, 1);
    assert a.pc(1) == PushRead(2);
  }

  lemma TwoSteps(s: State, t: Tid)
    ensures Steps(s, t, 2) == Step(Step(s, t), t)
  {
    hide Step;
    assert Steps(s, t, 2) == Step(Steps(s, t, 1), t);
  }

  predicate Popping(pc: Pc) {
    pc.PopHead? || pc.PopTail? || pc.PopNext? || pc.PopCas?
  }

  /** The queue was empty at moment `j` of the pop that thread `t` is still in at moment `k`. */
  ghost predicate WasEmpty(run: seq<State>, j: nat, k: nat, t: Tid)
    requires k < |run|
  {
    j <= k && run[j].queue == [] && forall i :: j <= i <= k ==> Popping(run[i].pc(t))
  }

  lemma {:induction false} SeenEmpty(run: seq<State>, k: nat, t: Tid) returns (j: nat)
    requires Run(run) && k < |run| && t != NOBODY && Popping(run[k].pc(t)) && run[k].pc(t).seen
    ensures WasEmpty(run, j, k, t)
  {
    hide Run, Next;
    RunStep(run, k, t);
    j := k;
    if run[k - 1].pc(t).Resting() {
      SeenAtCall(run[k - 1], run[k], t);
    } else {
      SeenBefore(run[k - 1], run[k], t);
      if run[k - 1].queue == [] {
        j := k - 1;
      } else {
        j := SeenEmpty(run, k - 1, t);
      }
    }
  }

  /** A thread is moved by itself only. */
  lemma OwnMoves(s: State, s': State, t: Tid)
    requires Next(s, s') && t != NOBODY && s'.pc(t) != s.pc(t)
    ensures s' == Step(s, t) || CallPop(s, s', t) || s'.pc(t).PushLink?
  {
    hide Moves, Step;
    var u, x :| Moves(s, s', u, x);
    MovesOwn(s, s', u, x, t);
  }

  lemma OthersStay(s: State, t: Tid, u: Tid)
    requires t != u
    ensures Step(s, t).pc(u) == s.pc(u)
  {
  }

  /** The flag is set only by seeing an empty queue, and nothing is returned only in the course of a pop. */
  lemma StepSees(s: State, t: Tid)
    requires Popping(Step(s, t).pc(t)) || (Step(s, t).pc(t).Empty? && !s.pc(t).Resting())
    ensures Popping(s.pc(t)) && Step(s, t).pc(t).seen == (s.pc(t).seen || s.queue == [])
  {
    if !Popping(s.pc(t)) {
      StepElsewhere(s, t);
    }
  }

  lemma StepElsewhere(s: State, t: Tid)
    requires !Popping(s.pc(t))
    ensures !Popping(Step(s, t).pc(t)) && (Step(s, t).pc(t).Empty? ==> s.pc(t).Empty?)
  {
  }

  lemma SeenAtCall(s: State, s': State, t: Tid)
    requires Next(s, s') && t != NOBODY && Popping(s'.pc(t)) && s'.pc(t).seen && s.pc(t).Resting()
    ensures s'.queue == []
  {
    OwnMoves(s, s', t);
  }

  lemma SeenBefore(s: State, s': State, t: Tid)
    requires Next(s, s') && t != NOBODY && Popping(s'.pc(t)) && s'.pc(t).seen && !s.pc(t).Resting()
    ensures Popping(s.pc(t)) && (s.queue == [] || s.pc(t).seen)
  {
    hide Next;
    if s'.pc(t) != s.pc(t) {
      OwnMoves(s, s', t);
      hide Step;
      if s' == Step(s, t) {
        StepSees(s, t);
      }
    }
  }

  /** A pop returns nothing only if the queue was empty at some moment of the call. */
  lemma NothingOnlyIfEmpty(run: seq<State>, k: nat, t: Tid) returns (j: nat)
    requires Run(run) && k + 1 < |run| && t != NOBODY && Popping(run[k].pc(t)) && run[k + 1].pc(t).Empty?
    ensures WasEmpty(run, j, k, t)
  {
    RunKeeps(run, k);
    assert Next(run[k], run[k + 1]);
    RunKeeps(run, k + 1);
    assert Local(run[k + 1], t, run[k + 1].pc(t));
    hide Inv, Run, Next, Step;
    OwnMoves(run[k], run[k + 1], t);
    StepSees(run[k], t);
    if run[k].queue == [] {
      j := k;
    } else {
      j := SeenEmpty(run, k, t);
    }
  }
}

/** Histories of a sequential stack, and how a stack lies in memory. */
module StackHistory {
  import opened Common
  import opened Interleaving

  datatype Event = Push(item: Node) | Pop(item: Node)

  /** The stack that a history leads to, unless a pop does not take the top item. */
  datatype Outcome = Legal(stack: seq<Node>) | Illegal

  function Apply(o: Outcome, e: Event): Outcome {
    if o.Illegal? then Illegal
    else
      match e
      case Push(x) => Legal([x] + o.stack)
      case Pop(x) => if o.stack != [] && o.stack[0] == x then Legal(o.stack[1..]) else Illegal
  }

  function Replay(log: seq<Event>): Outcome {
    if log == [] then Legal([]) else Apply(Replay(log[..|log| - 1]), log[|log| - 1])
  }

  lemma ReplayMore(log: seq<Event>, e: Event)
    ensures Replay(log + [e]) == Apply(Replay(log), e)
  {
    assert (log + [e])[..|log|] == log;
  }

  /** The items are linked from the head to the ghost, without repetition. */
  ghost predicate Chain(head: Node, next: Node -> Node, stack: seq<Node>, place: Node -> Place) {
    && head == (if stack == [] then GHOST else stack[0]) && next(GHOST) == GHOST
    && (forall i :: 0 <= i < |stack| ==> stack[i] > 0 && place(stack[i]) == Queued)
    && (forall i, j :: 0 <= i < j < |stack| ==> stack[i] != stack[j])
    && (forall i :: 0 <= i < |stack| - 1 ==> next(stack[i]) == stack[i + 1])
    && (stack != [] ==> next(stack[|stack| - 1]) == GHOST)
  }

  ghost predicate Members(stack: seq<Node>, place: Node -> Place) {
    forall x :: place(x) == Queued <==> x in stack
  }

  lemma MembersPush(stack: seq<Node>, place: Node -> Place, x: Node)
    requires Members(stack, place)
    ensures Members([x] + stack, Put(place, x, Queued))
  {
  }

  lemma MembersPop(head: Node, next: Node -> Node, stack: seq<Node>, place: Node -> Place, t: Tid)
    requires Members(stack, place) && Chain(head, next, stack, place) && head != GHOST
    ensures Members(stack[1..], Put(place, head, Held(t)))
  {
    assert stack == [head] + stack[1..];
    assert head !in stack[1..];
  }

  lemma MembersAway(stack: seq<Node>, place: Node -> Place, x: Node, p: Place)
    requires Members(stack, place) && place(x) != Queued && p != Queued
    ensures Members(stack, Put(place, x, p))
  {
  }

  lemma ChainPush(head: Node, next: Node -> Node, stack: seq<Node>, place: Node -> Place, x: Node)
    requires Chain(head, next, stack, place) && x > 0 && place(x) != Queued && next(x) == head
    ensures Chain(x, next, [x] + stack, Put(place, x, Queued))
  {
  }

  lemma ChainPop(head: Node, next: Node -> Node, stack: seq<Node>, place: Node -> Place, t: Tid)
    requires Chain(head, next, stack, place) && head != GHOST
    ensures stack != [] && head == stack[0] && Chain(next(head), next, stack[1..], Put(place, head, Held(t)))
  {
  }

  /** A write to an item that is not on the stack, and a change of who has it. */
  lemma ChainAway(head: Node, next: Node -> Node, stack: seq<Node>, place: Node -> Place, x: Node)
    requires Chain(head, next, stack, place) && x > 0 && place(x) != Queued
    ensures forall v :: Chain(head, Put(next, x, v), stack, place)
    ensures forall v, p :: Chain(head, Put(next, x, v), stack, Put(place, x, p))
  {
  }
}

/** The lock-free LIFO with a counted head pointer, as steps of any number of threads.  Memory is
    sequentially consistent and the counter does not wrap. */
module LifoCounted {
  import opened Common
  import opened Interleaving
  import opened StackHistory

  datatype Pc =
    | Idle
    | PushRead(item: Node)
    | PushLink(item: Node, top: Node)
    | PushCas(item: Node, top: Node)
    | Pushed(top: Node)
    | PopCounter
    | PopItem(counter: nat)
    | PopNext(head: Counted)
    | PopCas(head: Counted, next: Node)
    | PopClear(item: Node)
    | Popped(item: Node)
    | Empty
  {
    predicate Resting() {
      Idle? || Pushed? || Popped? || Empty?
    }
  }

  /** The shared memory and the program counters; then the successful updates of the head so far, the
      stack, first item on top, and who has an item. */
  datatype State = State(
    head: Counted, next: Node -> Node, pc: Tid -> Pc, log: seq<Event>, stack: seq<Node>, place: Node -> Place)

  ghost predicate Init(s: State) {
    && s.head == Counted(0, GHOST) && s.next(GHOST) == GHOST && s.log == [] && s.stack == []
    && (forall t :: s.pc(t) == Idle) && (forall x :: s.place(x) == Free)
  }

  function At(s: State, t: Tid, pc: Pc): State {
    s.(pc := Put(s.pc, t, pc))
  }

  ghost predicate CallPush(s: State, s': State, t: Tid, x: Node) {
    && t != NOBODY && s.pc(t).Resting() && x > 0 && s.place(x) == Free
    && s' == At(s, t, PushRead(x)).(place := Put(s.place, x, Held(t)))
  }

  ghost predicate CallPop(s: State, s': State, t: Tid) {
    t != NOBODY && s.pc(t).Resting() && s' == At(s, t, PopCounter)
  }

  function Step(s: State, t: Tid): State {
    match s.pc(t)
    case Idle | Pushed(_) | Popped(_) | Empty => s
    case PushRead(x) => At(s, t, PushLink(x, s.head.item))
    case PushLink(x, head) => At(s, t, PushCas(x, head)).(next := Put(s.next, x, head))
    case PushCas(x, head) =>
      if s.head.item != head then At(s, t, PushRead(x))
      else
        At(s, t, Pushed(head)).(head := s.head.(item := x), log := s.log + [Push(x)], stack := [x] + s.stack,
                                place := Put(s.place, x, Queued))
    case PopCounter => At(s, t, PopItem(s.head.counter))
    case PopItem(counter) =>
      if s.head.item == GHOST then At(s, t, Empty) else At(s, t, PopNext(Counted(counter, s.head.item)))
    case PopNext(head) => At(s, t, PopCas(head, s.next(head.item)))
    case PopCas(head, next) =>
      if s.head != head then At(s, t, PopCounter)
      else
        At(s, t, PopClear(head.item)).(
          head := Counted(head.counter + 1, next), log := s.log + [Pop(head.item)],
          stack := if s.stack == [] then [] else s.stack[1..], place := Put(s.place, head.item, Held(t)))
    case PopClear(x) => At(s, t, Popped(x)).(next := Put(s.next, x, NULL), place := Put(s.place, x, Free))
  }

  ghost predicate Moves(s: State, s': State, t: Tid, x: Node) {
    t != NOBODY && (s' == Step(s, t) || CallPop(s, s', t) || CallPush(s, s', t, x))
  }

  ghost predicate Next(s: State, s': State) {
    exists t, x :: Moves(s, s', t, x)
  }

  // ---------------------------------------------------------------- what every step keeps

  ghost predicate Owns(s: State, t: Tid, x: Node) {
    x > 0 && s.place(x) == Held(t)
  }

  ghost predicate Local(s: State, t: Tid, pc: Pc) {
    match pc
    case PushRead(x) => Owns(s, t, x)
    case PushLink(x, _) => Owns(s, t, x)
    case PushCas(x, head) => Owns(s, t, x) && s.next(x) == head
    case PopItem(counter) => counter <= s.head.counter
    case PopNext(head) => head.counter <= s.head.counter && (head.counter == s.head.counter ==> head.item in s.stack)
    case PopCas(head, next) =>
      && head.counter <= s.head.counter
      && (head.counter == s.head.counter ==> head.item in s.stack && next == s.next(head.item))
    case PopClear(x) => Owns(s, t, x)
    case _ => true
  }

  ghost predicate Inv(s: State) {
    && Chain(s.head.item, s.next, s.stack, s.place)
    && Replay(s.log) == Legal(s.stack)
    && forall t :: t != NOBODY ==> Local(s, t, s.pc(t))
  }

  lemma KeepMove(s: State, t: Tid, pc: Pc)
    requires Inv(s) && t != NOBODY && Local(s, t, pc)
    ensures Inv(At(s, t, pc))
  {
    hide Chain;
    var s' := At(s, t, pc);
    forall u | u != NOBODY
      ensures Local(s', u, s'.pc(u))
    {
      assert Local(s, u, s.pc(u));
    }
  }

  lemma KeepCallPush(s: State, s': State, t: Tid, x: Node)
    requires Inv(s) && CallPush(s, s', t, x)
    ensures Inv(s')
  {
    forall u | u != NOBODY
      ensures Local(s', u, s'.pc(u))
    {
      assert Local(s, u, s.pc(u));
    }
  }

  lemma KeepPushCas(s: State, t: Tid, x: Node)
    requires Inv(s) && t != NOBODY && s.pc(t) == PushCas(x, s.head.item)
    ensures Inv(Step(s, t))
  {
    var s' := Step(s, t);
    assert Local(s, t, s.pc(t));
    ChainPush(s.head.item, s.next, s.stack, s.place, x);
    ReplayMore(s.log, Push(x));
    hide Chain, Replay;
    forall u | u != NOBODY
      ensures Local(s', u, s'.pc(u))
    {
      assert Local(s, u, s.pc(u));
    }
  }

  lemma KeepPopCas(s: State, t: Tid, next: Node)
    requires Inv(s) && t != NOBODY && s.pc(t) == PopCas(s.head, next)
    ensures Inv(Step(s, t)) && s.stack != [] && s.head.item == s.stack[0]
  {
    var s' := Step(s, t);
    assert Local(s, t, s.pc(t));
    ChainPop(s.head.item, s.next, s.stack, s.place, t);
    ReplayMore(s.log, Pop(s.head.item));
    forall u | u != NOBODY
      ensures Local(s', u, s'.pc(u))
    {
      assert Local(s, u, s.pc(u));
    }
  }

  /** A write to an item that its thread owns. */
  lemma KeepWrite(s: State, t: Tid)
    requires Inv(s) && t != NOBODY && (s.pc(t).PushLink? || s.pc(t).PopClear?)
    ensures Inv(Step(s, t))
  {
    var s' := Step(s, t);
    assert Local(s, t, s.pc(t));
    ChainAway(s.head.item, s.next, s.stack, s.place, s.pc(t).item);
    forall u | u != NOBODY
      ensures Local(s', u, s'.pc(u))
    {
      assert Local(s, u, s.pc(u));
    }
  }

  lemma KeepStep(s: State, t: Tid)
    requires Inv(s) && t != NOBODY
    ensures Inv(Step(s, t))
  {
    assert Local(s, t, s.pc(t));
    match s.pc(t)
    case Idle | Pushed(_) | Popped(_) | Empty =>
    case PushRead(x) => KeepMove(s, t, PushLink(x, s.head.item));
    case PushLink(_, _) => KeepWrite(s, t);
    case PushCas(x, head) =>
      if s.head.item == head { KeepPushCas(s, t, x); } else { KeepMove(s, t, PushRead(x)); }
    case PopCounter => KeepMove(s, t, PopItem(s.head.counter));
    case PopItem(counter) =>
      KeepMove(s, t, if s.head.item == GHOST then Empty else PopNext(Counted(counter, s.head.item)));
    case PopNext(head) => KeepMove(s, t, PopCas(head, s.next(head.item)));
    case PopCas(head, next) =>
      if s.head == head { KeepPopCas(s, t, next); } else { KeepMove(s, t, PopCounter); }
    case PopClear(_) => KeepWrite(s, t);
  }

  // ---------------------------------------------------------------- every run

  ghost predicate Run(run: seq<State>) {
    run != [] && Init(run[0]) && forall i :: 0 <= i < |run| - 1 ==> Next(run[i], run[i + 1])
  }

  lemma KeepNext(s: State, s': State)
    requires Inv(s) && Next(s, s')
    ensures Inv(s')
  {
    var t, x :| Moves(s, s', t, x);
    if s' == Step(s, t) {
      KeepStep(s, t);
    } else if CallPop(s, s', t) {
      KeepMove(s, t, PopCounter);
    } else {
      KeepCallPush(s, s', t, x);
    }
  }

  lemma {:induction false} RunKeeps(run: seq<State>, k: nat)
    requires Run(run) && k < |run|
    ensures Inv(run[k])
  {
    if k > 0 {
      RunKeeps(run, k - 1);
      assert Next(run[k - 1], run[k - 1 + 1]);
      KeepNext(run[k - 1], run[k]);
    }
  }

  /** In every interleaving the successful updates of the head, in their order, are a history of a
      sequential stack, and the links from the head to the ghost are that stack. */
  lemma Linearizable(run: seq<State>, k: nat)
    requires Run(run) && k < |run|
    ensures Replay(run[k].log) == Legal(run[k].stack)
    ensures Chain(run[k].head.item, run[k].next, run[k].stack, run[k].place)
  {
    RunKeeps(run, k);
  }

  /** Because only pop changes the counter, and every pop does, an update of the head that succeeds
      takes the top item and leaves its present successor on top. */
  lemma CounterPreventsAba(run: seq<State>, k: nat, t: Tid)
    requires Run(run) && k < |run| && t != NOBODY && run[k].pc(t).PopCas? && run[k].head == run[k].pc(t).head
    ensures var s := run[k];
      && s.stack != [] && s.head.item == s.stack[0] && s.pc(t).next == s.next(s.head.item)
      && s.pc(t).next == (if |s.stack| > 1 then s.stack[1] else GHOST)
  {
    RunKeeps(run, k);
    assert Local(run[k], t, run[k].pc(t));
  }

  /** A pop finds nothing only while the stack is empty. */
  lemma NothingOnlyIfEmpty(run: seq<State>, k: nat, t: Tid)
    requires Run(run) && k < |run| && t != NOBODY && run[k].pc(t).PopItem?
    ensures Step(run[k], t).pc(t) == Empty <==> run[k].stack == []
  {
    RunKeeps(run, k);
  }

  /** The item that a thread is pushing, or has taken from the stack. */
  function Holding(pc: Pc): Node {
    match pc
    case PushRead(x) => x
    case PushLink(x, _) => x
    case PushCas(x, _) => x
    case PopClear(x) => x
    case _ => NULL
  }

  lemma OneOwner(run: seq<State>, k: nat, t: Tid, u: Tid)
    requires Run(run) && k < |run| && t != u && t != NOBODY && u != NOBODY && Holding(run[k].pc(t)) != NULL
    ensures Holding(run[k].pc(t)) != Holding(run[k].pc(u)) && Holding(run[k].pc(t)) !in run[k].stack
  {
    RunKeeps(run, k);
    assert Local(run[k], t, run[k].pc(t)) && Local(run[k], u, run[k].pc(u));
  }

  // ---------------------------------------------------------------- what calls return

  /** Thread `t` updates the head, which takes the top item. */
  ghost predicate Takes(s: State, s': State, t: Tid, y: Node) {
    && s.pc(t).PopCas? && s' == Step(s, t)
    && s.stack != [] && y == s.stack[0] && s'.stack == s.stack[1..] && s'.log == s.log + [Pop(y)]
  }

  lemma TakesNow(s: State, s': State, t: Tid, y: Node)
    requires Inv(s) && Next(s, s') && t != NOBODY && s'.pc(t) == PopClear(y) && s.pc(t) != PopClear(y)
    ensures Takes(s, s', t, y)
  {
    hide Moves, Step;
    var u, x :| Moves(s, s', u, x);
    MovesOwn(s, s', u, x, t);
    StepLeaves(s, t, y);
  }

  lemma MovesOwn(s: State, s': State, u: Tid, x: Node, t: Tid)
    requires Moves(s, s', u, x) && s'.pc(t) != s.pc(t)
    ensures u == t && (s' == Step(s, t) || CallPop(s, s', t) || CallPush(s, s', t, x))
  {
  }

  lemma StepLeaves(s: State, t: Tid, y: Node)
    requires Inv(s) && t != NOBODY && Step(s, t).pc(t) == PopClear(y) && s.pc(t) != PopClear(y)
    ensures Takes(s, Step(s, t), t, y)
  {
    hide Inv;
    LeavesFrom(s, t, y);
    KeepPopCas(s, t, s.pc(t).next);
  }

  lemma LeavesFrom(s: State, t: Tid, y: Node)
    requires Step(s, t).pc(t) == PopClear(y) && s.pc(t) != PopClear(y)
    ensures s.pc(t).PopCas? && s.head == s.pc(t).head && s.head.item == y
  {
  }

  /** A state of a run comes from the one before it, unless it is the first. */
  lemma RunStep(run: seq<State>, k: nat, t: Tid)
    requires Run(run) && k < |run|
    ensures if k == 0 then run[k].pc(t) == Idle else Next(run[k - 1], run[k])
  {
    hide Next;
    if k > 0 {
      assert Next(run[k - 1], run[k - 1 + 1]);
    }
  }

  lemma NotCalled(x: Node)
    ensures !Pushing(Idle, x)
  {
  }

  lemma {:induction false} Taken(run: seq<State>, k: nat, t: Tid, y: Node) returns (j: nat)
    requires Run(run) && k < |run| && t != NOBODY && run[k].pc(t) == PopClear(y)
    ensures j < k && Takes(run[j], run[j + 1], t, y) && forall i :: j < i <= k ==> run[i].pc(t) == PopClear(y)
  {
    hide Run, Next, Inv, Takes;
    RunStep(run, k, t);
    j := k - 1;
    if run[j].pc(t) == PopClear(y) {
      j := Taken(run, k - 1, t, y);
    } else {
      RunKeeps(run, j);
      TakesNow(run[j], run[k], t, y);
    }
  }

  lemma Clears(s: State, s': State, t: Tid, y: Node)
    requires Next(s, s') && t != NOBODY && s'.pc(t) == Popped(y) && s.pc(t) != Popped(y)
    ensures s.pc(t) == PopClear(y) && s'.next(y) == NULL && s'.place(y) == Free
  {
    hide Moves;
    var u, x :| Moves(s, s', u, x);
    MovesOwn(s, s', u, x, t);
  }

  /** A pop returns the item that its own update of the head has taken from the top.  When it returns, the item is
      linked to nothing and may be pushed again. */
  lemma {:induction false} PopReturns(run: seq<State>, k: nat, t: Tid, y: Node) returns (j: nat, m: nat)
    requires Run(run) && k < |run| && t != NOBODY && run[k].pc(t) == Popped(y)
    ensures j < m <= k && Takes(run[j], run[j + 1], t, y) && forall i :: j < i < m ==> run[i].pc(t) == PopClear(y)
    ensures run[m].next(y) == NULL && run[m].place(y) == Free && forall i :: m <= i <= k ==> run[i].pc(t) == Popped(y)
  {
    hide Run, Next, Takes;
    RunStep(run, k, t);
    if run[k - 1].pc(t) == Popped(y) {
      j, m := PopReturns(run, k - 1, t, y);
    } else {
      m := k;
      Clears(run[k - 1], run[k], t, y);
      j := Taken(run, k - 1, t, y);
    }
  }

  predicate Pushing(pc: Pc, x: Node) {
    match pc
    case PushRead(y) => x == y
    case PushLink(y, _) => x == y
    case PushCas(y, _) => x == y
    case _ => false
  }

  /** Thread `t` updates the head, which puts `x` on `top`. */
  ghost predicate Puts(s: State, s': State, t: Tid, x: Node, top: Node) {
    && s.pc(t) == PushCas(x, top) && s' == Step(s, t) && top == (if s.stack == [] then GHOST else s.stack[0])
    && s'.stack == [x] + s.stack && s'.log == s.log + [Push(x)]
  }

  /** The steps of a push, seen from behind. */
  lemma PushSteps(s: State, s': State, t: Tid)
    requires Inv(s) && Next(s, s') && t != NOBODY && s'.pc(t) != s.pc(t)
    ensures forall top :: s'.pc(t) == Pushed(top) ==>
      s.pc(t).PushCas? && Puts(s, s', t, s.pc(t).item, top) && Pushing(s.pc(t), s.pc(t).item)
    ensures forall x :: Pushing(s'.pc(t), x) ==> Pushing(s.pc(t), x) || CallPush(s, s', t, x)
  {
    hide Moves, Step;
    var u, y :| Moves(s, s', u, y);
    MovesOwn(s, s', u, y, t);
    if s' == Step(s, t) {
      PushStep(s, t);
    }
  }

  lemma PushStep(s: State, t: Tid)
    requires s.head.item == (if s.stack == [] then GHOST else s.stack[0]) && Step(s, t).pc(t) != s.pc(t)
    ensures var s' := Step(s, t);
      && (forall top :: s'.pc(t) == Pushed(top) ==>
            s.pc(t).PushCas? && Puts(s, s', t, s.pc(t).item, top) && Pushing(s.pc(t), s.pc(t).item))
      && (forall x :: Pushing(s'.pc(t), x) ==> Pushing(s.pc(t), x))
  {
  }

  /** A push returns what was on top when its own update put the item it was called with there. */
  lemma {:induction false} PushReturns(run: seq<State>, k: nat, t: Tid, top: Node) returns (c: nat, j: nat, x: Node)
    requires Run(run) && k < |run| && t != NOBODY && run[k].pc(t) == Pushed(top)
    ensures c < j < k && CallPush(run[c], run[c + 1], t, x) && Puts(run[j], run[j + 1], t, x, top)
    ensures forall i :: c < i <= j ==> Pushing(run[i].pc(t), x)
    ensures forall i :: j < i <= k ==> run[i].pc(t) == Pushed(top)
  {
    hide Run, Next, CallPush, Puts, Pushing, Inv;
    RunStep(run, k, t);
    if run[k - 1].pc(t) == Pushed(top) {
      c, j, x := PushReturns(run, k - 1, t, top);
    } else {
      j := k - 1;
      RunKeeps(run, j);
      PushSteps(run[j], run[k], t);
      x := run[j].pc(t).item;
      c := CalledWith(run, j, t, x);
    }
  }

  lemma {:induction false} CalledWith(run: seq<State>, k: nat, t: Tid, x: Node) returns (c: nat)
    requires Run(run) && k < |run| && t != NOBODY && Pushing(run[k].pc(t), x)
    ensures c < k && CallPush(run[c], run[c + 1], t, x) && forall i :: c < i <= k ==> Pushing(run[i].pc(t), x)
  {
    hide Run, Next, CallPush, Pushing, Inv;
    RunStep(run, k, t);
    NotCalled(x);
    c := k - 1;
    if Pushing(run[c].pc(t), x) {
      c := CalledWith(run, k - 1, t, x);
    } else {
      RunKeeps(run, c);
      PushSteps(run[c], run[k], t);
    }
  }

  // ---------------------------------------------------------------- a thread that runs alone

  ghost function Steps(s: State, t: Tid, n: nat): State {
    if n == 0 then s else Step(Steps(s, t, n - 1), t)
  }

  lemma FiveSteps(s: State, t: Tid)
    ensures Steps(s, t, 1) == Step(s, t) && Steps(s, t, 2) == Step(Step(s, t), t)
    ensures Steps(s, t, 3) == Step(Step(Step(s, t), t), t)
    ensures Steps(s, t, 5) == Step(Step(Steps(s, t, 3), t), t)
  {
    hide Step;
    assert Steps(s, t, 1) == Step(Steps(s, t, 0), t);
    assert Steps(s, t, 3) == Step(Steps(s, t, 2), t);
    assert Steps(s, t, 5) == Step(Steps(s, t, 4), t);
  }

  /** A push that runs alone puts its item on top and returns after three steps of its own. */
  lemma PushAlone(run: seq<State>, k: nat, t: Tid, x: Node)
    requires Run(run) && k < |run| && t != NOBODY && run[k].pc(t) == PushRead(x)
    ensures var s, s' := run[k], Steps(run[k], t, 3);
      s'.pc(t) == Pushed(if s.stack == [] then GHOST else s.stack[0]) && s'.stack == [x] + s.stack
  {
    var s := run[k];
    RunKeeps(run, k);
    FiveSteps(s, t);
    hide Steps, Run;
    var a := Step(s, t);
    assert a.pc(t) == PushLink(x, s.head.item);
    var b := Step(a, t);
    assert b.pc(t) == PushCas(x, s.head.item);
  }

  /** A pop that runs alone returns the top item after five steps of its own, or finds the stack empty after two. */
  lemma PopAlone(run: seq<State>, k: nat, t: Tid)
    requires Run(run) && k < |run| && t != NOBODY && run[k].pc(t) == PopCounter
    ensures var s := run[k];
      if s.stack == [] then Steps(s, t, 2).pc(t) == Empty
      else Steps(s, t, 5).pc(t) == Popped(s.stack[0]) && Steps(s, t, 5).stack == s.stack[1..]
  {
    var s := run[k];
    RunKeeps(run, k);
    FiveSteps(s, t);
    hide Steps, Run;
    var a := Step(s, t);
    assert a.pc(t) == PopItem(s.head.counter);
    if s.stack != [] {
      var b := Step(a, t);
      assert b.pc(t) == PopNext(s.head);
      var c := Step(b, t);
      assert c.pc(t) == PopCas(s.head, s.next(s.head.item));
      var d := Step(c, t);
      assert d.pc(t) == PopClear(s.stack[0]);
    }
  }

  ghost predicate Reaches(run: seq<State>, s: State) {
    Run(run) && run[|run| - 1] == s
  }

  /** A state in which a run can begin. */
  lemma Fresh() returns (s: State)
    ensures Init(s) && Reaches([s], s)
  {
    s := State(Counted(0, GHOST), x => GHOST, t => Idle, [], [], x => Free);
  }

  lemma Extend(run: seq<State>, s: State, s': State, t: Tid, x: Node)
    requires Reaches(run, s) && Moves(s, s', t, x)
    ensures Reaches(run + [s'], s')
  {
    hide Moves, Init;
    var r := run + [s'];
    forall i | 0 <= i < |r| - 1
      ensures Next(r[i], r[i + 1])
    {
      if i < |run| - 1 {
        assert Next(run[i], run[i + 1]);
      }
    }
  }

  lemma {:induction false} ExtendSteps(run: seq<State>, s: State, t: Tid, n: nat) returns (more: seq<State>)
    requires Reaches(run, s) && t != NOBODY
    ensures Reaches(more, Steps(s, t, n))
  {
    hide Reaches, Step;
    more := run;
    if n > 0 {
      more := ExtendSteps(run, s, t, n - 1);
      Extend(more, Steps(s, t, n - 1), Steps(s, t, n), t, 0);
      more := more + [Steps(s, t, n)];
    }
  }

  /** A thread that pushes an item and then pops, undisturbed, gets this item back, and the stack is as before. */
  lemma PushThenPop(run: seq<State>, s: State, t: Tid, x: Node) returns (more: seq<State>, s': State)
    requires Reaches(run, s) && t != NOBODY && s.pc(t).Resting() && x > 0 && s.place(x) == Free
    ensures Reaches(more, s') && s'.pc(t) == Popped(x) && s'.stack == s.stack
  {
    hide Steps, Step, Inv, Run, Init;
    var a := At(s, t, PushRead(x)).(place := Put(s.place, x, Held(t)));
    Extend(run, s, a, t, x);
    PushAlone(run + [a], |run|, t, x);
    var b := Steps(a, t, 3);
    more := ExtendSteps(run + [a], a, t, 3);
    var c := At(b, t, PopCounter);
    Extend(more, b, c, t, x);
    more := more + [c];
    PopAlone(more, |more| - 1, t);
    s' := Steps(c, t, 5);
    more := ExtendSteps(more, c, t, 5);
  }
}

/** The lock-free LIFO without a wide compare-and-swap: an item's `item_free` word serves as its lock. */
module LifoItemFree {
  import opened Common
  import opened Interleaving
  import opened StackHistory

  datatype Pc =
    | Idle
    | PushMark(item: Node)
    | PushRead(item: Node)
    | PushLink(item: Node, top: Node)
    | PushCas(item: Node, top: Node)
    | PushOpen(item: Node, top: Node)
    | Pushed(top: Node)
    | PopRead
    | PopSwap(item: Node)
    | PopNext(item: Node)
    | PopCas(item: Node, next: Node)
    | PopOpen(item: Node)
    | PopClear(item: Node)
    | Popped(item: Node)
    | Empty
  {
    predicate Resting() {
      Idle? || Pushed? || Popped? || Empty?
    }
  }

  /** The shared memory and the program counters; then the successful updates of the head so far, the
      stack, who has an item, and the thread that has locked an item of the stack. */
  datatype State = State(
    head: Node, next: Node -> Node, itemFree: Node -> int, pc: Tid -> Pc,
    log: seq<Event>, stack: seq<Node>, place: Node -> Place, locker: Node -> Tid)

  /** The constructor of an item sets `item_free`. */
  ghost predicate Init(s: State) {
    && s.head == GHOST && s.next(GHOST) == GHOST && s.log == [] && s.stack == []
    && (forall t :: s.pc(t) == Idle) && (forall x :: s.place(x) == Free && s.itemFree(x) == 1)
  }

  function At(s: State, t: Tid, pc: Pc): State {
    s.(pc := Put(s.pc, t, pc))
  }

  ghost predicate CallPush(s: State, s': State, t: Tid, x: Node) {
    && t != NOBODY && s.pc(t).Resting() && x > 0 && s.place(x) == Free
    && s' == At(s, t, PushMark(x)).(place := Put(s.place, x, Held(t)))
  }

  ghost predicate CallPop(s: State, s': State, t: Tid) {
    t != NOBODY && s.pc(t).Resting() && s' == At(s, t, PopRead)
  }

  function Step(s: State, t: Tid): State {
    match s.pc(t)
    case Idle | Pushed(_) | Popped(_) | Empty => s
    case PushMark(x) => At(s, t, PushRead(x)).(itemFree := Put(s.itemFree, x, 1))
    case PushRead(x) => At(s, t, PushLink(x, s.head))
    case PushLink(x, top) => At(s, t, PushCas(x, top)).(next := Put(s.next, x, top))
    case PushCas(x, top) =>
      if s.head != top then At(s, t, PushRead(x))
      else
        At(s, t, PushOpen(x, top)).(head := x, log := s.log + [Push(x)], stack := [x] + s.stack,
                                    place := Put(s.place, x, Queued), locker := Put(s.locker, x, t))
    case PushOpen(x, top) =>
      At(s, t, Pushed(top)).(itemFree := Put(s.itemFree, x, 0), locker := Put(s.locker, x, NOBODY))
    case PopRead => if s.head == GHOST then At(s, t, Empty) else At(s, t, PopSwap(s.head))
    case PopSwap(x) =>
      var s1 := s.(itemFree := Put(s.itemFree, x, 1));
      if s.itemFree(x) != 0 then At(s1, t, PopRead) else At(s1, t, PopNext(x)).(locker := Put(s.locker, x, t))
    case PopNext(x) => At(s, t, PopCas(x, s.next(x)))
    case PopCas(x, next) =>
      if s.head != x then At(s, t, PopOpen(x))
      else
        At(s, t, PopClear(x)).(
          head := next, log := s.log + [Pop(x)],
          stack := if s.stack == [] then [] else s.stack[1..], place := Put(s.place, x, Held(t)))
    case PopOpen(x) => At(s, t, PopRead).(itemFree := Put(s.itemFree, x, 0), locker := Put(s.locker, x, NOBODY))
    case PopClear(x) => At(s, t, Popped(x)).(next := Put(s.next, x, NULL), place := Put(s.place, x, Free))
  }

  ghost predicate Moves(s: State, s': State, t: Tid, x: Node) {
    t != NOBODY && (s' == Step(s, t) || CallPop(s, s', t) || CallPush(s, s', t, x))
  }

  ghost predicate Next(s: State, s': State) {
    exists t, x :: Moves(s, s', t, x)
  }

  // ---------------------------------------------------------------- what every step keeps

  ghost predicate Owns(s: State, t: Tid, x: Node) {
    x > 0 && s.place(x) == Held(t)
  }

  ghost predicate Locks(s: State, t: Tid, x: Node) {
    x > 0 && s.place(x) == Queued && s.locker(x) == t && s.itemFree(x) != 0
  }

  ghost predicate Local(s: State, t: Tid, pc: Pc) {
    match pc
    case PushMark(x) => Owns(s, t, x)
    case PushRead(x) => Owns(s, t, x)
    case PushLink(x, _) => Owns(s, t, x)
    case PushCas(x, top) => Owns(s, t, x) && s.next(x) == top
    case PushOpen(x, _) => Locks(s, t, x)
    case PopSwap(x) => x > 0
    case PopNext(x) => Locks(s, t, x)
    case PopCas(x, next) => Locks(s, t, x) && next == s.next(x)
    case PopOpen(x) => Locks(s, t, x)
    case PopClear(x) => Owns(s, t, x)
    case _ => true
  }

  /** A thread that is between locking and unlocking an item of the stack. */
  predicate Locking(pc: Pc, x: Node) {
    match pc
    case PushOpen(y, _) => x == y
    case PopNext(y) => x == y
    case PopCas(y, _) => x == y
    case PopOpen(y) => x == y
    case _ => false
  }

  /** An item that is not locked is on the stack, and an item of the stack is locked only by a thread that is going to
      unlock or to take it. */
  ghost predicate Opened(s: State) {
    && (forall x :: s.itemFree(x) == 0 ==> s.place(x) == Queued && s.locker(x) == NOBODY)
    && (forall x :: s.place(x) == Queued && s.itemFree(x) != 0 ==>
          s.locker(x) != NOBODY && Locking(s.pc(s.locker(x)), x))
  }

  ghost predicate Inv(s: State) {
    && Chain(s.head, s.next, s.stack, s.place) && Members(s.stack, s.place)
    && Replay(s.log) == Legal(s.stack) && Opened(s)
    && forall t :: t != NOBODY ==> Local(s, t, s.pc(t))
  }

  lemma KeepMove(s: State, t: Tid, pc: Pc)
    requires Inv(s) && t != NOBODY && Local(s, t, pc) && forall x :: Locking(s.pc(t), x) ==> Locking(pc, x)
    ensures Inv(At(s, t, pc))
  {
    hide Chain, Members;
    var s' := At(s, t, pc);
    forall u | u != NOBODY
      ensures Local(s', u, s'.pc(u))
    {
      assert Local(s, u, s.pc(u));
    }
  }

  lemma KeepCallPush(s: State, s': State, t: Tid, x: Node)
    requires Inv(s) && CallPush(s, s', t, x)
    ensures Inv(s')
  {
    MembersAway(s.stack, s.place, x, Held(t));
    ChainAway(s.head, s.next, s.stack, s.place, x);
    hide Members, Chain;
    forall u | u != NOBODY
      ensures Local(s', u, s'.pc(u))
    {
      CallPushLocal(s, s', t, x, u);
    }
  }

  lemma CallPushLocal(s: State, s': State, t: Tid, x: Node, u: Tid)
    requires CallPush(s, s', t, x) && Local(s, u, s.pc(u))
    ensures Local(s', u, s'.pc(u))
  {
  }

  lemma KeepPushCas(s: State, t: Tid, x: Node)
    requires Inv(s) && t != NOBODY && s.pc(t) == PushCas(x, s.head)
    ensures Inv(Step(s, t))
  {
    var s' := Step(s, t);
    assert Local(s, t, s.pc(t));
    ChainPush(s.head, s.next, s.stack, s.place, x);
    ReplayMore(s.log, Push(x));
    MembersPush(s.stack, s.place, x);
    PushCasOpened(s, t, x);
    hide Chain, Replay, Members, Opened, Local;
    forall u | u != NOBODY
      ensures Local(s', u, s'.pc(u))
    {
      PushCasLocal(s, t, x, u);
    }
  }

  lemma PushCasOpened(s: State, t: Tid, x: Node)
    requires s.pc(t) == PushCas(x, s.head) && t != NOBODY && Local(s, t, s.pc(t)) && Opened(s)
    ensures Opened(Step(s, t))
  {
  }

  lemma PushCasLocal(s: State, t: Tid, x: Node, u: Tid)
    requires s.pc(t) == PushCas(x, s.head) && Local(s, t, s.pc(t)) && Local(s, u, s.pc(u)) && Opened(s)
    ensures Local(Step(s, t), u, Step(s, t).pc(u))
  {
  }

  lemma KeepPopCas(s: State, t: Tid, next: Node)
    requires Inv(s) && t != NOBODY && s.pc(t) == PopCas(s.head, next)
    ensures Inv(Step(s, t)) && s.stack != [] && s.head == s.stack[0]
  {
    var s' := Step(s, t);
    assert Local(s, t, s.pc(t));
    ChainPop(s.head, s.next, s.stack, s.place, t);
    ReplayMore(s.log, Pop(s.head));
    MembersPop(s.head, s.next, s.stack, s.place, t);
    PopCasOpened(s, t, next);
    hide Chain, Replay, Members, Opened, Local;
    forall u | u != NOBODY
      ensures Local(s', u, s'.pc(u))
    {
      PopCasLocal(s, t, next, u);
    }
  }

  lemma PopCasOpened(s: State, t: Tid, next: Node)
    requires s.pc(t) == PopCas(s.head, next) && t != NOBODY && Local(s, t, s.pc(t)) && Opened(s)
    ensures Opened(Step(s, t))
  {
  }

  lemma PopCasLocal(s: State, t: Tid, next: Node, u: Tid)
    requires s.pc(t) == PopCas(s.head, next) && Local(s, t, s.pc(t)) && Local(s, u, s.pc(u))
    ensures Local(Step(s, t), u, Step(s, t).pc(u))
  {
  }

  lemma KeepPushMark(s: State, t: Tid, x: Node)
    requires Inv(s) && t != NOBODY && s.pc(t) == PushMark(x)
    ensures Inv(Step(s, t))
  {
    var s' := Step(s, t);
    assert Local(s, t, s.pc(t));
    hide Chain, Members;
    forall u | u != NOBODY
      ensures Local(s', u, s'.pc(u))
    {
      assert Local(s, u, s.pc(u));
    }
  }

  lemma KeepPushLink(s: State, t: Tid, x: Node, top: Node)
    requires Inv(s) && t != NOBODY && s.pc(t) == PushLink(x, top)
    ensures Inv(Step(s, t))
  {
    var s' := Step(s, t);
    assert Local(s, t, s.pc(t));
    ChainAway(s.head, s.next, s.stack, s.place, x);
    PushLinkOpened(s, t, x, top);
    hide Chain, Members, Opened, Local;
    forall u | u != NOBODY
      ensures Local(s', u, s'.pc(u))
    {
      PushLinkLocal(s, t, x, top, u);
    }
  }

  lemma PushLinkOpened(s: State, t: Tid, x: Node, top: Node)
    requires s.pc(t) == PushLink(x, top) && t != NOBODY && Local(s, t, s.pc(t)) && Opened(s)
    ensures Opened(Step(s, t))
  {
  }

  lemma PushLinkLocal(s: State, t: Tid, x: Node, top: Node, u: Tid)
    requires s.pc(t) == PushLink(x, top) && Local(s, t, s.pc(t)) && Local(s, u, s.pc(u))
    ensures Local(Step(s, t), u, Step(s, t).pc(u))
  {
  }

  lemma KeepPopClear(s: State, t: Tid, x: Node)
    requires Inv(s) && t != NOBODY && s.pc(t) == PopClear(x)
    ensures Inv(Step(s, t))
  {
    var s' := Step(s, t);
    assert Local(s, t, s.pc(t));
    ChainAway(s.head, s.next, s.stack, s.place, x);
    MembersAway(s.stack, s.place, x, Free);
    PopClearOpened(s, t, x);
    hide Chain, Members, Opened, Local;
    forall u | u != NOBODY
      ensures Local(s', u, s'.pc(u))
    {
      PopClearLocal(s, t, x, u);
    }
  }

  lemma PopClearOpened(s: State, t: Tid, x: Node)
    requires s.pc(t) == PopClear(x) && t != NOBODY && Local(s, t, s.pc(t)) && Opened(s)
    ensures Opened(Step(s, t))
  {
  }

  lemma PopClearLocal(s: State, t: Tid, x: Node, u: Tid)
    requires s.pc(t) == PopClear(x) && Local(s, t, s.pc(t)) && Local(s, u, s.pc(u))
    ensures Local(Step(s, t), u, Step(s, t).pc(u))
  {
  }

  lemma KeepPushOpen(s: State, t: Tid, x: Node, top: Node)
    requires Inv(s) && t != NOBODY && s.pc(t) == PushOpen(x, top)
    ensures Inv(Step(s, t))
  {
    var s' := Step(s, t);
    assert Local(s, t, s.pc(t));
    PushOpenOpened(s, t, x, top);
    hide Chain, Members, Opened, Local;
    forall u | u != NOBODY
      ensures Local(s', u, s'.pc(u))
    {
      PushOpenLocal(s, t, x, top, u);
    }
  }

  lemma PushOpenOpened(s: State, t: Tid, x: Node, top: Node)
    requires s.pc(t) == PushOpen(x, top) && t != NOBODY && Local(s, t, s.pc(t)) && Opened(s)
    ensures Opened(Step(s, t))
  {
  }

  lemma PushOpenLocal(s: State, t: Tid, x: Node, top: Node, u: Tid)
    requires s.pc(t) == PushOpen(x, top) && Local(s, t, s.pc(t)) && Local(s, u, s.pc(u))
    ensures Local(Step(s, t), u, Step(s, t).pc(u))
  {
  }

  lemma KeepPopOpen(s: State, t: Tid, x: Node)
    requires Inv(s) && t != NOBODY && s.pc(t) == PopOpen(x)
    ensures Inv(Step(s, t))
  {
    var s' := Step(s, t);
    assert Local(s, t, s.pc(t));
    PopOpenOpened(s, t, x);
    hide Chain, Members, Opened, Local;
    forall u | u != NOBODY
      ensures Local(s', u, s'.pc(u))
    {
      PopOpenLocal(s, t, x, u);
    }
  }

  lemma PopOpenOpened(s: State, t: Tid, x: Node)
    requires s.pc(t) == PopOpen(x) && t != NOBODY && Local(s, t, s.pc(t)) && Opened(s)
    ensures Opened(Step(s, t))
  {
  }

  lemma PopOpenLocal(s: State, t: Tid, x: Node, u: Tid)
    requires s.pc(t) == PopOpen(x) && Local(s, t, s.pc(t)) && Local(s, u, s.pc(u))
    ensures Local(Step(s, t), u, Step(s, t).pc(u))
  {
  }

  lemma KeepPopSwap(s: State, t: Tid, x: Node)
    requires Inv(s) && t != NOBODY && s.pc(t) == PopSwap(x)
    ensures Inv(Step(s, t))
  {
    var s' := Step(s, t);
    assert Local(s, t, s.pc(t));
    PopSwapOpened(s, t, x);
    hide Chain, Members, Opened, Local;
    forall u | u != NOBODY
      ensures Local(s', u, s'.pc(u))
    {
      PopSwapLocal(s, t, x, u);
    }
  }

  lemma PopSwapOpened(s: State, t: Tid, x: Node)
    requires s.pc(t) == PopSwap(x) && t != NOBODY && Local(s, t, s.pc(t)) && Opened(s)
    ensures Opened(Step(s, t))
  {
  }

  lemma PopSwapLocal(s: State, t: Tid, x: Node, u: Tid)
    requires s.pc(t) == PopSwap(x) && Local(s, t, s.pc(t)) && Local(s, u, s.pc(u)) && Opened(s)
    ensures Local(Step(s, t), u, Step(s, t).pc(u))
  {
  }

  lemma Knows(s: State, t: Tid)
    requires Inv(s) && t != NOBODY
    ensures Local(s, t, s.pc(t)) && (s.head != GHOST ==> s.head > 0)
  {
  }

  lemma KeepStep(s: State, t: Tid)
    requires Inv(s) && t != NOBODY
    ensures Inv(Step(s, t))
  {
    Knows(s, t);
    hide Inv, Local;
    match s.pc(t)
    case Idle | Pushed(_) | Popped(_) | Empty =>
    case PushMark(x) => KeepPushMark(s, t, x);
    case PushLink(x, top) => KeepPushLink(s, t, x, top);
    case PushCas(x, top) =>
      if s.head == top { KeepPushCas(s, t, x); } else { KeepRead(s, t); }
    case PushOpen(x, top) => KeepPushOpen(s, t, x, top);
    case PopSwap(x) => KeepPopSwap(s, t, x);
    case PopCas(x, next) =>
      if s.head == x { KeepPopCas(s, t, next); } else { KeepRead(s, t); }
    case PopOpen(x) => KeepPopOpen(s, t, x);
    case PopClear(x) => KeepPopClear(s, t, x);
    case _ => KeepRead(s, t);
  }

  /** A step that reads, or an update of the head that fails. */
  predicate Reads(s: State, pc: Pc) {
    match pc
    case PushRead(_) => true
    case PushCas(_, top) => s.head != top
    case PopRead => true
    case PopNext(_) => true
    case PopCas(x, _) => s.head != x
    case _ => false
  }

  lemma KeepRead(s: State, t: Tid)
    requires Inv(s) && t != NOBODY && Reads(s, s.pc(t))
    ensures Inv(Step(s, t))
  {
    Knows(s, t);
    hide Inv, Local, Locking;
    var pc := ReadTo(s, t);
    KeepMove(s, t, pc);
  }

  lemma ReadTo(s: State, t: Tid) returns (pc: Pc)
    requires Reads(s, s.pc(t)) && Local(s, t, s.pc(t)) && (s.head != GHOST ==> s.head > 0)
    ensures Step(s, t) == At(s, t, pc) && Local(s, t, pc) && forall x :: Locking(s.pc(t), x) ==> Locking(pc, x)
  {
    match s.pc(t)
    case PushRead(x) => pc := PushLink(x, s.head);
    case PushCas(x, top) => pc := PushRead(x);
    case PopRead => pc := if s.head == GHOST then Empty else PopSwap(s.head);
    case PopNext(x) => pc := PopCas(x, s.next(x));
    case PopCas(x, _) => pc := PopOpen(x);
  }

  // ---------------------------------------------------------------- every run

  ghost predicate Run(run: seq<State>) {
    run != [] && Init(run[0]) && forall i :: 0 <= i < |run| - 1 ==> Next(run[i], run[i + 1])
  }

  lemma KeepNext(s: State, s': State)
    requires Inv(s) && Next(s, s')
    ensures Inv(s')
  {
    var t, x :| Moves(s, s', t, x);
    if s' == Step(s, t) {
      KeepStep(s, t);
    } else if CallPop(s, s', t) {
      KeepMove(s, t, PopRead);
    } else {
      KeepCallPush(s, s', t, x);
    }
  }

  lemma {:induction false} RunKeeps(run: seq<State>, k: nat)
    requires Run(run) && k < |run|
    ensures Inv(run[k])
  {
    if k > 0 {
      RunKeeps(run, k - 1);
      assert Next(run[k - 1], run[k - 1 + 1]);
      KeepNext(run[k - 1], run[k]);
    }
  }

  lemma Linearizable(run: seq<State>, k: nat)
    requires Run(run) && k < |run|
    ensures Replay(run[k].log) == Legal(run[k].stack) && Chain(run[k].head, run[k].next, run[k].stack, run[k].place)
  {
    RunKeeps(run, k);
  }

  /** An item whose `item_free` is 0 is on the stack. */
  lemma FreeIsOnStack(run: seq<State>, k: nat, x: Node)
    requires Run(run) && k < |run| && run[k].itemFree(x) == 0
    ensures x in run[k].stack
  {
    RunKeeps(run, k);
  }

  /** An item of the stack whose `item_free` is not 0 is locked by exactly one thread, which is going to unlock or to
      take it; without such a thread it can be popped. */
  lemma LockedByOne(run: seq<State>, k: nat, x: Node)
    requires Run(run) && k < |run| && x in run[k].stack
    ensures run[k].itemFree(x) != 0 <==> exists t :: t != NOBODY && Locking(run[k].pc(t), x)
    ensures forall t, u :: t != NOBODY && u != NOBODY && Locking(run[k].pc(t), x) && Locking(run[k].pc(u), x) ==> t == u
  {
    RunKeeps(run, k);
    forall t | t != NOBODY && Locking(run[k].pc(t), x)
      ensures run[k].locker(x) == t && run[k].itemFree(x) != 0
    {
      assert Local(run[k], t, run[k].pc(t));
    }
  }

  /** Two threads never have the same item locked, and an update of the head that succeeds takes the
      top item and leaves its present successor on top. */
  lemma LockPreventsAba(run: seq<State>, k: nat, t: Tid, u: Tid)
    requires Run(run) && k < |run| && t != NOBODY && u != NOBODY && t != u && run[k].pc(t).PopCas?
    ensures var s := run[k];
      && (s.pc(u).PopCas? ==> s.pc(u).item != s.pc(t).item)
      && s.pc(t).item in s.stack && s.pc(t).next == s.next(s.pc(t).item)
      && (s.head == s.pc(t).item ==>
            s.stack[0] == s.head && s.pc(t).next == (if |s.stack| > 1 then s.stack[1] else GHOST))
  {
    RunKeeps(run, k);
    assert Local(run[k], t, run[k].pc(t)) && Local(run[k], u, run[k].pc(u));
  }

  /** A pop finds nothing only while the stack is empty. */
  lemma NothingOnlyIfEmpty(run: seq<State>, k: nat, t: Tid)
    requires Run(run) && k < |run| && t != NOBODY && run[k].pc(t).PopRead?
    ensures Step(run[k], t).pc(t) == Empty <==> run[k].stack == []
  {
    RunKeeps(run, k);
  }

  /** The item that a thread is pushing, or has taken from the stack. */
  function Holding(pc: Pc): Node {
    match pc
    case PushMark(x) => x
    case PushRead(x) => x
    case PushLink(x, _) => x
    case PushCas(x, _) => x
    case PopClear(x) => x
    case _ => NULL
  }

  lemma OneOwner(run: seq<State>, k: nat, t: Tid, u: Tid)
    requires Run(run) && k < |run| && t != u && t != NOBODY && u != NOBODY && Holding(run[k].pc(t)) != NULL
    ensures Holding(run[k].pc(t)) != Holding(run[k].pc(u)) && Holding(run[k].pc(t)) !in run[k].stack
  {
    RunKeeps(run, k);
    assert Local(run[k], t, run[k].pc(t)) && Local(run[k], u, run[k].pc(u));
  }

  // ---------------------------------------------------------------- what calls return

  /** Thread `t` updates the head, which takes the top item. */
  ghost predicate Takes(s: State, s': State, t: Tid, y: Node) {
    && s.pc(t).PopCas? && s' == Step(s, t)
    && s.stack != [] && y == s.stack[0] && s'.stack == s.stack[1..] && s'.log == s.log + [Pop(y)]
  }

  lemma TakesNow(s: State, s': State, t: Tid, y: Node)
    requires Inv(s) && Next(s, s') && t != NOBODY && s'.pc(t) == PopClear(y) && s.pc(t) != PopClear(y)
    ensures Takes(s, s', t, y)
  {
    hide Moves, Step;
    var u, x :| Moves(s, s', u, x);
    MovesOwn(s, s', u, x, t);
    StepLeaves(s, t, y);
  }

  lemma MovesOwn(s: State, s': State, u: Tid, x: Node, t: Tid)
    requires Moves(s, s', u, x) && s'.pc(t) != s.pc(t)
    ensures u == t && (s' == Step(s, t) || CallPop(s, s', t) || CallPush(s, s', t, x))
  {
  }

  lemma StepLeaves(s: State, t: Tid, y: Node)
    requires Inv(s) && t != NOBODY && Step(s, t).pc(t) == PopClear(y) && s.pc(t) != PopClear(y)
    ensures Takes(s, Step(s, t), t, y)
  {
    hide Inv;
    LeavesFrom(s, t, y);
    KeepPopCas(s, t, s.pc(t).next);
  }

  lemma LeavesFrom(s: State, t: Tid, y: Node)
    requires Step(s, t).pc(t) == PopClear(y) && s.pc(t) != PopClear(y)
    ensures s.pc(t).PopCas? && s.head == s.pc(t).item && s.head == y
  {
  }

  /** A state of a run comes from the one before it, unless it is the first. */
  lemma RunStep(run: seq<State>, k: nat, t: Tid)
    requires Run(run) && k < |run|
    ensures if k == 0 then run[k].pc(t) == Idle else Next(run[k - 1], run[k])
  {
    hide Next;
    if k > 0 {
      assert Next(run[k - 1], run[k - 1 + 1]);
    }
  }

  lemma NotCalled(x: Node)
    ensures !Pushing(Idle, x)
  {
  }

  lemma {:induction false} Taken(run: seq<State>, k: nat, t: Tid, y: Node) returns (j: nat)
    requires Run(run) && k < |run| && t != NOBODY && run[k].pc(t) == PopClear(y)
    ensures j < k && Takes(run[j], run[j + 1], t, y) && forall i :: j < i <= k ==> run[i].pc(t) == PopClear(y)
  {
    hide Run, Next, Inv, Takes;
    RunStep(run, k, t);
    j := k - 1;
    if run[j].pc(t) == PopClear(y) {
      j := Taken(run, k - 1, t, y);
    } else {
      RunKeeps(run, j);
      TakesNow(run[j], run[k], t, y);
    }
  }

  lemma Clears(s: State, s': State, t: Tid, y: Node)
    requires Next(s, s') && t != NOBODY && s'.pc(t) == Popped(y) && s.pc(t) != Popped(y)
    ensures s.pc(t) == PopClear(y) && s'.next(y) == NULL && s'.place(y) == Free
  {
    hide Moves;
    var u, x :| Moves(s, s', u, x);
    MovesOwn(s, s', u, x, t);
  }

  /** A pop returns the item that its own update of the head has taken from the top.  When it returns, the item is
      linked to nothing and may be pushed again. */
  lemma {:induction false} PopReturns(run: seq<State>, k: nat, t: Tid, y: Node) returns (j: nat, m: nat)
    requires Run(run) && k < |run| && t != NOBODY && run[k].pc(t) == Popped(y)
    ensures j < m <= k && Takes(run[j], run[j + 1], t, y) && forall i :: j < i < m ==> run[i].pc(t) == PopClear(y)
    ensures run[m].next(y) == NULL && run[m].place(y) == Free && forall i :: m <= i <= k ==> run[i].pc(t) == Popped(y)
  {
    hide Run, Next, Takes;
    RunStep(run, k, t);
    if run[k - 1].pc(t) == Popped(y) {
      j, m := PopReturns(run, k - 1, t, y);
    } else {
      m := k;
      Clears(run[k - 1], run[k], t, y);
      j := Taken(run, k - 1, t, y);
    }
  }

  predicate Pushing(pc: Pc, x: Node) {
    match pc
    case PushMark(y) => x == y
    case PushRead(y) => x == y
    case PushLink(y, _) => x == y
    case PushCas(y, _) => x == y
    case _ => false
  }

  /** Thread `t` updates the head, which puts `x` on `top`. */
  ghost predicate Puts(s: State, s': State, t: Tid, x: Node, top: Node) {
    && s.pc(t) == PushCas(x, top) && s' == Step(s, t) && top == (if s.stack == [] then GHOST else s.stack[0])
    && s'.stack == [x] + s.stack && s'.log == s.log + [Push(x)]
  }

  /** The steps of a push, seen from behind. */
  lemma PushSteps(s: State, s': State, t: Tid)
    requires Inv(s) && Next(s, s') && t != NOBODY && s'.pc(t) != s.pc(t)
    ensures forall top :: s'.pc(t) == Pushed(top) ==> exists x :: s.pc(t) == PushOpen(x, top)
    ensures forall x, top :: s'.pc(t) == PushOpen(x, top) ==> Puts(s, s', t, x, top) && Pushing(s.pc(t), x)
    ensures forall x :: Pushing(s'.pc(t), x) ==> Pushing(s.pc(t), x) || CallPush(s, s', t, x)
  {
    hide Moves, Step;
    var u, y :| Moves(s, s', u, y);
    MovesOwn(s, s', u, y, t);
    if s' == Step(s, t) {
      PushStep(s, t);
    }
  }

  lemma PushStep(s: State, t: Tid)
    requires s.head == (if s.stack == [] then GHOST else s.stack[0]) && Step(s, t).pc(t) != s.pc(t)
    ensures var s' := Step(s, t);
      && (forall top :: s'.pc(t) == Pushed(top) ==> exists x :: s.pc(t) == PushOpen(x, top))
      && (forall x, top :: s'.pc(t) == PushOpen(x, top) ==> Puts(s, s', t, x, top) && Pushing(s.pc(t), x))
      && (forall x :: Pushing(s'.pc(t), x) ==> Pushing(s.pc(t), x))
  {
  }

  /** A push returns what was on top when its own update put the item it was called with there. */
  lemma {:induction false} PushReturns(run: seq<State>, k: nat, t: Tid, top: Node)
    returns (c: nat, j: nat, m: nat, x: Node)
    requires Run(run) && k < |run| && t != NOBODY && run[k].pc(t) == Pushed(top)
    ensures c < j < m <= k && CallPush(run[c], run[c + 1], t, x) && Puts(run[j], run[j + 1], t, x, top)
    ensures forall i :: c < i <= j ==> Pushing(run[i].pc(t), x)
    ensures forall i :: j < i < m ==> run[i].pc(t) == PushOpen(x, top)
    ensures forall i :: m <= i <= k ==> run[i].pc(t) == Pushed(top)
  {
    hide Run, Next, CallPush, Puts, Pushing, Inv;
    RunStep(run, k, t);
    if run[k - 1].pc(t) == Pushed(top) {
      c, j, m, x := PushReturns(run, k - 1, t, top);
    } else {
      m := k;
      RunKeeps(run, k - 1);
      PushSteps(run[k - 1], run[k], t);
      x :| run[k - 1].pc(t) == PushOpen(x, top);
      j := HasPut(run, k - 1, t, x, top);
      c := CalledWith(run, j, t, x);
    }
  }

  lemma {:induction false} HasPut(run: seq<State>, k: nat, t: Tid, x: Node, top: Node) returns (j: nat)
    requires Run(run) && k < |run| && t != NOBODY && run[k].pc(t) == PushOpen(x, top)
    ensures j < k && Puts(run[j], run[j + 1], t, x, top) && Pushing(run[j].pc(t), x)
    ensures forall i :: j < i <= k ==> run[i].pc(t) == PushOpen(x, top)
  {
    hide Run, Next, Puts, Pushing, Inv;
    RunStep(run, k, t);
    j := k - 1;
    if run[j].pc(t) == PushOpen(x, top) {
      j := HasPut(run, k - 1, t, x, top);
    } else {
      RunKeeps(run, j);
      PushSteps(run[j], run[k], t);
    }
  }

  lemma {:induction false} CalledWith(run: seq<State>, k: nat, t: Tid, x: Node) returns (c: nat)
    requires Run(run) && k < |run| && t != NOBODY && Pushing(run[k].pc(t), x)
    ensures c < k && CallPush(run[c], run[c + 1], t, x) && forall i :: c < i <= k ==> Pushing(run[i].pc(t), x)
  {
    hide Run, Next, CallPush, Pushing, Inv;
    RunStep(run, k, t);
    NotCalled(x);
    c := k - 1;
    if Pushing(run[c].pc(t), x) {
      c := CalledWith(run, k - 1, t, x);
    } else {
      RunKeeps(run, c);
      PushSteps(run[c], run[k], t);
    }
  }

  // ---------------------------------------------------------------- a thread that runs alone

  ghost function Steps(s: State, t: Tid, n: nat): State {
    if n == 0 then s else Step(Steps(s, t, n - 1), t)
  }

  lemma FiveSteps(s: State, t: Tid)
    ensures Steps(s, t, 1) == Step(s, t) && Steps(s, t, 2) == Step(Step(s, t), t)
    ensures Steps(s, t, 3) == Step(Step(Step(s, t), t), t)
    ensures Steps(s, t, 5) == Step(Step(Steps(s, t, 3), t), t)
  {
    hide Step;
    assert Steps(s, t, 1) == Step(Steps(s, t, 0), t);
    assert Steps(s, t, 3) == Step(Steps(s, t, 2), t);
    assert Steps(s, t, 5) == Step(Steps(s, t, 4), t);
  }

  /** A push that runs alone puts its item on top, unlocks it and returns after five steps of its own. */
  lemma PushAlone(run: seq<State>, k: nat, t: Tid, x: Node)
    requires Run(run) && k < |run| && t != NOBODY && run[k].pc(t) == PushMark(x)
    ensures var s, s' := run[k], Steps(run[k], t, 5);
      && s'.pc(t) == Pushed(if s.stack == [] then GHOST else s.stack[0]) && s'.stack == [x] + s.stack
      && s'.itemFree(x) == 0
  {
    var s := run[k];
    RunKeeps(run, k);
    FiveSteps(s, t);
    hide Steps, Run;
    var a := Step(s, t);
    assert a.pc(t) == PushRead(x);
    var b := Step(a, t);
    assert b.pc(t) == PushLink(x, s.head);
    var c := Step(b, t);
    assert c.pc(t) == PushCas(x, s.head);
    var d := Step(c, t);
    assert d.pc(t) == PushOpen(x, s.head);
  }

  /** A pop that runs alone returns the top item after five steps of its own if no other thread has it locked, or finds
      the stack empty after one. */
  lemma PopAlone(run: seq<State>, k: nat, t: Tid)
    requires Run(run) && k < |run| && t != NOBODY && run[k].pc(t) == PopRead
    requires run[k].stack != [] ==> forall u :: u != NOBODY ==> !Locking(run[k].pc(u), run[k].stack[0])
    ensures var s := run[k];
      if s.stack == [] then Steps(s, t, 1).pc(t) == Empty
      else Steps(s, t, 5).pc(t) == Popped(s.stack[0]) && Steps(s, t, 5).stack == s.stack[1..]
  {
    var s := run[k];
    RunKeeps(run, k);
    assert s.head == (if s.stack == [] then GHOST else s.stack[0]) && (s.stack != [] ==> s.stack[0] > 0);
    assert s.stack != [] ==> s.itemFree(s.stack[0]) == 0;
    hide Run, Inv;
    if s.stack == [] {
      FiveSteps(s, t);
    } else {
      PopUnlocked(s, t, s.stack[0]);
    }
  }

  lemma PopUnlocked(s: State, t: Tid, x: Node)
    requires s.pc(t) == PopRead && s.stack != [] && s.head == s.stack[0] == x && x != GHOST && s.itemFree(x) == 0
    ensures Steps(s, t, 5).pc(t) == Popped(x) && Steps(s, t, 5).stack == s.stack[1..]
  {
    FiveSteps(s, t);
    hide Steps;
    var a := Step(s, t);
    assert a.pc(t) == PopSwap(x);
    var b := Step(a, t);
    assert b.pc(t) == PopNext(x);
    var c := Step(b, t);
    assert c.pc(t) == PopCas(x, s.next(x));
    var d := Step(c, t);
    assert d.pc(t) == PopClear(x);
  }

  ghost predicate Reaches(run: seq<State>, s: State) {
    Run(run) && run[|run| - 1] == s
  }

  /** A state in which a run can begin. */
  lemma Fresh() returns (s: State)
    ensures Init(s) && Reaches([s], s)
  {
    s := State(GHOST, x => GHOST, x => 1, t => Idle, [], [], x => Free, x => NOBODY);
  }

  lemma Extend(run: seq<State>, s: State, s': State, t: Tid, x: Node)
    requires Reaches(run, s) && Moves(s, s', t, x)
    ensures Reaches(run + [s'], s')
  {
    hide Moves, Init;
    var r := run + [s'];
    forall i | 0 <= i < |r| - 1
      ensures Next(r[i], r[i + 1])
    {
      if i < |run| - 1 {
        assert Next(run[i], run[i + 1]);
      }
    }
  }

  lemma {:induction false} ExtendSteps(run: seq<State>, s: State, t: Tid, n: nat) returns (more: seq<State>)
    requires Reaches(run, s) && t != NOBODY
    ensures Reaches(more, Steps(s, t, n))
  {
    hide Reaches, Step;
    more := run;
    if n > 0 {
      more := ExtendSteps(run, s, t, n - 1);
      Extend(more, Steps(s, t, n - 1), Steps(s, t, n), t, 0);
      more := more + [Steps(s, t, n)];
    }
  }

  /** A thread that pushes an item and then pops, undisturbed, gets this item back, and the stack is as before. */
  lemma PushThenPop(run: seq<State>, s: State, t: Tid, x: Node) returns (more: seq<State>, s': State)
    requires Reaches(run, s) && t != NOBODY && s.pc(t).Resting() && x > 0 && s.place(x) == Free
    ensures Reaches(more, s') && s'.pc(t) == Popped(x) && s'.stack == s.stack
  {
    hide Steps, Step, Inv, Run, Init;
    var a := At(s, t, PushMark(x)).(place := Put(s.place, x, Held(t)));
    Extend(run, s, a, t, x);
    PushAlone(run + [a], |run|, t, x);
    var b := Steps(a, t, 5);
    more := ExtendSteps(run + [a], a, t, 5);
    var c := At(b, t, PopRead);
    Extend(more, b, c, t, x);
    more := more + [c];
    LockedByOne(more, |more| - 1, x);
    PopAlone(more, |more| - 1, t);
    s' := Steps(c, t, 5);
    more := ExtendSteps(more, c, t, 5);
  }
}

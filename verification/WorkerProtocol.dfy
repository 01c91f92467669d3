/** Every interleaving of one worker thread (base/src/ThreadObject.cpp), any number of producers that add tasks to
    it and any number of threads that cancel it. The worker's queue runs the sections of QueueSpec; a schedule
    picks who moves next, and a party that cannot move stays where it is. The statements here are about every
    schedule, also one that goes on between the flag and the posts of an AbortWait; the concrete runs of
    WorkerRuns.dfy keep to the mutex. */
module WorkerProtocol {
  import opened Counting
  import opened QueueSpec
  import opened ThreadDefine
  import opened Words

  datatype WorkerPc =
    | Boot             // before the first status write
    | LoopTest         // while(!isAbort())
    | PopTest          // the abort test inside PopFront
    | WaitTest         // head of the wait loop
    | Waiting          // in sem_wait, no deadline
    | Woken            // has a token, flag not re-tested
    | Holding          // has a token, before the section
    | Drain            // aborted branch of PopFront, before the section
    | Popped(task: Elem)  // has a task in hand, not counted down and not begun
    | Running          // inside the function of a task
    | ClearFlag        // clean_func: Clear sets the flag
    | ClearPost        // and posts
    | ClearItems       // and empties the deque
    | SetExited
    | PostReady
    | Exited

  datatype ProducerPc = Idle | PushTest(task: Elem) | PushSection(task: Elem) | CountTask
  datatype CancelPc = Ready | CancelPost | WaitQuit

  datatype State = State(
    q: Shared,
    worker: WorkerPc,
    producers: seq<ProducerPc>,
    cancellers: seq<CancelPc>,
    busying: nat,            // m_thread.busying, a size_t
    status: Status,
    ready: nat,              // posts to m_ReadyRunning
    accepted: seq<Elem>,     // history: tasks PushBack took, in commit order
    started: seq<Elem>,      // history: tasks whose function the worker has entered
    discarded: seq<Elem>,    // history: tasks Clear threw away
    lateStarts: nat,         // history: how many of the started ones began with the flag up
    aborts: nat)             // history: AbortWait calls the cancellers have completed

  /** `Interrupt` is a wait cut short by a signal, or a leftover EINTR read after a wait that met the flag. */
  datatype Turn =
    | Worker
    | Interrupt
    | Producer(who: nat, task: Elem)
    | Canceller(who: nat)

  function Init(producers: nat, cancellers: nat): State {
    State(Fresh(QUEUE_LIMIT), Boot, seq(producers, _ => Idle), seq(cancellers, _ => Ready),
          0, IS_SLEEP, 0, [], [], [], 0, 0)
  }

  /** The worker pops the front task, with or without a token. */
  function TakeFront(s: State, q: Shared): State
    requires s.q.items != []
  {
    s.(q := q, worker := Popped(s.q.items[0]))
  }

  /** The worker counts the task down and enters its function. */
  function StartTask(s: State, task: Elem): State {
    s.(worker := Running, busying := (s.busying + TWO_64 - 1) % TWO_64, status := IS_RUNNING,
       started := s.started + [task], lateStarts := if s.q.abort then s.lateStarts + 1 else s.lateStarts)
  }

  function WorkerStep(s: State): State {
    match s.worker
    case Boot => s.(worker := LoopTest, status := IS_SLEEP)
    case LoopTest => s.(worker := if s.q.abort then ClearFlag else PopTest)
    case PopTest => s.(worker := if s.q.abort then Drain else WaitTest)
    case WaitTest => s.(worker := if s.q.abort then LoopTest else Waiting)
    case Waiting => if s.q.notEmpty > 0 then s.(q := TakeToken(s.q), worker := Woken) else s
    case Woken => s.(worker := if s.q.abort then LoopTest else Holding)
    case Holding => if s.q.items == [] then s.(worker := LoopTest) else TakeFront(s, PopFrontSection(s.q))
    case Drain => if s.q.items == [] then s.(worker := LoopTest) else TakeFront(s, DrainFrontSection(s.q))
    case Popped(task) => StartTask(s, task)
    case Running => s.(worker := LoopTest, status := IS_SLEEP)  // the function returned or threw
    case ClearFlag => s.(worker := ClearPost, q := AbortFlag(s.q))
    case ClearPost => s.(worker := ClearItems, q := AbortPost(s.q))
    case ClearItems =>
      s.(worker := SetExited, q := QueueSpec.ClearItems(s.q), discarded := s.discarded + s.q.items)
    case SetExited => s.(worker := PostReady, status := IS_EXITED)
    case PostReady => s.(worker := Exited, ready := s.ready + 1)
    case Exited => s
  }

  function InterruptStep(s: State): State {
    match s.worker
    case Waiting => s.(worker := WaitTest)
    case Woken => if s.q.abort then s.(worker := WaitTest) else s
    case _ => s
  }

  function SetProducer(s: State, who: nat, pc: ProducerPc): State
    requires who < |s.producers|
  {
    s.(producers := s.producers[who := pc])
  }

  /** AddThreadTask: the abort test, the push, then the counter. It reports false whatever happens. */
  function ProducerStep(s: State, who: nat, task: Elem): State
    requires who < |s.producers|
  {
    match s.producers[who]
    case Idle => SetProducer(s, who, PushTest(task))
    case PushTest(v) => SetProducer(s, who, if s.q.abort then Idle else PushSection(v))
    case PushSection(v) =>
      if IsFull(s.q, 0) then SetProducer(s, who, Idle)
      else SetProducer(s.(q := PushBackSection(s.q, v), accepted := s.accepted + [v]), who, CountTask)
    case CountTask =>
      SetProducer(s.(busying := (s.busying + 1) % TWO_64, status := IS_WAITING), who, Idle)
  }

  function SetCanceller(s: State, who: nat, pc: CancelPc): State
    requires who < |s.cancellers|
  {
    s.(cancellers := s.cancellers[who := pc])
  }

  /** CancleThreadObject: AbortWait, then a bounded wait for the worker that changes nothing here. */
  function CancelStep(s: State, who: nat): State
    requires who < |s.cancellers|
  {
    match s.cancellers[who]
    case Ready => SetCanceller(s.(q := AbortFlag(s.q)), who, CancelPost)
    case CancelPost => SetCanceller(s.(q := AbortPost(s.q), aborts := s.aborts + 1), who, WaitQuit)
    case WaitQuit => SetCanceller(s, who, Ready)
  }

  function Next(s: State, turn: Turn): State {
    match turn
    case Worker => WorkerStep(s)
    case Interrupt => InterruptStep(s)
    case Producer(who, task) => if who < |s.producers| then ProducerStep(s, who, task) else s
    case Canceller(who) => if who < |s.cancellers| then CancelStep(s, who) else s
  }

  function Exec(s: State, turns: seq<Turn>): State {
    if turns == [] then s else Next(Exec(s, turns[..|turns| - 1]), turns[|turns| - 1])
  }

  lemma {:induction false} ExecAppend(s: State, a: seq<Turn>, b: seq<Turn>)
    ensures Exec(s, a + b) == Exec(Exec(s, a), b)
  {
    if b == [] {
      assert a + b == a;
    } else {
      ExecAppend(s, a, b[..|b| - 1]);
      assert (a + b)[..|a + b| - 1] == a + b[..|b| - 1];
    }
  }

  /* ------------------------------------------------------------------ tasks are conserved */

  /** The task popped and not begun. */
  function InHand(s: State): seq<Elem> {
    match s.worker
    case Popped(task) => [task]
    case _ => []
  }

  predicate Conserved(s: State) {
    && s.accepted == s.started + InHand(s) + s.discarded + s.q.items
    && |s.q.items| <= QUEUE_LIMIT == s.q.maxSize && |s.discarded| <= QUEUE_LIMIT
    && (s.discarded != [] ==> Stopped(s))
  }

  /** The worker is past its last pop. */
  predicate Stopped(s: State) {
    s.worker.SetExited? || s.worker.PostReady? || s.worker.Exited?
  }

  lemma TakeKeepsConserved(s: State, q: Shared)
    requires Conserved(s) && s.q.items != [] && !s.worker.Popped? && s.discarded == []
    requires q.items == s.q.items[1..] && q.maxSize == s.q.maxSize
    ensures Conserved(TakeFront(s, q))
  {
    assert s.q.items == [s.q.items[0]] + s.q.items[1..];
  }

  lemma StartKeepsConserved(s: State, task: Elem)
    requires Conserved(s) && s.worker == Popped(task)
    ensures Conserved(StartTask(s, task))
  {
    assert s.discarded == [];
  }

  lemma ClearKeepsConserved(s: State)
    requires Conserved(s) && s.worker.ClearItems?
    ensures Conserved(WorkerStep(s))
  {
    assert s.discarded == [];
  }

  lemma WorkerKeepsConserved(s: State)
    requires Conserved(s)
    ensures Conserved(WorkerStep(s))
  {
    match s.worker
    case Holding => if s.q.items != [] { TakeKeepsConserved(s, PopFrontSection(s.q)); }
    case Drain => if s.q.items != [] { TakeKeepsConserved(s, DrainFrontSection(s.q)); }
    case Popped(task) => StartKeepsConserved(s, task);
    case ClearItems => ClearKeepsConserved(s);
    case _ =>
  }

  lemma PushKeepsConserved(s: State, who: nat, task: Elem)
    requires Conserved(s) && who < |s.producers|
    ensures Conserved(ProducerStep(s, who, task))
  {
  }

  lemma NextKeepsConserved(s: State, turn: Turn)
    requires Conserved(s)
    ensures Conserved(Next(s, turn))
  {
    match turn
    case Worker => WorkerKeepsConserved(s);
    case Producer(who, task) => if who < |s.producers| { PushKeepsConserved(s, who, task); }
    case _ =>
  }

  lemma {:induction false} ConservedRun(producers: nat, cancellers: nat, turns: seq<Turn>)
    ensures Conserved(Exec(Init(producers, cancellers), turns))
  {
    if turns == [] {
    } else {
      ConservedRun(producers, cancellers, turns[..|turns| - 1]);
      NextKeepsConserved(Exec(Init(producers, cancellers), turns[..|turns| - 1]), turns[|turns| - 1]);
    }
  }

  /** In every run: the accepted tasks, in commit order, are the started ones, then the one in the worker's hand,
      then the ones thrown away by Clear, then the ones still queued. So no task starts twice, none is lost and none
      overtakes another. */
  lemma TaskConservation(producers: nat, cancellers: nat, turns: seq<Turn>)
    ensures
      var s := Exec(Init(producers, cancellers), turns);
      s.accepted == s.started + InHand(s) + s.discarded + s.q.items
  {
    ConservedRun(producers, cancellers, turns);
  }

  /* ------------------------------------------------------------------ one token a task until the abort */

  predicate HasToken(pc: WorkerPc) {
    pc.Woken? || pc.Holding?
  }

  predicate BeforeAbort(s: State) {
    && !OnAbortPath(s.worker)
    && (forall i :: 0 <= i < |s.cancellers| ==> s.cancellers[i].Ready?)
    && s.q.notEmpty + (if HasToken(s.worker) then 1 else 0) == |s.q.items|
  }

  predicate OnAbortPath(pc: WorkerPc) {
    pc.Drain? || pc.ClearFlag? || pc.ClearPost? || pc.ClearItems? || pc.SetExited? || pc.PostReady? || pc.Exited?
  }

  predicate Tokens(s: State) {
    && s.q.maxSize == QUEUE_LIMIT && |s.q.items| <= QUEUE_LIMIT
    && (!s.q.abort ==> BeforeAbort(s))
  }

  lemma WorkerKeepsTokens(s: State)
    requires Tokens(s)
    ensures Tokens(WorkerStep(s)) && Tokens(InterruptStep(s))
  {
  }

  lemma ProducerKeepsTokens(s: State, who: nat, task: Elem)
    requires Tokens(s) && who < |s.producers|
    ensures Tokens(ProducerStep(s, who, task))
  {
  }

  lemma CancelKeepsTokens(s: State, who: nat)
    requires Tokens(s) && who < |s.cancellers|
    ensures Tokens(CancelStep(s, who))
  {
  }

  lemma NextKeepsTokens(s: State, turn: Turn)
    requires Tokens(s)
    ensures Tokens(Next(s, turn))
  {
    hide Tokens;
    match turn
    case Worker => WorkerKeepsTokens(s);
    case Interrupt => WorkerKeepsTokens(s);
    case Producer(who, task) => if who < |s.producers| { ProducerKeepsTokens(s, who, task); }
    case Canceller(who) => if who < |s.cancellers| { CancelKeepsTokens(s, who); }
  }

  lemma {:induction false} TokensRun(producers: nat, cancellers: nat, turns: seq<Turn>)
    ensures Tokens(Exec(Init(producers, cancellers), turns))
  {
    if turns == [] {
    } else {
      TokensRun(producers, cancellers, turns[..|turns| - 1]);
      NextKeepsTokens(Exec(Init(producers, cancellers), turns[..|turns| - 1]), turns[|turns| - 1]);
    }
  }

  /** Until the abort a worker that cannot leave its wait has an empty queue, a worker that took a token finds a
      task, and the queue never passes its limit. */
  lemma NoLostWakeup(producers: nat, cancellers: nat, turns: seq<Turn>)
    ensures
      var s := Exec(Init(producers, cancellers), turns);
      && |s.q.items| <= QUEUE_LIMIT
      && (!s.q.abort && s.worker == Waiting && s.q.notEmpty == 0 ==> s.q.items == [])
      && (!s.q.abort && s.worker == Holding ==> s.q.items != [])
  {
    TokensRun(producers, cancellers, turns);
  }

  /* ------------------------------------------------------------------ the status */

  /** The status the worker itself wrote last. */
  function OwnStatus(pc: WorkerPc): Status {
    match pc
    case Running => IS_RUNNING
    case PostReady => IS_EXITED
    case Exited => IS_EXITED
    case _ => IS_SLEEP
  }

  predicate StatusKnown(s: State) {
    s.status == OwnStatus(s.worker) || (s.status.IS_WAITING? && s.accepted != [])
  }

  lemma NextKeepsStatus(s: State, turn: Turn)
    requires StatusKnown(s) && forall i :: 0 <= i < |s.producers| && s.producers[i].CountTask? ==> s.accepted != []
    ensures StatusKnown(Next(s, turn))
    ensures var s' := Next(s, turn);
      forall i :: 0 <= i < |s'.producers| && s'.producers[i].CountTask? ==> s'.accepted != []
  {
  }

  lemma {:induction false} StatusRun(producers: nat, cancellers: nat, turns: seq<Turn>)
    ensures var s := Exec(Init(producers, cancellers), turns);
      StatusKnown(s) && forall i :: 0 <= i < |s.producers| && s.producers[i].CountTask? ==> s.accepted != []
  {
    if turns == [] {
    } else {
      StatusRun(producers, cancellers, turns[..|turns| - 1]);
      NextKeepsStatus(Exec(Init(producers, cancellers), turns[..|turns| - 1]), turns[|turns| - 1]);
      hide Next, StatusKnown;
    }
  }

  /** In every run the status is running inside a task, exited behind the final Clear, and asleep otherwise, unless a
      producer wrote waiting over it, which happens only once a task was accepted. */
  lemma StatusLaw(producers: nat, cancellers: nat, turns: seq<Turn>)
    ensures var s := Exec(Init(producers, cancellers), turns);
      && (s.status.IS_RUNNING? ==> s.worker.Running?)
      && (s.status.IS_EXITED? ==> s.worker.PostReady? || s.worker.Exited?)
      && (s.status.IS_SLEEP? ==> !s.worker.Running? && !s.worker.PostReady? && !s.worker.Exited?)
      && (s.status.IS_WAITING? ==> s.accepted != [])
  {
    StatusRun(producers, cancellers, turns);
  }

  /* ------------------------------------------------------------------ progress until the abort */

  /** Turns the worker needs from here to the start of the next queued task. */
  function Way(pc: WorkerPc): nat {
    match pc
    case Boot => 8
    case Running => 8
    case LoopTest => 7
    case PopTest => 6
    case WaitTest => 5
    case Waiting => 4
    case Woken => 3
    case Holding => 2
    case _ => 0
  }

  /** Turns it needs until every task accepted so far is started. */
  function Todo(s: State): nat {
    if s.worker.Popped? then 1 + 8 * |s.q.items|
    else if s.q.items == [] then 0
    else Way(s.worker) + 8 * (|s.q.items| - 1)
  }

  function WorkerTurns(turns: seq<Turn>): nat {
    if turns == [] then 0
    else WorkerTurns(turns[..|turns| - 1]) + if turns[|turns| - 1] == Worker then 1 else 0
  }

  function Interrupts(turns: seq<Turn>): nat {
    if turns == [] then 0
    else Interrupts(turns[..|turns| - 1]) + if turns[|turns| - 1] == Interrupt then 1 else 0
  }

  lemma WorkerTodo(s: State)
    requires Tokens(s) && !s.q.abort
    ensures Todo(s) > 0 ==> Todo(WorkerStep(s)) < Todo(s)
    ensures Todo(s) == 0 ==> Todo(WorkerStep(s)) == 0
    ensures Todo(InterruptStep(s)) <= Todo(s) + if Todo(s) > 0 then 1 else 0
  {
  }

  lemma OthersTodo(s: State, turn: Turn)
    requires Tokens(s) && (turn.Producer? || turn.Canceller?)
    requires !Next(s, turn).q.abort && Next(s, turn).accepted == s.accepted
    ensures Todo(Next(s, turn)) == Todo(s)
  {
  }

  lemma NextMonotone(s: State, turn: Turn)
    ensures s.q.abort ==> Next(s, turn).q.abort
    ensures s.accepted <= Next(s, turn).accepted
  {
  }

  lemma {:induction false} AcceptedGrows(s: State, turns: seq<Turn>)
    ensures s.accepted <= Exec(s, turns).accepted
  {
    if turns == [] {
    } else {
      hide Next;
      AcceptedGrows(s, turns[..|turns| - 1]);
      NextMonotone(Exec(s, turns[..|turns| - 1]), turns[|turns| - 1]);
    }
  }

  lemma {:induction false} TodoRun(s: State, turns: seq<Turn>)
    requires Tokens(s) && !Exec(s, turns).q.abort && Exec(s, turns).accepted == s.accepted
    ensures Tokens(Exec(s, turns))
    ensures Todo(Exec(s, turns)) == 0 || Todo(Exec(s, turns)) + WorkerTurns(turns) <= Todo(s) + Interrupts(turns)
  {
    if turns == [] {
    } else {
      var init, turn := turns[..|turns| - 1], turns[|turns| - 1];
      var s1 := Exec(s, init);
      AcceptedGrows(s, init);
      NextMonotone(s1, turn);
      TodoRun(s, init);
      NextKeepsTokens(s1, turn);
      if turn.Worker? || turn.Interrupt? {
        WorkerTodo(s1);
        hide Tokens, Todo, WorkerStep, InterruptStep;
      } else {
        OthersTodo(s1, turn);
        hide Tokens, Todo, Next;
      }
    }
  }

  /** Main theorem: while the flag is down and no further push commits, every accepted task is started after eight
      turns of the worker for each task queued at first, one for a task in its hand, and one for each signal. */
  lemma AllStarted(producers: nat, cancellers: nat, before: seq<Turn>, after: seq<Turn>)
    requires var s0 := Exec(Init(producers, cancellers), before);
      && !Exec(s0, after).q.abort && Exec(s0, after).accepted == s0.accepted
      && WorkerTurns(after) >= 8 * |s0.q.items| + |InHand(s0)| + Interrupts(after)
    ensures var s := Exec(Exec(Init(producers, cancellers), before), after);
      s.started == s.accepted && s.q.items == [] && InHand(s) == []
  {
    hide *;
    var s0 := Exec(Init(producers, cancellers), before);
    TokensRun(producers, cancellers, before);
    TodoAtMost(s0);
    TodoRun(s0, after);
    ExecAppend(Init(producers, cancellers), before, after);
    ConservedRun(producers, cancellers, before + after);
    NothingTodo(Exec(s0, after));
  }

  lemma TodoAtMost(s: State)
    ensures Todo(s) <= 8 * |s.q.items| + |InHand(s)|
  {
  }

  lemma NothingTodo(s: State)
    requires Todo(s) == 0 && Conserved(s) && Tokens(s) && !s.q.abort
    ensures s.started == s.accepted && s.q.items == [] && InHand(s) == []
  {
  }

  /* ------------------------------------------------------------------ the busy counter */

  predicate Uncounted(pc: ProducerPc) {
    pc.CountTask?
  }

  /** What the counter would be if every increment and decrement were already made. */
  function Outstanding(s: State): int {
    |s.q.items| + |s.discarded| + (if s.worker.Popped? then 1 else 0) - Count(s.producers, Uncounted)
  }

  predicate Counted(s: State) {
    s.busying == Outstanding(s) % TWO_64
  }

  lemma ModAdd(x: int, d: int)
    ensures (x % TWO_64 + d) % TWO_64 == (x + d) % TWO_64
  {
    assert x == TWO_64 * (x / TWO_64) + x % TWO_64;
  }

  /** The counter moves with what is outstanding, by one at most. */
  predicate InStep(s: State, s': State) {
    var d := Outstanding(s') - Outstanding(s);
    if d == 0 then s'.busying == s.busying
    else
      || (d == 1 && s'.busying == (s.busying + 1) % TWO_64)
      || (d == -1 && s'.busying == (s.busying + TWO_64 - 1) % TWO_64)
  }

  lemma WorkerInStep(s: State)
    ensures InStep(s, WorkerStep(s)) && InStep(s, InterruptStep(s))
  {
  }

  lemma ProducerInStep(s: State, who: nat, task: Elem)
    requires who < |s.producers|
    ensures InStep(s, ProducerStep(s, who, task))
  {
    CountUpdate(s.producers, who, ProducerStep(s, who, task).producers[who], Uncounted);
  }

  lemma NextInStep(s: State, turn: Turn)
    ensures InStep(s, Next(s, turn))
  {
    match turn
    case Worker => WorkerInStep(s);
    case Interrupt => WorkerInStep(s);
    case Producer(who, task) => if who < |s.producers| { ProducerInStep(s, who, task); }
    case Canceller(_) =>
  }

  lemma NextKeepsCounted(s: State, turn: Turn)
    requires Counted(s)
    ensures Counted(Next(s, turn))
  {
    hide Next, Outstanding;
    NextInStep(s, turn);
    ModAdd(Outstanding(s), 1);
    ModAdd(Outstanding(s), TWO_64 - 1);
    ModAdd(Outstanding(s) - 1, TWO_64);
  }

  /** In every run m_thread.busying equals, modulo the width of size_t, the tasks queued or thrown away, plus one
      while the worker has a task it has not counted down, minus the pushes not counted up yet. It keeps counting
      discarded tasks. */
  lemma {:induction false} BusyLaw(producers: nat, cancellers: nat, turns: seq<Turn>)
    ensures var s := Exec(Init(producers, cancellers), turns);
      s.busying == Outstanding(s) % TWO_64
  {
    if turns == [] {
      CountNone(Init(producers, cancellers).producers, Uncounted);
    } else {
      BusyLaw(producers, cancellers, turns[..|turns| - 1]);
      NextKeepsCounted(Exec(Init(producers, cancellers), turns[..|turns| - 1]), turns[|turns| - 1]);
    }
  }

  /** The counter has wrapped below zero. */
  predicate Wrapped(s: State) {
    s.busying != Outstanding(s)
  }

  lemma WrappedIsNegative(producers: nat, cancellers: nat, turns: seq<Turn>)
    ensures var s := Exec(Init(producers, cancellers), turns); Wrapped(s) <==> Outstanding(s) < 0
  {
    hide Exec, Init;
    BusyLaw(producers, cancellers, turns);
    ConservedRun(producers, cancellers, turns);
  }

  /** With no task on its way in or out the counter is exact: queued plus thrown away, without any wrap. */
  lemma BusyAtRest(producers: nat, cancellers: nat, turns: seq<Turn>)
    requires var s := Exec(Init(producers, cancellers), turns);
      !s.worker.Popped? && forall i :: 0 <= i < |s.producers| ==> !s.producers[i].CountTask?
    ensures var s := Exec(Init(producers, cancellers), turns);
      s.busying == |s.q.items| + |s.discarded|
  {
    hide Exec, Init;
    WrappedIsNegative(producers, cancellers, turns);
    CountNone(Exec(Init(producers, cancellers), turns).producers, Uncounted);
  }

  /* ------------------------------------------------------------------ shutdown */

  /** Steps the worker may still take once the flag is set. */
  function Rank(pc: WorkerPc): nat {
    match pc
    case Exited => 0
    case PostReady => 1
    case SetExited => 2
    case ClearItems => 3
    case ClearPost => 4
    case ClearFlag => 5
    case LoopTest => 6
    case Running => 7
    case Boot => 7
    case WaitTest => 7
    case Woken => 8
    case Popped(_) => 8
    case Waiting => 9
    case Holding => 9
    case Drain => 9
    case PopTest => 10
  }

  /** With the flag up, a worker here may still begin a task. */
  predicate CanStillStart(pc: WorkerPc) {
    pc.PopTest? || pc.Holding? || pc.Drain? || pc.Popped?
  }

  predicate Shutdown(s: State) {
    && (if s.q.abort then s.lateStarts + (if CanStillStart(s.worker) then 1 else 0) <= 1 else s.lateStarts == 0)
    && s.ready == (if s.worker.Exited? then 1 else 0)
    && (s.worker.ClearFlag? || s.worker.ClearPost? || s.worker.ClearItems? || Stopped(s) ==> s.q.abort)
    && (s.aborts > 0 ==> s.q.abort && (s.worker.Waiting? ==> s.q.notEmpty > 0))
    && (forall i :: 0 <= i < |s.cancellers| && s.cancellers[i].CancelPost? ==> s.q.abort)
    && (s.status.IS_EXITED? ==> s.worker.PostReady? || s.worker.Exited?)
    && (s.worker.PostReady? || s.worker.Exited? ==> s.status.IS_EXITED? || s.status.IS_WAITING?)
  }

  lemma WorkerKeepsShutdown(s: State)
    requires Shutdown(s)
    ensures Shutdown(WorkerStep(s)) && Shutdown(InterruptStep(s))
  {
  }

  lemma ProducerKeepsShutdown(s: State, who: nat, task: Elem)
    requires Shutdown(s) && who < |s.producers|
    ensures Shutdown(ProducerStep(s, who, task))
  {
  }

  lemma CancelKeepsShutdown(s: State, who: nat)
    requires Shutdown(s) && who < |s.cancellers|
    ensures Shutdown(CancelStep(s, who))
  {
  }

  lemma NextKeepsShutdown(s: State, turn: Turn)
    requires Shutdown(s)
    ensures Shutdown(Next(s, turn))
  {
    hide Shutdown;
    match turn
    case Worker => WorkerKeepsShutdown(s);
    case Interrupt => WorkerKeepsShutdown(s);
    case Producer(who, task) => if who < |s.producers| { ProducerKeepsShutdown(s, who, task); }
    case Canceller(who) => if who < |s.cancellers| { CancelKeepsShutdown(s, who); }
  }

  lemma {:induction false} ShutdownRun(producers: nat, cancellers: nat, turns: seq<Turn>)
    ensures Shutdown(Exec(Init(producers, cancellers), turns))
  {
    if turns == [] {
    } else {
      ShutdownRun(producers, cancellers, turns[..|turns| - 1]);
      NextKeepsShutdown(Exec(Init(producers, cancellers), turns[..|turns| - 1]), turns[|turns| - 1]);
    }
  }

  /** In every run at most one task begins after the flag is set, and the ready semaphore has been posted once if
      the worker has exited and not at all if it has not. */
  lemma AtMostOneLateTask(producers: nat, cancellers: nat, turns: seq<Turn>)
    ensures
      var s := Exec(Init(producers, cancellers), turns);
      && s.lateStarts <= 1
      && s.ready == (if s.worker.Exited? then 1 else 0)
  {
    ShutdownRun(producers, cancellers, turns);
  }

  /** Aborted, and a worker inside its wait has a token to leave with. */
  predicate Released(s: State) {
    s.q.abort && (s.worker.Waiting? ==> s.q.notEmpty > 0)
  }

  lemma ReleasedStep(s: State, turn: Turn)
    requires Released(s)
    ensures Released(Next(s, turn))
    ensures Rank(Next(s, turn).worker) <= Rank(s.worker)
    ensures turn == Worker && !s.worker.Exited? ==> Rank(Next(s, turn).worker) < Rank(s.worker)
  {
  }

  /** Once released, each of its turns brings the worker nearer to its exit, whatever the others do. */
  lemma {:induction false} RankRun(s: State, turns: seq<Turn>)
    requires Released(s)
    ensures Released(Exec(s, turns))
    ensures Rank(Exec(s, turns).worker) == 0 || Rank(Exec(s, turns).worker) + WorkerTurns(turns) <= Rank(s.worker)
  {
    if turns == [] {
    } else {
      RankRun(s, turns[..|turns| - 1]);
      ReleasedStep(Exec(s, turns[..|turns| - 1]), turns[|turns| - 1]);
    }
  }

  /** Main theorem: take any run in which some AbortWait has completed. However it goes on, whatever producers,
      cancellers and signals do, ten turns of the worker bring it to its exit, with ready posted once in all, at
      most one task begun since the flag, and a status that says exited unless a late producer wrote over it. A
      task that is running counts as one turn: it returns. */
  lemma BoundedShutdown(producers: nat, cancellers: nat, before: seq<Turn>, after: seq<Turn>)
    requires Exec(Init(producers, cancellers), before).aborts > 0
    requires WorkerTurns(after) >= 10
    ensures
      var s := Exec(Exec(Init(producers, cancellers), before), after);
      && s.worker.Exited? && s.ready == 1 && s.lateStarts <= 1
      && (s.status.IS_EXITED? || s.status.IS_WAITING?)
  {
    hide Exec, Init, WorkerTurns;
    var s := Exec(Init(producers, cancellers), before);
    ShutdownRun(producers, cancellers, before);
    RankRun(s, after);
    ExecAppend(Init(producers, cancellers), before, after);
    ShutdownRun(producers, cancellers, before + after);
  }

  /* ------------------------------------------------------------------ after the exit */

  /** Whatever happens after the exit, no task starts any more: later pushes only lengthen the queue. */
  lemma {:induction false} ExitIsFinal(s: State, turns: seq<Turn>)
    requires s.worker.Exited?
    ensures var s' := Exec(s, turns);
      && s'.worker.Exited? && s'.started == s.started && s'.discarded == s.discarded
      && s.q.items <= s'.q.items
  {
    if turns == [] {
    } else {
      ExitIsFinal(s, turns[..|turns| - 1]);
    }
  }
}

/** Concrete continuations of the runs of WorkerProtocol.dfy, and the exact conditions they give: when a task can be
    lost, when the status can be written over, when the busy counter can wrap. Every run built here is one the
    mutex allows: while an AbortWait stands between its flag and its posts nobody else runs a section. */
module WorkerRuns {
  import opened Counting
  import opened QueueSpec
  import opened ThreadDefine
  import opened WorkerProtocol

  /** Somebody holds the queue's mutex across a step. */
  predicate Locked(s: State) {
    s.worker.ClearPost? || exists i :: 0 <= i < |s.cancellers| && s.cancellers[i].CancelPost?
  }

  /** The turn takes the mutex. */
  predicate Acquires(s: State, turn: Turn) {
    match turn
    case Worker => s.worker.Holding? || s.worker.Drain? || s.worker.ClearFlag?
    case Interrupt => false
    case Producer(who, _) => who < |s.producers| && s.producers[who].PushSection?
    case Canceller(who) => who < |s.cancellers| && s.cancellers[who].Ready?
  }

  /** No turn of the run takes the mutex while it is held. */
  predicate Respects(s: State, turns: seq<Turn>) {
    turns == [] ||
      (&& Respects(s, turns[..|turns| - 1])
       && var s' := Exec(s, turns[..|turns| - 1]); Acquires(s', turns[|turns| - 1]) ==> !Locked(s'))
  }

  /** One more turn of a run. */
  lemma Take(s0: State, turns: seq<Turn>, turn: Turn) returns (turns': seq<Turn>)
    requires Respects(s0, turns) && (Acquires(Exec(s0, turns), turn) ==> !Locked(Exec(s0, turns)))
    ensures turns' == turns + [turn] && Respects(s0, turns') && Exec(s0, turns') == Next(Exec(s0, turns), turn)
  {
    turns' := turns + [turn];
    assert turns'[..|turns|] == turns;
  }

  predicate Posting(pc: CancelPc) {
    pc.CancelPost?
  }

  predicate NonePosting(s: State) {
    forall i :: 0 <= i < |s.cancellers| ==> !s.cancellers[i].CancelPost?
  }

  /** Every canceller that stands before its posts makes them. */
  lemma {:induction false} PostAll(s0: State, turns: seq<Turn>) returns (turns': seq<Turn>)
    requires Respects(s0, turns)
    ensures Respects(s0, turns') && NonePosting(Exec(s0, turns'))
    ensures var s, s' := Exec(s0, turns), Exec(s0, turns');
      && s'.producers == s.producers && s'.worker == s.worker && s'.q.items == s.q.items && s'.q.abort == s.q.abort
      && s'.q.maxSize == s.q.maxSize && s'.status == s.status && s'.discarded == s.discarded
    decreases Count(Exec(s0, turns).cancellers, Posting)
  {
    var s := Exec(s0, turns);
    turns' := turns;
    if i :| 0 <= i < |s.cancellers| && s.cancellers[i].CancelPost? {
      turns' := Take(s0, turns, Canceller(i));
      CountUpdate(s.cancellers, i, WaitQuit, Posting);
      turns' := PostAll(s0, turns');
    }
  }

  /* ------------------------------------------------------------------ tasks left behind the exit */

  /** A producer that has seen the flag down and will push without looking again. */
  predicate NoPusher(s: State) {
    forall i :: 0 <= i < |s.producers| ==> !s.producers[i].PushSection?
  }

  /** The worker is gone and has left a task behind, which will never start. */
  predicate Stranded(s: State) {
    s.worker.Exited? && s.q.items != []
  }

  /** Aborted, nobody about to push, and nothing queued behind Clear. */
  predicate Quiet(s: State) {
    s.q.abort && NoPusher(s) && (Stopped(s) ==> s.q.items == [])
  }

  lemma NextKeepsQuiet(s: State, turn: Turn)
    requires Quiet(s)
    ensures Quiet(Next(s, turn))
  {
  }

  lemma {:induction false} QuietRun(s: State, turns: seq<Turn>)
    requires Quiet(s)
    ensures Quiet(Exec(s, turns))
  {
    if turns == [] {
    } else {
      QuietRun(s, turns[..|turns| - 1]);
      NextKeepsQuiet(Exec(s, turns[..|turns| - 1]), turns[|turns| - 1]);
    }
  }

  /** The turn that takes an aborted worker on: a signal gets it out of a wait that has no token. */
  function WayOut(pc: WorkerPc): Turn {
    if pc.Waiting? then Interrupt else Worker
  }

  lemma WayOutStep(s: State)
    requires s.q.abort && !s.worker.Exited? && NonePosting(s)
    ensures Acquires(s, WayOut(s.worker)) ==> !Locked(s)
    ensures var s' := Next(s, WayOut(s.worker));
      && s'.q.abort && Rank(s'.worker) < Rank(s.worker) && s'.cancellers == s.cancellers
      && s'.producers == s.producers && s'.q.maxSize == s.q.maxSize
      && (Stopped(s) ==> Stopped(s') && s'.q.items == s.q.items)
      && (!Stopped(s) && Stopped(s') ==> s'.q.items == [])
  {
  }

  /** Left to itself an aborted worker gets to its exit, and leaves behind what was queued after Clear. */
  lemma {:induction false} Exits(s0: State, turns: seq<Turn>) returns (turns': seq<Turn>)
    requires Respects(s0, turns) && Exec(s0, turns).q.abort && NonePosting(Exec(s0, turns))
    ensures Respects(s0, turns') && NonePosting(Exec(s0, turns'))
    ensures var s, s' := Exec(s0, turns), Exec(s0, turns');
      && s'.worker.Exited? && s'.q.abort && s'.producers == s.producers && s'.q.maxSize == s.q.maxSize
      && s'.q.items == if Stopped(s) then s.q.items else []
    decreases Rank(Exec(s0, turns).worker)
  {
    hide Next, Respects, Acquires, Locked;
    var s := Exec(s0, turns);
    if s.worker.Exited? {
      turns' := turns;
    } else {
      WayOutStep(s);
      turns' := Take(s0, turns, WayOut(s.worker));
      turns' := Exits(s0, turns');
    }
  }

  /** If a producer is past its test, the cancellers may post, the worker exit, and then the push strand its task. */
  lemma StrandingRun(s: State) returns (turns: seq<Turn>)
    requires s.q.abort && s.q.maxSize > 0
    requires !NoPusher(s) || (Stopped(s) && s.q.items != [])
    ensures Respects(s, turns) && Stranded(Exec(s, turns))
  {
    turns := PostAll(s, []);
    turns := Exits(s, turns);
    if Exec(s, turns).q.items == [] {
      var who :| 0 <= who < |s.producers| && s.producers[who].PushSection?;
      turns := Take(s, turns, Producer(who, 0));
    }
  }

  /** From an aborted state no continuation strands a task exactly when no producer is past its flag test, and, if
      Clear is over, nothing was queued since. */
  lemma StrandedIff(s: State)
    requires s.q.abort && s.q.maxSize > 0
    ensures NeverStrands(s) <==> NoPusher(s) && (Stopped(s) ==> s.q.items == [])
  {
    hide Exec, Respects;
    if NoPusher(s) && (Stopped(s) ==> s.q.items == []) {
      forall turns ensures !Stranded(Exec(s, turns)) {
        QuietRun(s, turns);
      }
      assert NeverStrands(s);
    } else {
      var turns := StrandingRun(s);
      assert !NeverStrands(s);
    }
  }

  ghost predicate NeverStrands(s: State) {
    forall turns :: Respects(s, turns) ==> !Stranded(Exec(s, turns))
  }

  /** Every accepted task was started or thrown away by the time of the exit. */
  predicate Settled(s: State) {
    s.worker.Exited? ==> s.accepted == s.started + s.discarded
  }

  lemma SettledIffNotStranded(producers: nat, cancellers: nat, before: seq<Turn>, after: seq<Turn>)
    ensures var s := Exec(Exec(Init(producers, cancellers), before), after);
      Settled(s) <==> !Stranded(s)
  {
    hide Exec, Init;
    var s := Exec(Exec(Init(producers, cancellers), before), after);
    ExecAppend(Init(producers, cancellers), before, after);
    ConservedRun(producers, cancellers, before + after);
    if Stranded(s) {
      assert |s.accepted| == |s.started| + |s.discarded| + |s.q.items|;
    }
  }

  /** Main theorem: at the moment a canceller sets the flag, every accepted task is sure to be started or thrown away
      by the time of the exit, in every continuation, exactly when no producer is then past its flag test. Joining
      the producers before the cancel is therefore enough, and less is not. */
  lemma NothingLostIff(producers: nat, cancellers: nat, before: seq<Turn>, who: nat)
    requires var s := Exec(Init(producers, cancellers), before);
      !s.q.abort && who < |s.cancellers|
    ensures var s := Exec(Init(producers, cancellers), before + [Canceller(who)]);
      s.q.abort && (NothingLost(s) <==> NoPusher(s))
  {
    var turns := before + [Canceller(who)];
    FlagTurn(producers, cancellers, before, who);
    hide Exec, Init, Respects, Settled, Stranded, Stopped, NoPusher;
    var s := Exec(Init(producers, cancellers), turns);
    StrandedIff(s);
    forall after ensures Settled(Exec(s, after)) <==> !Stranded(Exec(s, after)) {
      SettledIffNotStranded(producers, cancellers, turns, after);
    }
  }

  ghost predicate NothingLost(s: State) {
    forall after :: Respects(s, after) ==> Settled(Exec(s, after))
  }

  lemma FlagTurn(producers: nat, cancellers: nat, before: seq<Turn>, who: nat)
    requires var s := Exec(Init(producers, cancellers), before);
      !s.q.abort && who < |s.cancellers|
    ensures var s := Exec(Init(producers, cancellers), before + [Canceller(who)]);
      s.q.abort && !Stopped(s) && s.q.maxSize > 0
  {
    TokensRun(producers, cancellers, before);
    assert (before + [Canceller(who)])[..|before|] == before;
  }

  /** A whole run that strands a task, from the start: the producer tests the flag, the canceller sets it and posts,
      the worker clears and exits, and the push commits behind it. */
  lemma StrandedTask(producers: nat, cancellers: nat) returns (turns: seq<Turn>)
    requires producers > 0 && cancellers > 0
    ensures var s0 := Init(producers, cancellers); Respects(s0, turns) && Stranded(Exec(s0, turns))
  {
    var s0 := Init(producers, cancellers);
    turns := Take(s0, [], Producer(0, 7));
    turns := Take(s0, turns, Producer(0, 7));
    assert Exec(s0, turns).producers[0] == PushSection(7);
    turns := Take(s0, turns, Canceller(0));
    turns := Take(s0, turns, Canceller(0));
    var s := Exec(s0, turns);
    assert NonePosting(s);
    turns := Exits(s0, turns);
    turns := Take(s0, turns, Producer(0, 7));
  }

  /* ------------------------------------------------------------------ the status of an exited worker */

  /** Aborted and exited, no producer about to count a task, and none whose push would still be taken. */
  predicate Silent(s: State) {
    && s.q.abort && s.worker.Exited? && s.status.IS_EXITED?
    && (forall i :: 0 <= i < |s.producers| ==> !s.producers[i].CountTask?)
    && (NoPusher(s) || IsFull(s.q, 0))
  }

  lemma {:induction false} SilentRun(s: State, turns: seq<Turn>)
    requires Silent(s)
    ensures Silent(Exec(s, turns))
  {
    if turns == [] {
    } else {
      SilentRun(s, turns[..|turns| - 1]);
    }
  }

  lemma LateCount(s: State, turns: seq<Turn>, who: nat) returns (turns': seq<Turn>)
    requires Respects(s, turns)
    requires var s' := Exec(s, turns); who < |s'.producers| && s'.producers[who].CountTask?
    ensures Respects(s, turns') && Exec(s, turns').status.IS_WAITING?
  {
    turns' := Take(s, turns, Producer(who, 0));
  }

  lemma LatePush(s: State, who: nat) returns (turns: seq<Turn>)
    requires who < |s.producers| && s.producers[who].PushSection? && |s.q.items| < s.q.maxSize && s.worker.Exited?
    ensures Respects(s, turns) && Exec(s, turns).status.IS_WAITING?
  {
    turns := PostAll(s, []);
    turns := Take(s, turns, Producer(who, 0));
    turns := LateCount(s, turns, who);
  }

  /** The status of an exited worker is never written over, in any continuation, exactly when no producer is about
      to count its task and none is past its test, or the queue is full. */
  lemma StatusStaysIff(s: State)
    requires s.q.abort && s.worker.Exited? && s.status.IS_EXITED?
    ensures (forall turns :: Respects(s, turns) ==> Exec(s, turns).status.IS_EXITED?)
      <==> (forall i :: 0 <= i < |s.producers| ==> !s.producers[i].CountTask?) && (NoPusher(s) || IsFull(s.q, 0))
  {
    if Silent(s) {
      forall turns ensures Exec(s, turns).status.IS_EXITED? {
        SilentRun(s, turns);
      }
    } else {
      var turns := [];
      if who :| 0 <= who < |s.producers| && s.producers[who].CountTask? {
        turns := LateCount(s, [], who);
      } else {
        var who :| 0 <= who < |s.producers| && s.producers[who].PushSection?;
        turns := LatePush(s, who);
      }
      assert !(forall turns :: Respects(s, turns) ==> Exec(s, turns).status.IS_EXITED?);
    }
  }

  /* ------------------------------------------------------------------ when the busy counter can wrap */

  /** Before the abort the worker works off what is queued. */
  lemma {:induction false} WorksOff(s0: State, turns: seq<Turn>) returns (turns': seq<Turn>)
    requires Respects(s0, turns) && Tokens(Exec(s0, turns)) && !Exec(s0, turns).q.abort
    ensures Respects(s0, turns') && Tokens(Exec(s0, turns')) && !Exec(s0, turns').q.abort
    ensures Todo(Exec(s0, turns')) == 0 && Exec(s0, turns').producers == Exec(s0, turns).producers
    decreases Todo(Exec(s0, turns))
  {
    var s := Exec(s0, turns);
    turns' := turns;
    if Todo(s) > 0 {
      WorkerTodo(s);
      WorkerKeepsTokens(s);
      turns' := Take(s0, turns, Worker);
      hide Tokens, Todo;
      turns' := WorksOff(s0, turns');
    }
  }

  function StepsToCount(pc: ProducerPc): nat {
    match pc
    case CountTask => 0
    case PushSection(_) => 1
    case PushTest(_) => 2
    case Idle => 3
  }

  /** Before the abort, with the queue empty, producer 0 gets to where its task is queued and not counted. */
  lemma {:induction false} Queues(s0: State, turns: seq<Turn>) returns (turns': seq<Turn>)
    requires Respects(s0, turns)
    requires var s := Exec(s0, turns);
      && Tokens(s) && !s.q.abort && |s.producers| > 0
      && (s.q.items == [] || s.producers[0].CountTask?)
    ensures var s := Exec(s0, turns');
      Respects(s0, turns') && Tokens(s) && !s.q.abort && |s.producers| > 0 && s.producers[0].CountTask?
    decreases StepsToCount(Exec(s0, turns).producers[0])
  {
    turns' := turns;
    if !Exec(s0, turns).producers[0].CountTask? {
      ProducerKeepsTokens(Exec(s0, turns), 0, 7);
      turns' := Take(s0, turns, Producer(0, 7));
      turns' := Queues(s0, turns');
    }
  }

  /** Before the abort any producer will do: its task is started and counted down before it is counted up. */
  lemma WrappingRun(s: State) returns (turns: seq<Turn>)
    requires Tokens(s) && !s.q.abort && |s.producers| > 0
    ensures Respects(s, turns) && Todo(Exec(s, turns)) == 0 && !Exec(s, turns).q.abort
    ensures Count(Exec(s, turns).producers, Uncounted) > 0
  {
    turns := WorksOff(s, []);
    turns := Queues(s, turns);
    turns := WorksOff(s, turns);
    CountPositive(Exec(s, turns).producers, Uncounted);
    assert Uncounted(Exec(s, turns).producers[0]);
  }

  /** With the flag up: whether one more task can begin. */
  function CanStart(s: State): nat {
    if s.worker.Popped? then 1
    else if (s.worker.PopTest? || s.worker.Drain? || s.worker.Holding?)
            && (s.q.items != [] || (!NoPusher(s) && s.q.maxSize > 0)) then 1
    else 0
  }

  lemma WorkerKeepsMargin(s: State)
    requires s.q.abort
    ensures Outstanding(s) - CanStart(s) <= Outstanding(WorkerStep(s)) - CanStart(WorkerStep(s))
    ensures Outstanding(s) - CanStart(s) <= Outstanding(InterruptStep(s)) - CanStart(InterruptStep(s))
  {
  }

  lemma ProducerKeepsMargin(s: State, who: nat, task: Elem)
    requires s.q.abort && who < |s.producers|
    ensures var s' := ProducerStep(s, who, task); Outstanding(s) - CanStart(s) <= Outstanding(s') - CanStart(s')
  {
    CountUpdate(s.producers, who, ProducerStep(s, who, task).producers[who], Uncounted);
  }

  lemma NextKeepsMargin(s: State, turn: Turn)
    requires s.q.abort
    ensures Next(s, turn).q.abort
    ensures Outstanding(s) - CanStart(s) <= Outstanding(Next(s, turn)) - CanStart(Next(s, turn))
  {
    hide CanStart;
    NextMonotone(s, turn);
    match turn
    case Worker => WorkerKeepsMargin(s);
    case Interrupt => WorkerKeepsMargin(s);
    case Producer(who, task) => if who < |s.producers| { ProducerKeepsMargin(s, who, task); }
    case Canceller(who) => CancelKeepsMargin(s, who);
  }

  lemma CancelKeepsMargin(s: State, who: nat)
    ensures var s' := Next(s, Canceller(who)); Outstanding(s') == Outstanding(s) && CanStart(s') == CanStart(s)
  {
  }

  lemma {:induction false} MarginRun(s: State, turns: seq<Turn>)
    requires s.q.abort
    ensures Exec(s, turns).q.abort
    ensures Outstanding(s) - CanStart(s) <= Outstanding(Exec(s, turns)) - CanStart(Exec(s, turns))
  {
    if turns == [] {
    } else {
      hide Next, Outstanding, CanStart;
      MarginRun(s, turns[..|turns| - 1]);
      NextKeepsMargin(Exec(s, turns[..|turns| - 1]), turns[|turns| - 1]);
    }
  }

  /** The aborted worker begins the task it has or finds. */
  lemma {:induction false} Begins(s0: State, turns: seq<Turn>) returns (turns': seq<Turn>)
    requires Respects(s0, turns)
    requires var s := Exec(s0, turns);
      && s.q.abort && NonePosting(s)
      && (s.worker.Popped? || ((s.worker.PopTest? || s.worker.Drain? || s.worker.Holding?) && s.q.items != []))
    ensures Respects(s0, turns') && Outstanding(Exec(s0, turns')) == Outstanding(Exec(s0, turns)) - 1
    decreases Rank(Exec(s0, turns).worker)
  {
    var s := Exec(s0, turns);
    turns' := Take(s0, turns, Worker);
    if !s.worker.Popped? {
      turns' := Begins(s0, turns');
    }
  }

  lemma LastStart(s: State) returns (turns: seq<Turn>)
    requires s.q.abort && CanStart(s) == 1
    ensures Respects(s, turns) && Outstanding(Exec(s, turns)) == Outstanding(s) - 1
  {
    turns := PostAll(s, []);
    assert Outstanding(Exec(s, turns)) == Outstanding(s);
    if !s.worker.Popped? && s.q.items == [] {
      turns := LastPush(s, turns);
    }
    hide *;
    turns := Begins(s, turns);
  }

  lemma LastPush(s: State, turns: seq<Turn>) returns (turns': seq<Turn>)
    requires Respects(s, turns)
    requires var s' := Exec(s, turns);
      && s'.q.abort && NonePosting(s') && !NoPusher(s') && s'.q.maxSize > 0 && s'.q.items == []
      && (s'.worker.PopTest? || s'.worker.Drain? || s'.worker.Holding?)
    ensures Respects(s, turns') && Outstanding(Exec(s, turns')) == Outstanding(Exec(s, turns))
    ensures var s', s'' := Exec(s, turns), Exec(s, turns');
      s''.q.abort && NonePosting(s'') && s''.worker == s'.worker && s''.q.items != []
  {
    var s' := Exec(s, turns);
    var who :| 0 <= who < |s'.producers| && s'.producers[who].PushSection?;
    turns' := Take(s, turns, Producer(who, 0));
    CountUpdate(s'.producers, who, CountTask, Uncounted);
  }

  ghost predicate CanWrap(s: State) {
    exists after :: Respects(s, after) && Wrapped(Exec(s, after))
  }

  lemma WrappedAfter(producers: nat, cancellers: nat, before: seq<Turn>, after: seq<Turn>)
    ensures var s := Exec(Exec(Init(producers, cancellers), before), after); Wrapped(s) <==> Outstanding(s) < 0
  {
    hide Exec, Init;
    ExecAppend(Init(producers, cancellers), before, after);
    WrappedIsNegative(producers, cancellers, before + after);
  }

  /** Main theorem: from any state of any run, some continuation wraps the busy counter below zero exactly when, before
      the abort, there is a producer at all, and after it, what is left to count is less than the tasks that can
      still begin. */
  lemma WrapIff(producers: nat, cancellers: nat, before: seq<Turn>)
    ensures var s := Exec(Init(producers, cancellers), before);
      CanWrap(s) <==> if s.q.abort then Outstanding(s) < CanStart(s) else producers > 0
  {
    var s := Exec(Init(producers, cancellers), before);
    ProducersStay(Init(producers, cancellers), before);
    assert |s.producers| == producers;
    TokensRun(producers, cancellers, before);
    ConservedRun(producers, cancellers, before);
    hide Exec, Init, Outstanding, CanStart, Respects, Wrapped, Tokens;
    if s.q.abort {
      AbortedWrapIff(producers, cancellers, before);
    } else if producers > 0 {
      var turns := WrappingRun(s);
      WrappedAfter(producers, cancellers, before, turns);
      NegativeOutstanding(producers, cancellers, before, turns);
    } else {
      forall after ensures !Wrapped(Exec(s, after)) {
        WrappedAfter(producers, cancellers, before, after);
        ProducersStay(s, after);
        NoneUncounted(Exec(s, after));
      }
    }
  }

  lemma NegativeOutstanding(producers: nat, cancellers: nat, before: seq<Turn>, after: seq<Turn>)
    requires var s := Exec(Exec(Init(producers, cancellers), before), after);
      Todo(s) == 0 && !s.q.abort && Count(s.producers, Uncounted) > 0
    ensures Outstanding(Exec(Exec(Init(producers, cancellers), before), after)) < 0
  {
    hide Exec, Init;
    ExecAppend(Init(producers, cancellers), before, after);
    ConservedRun(producers, cancellers, before + after);
    TokensRun(producers, cancellers, before + after);
  }

  lemma NoneUncounted(s: State)
    requires s.producers == []
    ensures Outstanding(s) >= 0
  {
  }

  lemma {:induction false} ProducersStay(s: State, turns: seq<Turn>)
    ensures |Exec(s, turns).producers| == |s.producers|
  {
    if turns == [] {
    } else {
      ProducersStay(s, turns[..|turns| - 1]);
    }
  }

  lemma AbortedWrapIff(producers: nat, cancellers: nat, before: seq<Turn>)
    requires Exec(Init(producers, cancellers), before).q.abort
    ensures var s := Exec(Init(producers, cancellers), before); CanWrap(s) <==> Outstanding(s) < CanStart(s)
  {
    var s := Exec(Init(producers, cancellers), before);
    StartsAtMostOne(s);
    NothingDone(s);
    hide Exec, Init, Outstanding, CanStart, Respects, Wrapped;
    if Outstanding(s) < 0 {
      WrappedAfter(producers, cancellers, before, []);
    } else if Outstanding(s) < CanStart(s) {
      var turns := LastStart(s);
      WrappedAfter(producers, cancellers, before, turns);
    } else {
      forall after ensures !Wrapped(Exec(s, after)) {
        WrappedAfter(producers, cancellers, before, after);
        MarginRun(s, after);
      }
    }
  }

  lemma NothingDone(s: State)
    ensures Exec(s, []) == s && Respects(s, [])
  {
  }

  lemma StartsAtMostOne(s: State)
    ensures CanStart(s) <= 1
  {
  }
}

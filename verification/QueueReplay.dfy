/** What the log means: replayed on a plain sequence, event by event and without the queue's sections, it gives the
    deque, in every run of all ten operations, and every element that was shown or removed was the one at its end. */
module QueueReplay {
  import opened Counting
  import opened QueueSpec
  import opened QueueProtocol

  /** What an event does to a sequence. */
  function After(items: seq<Elem>, e: Event): seq<Elem> {
    match e
    case Pushed(v, _) => items + [v]
    case PushedFront(v, _) => [v] + items
    case Inserted(vs, at, _) => if at <= |items| then items[..at] + vs + items[at..] else items + vs
    case Popped(_, front) => WithoutEnd(items, front)
    case Drained(_, front) => WithoutEnd(items, front)
    case Cleared(_) => []
    case _ => items
  }

  function WithoutEnd(items: seq<Elem>, front: bool): seq<Elem> {
    if items == [] then [] else if front then items[1..] else items[..|items| - 1]
  }

  predicate AtEnd(items: seq<Elem>, v: Elem, front: bool) {
    items != [] && v == if front then items[0] else items[|items| - 1]
  }

  /** What an event says of the sequence it met. */
  predicate Truthful(items: seq<Elem>, e: Event) {
    match e
    case Popped(v, front) => AtEnd(items, v, front)
    case Drained(v, front) => AtEnd(items, v, front)
    case Peeked(v, front) => AtEnd(items, v, front)
    case Missed => items == []
    case Cleared(vs) => vs == items
    case _ => true
  }

  function Replay(log: seq<Event>): seq<Elem> {
    if log == [] then [] else After(Replay(log[..|log| - 1]), log[|log| - 1])
  }

  predicate AllTruthful(log: seq<Event>) {
    log == [] || (AllTruthful(log[..|log| - 1]) && Truthful(Replay(log[..|log| - 1]), log[|log| - 1]))
  }

  /** The events an operation may log. */
  predicate LoggedBy(op: Op, e: Event) {
    match op
    case PushBack(v) => e.Pushed? && e.v == v
    case PushFront(v, _) => (e.PushedFront? && e.v == v) || e.FrontRefused? || e.Dropped?
    case PopFront(_) => ((e.Popped? || e.Drained?) && e.front) || e.Missed? || e.Dropped?
    case PopBack(_) => ((e.Popped? || e.Drained?) && !e.front) || e.Missed? || e.Dropped?
    case Front(_) => (e.Peeked? && e.front) || e.Missed? || e.Dropped?
    case Back(_) => (e.Peeked? && !e.front) || e.Missed? || e.Dropped?
    case Insert(at, vs) => e.Inserted? && e.at == at && e.vs == vs
    case Abort => e.AbortPosted?
    case Clear => e.AbortPosted? || e.Cleared?
    case SetMax(_) => false
  }

  /** A step logs nothing and leaves the elements, or logs one event of its own operation that explains them. */
  predicate Explained(s: State, op: Op, s': State) {
    if s'.log == s.log then s'.q.items == s.q.items
    else
      && |s'.log| == |s.log| + 1 && s'.log == s.log + [s'.log[|s.log|]]
      && var e := s'.log[|s.log|];
         LoggedBy(op, e) && Truthful(s.q.items, e) && s'.q.items == After(s.q.items, e)
  }

  lemma HoldingExplained(s: State, t: nat, op: Op)
    requires t < |s.pcs|
    ensures Explained(s, op, HoldingSection(s, t, op))
  {
  }

  lemma PlainExplained(s: State, t: nat, op: Op)
    requires t < |s.pcs|
    ensures Explained(s, op, PlainSection(s, t, op))
  {
  }

  lemma DrainExplained(s: State, t: nat, op: Op)
    requires t < |s.pcs| && (op.PopFront? || op.PopBack?)
    ensures Explained(s, op, DrainSection(s, t, op))
  {
  }

  /** Where a thread can be with its operation. */
  predicate Placed(pc: Pc) {
    match pc
    case Idle => true
    case Woken(op) => op.Front? || op.Back? || op.PopFront? || op.PopBack? || op.PushFront?
    case Waiting(op) => op.Front? || op.Back? || op.PopFront? || op.PopBack? || op.PushFront?
    case Head(op) => op.Front? || op.Back? || op.PopFront? || op.PopBack? || op.PushFront?
    case Drain(op) => op.PopFront? || op.PopBack?
    case Posting(op) => op.Abort? || op.Clear?
    case Clearing(op) => op.Clear?
    case _ => true
  }

  predicate AllPlaced(s: State) {
    forall t :: 0 <= t < |s.pcs| ==> Placed(s.pcs[t])
  }

  lemma NextPlaced(s: State, turn: Turn)
    requires AllPlaced(s)
    ensures AllPlaced(Next(s, turn))
  {
    var t := turn.thread;
    if t < |s.pcs| {
      assert Placed(s.pcs[t]);
    }
  }

  lemma NextExplained(s: State, turn: Turn)
    requires AllPlaced(s) && turn.thread < |s.pcs|
    ensures s.pcs[turn.thread].Idle? ==> Next(s, turn).log == s.log && Next(s, turn).q == s.q
    ensures !s.pcs[turn.thread].Idle? ==> Explained(s, s.pcs[turn.thread].op, Next(s, turn))
  {
    hide HoldingSection, PlainSection, DrainSection;
    var t := turn.thread;
    assert Placed(s.pcs[t]);
    match s.pcs[t]
    case Holding(op) => HoldingExplained(s, t, op);
    case Section(op) => PlainExplained(s, t, op);
    case Drain(op) => DrainExplained(s, t, op);
    case _ =>
  }

  lemma ReplaySnoc(log: seq<Event>, e: Event)
    ensures Replay(log + [e]) == After(Replay(log), e)
    ensures AllTruthful(log + [e]) <==> AllTruthful(log) && Truthful(Replay(log), e)
  {
    assert (log + [e])[..|log|] == log;
  }

  lemma ExplainedReplays(s: State, op: Op, s': State)
    requires Explained(s, op, s') && s.q.items == Replay(s.log) && AllTruthful(s.log)
    ensures s'.q.items == Replay(s'.log) && AllTruthful(s'.log)
  {
    if s'.log != s.log {
      ReplaySnoc(s.log, s'.log[|s.log|]);
    }
  }

  lemma {:induction false} ReplayRun(threads: nat, maxSize: nat, turns: seq<Turn>)
    ensures var s := Exec(Init(threads, maxSize), turns);
      AllPlaced(s) && s.q.items == Replay(s.log) && AllTruthful(s.log)
  {
    if turns == [] {
    } else {
      ReplayRun(threads, maxSize, turns[..|turns| - 1]);
      var s, turn := Exec(Init(threads, maxSize), turns[..|turns| - 1]), turns[|turns| - 1];
      NextPlaced(s, turn);
      if turn.thread < |s.pcs| {
        NextExplained(s, turn);
        hide Next, AllPlaced, Explained, Replay, AllTruthful;
        if !s.pcs[turn.thread].Idle? {
          ExplainedReplays(s, s.pcs[turn.thread].op, Next(s, turn));
        }
      }
    }
  }

  /** Main theorem, for every run of all ten operations: the deque is the replay of the log, in order, and every
      element popped, drained or shown was the one at its end of the deque at that moment. */
  lemma ReplayLaw(threads: nat, maxSize: nat, turns: seq<Turn>)
    ensures var s := Exec(Init(threads, maxSize), turns); s.q.items == Replay(s.log) && AllTruthful(s.log)
  {
    ReplayRun(threads, maxSize, turns);
  }

  /** And each step logs only what its own operation may log: front for front, back for back, the pushed value, the
      range at its position. */
  lemma StepsLogTheirOwn(threads: nat, maxSize: nat, turns: seq<Turn>, turn: Turn)
    ensures var s, s' := Exec(Init(threads, maxSize), turns), Exec(Init(threads, maxSize), turns + [turn]);
      s'.log == s.log
      || (&& turn.thread < |s.pcs| && !s.pcs[turn.thread].Idle?
          && |s'.log| == |s.log| + 1 && LoggedBy(s.pcs[turn.thread].op, s'.log[|s.log|]))
  {
    ReplayRun(threads, maxSize, turns);
    ExecSnoc(Init(threads, maxSize), turns, turn);
    var s := Exec(Init(threads, maxSize), turns);
    if turn.thread < |s.pcs| {
      NextExplained(s, turn);
      hide Next;
    }
  }

  /* ------------------------------------------------------------------ last in at the front, first out there */

  /** Leaves the front of a deque that is not empty alone. */
  predicate Behind(e: Event) {
    e.Pushed? || e.Peeked? || e.Missed? || e.FrontRefused? || e.Dropped? || e.AbortPosted?
    || (e.Inserted? && e.at > 0)
  }

  lemma {:induction false} FrontStays(log: seq<Event>, v: Elem, posted: bool, more: seq<Event>)
    requires forall i :: 0 <= i < |more| ==> Behind(more[i])
    ensures var items := Replay(log + [PushedFront(v, posted)] + more); items != [] && items[0] == v
  {
    var start := log + [PushedFront(v, posted)];
    if more == [] {
      assert start + more == start;
      ReplaySnoc(log, PushedFront(v, posted));
    } else {
      var last := |more| - 1;
      FrontStays(log, v, posted, more[..last]);
      assert start + more == (start + more[..last]) + [more[last]];
      ReplaySnoc(start + more[..last], more[last]);
    }
  }

  /** In every run: what a front push put in is what the next front pop, with a token or without, takes out, if nothing
      went in at the front or came out at all in between. */
  lemma LastInFirstOut(threads: nat, maxSize: nat, turns: seq<Turn>, log: seq<Event>, v: Elem, posted: bool,
                       more: seq<Event>, out: Event)
    requires Exec(Init(threads, maxSize), turns).log == log + [PushedFront(v, posted)] + more + [out]
    requires forall i :: 0 <= i < |more| ==> Behind(more[i])
    requires (out.Popped? || out.Drained?) && out.front
    ensures out.v == v
  {
    hide Exec, Init;
    ReplayLaw(threads, maxSize, turns);
    FrontStays(log, v, posted, more);
    ReplaySnoc(log + [PushedFront(v, posted)] + more, out);
  }

  /* ------------------------------------------------------------------ the other semaphore */

  predicate PostsNotFull(e: Event) {
    e.Popped? || e.AbortPosted?
  }

  function Capped(n: nat): nat {
    if n < SEM_VALUE_MAX then n else SEM_VALUE_MAX
  }

  /** A step logs at most one event, and the semaphore gains a post if the event says so. */
  predicate CountsNotFull(s: State, s': State) {
    if s'.log == s.log then s'.q.notFull == s.q.notFull
    else
      && |s'.log| == |s.log| + 1 && s'.log == s.log + [s'.log[|s.log|]]
      && s'.q.notFull == if PostsNotFull(s'.log[|s.log|]) then Post(s.q.notFull) else s.q.notFull
  }

  lemma SectionsCount(s: State, t: nat, op: Op)
    requires t < |s.pcs|
    ensures CountsNotFull(s, HoldingSection(s, t, op)) && CountsNotFull(s, PlainSection(s, t, op))
    ensures CountsNotFull(s, DrainSection(s, t, op)) && CountsNotFull(s, PostingStep(s, t, op))
  {
  }

  lemma NextCounts(s: State, turn: Turn)
    ensures CountsNotFull(s, Next(s, turn))
  {
    hide HoldingSection, PlainSection, DrainSection, PostingStep;
    var t := turn.thread;
    if t < |s.pcs| && !s.pcs[t].Idle? {
      SectionsCount(s, t, s.pcs[t].op);
    }
  }

  lemma CountSnoc(log: seq<Event>, e: Event)
    ensures Count(log + [e], PostsNotFull) == Count(log, PostsNotFull) + if PostsNotFull(e) then 1 else 0
  {
    assert (log + [e])[..|log|] == log;
  }

  predicate NotFullIs(s: State, first: nat) {
    s.q.notFull == Capped(first + Count(s.log, PostsNotFull))
  }

  lemma CountsKeep(s: State, s': State, first: nat)
    requires CountsNotFull(s, s') && NotFullIs(s, first)
    ensures NotFullIs(s', first)
  {
    if s'.log != s.log {
      CountSnoc(s.log, s'.log[|s.log|]);
    }
  }

  lemma {:induction false} NotFullRun(s: State, turns: seq<Turn>, first: nat)
    requires NotFullIs(s, first)
    ensures NotFullIs(Exec(s, turns), first)
  {
    hide Next, NotFullIs;
    if turns == [] {
    } else {
      var s', turn := Exec(s, turns[..|turns| - 1]), turns[|turns| - 1];
      NotFullRun(s, turns[..|turns| - 1], first);
      NextCounts(s', turn);
      CountsKeep(s', Next(s', turn), first);
    }
  }

  /** In every run the not-full semaphore holds the limit it began with and a post for each pop with a token and each
      abort, up to SEM_VALUE_MAX: nothing ever takes from it. */
  lemma NotFullLaw(threads: nat, maxSize: nat, turns: seq<Turn>)
    ensures var s := Exec(Init(threads, maxSize), turns);
      s.q.notFull == Capped(ClampSize(maxSize) + Count(s.log, PostsNotFull))
  {
    NotFullRun(Init(threads, maxSize), turns, ClampSize(maxSize));
  }
}

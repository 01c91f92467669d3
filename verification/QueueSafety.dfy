/** What the token ledger buys while nobody aborts, the capacity bound, first-in-first-out order and conservation of
    the elements. Every statement is about every schedule. */
module QueueSafety {
  import opened Counting
  import opened QueueSpec
  import opened QueueProtocol

  predicate Obeys(turns: seq<Turn>, allowed: Op -> bool) {
    forall i :: 0 <= i < |turns| && turns[i].choice.Begin? ==> allowed(turns[i].choice.op)
  }

  predicate Runs(s: State, allowed: Op -> bool) {
    forall t :: 0 <= t < |s.pcs| ==> s.pcs[t].Idle? || allowed(s.pcs[t].op)
  }

  /** A turn moves one thread, which keeps its operation, starts the one it was given, or becomes idle. */
  predicate OneThread(s: State, turn: Turn, s': State) {
    s'.pcs == s.pcs
    || (&& turn.thread < |s.pcs| == |s'.pcs|
        && var pc, pc' := s.pcs[turn.thread], s'.pcs[turn.thread];
        && s'.pcs == s.pcs[turn.thread := pc']
        && (pc'.Idle? || (pc.Idle? && turn.choice == Begin(pc'.op)) || (!pc.Idle? && pc'.op == pc.op))
        && (pc'.Drain? ==> pc'.op.PopFront? || pc'.op.PopBack?))
  }

  lemma NextOneThread(s: State, turn: Turn)
    ensures OneThread(s, turn, Next(s, turn))
  {
    var t := turn.thread;
    if t < |s.pcs| && s.pcs[t].Posting? {
      var pc' := Next(s, turn).pcs[t];
      assert s.pcs[t := Idle][t := pc'] == s.pcs[t := pc'];
    }
  }

  lemma NextRuns(s: State, turn: Turn, s': State, allowed: Op -> bool)
    requires Runs(s, allowed) && OneThread(s, turn, s')
    requires turn.choice.Begin? ==> allowed(turn.choice.op)
    ensures Runs(s', allowed)
  {
  }

  /* ------------------------------------------------------------------ token safety */

  /** Events that never make tokens outnumber elements, with every post received. */
  predicate Sound(e: Event) {
    match e
    case Pushed(_, posted) => posted
    case PushedFront(_, posted) => posted
    case Inserted(vs, _, posted) => posted && vs != []
    case FrontRefused | Popped(_, _) | Peeked(_, _) => true
    case _ => false
  }

  predicate AllSound(log: seq<Event>) {
    forall i :: 0 <= i < |log| ==> Sound(log[i])
  }

  lemma {:induction false} SoundBalance(log: seq<Event>)
    requires AllSound(log)
    ensures Balance(log) >= 0
  {
    if log == [] {
    } else {
      SoundBalance(log[..|log| - 1]);
    }
  }

  predicate NoAbortPath(pc: Pc) {
    !pc.Drain? && !pc.Posting? && !pc.Clearing?
  }

  /** The flag is down, and so far only sound events. */
  predicate TokenSafe(s: State) {
    && !s.q.abort && !s.undefined && AllSound(s.log) && Ledger(s)
    && (forall t :: 0 <= t < |s.pcs| ==> NoAbortPath(s.pcs[t]))
    && |s.q.items| <= SEM_VALUE_MAX && s.q.maxSize <= SEM_VALUE_MAX
  }

  /** No thread is about to insert nothing and be accepted. */
  predicate NoPhantom(s: State) {
    forall t :: 0 <= t < |s.pcs| && s.pcs[t].Section? && s.pcs[t].op.Insert? && s.pcs[t].op.vs == [] ==> IsFull(s.q, 0)
  }

  lemma TokensCovered(s: State)
    requires TokenSafe(s)
    ensures s.q.notEmpty + Held(s) <= |s.q.items|
    ensures forall t :: 0 <= t < |s.pcs| && s.pcs[t].Holding? ==> s.q.items != []
  {
    SoundBalance(s.log);
    CountPositive(s.pcs, HoldsToken);
    forall t | 0 <= t < |s.pcs| && s.pcs[t].Holding? ensures s.q.items != [] {
      assert HoldsToken(s.pcs[t]);
    }
  }

  /** What a step may add to the log and do to the shared state. */
  ghost predicate SoundStep(s: State, s': State) {
    && !s'.q.abort && !s'.undefined
    && (s'.log == s.log || exists e :: s'.log == s.log + [e] && Sound(e))
    && |s'.q.items| <= SEM_VALUE_MAX && s'.q.maxSize <= SEM_VALUE_MAX
  }

  lemma SoundHolding(s: State, t: nat, op: Op)
    requires TokenSafe(s) && t < |s.pcs| && s.pcs[t] == Holding(op) && s.q.items != []
    requires s.q.notEmpty <= |s.q.items|
    ensures SoundStep(s, HoldingSection(s, t, op))
  {
    var s' := HoldingSection(s, t, op);
    if s'.log != s.log {
      assert s'.log == s.log + [s'.log[|s.log|]];
    }
  }

  lemma SoundPlain(s: State, t: nat, op: Op)
    requires TokenSafe(s) && NoPhantom(s) && t < |s.pcs| && s.pcs[t] == Section(op)
    requires s.q.notEmpty <= |s.q.items|
    ensures SoundStep(s, PlainSection(s, t, op))
  {
    var s' := PlainSection(s, t, op);
    if s'.log != s.log {
      assert s'.log == s.log + [s'.log[|s.log|]];
    }
  }

  lemma SoundNext(s: State, turn: Turn)
    requires TokenSafe(s) && NoPhantom(s)
    ensures Next(s, turn).q.abort || SoundStep(s, Next(s, turn))
  {
    TokensCovered(s);
    var t := turn.thread;
    if t < |s.pcs| {
      match s.pcs[t] {
        case Holding(op) => SoundHolding(s, t, op);
        case Section(op) => SoundPlain(s, t, op);
        case _ =>
      }
    }
  }

  lemma NextAvoidsAbortPath(s: State, turn: Turn)
    requires TokenSafe(s) && !Next(s, turn).q.abort
    ensures forall t :: 0 <= t < |Next(s, turn).pcs| ==> NoAbortPath(Next(s, turn).pcs[t])
  {
  }

  lemma NextKeepsTokenSafe(s: State, turn: Turn)
    requires TokenSafe(s) && NoPhantom(s)
    ensures Next(s, turn).q.abort || TokenSafe(Next(s, turn))
  {
    NextKeepsLedger(s, turn);
    SoundNext(s, turn);
    hide Next, Ledger;
    if !Next(s, turn).q.abort {
      NextAvoidsAbortPath(s, turn);
    }
  }

  lemma InitTokenSafe(threads: nat, maxSize: nat)
    ensures TokenSafe(Init(threads, maxSize))
  {
    LedgerLaw(threads, maxSize, []);
  }

  lemma FlagStays(s: State, turn: Turn)
    requires s.q.abort
    ensures Next(s, turn).q.abort
  {
  }

  predicate FullInsert(op: Op) {
    op.Insert? ==> op.vs != []
  }

  lemma {:induction false} TokenSafeRun(threads: nat, maxSize: nat, turns: seq<Turn>)
    requires Obeys(turns, FullInsert)
    ensures var s := Exec(Init(threads, maxSize), turns); Runs(s, FullInsert) && (s.q.abort || TokenSafe(s))
  {
    if turns == [] {
      InitTokenSafe(threads, maxSize);
    } else {
      var init := turns[..|turns| - 1];
      var s, turn := Exec(Init(threads, maxSize), init), turns[|turns| - 1];
      TokenSafeRun(threads, maxSize, init);
      hide Next, TokenSafe;
      NextOneThread(s, turn);
      NextRuns(s, turn, Next(s, turn), FullInsert);
      if s.q.abort {
        FlagStays(s, turn);
      } else {
        NextKeepsTokenSafe(s, turn);
      }
    }
  }

  /** In every run without empty inserts, for as long as nobody has aborted: the tokens in the semaphore and in
      threads' hands never outnumber the elements, no post is lost to a full semaphore, and back() never meets an
      empty deque. */
  lemma TokenSafety(threads: nat, maxSize: nat, turns: seq<Turn>)
    requires Obeys(turns, FullInsert)
    ensures
      var s := Exec(Init(threads, maxSize), turns); !s.q.abort ==>
      && s.q.notEmpty + Held(s) <= |s.q.items| <= SEM_VALUE_MAX
      && AllSound(s.log)
      && !s.undefined
      && (forall t :: 0 <= t < |s.pcs| && s.pcs[t].Holding? ==> s.q.items != [])
  {
    TokenSafeRun(threads, maxSize, turns);
    if !Exec(Init(threads, maxSize), turns).q.abort {
      TokensCovered(Exec(Init(threads, maxSize), turns));
    }
  }

  /* ------------------------------------------------------------------ capacity */

  /** What was added stayed within the limit, which has not moved; a range even stayed one below it. */
  predicate AddsWithin(s: State, s': State) {
    |s'.q.items| > |s.q.items| ==>
      && |s.q.items| < s.q.maxSize && |s'.q.items| <= s.q.maxSize == s'.q.maxSize
      && (s'.log != [] && s'.log[|s'.log| - 1].Inserted? ==> |s'.q.items| < s.q.maxSize)
  }

  lemma HoldingAddsWithin(s: State, t: nat, op: Op)
    requires t < |s.pcs|
    ensures AddsWithin(s, HoldingSection(s, t, op))
  {
  }

  lemma PlainAddsWithin(s: State, t: nat, op: Op)
    requires t < |s.pcs|
    ensures AddsWithin(s, PlainSection(s, t, op))
  {
  }

  /** No step that adds elements ends above the limit in force, whatever was done to the limit before; an insert
      of a range even stays one below it. */
  lemma CapacityStep(s: State, turn: Turn)
    ensures
      var s' := Next(s, turn);
      |s'.q.items| > |s.q.items| ==>
        && |s.q.items| < s.q.maxSize && |s'.q.items| <= s.q.maxSize == s'.q.maxSize
        && (s'.log != [] && s'.log[|s'.log| - 1].Inserted? ==> |s'.q.items| < s.q.maxSize)
  {
    hide HoldingSection, PlainSection;
    var t := turn.thread;
    if t < |s.pcs| {
      match s.pcs[t] {
        case Holding(op) => HoldingAddsWithin(s, t, op);
        case Section(op) => PlainAddsWithin(s, t, op);
        case _ =>
      }
    }
  }

  lemma LimitStep(s: State, turn: Turn)
    requires s.q.maxSize <= SEM_VALUE_MAX
    ensures Next(s, turn).q.maxSize <= SEM_VALUE_MAX
  {
  }

  /** In every run at all, aborts included, no section drives the deque past SEM_VALUE_MAX. */
  lemma {:induction false} CapacityBound(threads: nat, maxSize: nat, turns: seq<Turn>)
    ensures
      var s := Exec(Init(threads, maxSize), turns);
      |s.q.items| <= SEM_VALUE_MAX && s.q.maxSize <= SEM_VALUE_MAX
  {
    if turns == [] {
    } else {
      var init := turns[..|turns| - 1];
      CapacityBound(threads, maxSize, init);
      var s := Exec(Init(threads, maxSize), init);
      LimitStep(s, turns[|turns| - 1]);
      CapacityStep(s, turns[|turns| - 1]);
      hide Next;
    }
  }

  /** This turn commits a SetMaxQueueSize below the size the deque has. */
  predicate Cuts(s: State, turn: Turn) {
    && turn.choice.Go? && turn.thread < |s.pcs|
    && s.pcs[turn.thread].Section? && s.pcs[turn.thread].op.SetMax?
    && ClampSize(s.pcs[turn.thread].op.size) < |s.q.items|
  }

  predicate Within(s: State) {
    |s.q.items| <= s.q.maxSize
  }

  lemma WithinStep(s: State, turn: Turn)
    requires Within(s)
    ensures Within(Next(s, turn)) <==> !Cuts(s, turn)
  {
    CapacityStep(s, turn);
  }

  /** The size is within the limit after each turn of the run. */
  predicate StaysWithin(s: State, turns: seq<Turn>) {
    Within(Exec(s, turns)) && (turns == [] || StaysWithin(s, turns[..|turns| - 1]))
  }

  /** No turn of the run cuts. */
  predicate NeverCuts(s: State, turns: seq<Turn>) {
    turns == [] ||
      (!Cuts(Exec(s, turns[..|turns| - 1]), turns[|turns| - 1]) && NeverCuts(s, turns[..|turns| - 1]))
  }

  /** In every run the size stays within the limit at every moment exactly when no change of the limit cuts below
      the size of that moment. */
  lemma {:induction false} LimitKeptIff(threads: nat, maxSize: nat, turns: seq<Turn>)
    ensures StaysWithin(Init(threads, maxSize), turns) <==> NeverCuts(Init(threads, maxSize), turns)
  {
    var s0 := Init(threads, maxSize);
    if turns == [] {
    } else {
      var last := |turns| - 1;
      LimitKeptIff(threads, maxSize, turns[..last]);
      hide Next, Within, Cuts;
      if StaysWithin(s0, turns[..last]) {
        WithinStep(Exec(s0, turns[..last]), turns[last]);
      }
    }
  }

  /* ------------------------------------------------------------------ order */

  predicate FifoOp(op: Op) {
    op.PushBack? || op.PopFront? || op.Front? || op.SetMax? || op.Abort? || op.Clear?
  }

  function Added(e: Event): seq<Elem> {
    match e
    case Pushed(v, _) => [v]
    case PushedFront(v, _) => [v]
    case Inserted(vs, _, _) => vs
    case _ => []
  }

  function Removed(e: Event): seq<Elem> {
    match e
    case Popped(v, _) => [v]
    case Drained(v, _) => [v]
    case Cleared(vs) => vs
    case _ => []
  }

  /** The elements accepted, in commit order. */
  function In(log: seq<Event>): seq<Elem> {
    if log == [] then [] else In(log[..|log| - 1]) + Added(log[|log| - 1])
  }

  /** The elements popped, drained or cleared, in commit order. */
  function Out(log: seq<Event>): seq<Elem> {
    if log == [] then [] else Out(log[..|log| - 1]) + Removed(log[|log| - 1])
  }

  predicate Fifo(s: State) {
    && Runs(s, FifoOp) && DrainsFront(s)
    && In(s.log) == Out(s.log) + s.q.items
  }

  lemma LogSnoc(log: seq<Event>, e: Event)
    ensures In(log + [e]) == In(log) + Added(e) && Out(log + [e]) == Out(log) + Removed(e)
  {
    assert (log + [e])[..|log|] == log;
  }

  /** One step logs nothing and keeps the elements, or logs one event that explains how they changed. */
  predicate FifoStep(s: State, s': State) {
    if s'.log == s.log then s'.q.items == s.q.items
    else
      && |s'.log| == |s.log| + 1 && s'.log == s.log + [s'.log[|s.log|]]
      && s.q.items + Added(s'.log[|s.log|]) == Removed(s'.log[|s.log|]) + s'.q.items
  }

  lemma SectionFifoStep(s: State, t: nat, op: Op)
    requires t < |s.pcs| && FifoOp(op)
    ensures FifoStep(s, HoldingSection(s, t, op))
    ensures FifoStep(s, PlainSection(s, t, op))
    ensures op.PopFront? ==> FifoStep(s, DrainSection(s, t, op))
  {
  }

  predicate DrainsFront(s: State) {
    forall t :: 0 <= t < |s.pcs| && s.pcs[t].Drain? ==> s.pcs[t].op.PopFront?
  }

  lemma NextDrainsFront(s: State, turn: Turn, s': State)
    requires DrainsFront(s) && OneThread(s, turn, s') && Runs(s', FifoOp)
    ensures DrainsFront(s')
  {
    forall t | 0 <= t < |s'.pcs| && s'.pcs[t].Drain? ensures s'.pcs[t].op.PopFront? {
      assert FifoOp(s'.pcs[t].op);
    }
  }

  lemma NextFifoStep(s: State, turn: Turn)
    requires Runs(s, FifoOp) && DrainsFront(s)
    ensures FifoStep(s, Next(s, turn))
  {
    var t := turn.thread;
    if t < |s.pcs| {
      match s.pcs[t] {
        case Holding(op) => SectionFifoStep(s, t, op);
        case Section(op) => SectionFifoStep(s, t, op);
        case Drain(op) => SectionFifoStep(s, t, op);
        case _ =>
      }
    }
  }

  lemma FifoStepKeepsOrder(s: State, s': State)
    requires FifoStep(s, s') && In(s.log) == Out(s.log) + s.q.items
    ensures In(s'.log) == Out(s'.log) + s'.q.items
  {
    if s'.log != s.log {
      var e := s'.log[|s.log|];
      LogSnoc(s.log, e);
      assert Out(s.log) + (s.q.items + Added(e)) == Out(s.log) + s.q.items + Added(e);
      assert Out(s.log) + (Removed(e) + s'.q.items) == Out(s.log) + Removed(e) + s'.q.items;
    }
  }

  lemma NextKeepsFifo(s: State, turn: Turn)
    requires Fifo(s)
    requires turn.choice.Begin? ==> FifoOp(turn.choice.op)
    ensures Fifo(Next(s, turn))
  {
    NextOneThread(s, turn);
    NextRuns(s, turn, Next(s, turn), FifoOp);
    NextDrainsFront(s, turn, Next(s, turn));
    NextFifoStep(s, turn);
    FifoStepKeepsOrder(s, Next(s, turn));
  }

  /** In every run of PushBack, PopFront, Front, aborts and Clear: what was accepted is, in order, what came out
      followed by what is still queued. Nothing is lost, doubled or overtaken. */
  lemma {:induction false} FifoConservation(threads: nat, maxSize: nat, turns: seq<Turn>)
    requires Obeys(turns, FifoOp)
    ensures
      var s := Exec(Init(threads, maxSize), turns);
      In(s.log) == Out(s.log) + s.q.items
  {
    FifoRun(threads, maxSize, turns);
  }

  lemma {:induction false} FifoRun(threads: nat, maxSize: nat, turns: seq<Turn>)
    requires Obeys(turns, FifoOp)
    ensures Fifo(Exec(Init(threads, maxSize), turns))
  {
    if turns == [] {
    } else {
      var init := turns[..|turns| - 1];
      FifoRun(threads, maxSize, init);
      NextKeepsFifo(Exec(Init(threads, maxSize), init), turns[|turns| - 1]);
    }
  }

  /* ------------------------------------------------------------------ elements are conserved */

  /** The event accounts for the difference between two deques. */
  ghost predicate Accounts(items: seq<Elem>, e: Event, items': seq<Elem>) {
    multiset(items) + multiset(Added(e)) == multiset(Removed(e)) + multiset(items')
  }

  /** One step logs nothing and keeps the elements, or logs one event that accounts for the difference. */
  ghost predicate AccountedStep(s: State, s': State) {
    (s'.log == s.log && s'.q.items == s.q.items)
    || (|s'.log| == |s.log| + 1 && s'.log == s.log + [s'.log[|s.log|]]
        && Accounts(s.q.items, s'.log[|s.log|], s'.q.items))
  }

  lemma RemoveFront(xs: seq<Elem>)
    requires xs != []
    ensures Accounts(xs, Popped(xs[0], true), xs[1..]) && Accounts(xs, Drained(xs[0], true), xs[1..])
  {
    assert xs == [xs[0]] + xs[1..];
  }

  lemma RemoveBack(xs: seq<Elem>)
    requires xs != []
    ensures var last := |xs| - 1;
      Accounts(xs, Popped(xs[last], false), xs[..last]) && Accounts(xs, Drained(xs[last], false), xs[..last])
  {
    assert xs == xs[..|xs| - 1] + [xs[|xs| - 1]];
  }

  lemma AddAtEnd(xs: seq<Elem>, v: Elem, posted: bool)
    ensures Accounts(xs, Pushed(v, posted), xs + [v]) && Accounts(xs, PushedFront(v, posted), [v] + xs)
  {
  }

  lemma LeftAlone(xs: seq<Elem>, v: Elem)
    ensures Accounts(xs, Missed, xs) && Accounts(xs, FrontRefused, xs)
    ensures Accounts(xs, Peeked(v, true), xs) && Accounts(xs, Peeked(v, false), xs)
  {
  }

  lemma AddInside(xs: seq<Elem>, i: nat, vs: seq<Elem>, posted: bool)
    requires i <= |xs|
    ensures forall at: nat :: Accounts(xs, Inserted(vs, at, posted), xs[..i] + vs + xs[i..])
  {
    assert xs == xs[..i] + xs[i..];
  }

  lemma PopAccounted(s: State, t: nat, op: Op)
    requires t < |s.pcs| && (op.PopFront? || op.PopBack?)
    ensures AccountedStep(s, HoldingSection(s, t, op))
  {
    hide Accounts;
    LeftAlone(s.q.items, 0);
    if s.q.items != [] {
      RemoveFront(s.q.items);
      RemoveBack(s.q.items);
    }
  }

  lemma HoldingAccounted(s: State, t: nat, op: Op)
    requires t < |s.pcs|
    ensures AccountedStep(s, HoldingSection(s, t, op))
  {
    hide Accounts;
    var xs := s.q.items;
    if op.PopFront? || op.PopBack? {
      PopAccounted(s, t, op);
    } else if op.PushFront? {
      AddAtEnd(xs, op.v, Posted(s.q));
      LeftAlone(xs, 0);
    } else if xs != [] {
      LeftAlone(xs, xs[0]);
      LeftAlone(xs, xs[|xs| - 1]);
    } else {
      LeftAlone(xs, 0);
    }
  }

  lemma PlainAccounted(s: State, t: nat, op: Op)
    requires t < |s.pcs|
    ensures AccountedStep(s, PlainSection(s, t, op))
  {
    hide Accounts;
    var xs := s.q.items;
    if op.PushBack? {
      AddAtEnd(xs, op.v, Posted(s.q));
    } else if op.Insert? {
      AddInside(xs, if op.at <= |xs| then op.at else |xs|, op.vs, Posted(s.q));
    }
  }

  lemma DrainAccounted(s: State, t: nat, op: Op)
    requires t < |s.pcs|
    ensures AccountedStep(s, DrainSection(s, t, op))
  {
    hide Accounts;
    if s.q.items != [] {
      RemoveFront(s.q.items);
      RemoveBack(s.q.items);
    }
  }

  lemma UncountedEvents(xs: seq<Elem>, posted: bool)
    ensures Accounts(xs, Dropped, xs) && Accounts(xs, AbortPosted(posted), xs) && Accounts(xs, Cleared(xs), [])
  {
  }

  lemma NextAccounted(s: State, turn: Turn)
    ensures AccountedStep(s, Next(s, turn))
  {
    var t := turn.thread;
    UncountedEvents(s.q.items, Posted(s.q));
    hide Accounts;
    if t < |s.pcs| {
      match s.pcs[t] {
        case Holding(op) => HoldingAccounted(s, t, op);
        case Section(op) => PlainAccounted(s, t, op);
        case Drain(op) => DrainAccounted(s, t, op);
        case _ =>
      }
    }
  }

  lemma Regroup(i: multiset<Elem>, o: multiset<Elem>, x: multiset<Elem>, a: multiset<Elem>, r: multiset<Elem>,
                x': multiset<Elem>)
    requires i == o + x && x + a == r + x'
    ensures i + a == (o + r) + x'
  {
    forall k ensures (i + a)[k] == ((o + r) + x')[k] {
      assert (x + a)[k] == (r + x')[k];
    }
  }

  lemma AccountedStepKeeps(s: State, s': State)
    requires AccountedStep(s, s')
    requires multiset(In(s.log)) == multiset(Out(s.log)) + multiset(s.q.items)
    ensures multiset(In(s'.log)) == multiset(Out(s'.log)) + multiset(s'.q.items)
  {
    if |s'.log| != |s.log| {
      var e := s'.log[|s.log|];
      LogSnoc(s.log, e);
      hide In, Out, Added, Removed;
      Regroup(multiset(In(s.log)), multiset(Out(s.log)), multiset(s.q.items), multiset(Added(e)),
              multiset(Removed(e)), multiset(s'.q.items));
    }
  }

  /** In every run of every operation the elements that went in are, counted with multiplicity, those that came
      out and those still queued. */
  lemma {:induction false} ElementConservation(threads: nat, maxSize: nat, turns: seq<Turn>)
    ensures
      var s := Exec(Init(threads, maxSize), turns);
      multiset(In(s.log)) == multiset(Out(s.log)) + multiset(s.q.items)
  {
    if turns == [] {
    } else {
      var init := turns[..|turns| - 1];
      var s := Exec(Init(threads, maxSize), init);
      ElementConservation(threads, maxSize, init);
      NextAccounted(s, turns[|turns| - 1]);
      AccountedStepKeeps(s, Next(s, turns[|turns| - 1]));
    }
  }
}

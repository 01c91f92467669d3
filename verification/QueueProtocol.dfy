/** Every interleaving of the operations of base/src/MsgDeque.h by any number of threads.

    A thread is a program counter; the steps are the points where another thread can see a difference: the abort
    test before the mutex, the head of the wait loop, the semaphore operation, the re-test of the flag after it,
    and the section under the mutex. A schedule lists (thread, choice) pairs; a choice the thread cannot make
    leaves the state as it is, so a statement about every schedule is a statement about every run. */
module QueueProtocol {
  import opened Counting
  import opened QueueSpec

  datatype Pc =
    | Idle
    | Entry(op: Op)     // before the unlocked abort test
    | Head(op: Op)      // head of the wait loop
    | Waiting(op: Op)   // in sem_wait or sem_timedwait
    | Woken(op: Op)     // has a token, flag not re-tested yet
    | Holding(op: Op)   // has a token, before the section
    | Section(op: Op)   // no token needed, before the section
    | Drain(op: Op)     // pop on an aborted queue, before the section
    | Posting(op: Op)   // AbortWait between the flag and the posts
    | Clearing(op: Op)  // Clear before m_deque.clear()

  /** What happened, in commit order. `posted` is false when sem_post met a full semaphore. */
  datatype Event =
    | Pushed(v: Elem, posted: bool)
    | PushedFront(v: Elem, posted: bool)
    | FrontRefused                            // PushFront spent a token on a full queue
    | Inserted(vs: seq<Elem>, at: nat, posted: bool)
    | Popped(v: Elem, front: bool)
    | Missed                                  // a token holder met an empty deque
    | Peeked(v: Elem, front: bool)            // Front or Back: a token spent, nothing removed
    | Drained(v: Elem, front: bool)           // removed without a token
    | Dropped                                 // a token spent by a waiter that then saw the flag
    | AbortPosted(posted: bool)
    | Cleared(vs: seq<Elem>)

  datatype State = State(q: Shared, pcs: seq<Pc>, log: seq<Event>, undefined: bool)

  /** `Stale` resolves the test of a leftover errno after a successful wait that met the abort flag. */
  datatype Choice = Begin(op: Op) | Go | Interrupt | Timeout | Stale

  datatype Turn = Turn(thread: nat, choice: Choice)

  function Init(threads: nat, maxSize: nat): State {
    State(Fresh(maxSize), seq(threads, _ => Idle), [], false)
  }

  function Move(s: State, t: nat, pc: Pc): State
    requires t < |s.pcs|
  {
    s.(pcs := s.pcs[t := pc])
  }

  function Commit(s: State, t: nat, q: Shared, e: Event): State
    requires t < |s.pcs|
  {
    s.(q := q, pcs := s.pcs[t := Idle], log := s.log + [e])
  }

  predicate Posted(q: Shared) {
    q.notEmpty < SEM_VALUE_MAX
  }

  /** The first program counter of an operation: Front and Back have no abort test of their own. */
  function FirstPc(op: Op): Pc {
    if op.Front? || op.Back? then Head(op) else if op.SetMax? then Section(op) else Entry(op)
  }

  function AfterEntry(op: Op, abort: bool): Pc {
    match op
    case PushBack(_) | Insert(_, _) => if abort then Idle else Section(op)
    case PopFront(_) | PopBack(_) => if abort then Drain(op) else Head(op)
    case PushFront(_, _) => if abort then Idle else Head(op)
    case Abort | Clear => Posting(op)
    case _ => Idle
  }

  /** The section run by a thread that holds a token. */
  function HoldingSection(s: State, t: nat, op: Op): State
    requires t < |s.pcs|
  {
    var q := s.q;
    match op
    case PopFront(_) =>
      Commit(s, t, PopFrontSection(q), if q.items == [] then Missed else Popped(q.items[0], true))
    case Front(_) =>
      Commit(s, t, q, if q.items == [] then Missed else Peeked(q.items[0], true))
    case PopBack(_) =>
      if q.items == [] then Commit(s, t, q, Missed).(undefined := true)
      else Commit(s, t, PopBackSection(q), Popped(q.items[|q.items| - 1], false))
    case Back(_) =>
      if q.items == [] then Commit(s, t, q, Missed).(undefined := true)
      else Commit(s, t, q, Peeked(q.items[|q.items| - 1], false))
    case PushFront(v, _) =>
      Commit(s, t, PushFrontSection(q, v), if IsFull(q, 0) then FrontRefused else PushedFront(v, Posted(q)))
    case _ => s
  }

  /** The section run by a thread that needs no token. */
  function PlainSection(s: State, t: nat, op: Op): State
    requires t < |s.pcs|
  {
    var q := s.q;
    match op
    case PushBack(v) =>
      if IsFull(q, 0) then Move(s, t, Idle) else Commit(s, t, PushBackSection(q, v), Pushed(v, Posted(q)))
    case Insert(at, vs) =>
      if IsFull(q, |vs|) then Move(s, t, Idle)
      else Commit(s, t, InsertSection(q, at, vs), Inserted(vs, at, Posted(q)))
    case SetMax(size) => Move(s.(q := SetMaxSection(q, size)), t, Idle)
    case _ => s
  }

  function DrainSection(s: State, t: nat, op: Op): State
    requires t < |s.pcs|
  {
    var q := s.q;
    if q.items == [] then Move(s, t, Idle)
    else if op.PopFront? then Commit(s, t, DrainFrontSection(q), Drained(q.items[0], true))
    else Commit(s, t, DrainBackSection(q), Drained(q.items[|q.items| - 1], false))
  }

  function PostingStep(s: State, t: nat, op: Op): State
    requires t < |s.pcs|
  {
    var s' := Commit(s, t, AbortPost(s.q), AbortPosted(Posted(s.q)));
    if op.Clear? then Move(s', t, Clearing(op)) else s'
  }

  function WakeAborted(s: State, t: nat, pc: Pc): State
    requires t < |s.pcs|
  {
    Move(s.(log := s.log + [Dropped]), t, pc)
  }

  function Next(s: State, turn: Turn): State {
    var t := turn.thread;
    if t >= |s.pcs| then s
    else
      match s.pcs[t]
      case Idle =>
        if turn.choice.Begin? then Move(s, t, FirstPc(turn.choice.op)) else s
      case Entry(op) =>
        if !turn.choice.Go? then s
        else Move(if op.Abort? || op.Clear? then s.(q := AbortFlag(s.q)) else s, t, AfterEntry(op, s.q.abort))
      case Head(op) =>
        if !turn.choice.Go? then s else Move(s, t, if s.q.abort then Idle else Waiting(op))
      case Waiting(op) =>
        (match turn.choice
         case Go => if s.q.notEmpty > 0 then Move(s.(q := TakeToken(s.q)), t, Woken(op)) else s
         case Interrupt => Move(s, t, Head(op))
         case Timeout => if Forever(op) then s else Move(s, t, Idle)
         case _ => s)
      case Woken(op) =>
        if turn.choice.Go? then if s.q.abort then WakeAborted(s, t, Idle) else Move(s, t, Holding(op))
        else if turn.choice.Stale? && s.q.abort then WakeAborted(s, t, Head(op))
        else s
      case Holding(op) => if turn.choice.Go? then HoldingSection(s, t, op) else s
      case Section(op) => if turn.choice.Go? then PlainSection(s, t, op) else s
      case Drain(op) => if turn.choice.Go? then DrainSection(s, t, op) else s
      case Posting(op) => if turn.choice.Go? then PostingStep(s, t, op) else s
      case Clearing(op) =>
        if turn.choice.Go? then Commit(s, t, ClearItems(s.q), Cleared(s.q.items)) else s
  }

  function Exec(s: State, turns: seq<Turn>): State {
    if turns == [] then s else Next(Exec(s, turns[..|turns| - 1]), turns[|turns| - 1])
  }

  /** A thread stands between the flag and the posts of AbortWait, with the mutex. The statements about every schedule
      do not depend on it; the concrete runs respect it. */
  predicate Locked(s: State) {
    exists t :: 0 <= t < |s.pcs| && s.pcs[t].Posting?
  }

  /** The turn takes the mutex. */
  predicate Acquires(s: State, turn: Turn) {
    && turn.thread < |s.pcs| && turn.choice.Go?
    && match s.pcs[turn.thread]
       case Holding(_) => true
       case Section(_) => true
       case Drain(_) => true
       case Entry(op) => op.Abort? || op.Clear?
       case _ => false
  }

  /** No turn of the run takes the mutex while it is held. */
  predicate Respects(s: State, turns: seq<Turn>) {
    turns == [] ||
      (&& Respects(s, turns[..|turns| - 1])
       && var s' := Exec(s, turns[..|turns| - 1]); Acquires(s', turns[|turns| - 1]) ==> !Locked(s'))
  }

  lemma ExecSnoc(s: State, turns: seq<Turn>, turn: Turn)
    ensures Exec(s, turns + [turn]) == Next(Exec(s, turns), turn)
  {
    assert (turns + [turn])[..|turns|] == turns;
  }

  /* ------------------------------------------------------------------ the token ledger */

  predicate HoldsToken(pc: Pc) {
    pc.Woken? || pc.Holding?
  }

  function Held(s: State): nat {
    Count(s.pcs, HoldsToken)
  }

  /** By how much an event separates the number of elements from the number of tokens. */
  function Weight(e: Event): int {
    match e
    case Pushed(_, posted) => if posted then 0 else 1
    case PushedFront(_, posted) => if posted then 1 else 2
    case FrontRefused => 1
    case Inserted(vs, _, posted) => if posted then |vs| - 1 else |vs|
    case Popped(_, _) => 0
    case Missed => 1
    case Peeked(_, _) => 1
    case Drained(_, _) => -1
    case Dropped => 1
    case AbortPosted(posted) => if posted then -1 else 0
    case Cleared(vs) => -|vs|
  }

  function Balance(log: seq<Event>): int {
    if log == [] then 0 else Balance(log[..|log| - 1]) + Weight(log[|log| - 1])
  }

  lemma BalanceSnoc(log: seq<Event>, e: Event)
    ensures Balance(log + [e]) == Balance(log) + Weight(e)
  {
    assert (log + [e])[..|log|] == log;
  }

  predicate Ledger(s: State) {
    |s.q.items| == s.q.notEmpty + Held(s) + Balance(s.log)
  }

  function Token(pc: Pc): nat {
    if HoldsToken(pc) then 1 else 0
  }

  /** One thread moves from one program counter to another, with one event logged or none. */
  predicate Moves(s: State, t: nat, s': State, weight: int)
    requires t < |s.pcs|
  {
    && |s'.pcs| == |s.pcs| && s'.pcs == s.pcs[t := s'.pcs[t]]
    && ((s'.log == s.log && weight == 0)
        || (|s'.log| == |s.log| + 1 && s'.log == s.log + [s'.log[|s.log|]] && weight == Weight(s'.log[|s.log|])))
    && |s'.q.items| - |s.q.items|
       == s'.q.notEmpty - s.q.notEmpty + Token(s'.pcs[t]) - Token(s.pcs[t]) + weight
  }

  lemma MovesKeepLedger(s: State, t: nat, s': State, weight: int)
    requires t < |s.pcs| && Moves(s, t, s', weight) && Ledger(s)
    ensures Ledger(s')
  {
    CountUpdate(s.pcs, t, s'.pcs[t], HoldsToken);
    if s'.log != s.log {
      BalanceSnoc(s.log, s'.log[|s.log|]);
    }
  }

  lemma HoldingMoves(s: State, t: nat, op: Op) returns (weight: int)
    requires t < |s.pcs| && s.pcs[t] == Holding(op)
    ensures HoldingSection(s, t, op) != s ==> Moves(s, t, HoldingSection(s, t, op), weight)
  {
    var s' := HoldingSection(s, t, op);
    weight := if |s'.log| == |s.log| + 1 then Weight(s'.log[|s.log|]) else 0;
  }

  lemma PlainMoves(s: State, t: nat, op: Op) returns (weight: int)
    requires t < |s.pcs| && s.pcs[t] == Section(op)
    ensures PlainSection(s, t, op) != s ==> Moves(s, t, PlainSection(s, t, op), weight)
  {
    var s' := PlainSection(s, t, op);
    weight := if |s'.log| == |s.log| + 1 then Weight(s'.log[|s.log|]) else 0;
  }

  lemma DrainMoves(s: State, t: nat, op: Op) returns (weight: int)
    requires t < |s.pcs| && s.pcs[t] == Drain(op)
    ensures Moves(s, t, DrainSection(s, t, op), weight)
  {
    weight := if s.q.items == [] then 0 else -1;
  }

  lemma PostingMoves(s: State, t: nat, op: Op) returns (weight: int)
    requires t < |s.pcs| && s.pcs[t] == Posting(op)
    ensures Moves(s, t, PostingStep(s, t, op), weight)
  {
    var s' := PostingStep(s, t, op);
    assert s'.pcs == s.pcs[t := s'.pcs[t]];
    weight := Weight(s'.log[|s.log|]);
  }

  lemma NextKeepsLedger(s: State, turn: Turn)
    requires Ledger(s)
    ensures Ledger(Next(s, turn))
  {
    var t := turn.thread;
    var s' := Next(s, turn);
    hide Ledger, HoldingSection, PlainSection, DrainSection, PostingStep;
    if t < |s.pcs| && s' != s {
      var weight := 0;
      match s.pcs[t] {
        case Holding(op) => weight := HoldingMoves(s, t, op);
        case Section(op) => weight := PlainMoves(s, t, op);
        case Drain(op) => weight := DrainMoves(s, t, op);
        case Posting(op) => weight := PostingMoves(s, t, op);
        case Clearing(op) => weight := -|s.q.items|;
        case Woken(op) => weight := if s.q.abort then 1 else 0;
        case _ =>
      }
      MovesKeepLedger(s, t, s', weight);
    }
  }

  /** Main theorem: in every run of every operation, by any number of threads, the deque holds exactly one element
      for each token in the semaphore or in a thread's hands, plus what the logged events account for. */
  lemma {:induction false} LedgerLaw(threads: nat, maxSize: nat, turns: seq<Turn>)
    ensures Ledger(Exec(Init(threads, maxSize), turns))
  {
    var s0 := Init(threads, maxSize);
    if turns == [] {
      CountNone(s0.pcs, HoldsToken);
    } else {
      LedgerLaw(threads, maxSize, turns[..|turns| - 1]);
      NextKeepsLedger(Exec(s0, turns[..|turns| - 1]), turns[|turns| - 1]);
    }
  }
}

/** The two forms of the queue agree: an operation whose steps run with nobody else moving does what QueueSpec.Call,
    and with it the method of class MsgDeque, says. */
module QueueSolo {
  import opened QueueSpec
  import opened QueueProtocol

  predicate Waits(op: Op) {
    op.Front? || op.Back? || op.PopFront? || op.PopBack? || op.PushFront?
  }

  /** The answer of an operation, read off the events it logged. */
  function Told(op: Op, news: seq<Event>, undefined: bool): Reply {
    if undefined then Undefined
    else if news == [] then
      if op.SetMax? then Accepted else if op.PushBack? || op.Insert? || op.PushFront? then Refused else Nothing
    else
      match news[|news| - 1]
      case Popped(v, _) => Got(v)
      case Peeked(v, _) => Got(v)
      case Drained(v, _) => Got(v)
      case Missed => Nothing
      case FrontRefused => Refused
      case _ => Accepted
  }

  /** Thread t is back where it started, with the state and the answer of one call. */
  predicate Called(s: State, op: Op, s': State) {
    && s'.q == Call(s.q, op).q
    && s.log <= s'.log && Told(op, s'.log[|s.log|..], s'.undefined) == Call(s.q, op).reply
    && Call(s.q, op).reply != Sleeping
  }

  /** Where the operation can be when it has run alone so far. */
  predicate Along(s: State, t: nat, op: Op, s': State)
    requires t < |s.pcs|
  {
    && |s'.pcs| == |s.pcs| && s'.pcs == s.pcs[t := s'.pcs[t]]
    && (s'.pcs[t].Idle? || s'.pcs[t].op == op)
    && var quiet := s'.log == s.log && !s'.undefined;
    match s'.pcs[t]
    case Idle => Called(s, op, s')
    case Entry(_) => quiet && s'.q == s.q && !op.Front? && !op.Back? && !op.SetMax?
    case Head(_) => quiet && s'.q == s.q && Waits(op) && (s.q.abort ==> op.Front? || op.Back?)
    case Waiting(_) => quiet && s'.q == s.q && Waits(op) && !s.q.abort
    case Woken(_) => quiet && Waits(op) && Granted(s.q) && s'.q == TakeToken(s.q)
    case Holding(_) => quiet && Waits(op) && Granted(s.q) && s'.q == TakeToken(s.q)
    case Section(_) => quiet && s'.q == s.q && (op.SetMax? || (!s.q.abort && (op.PushBack? || op.Insert?)))
    case Drain(_) => quiet && s'.q == s.q && s.q.abort && (op.PopFront? || op.PopBack?)
    case Posting(_) => quiet && s'.q == AbortFlag(s.q) && (op.Abort? || op.Clear?)
    case Clearing(_) => op.Clear? && s'.q == AbortPost(AbortFlag(s.q)) && s.log <= s'.log && !s'.undefined
  }

  /** Turns of thread t inside one operation; a deadline passes only where no token is to be had. */
  predicate Alone(t: nat, turns: seq<Turn>, tokens: bool) {
    forall i :: 0 <= i < |turns| ==>
      turns[i].thread == t && !turns[i].choice.Begin? && (turns[i].choice.Timeout? ==> !tokens)
  }

  lemma HoldingAlong(s: State, t: nat, op: Op, s': State)
    requires t < |s.pcs| && Along(s, t, op, s') && s'.pcs[t] == Holding(op)
    ensures Along(s, t, op, HoldingSection(s', t, op))
  {
  }

  lemma PlainAlong(s: State, t: nat, op: Op, s': State)
    requires t < |s.pcs| && Along(s, t, op, s')
    ensures s'.pcs[t] == Section(op) ==> Along(s, t, op, PlainSection(s', t, op))
    ensures s'.pcs[t] == Drain(op) ==> Along(s, t, op, DrainSection(s', t, op))
  {
  }

  lemma PostingAlong(s: State, t: nat, op: Op, s': State)
    requires t < |s.pcs| && Along(s, t, op, s') && s'.pcs[t] == Posting(op)
    ensures Along(s, t, op, PostingStep(s', t, op))
  {
  }

  lemma NextAlong(s: State, t: nat, op: Op, s': State, turn: Turn)
    requires t < |s.pcs| && Along(s, t, op, s')
    requires turn.thread == t && !turn.choice.Begin? && (turn.choice.Timeout? ==> s.q.notEmpty == 0)
    ensures Along(s, t, op, Next(s', turn))
  {
    match s'.pcs[t]
    case Holding(_) => HoldingAlong(s, t, op, s');
    case Section(_) => PlainAlong(s, t, op, s');
    case Drain(_) => PlainAlong(s, t, op, s');
    case Posting(_) => PostingAlong(s, t, op, s');
    case _ =>
  }

  function Begun(s: State, t: nat, op: Op): State {
    Next(s, Turn(t, Begin(op)))
  }

  lemma {:induction false} AlongRun(s: State, t: nat, op: Op, turns: seq<Turn>)
    requires t < |s.pcs| && s.pcs[t] == Idle && !s.undefined && Alone(t, turns, s.q.notEmpty > 0)
    ensures Along(s, t, op, Exec(Begun(s, t, op), turns))
  {
    if turns == [] {
    } else {
      var last := |turns| - 1;
      AlongRun(s, t, op, turns[..last]);
      NextAlong(s, t, op, Exec(Begun(s, t, op), turns[..last]), turns[last]);
    }
  }

  /** Main theorem: every way to run one of the ten operations alone, whatever signals and deadlines do in between,
      that brings the thread back gives the state and the answer of the call. */
  lemma SoloCall(s: State, t: nat, op: Op, turns: seq<Turn>)
    requires t < |s.pcs| && s.pcs[t] == Idle && !s.undefined && Alone(t, turns, s.q.notEmpty > 0)
    ensures var s' := Exec(Begun(s, t, op), turns); s'.pcs == s.pcs ==>
      && s'.q == Call(s.q, op).q
      && s.log <= s'.log && Told(op, s'.log[|s.log|..], s'.undefined) == Call(s.q, op).reply
  {
    AlongRun(s, t, op, turns);
  }

  /** Steps left in an operation that runs alone. */
  function Left(pc: Pc): nat {
    match pc
    case Idle => 0
    case Holding(_) => 1
    case Section(_) => 1
    case Drain(_) => 1
    case Clearing(_) => 1
    case Woken(_) => 2
    case Posting(_) => 2
    case Waiting(_) => 3
    case Head(_) => 4
    case Entry(_) => 5
  }

  lemma StepOn(s: State, t: nat, op: Op, s': State, choice: Choice)
    requires t < |s.pcs| && Along(s, t, op, s') && s'.pcs[t] != Idle
    requires choice == if s'.pcs[t].Waiting? && s.q.notEmpty == 0 then Timeout else Go
    requires Call(s.q, op).reply != Sleeping
    ensures Left(Next(s', Turn(t, choice)).pcs[t]) < Left(s'.pcs[t])
  {
  }

  /** Alone, an operation waits for the mutex only if another thread holds it from the start. */
  lemma AloneIsFree(s: State, t: nat, op: Op, s': State, choice: Choice)
    requires t < |s.pcs| && Along(s, t, op, s') && !Locked(s) && Acquires(s', Turn(t, choice))
    ensures !Locked(s')
  {
  }

  lemma GoodChoice(s: State, t: nat, op: Op, s': State) returns (choice: Choice)
    requires t < |s.pcs| && Along(s, t, op, s') && s'.pcs[t] != Idle && Call(s.q, op).reply != Sleeping
    ensures !choice.Begin? && (choice.Timeout? ==> s.q.notEmpty == 0)
    ensures Left(Next(s', Turn(t, choice)).pcs[t]) < Left(s'.pcs[t])
    ensures !Locked(s) && Acquires(s', Turn(t, choice)) ==> !Locked(s')
  {
    choice := if s'.pcs[t].Waiting? && s.q.notEmpty == 0 then Timeout else Go;
    StepOn(s, t, op, s', choice);
    if !Locked(s) && Acquires(s', Turn(t, choice)) { AloneIsFree(s, t, op, s', choice); }
  }

  /** So far the operation has run alone, with the mutex respected if it was free at the start. */
  predicate Underway(s: State, t: nat, op: Op, turns: seq<Turn>) {
    && Alone(t, turns, s.q.notEmpty > 0) && (!Locked(s) ==> Respects(Begun(s, t, op), turns))
    && |Exec(Begun(s, t, op), turns).pcs| == |s.pcs|
  }

  lemma OneStepOn(s: State, t: nat, op: Op, turns: seq<Turn>) returns (turns': seq<Turn>)
    requires t < |s.pcs| && s.pcs[t] == Idle && !s.undefined && Underway(s, t, op, turns)
    requires Call(s.q, op).reply != Sleeping && Exec(Begun(s, t, op), turns).pcs[t] != Idle
    ensures Underway(s, t, op, turns')
    ensures Left(Exec(Begun(s, t, op), turns').pcs[t]) < Left(Exec(Begun(s, t, op), turns).pcs[t])
  {
    var s' := Exec(Begun(s, t, op), turns);
    hide Next, Along, Locked, Acquires, Begun, Left, Call;
    AlongRun(s, t, op, turns);
    var choice := GoodChoice(s, t, op, s');
    turns' := turns + [Turn(t, choice)];
    ExecSnoc(Begun(s, t, op), turns, Turn(t, choice));
    assert turns'[..|turns|] == turns;
    AlongRun(s, t, op, turns');
    SameThreads(s, t, op, Exec(Begun(s, t, op), turns'));
  }

  lemma {:induction false} ComesBack(s: State, t: nat, op: Op, turns: seq<Turn>) returns (turns': seq<Turn>)
    requires t < |s.pcs| && s.pcs[t] == Idle && !s.undefined && Underway(s, t, op, turns)
    requires Call(s.q, op).reply != Sleeping
    ensures Underway(s, t, op, turns') && Exec(Begun(s, t, op), turns').pcs[t] == Idle
    decreases Left(Exec(Begun(s, t, op), turns).pcs[t])
  {
    hide Exec, Begun, Call, Left;
    turns' := turns;
    if Exec(Begun(s, t, op), turns).pcs[t] != Idle {
      turns' := OneStepOn(s, t, op, turns);
      turns' := ComesBack(s, t, op, turns');
    }
  }

  lemma SameThreads(s: State, t: nat, op: Op, s': State)
    requires t < |s.pcs| && Along(s, t, op, s')
    ensures |s'.pcs| == |s.pcs|
  {
  }

  /** An operation run alone can come back exactly when its call does not wait for ever; and then it can with the
      mutex respected, unless another thread holds the mutex all the time. */
  lemma ReturnsIff(s: State, t: nat, op: Op)
    requires t < |s.pcs| && s.pcs[t] == Idle && !s.undefined
    ensures (exists turns :: Returns(s, t, op, turns)) <==> Call(s.q, op).reply != Sleeping
    ensures !Locked(s) ==>
      ((exists turns :: Returns(s, t, op, turns) && Respects(Begun(s, t, op), turns))
       <==> Call(s.q, op).reply != Sleeping)
  {
    if Call(s.q, op).reply != Sleeping {
      AlongRun(s, t, op, []);
      var turns := ComesBack(s, t, op, []);
      AlongRun(s, t, op, turns);
      assert Returns(s, t, op, turns);
    } else {
      forall turns ensures !Returns(s, t, op, turns) {
        if Returns(s, t, op, turns) { AlongRun(s, t, op, turns); }
      }
    }
  }

  predicate Returns(s: State, t: nat, op: Op, turns: seq<Turn>) {
    Alone(t, turns, s.q.notEmpty > 0) && Exec(Begun(s, t, op), turns).pcs == s.pcs
  }
}

/** Which programs are safe: for an arbitrary set of allowed operations, when every run is free of back() on an empty
    deque, and when every run keeps one token for each element. */
module QueuePrograms {
  import opened Counting
  import opened QueueSpec
  import opened QueueProtocol
  import opened QueueSafety

  /* ------------------------------------------------------------------ what a program can do */

  ghost predicate Uses(allowed: Op -> bool, kind: Op -> bool) {
    exists op :: allowed(op) && kind(op)
  }

  predicate TakesBack(op: Op) {
    op.Back? || op.PopBack?
  }

  predicate Drains(op: Op) {
    op.PopFront? || op.PopBack?
  }

  /** Spends a token without removing an element. */
  predicate Spends(op: Op) {
    op.Front? || op.Back? || op.PushFront?
  }

  /** Adds and posts without a token of its own. */
  predicate Adds(op: Op) {
    op.PushBack? || op.Insert?
  }

  /** How much an accepted operation adds, and the offset its capacity test is made with. */
  function Amount(op: Op): nat {
    if op.Insert? then |op.vs| else 1
  }

  function Offset(op: Op): nat {
    if op.Insert? then |op.vs| else 0
  }

  /** Some limit the program starts with or sets lets this through when the deque is empty. */
  ghost predicate Fits(allowed: Op -> bool, maxSize: nat, offset: nat) {
    ClampSize(maxSize) > offset || exists size :: allowed(SetMax(size)) && ClampSize(size) > offset
  }

  /** The program may run this operation, and the queue accepts it at some time. */
  ghost predicate Admits(allowed: Op -> bool, maxSize: nat, op: Op) {
    allowed(op) && Adds(op) && Fits(allowed, maxSize, Offset(op))
  }

  ghost predicate AddsNothing(allowed: Op -> bool, maxSize: nat) {
    exists op :: Admits(allowed, maxSize, op) && Amount(op) == 0
  }

  ghost predicate AddsSome(allowed: Op -> bool, maxSize: nat) {
    exists op :: Admits(allowed, maxSize, op) && Amount(op) > 0
  }

  ghost predicate AddsOne(allowed: Op -> bool, maxSize: nat) {
    exists op :: Admits(allowed, maxSize, op) && Amount(op) == 1
  }

  ghost predicate AddsUnevenly(allowed: Op -> bool, maxSize: nat) {
    exists op :: Admits(allowed, maxSize, op) && Amount(op) != 1
  }

  /* ------------------------------------------------------------------ concrete runs */

  /** Made of allowed operations, and respecting the mutex. */
  ghost predicate Legal(s0: State, turns: seq<Turn>, allowed: Op -> bool) {
    Obeys(turns, allowed) && Respects(s0, turns)
  }

  /** One more turn of a concrete run. */
  lemma Take(s0: State, turns: seq<Turn>, turn: Turn, allowed: Op -> bool) returns (turns': seq<Turn>)
    requires Legal(s0, turns, allowed)
    requires turn.choice.Begin? ==> allowed(turn.choice.op)
    requires Acquires(Exec(s0, turns), turn) ==> !Locked(Exec(s0, turns))
    ensures Exec(s0, turns') == Next(Exec(s0, turns), turn) && Legal(s0, turns', allowed)
  {
    turns' := turns + [turn];
    ExecSnoc(s0, turns, turn);
    assert turns'[..|turns|] == turns;
  }

  /** Thread t runs an operation that needs no token from its start to its section. */
  lemma TakeSection(s0: State, turns: seq<Turn>, t: nat, op: Op, allowed: Op -> bool) returns (turns': seq<Turn>)
    requires Legal(s0, turns, allowed) && allowed(op)
    requires Adds(op) || op.SetMax?
    requires var s := Exec(s0, turns); t < |s.pcs| && s.pcs[t] == Idle && !s.q.abort
    requires !Locked(Exec(s0, turns))
    ensures Legal(s0, turns', allowed) && !Locked(Exec(s0, turns'))
    ensures var s := Exec(s0, turns); Exec(s0, turns') == PlainSection(Move(s, t, Section(op)), t, op)
  {
    var s := Exec(s0, turns);
    turns' := Take(s0, turns, Turn(t, Begin(op)), allowed);
    if !op.SetMax? {
      turns' := Take(s0, turns', Turn(t, Go), allowed);
      assert s.pcs[t := Entry(op)][t := Section(op)] == s.pcs[t := Section(op)];
    }
    assert Exec(s0, turns') == Move(s, t, Section(op));
    turns' := Take(s0, turns', Turn(t, Go), allowed);
  }

  /** Thread t runs an operation that waits up to the point where it holds a token and has passed the flag tests. */
  lemma TakeToken(s0: State, turns: seq<Turn>, t: nat, op: Op, allowed: Op -> bool) returns (turns': seq<Turn>)
    requires Legal(s0, turns, allowed) && allowed(op) && (Drains(op) || Spends(op))
    requires var s := Exec(s0, turns); t < |s.pcs| && s.pcs[t] == Idle && !s.q.abort && s.q.notEmpty > 0
    requires !Locked(Exec(s0, turns))
    ensures Legal(s0, turns', allowed) && !Locked(Exec(s0, turns'))
    ensures var s := Exec(s0, turns);
      Exec(s0, turns') == Move(s.(q := QueueSpec.TakeToken(s.q)), t, Holding(op))
  {
    var s := Exec(s0, turns);
    turns' := TakeHead(s0, turns, t, op, allowed);
    turns' := Take(s0, turns', Turn(t, Go), allowed);
    turns' := Take(s0, turns', Turn(t, Go), allowed);
    turns' := Take(s0, turns', Turn(t, Go), allowed);
    assert s.pcs[t := Head(op)][t := Waiting(op)][t := Woken(op)][t := Holding(op)] == s.pcs[t := Holding(op)];
  }

  lemma TakeHead(s0: State, turns: seq<Turn>, t: nat, op: Op, allowed: Op -> bool) returns (turns': seq<Turn>)
    requires Legal(s0, turns, allowed) && allowed(op) && (Drains(op) || Spends(op))
    requires var s := Exec(s0, turns); t < |s.pcs| && s.pcs[t] == Idle && !s.q.abort
    requires !Locked(Exec(s0, turns))
    ensures Legal(s0, turns', allowed) && !Locked(Exec(s0, turns'))
    ensures Exec(s0, turns') == Move(Exec(s0, turns), t, Head(op))
  {
    var s := Exec(s0, turns);
    turns' := Take(s0, turns, Turn(t, Begin(op)), allowed);
    if !op.Front? && !op.Back? {
      turns' := Take(s0, turns', Turn(t, Go), allowed);
      assert s.pcs[t := Entry(op)][t := Head(op)] == s.pcs[t := Head(op)];
    }
  }

  /** Thread t sets the flag. */
  lemma TakeFlag(s0: State, turns: seq<Turn>, t: nat, op: Op, allowed: Op -> bool) returns (turns': seq<Turn>)
    requires Legal(s0, turns, allowed) && allowed(op) && (op.Abort? || op.Clear?)
    requires var s := Exec(s0, turns); t < |s.pcs| && s.pcs[t] == Idle
    requires !Locked(Exec(s0, turns))
    ensures Legal(s0, turns', allowed)
    ensures var s := Exec(s0, turns); Exec(s0, turns') == Move(s.(q := AbortFlag(s.q)), t, Posting(op))
  {
    var s := Exec(s0, turns);
    turns' := Take(s0, turns, Turn(t, Begin(op)), allowed);
    turns' := Take(s0, turns', Turn(t, Go), allowed);
    assert s.pcs[t := Entry(op)][t := Posting(op)] == s.pcs[t := Posting(op)];
  }

  /** Thread t runs AbortWait, or Clear, to its end. */
  lemma TakeAbort(s0: State, turns: seq<Turn>, t: nat, op: Op, allowed: Op -> bool) returns (turns': seq<Turn>)
    requires Legal(s0, turns, allowed) && allowed(op) && (op.Abort? || op.Clear?)
    requires var s := Exec(s0, turns); t < |s.pcs| && s.pcs[t] == Idle
    requires !Locked(Exec(s0, turns))
    ensures Legal(s0, turns', allowed) && !Locked(Exec(s0, turns'))
    ensures var s, s' := Exec(s0, turns), Exec(s0, turns');
      && s'.pcs == s.pcs && s'.q.abort && s'.q.notEmpty == Post(s.q.notEmpty)
      && s'.q.items == if op.Clear? then [] else s.q.items
  {
    var s := Exec(s0, turns);
    turns' := TakeFlag(s0, turns, t, op, allowed);
    turns' := Take(s0, turns', Turn(t, Go), allowed);
    if op.Clear? {
      assert Exec(s0, turns').pcs == s.pcs[t := Clearing(op)];
      turns' := Take(s0, turns', Turn(t, Go), allowed);
    }
    assert Exec(s0, turns').pcs == s.pcs;
  }

  lemma TakeDrain(s0: State, turns: seq<Turn>, t: nat, op: Op, allowed: Op -> bool) returns (turns': seq<Turn>)
    requires Legal(s0, turns, allowed) && allowed(op) && Drains(op)
    requires var s := Exec(s0, turns); t < |s.pcs| && s.pcs[t] == Idle && s.q.abort && s.q.items != []
    requires !Locked(Exec(s0, turns))
    ensures Legal(s0, turns', allowed) && !Locked(Exec(s0, turns'))
    ensures var s, s' := Exec(s0, turns), Exec(s0, turns');
      s'.q.abort && s'.pcs == s.pcs && |s'.q.items| == |s.q.items| - 1
  {
    turns' := Take(s0, turns, Turn(t, Begin(op)), allowed);
    turns' := Take(s0, turns', Turn(t, Go), allowed);
    turns' := Take(s0, turns', Turn(t, Go), allowed);
    assert Exec(s0, turns').pcs == Exec(s0, turns).pcs;
  }

  /** Thread t drains the aborted queue. */
  lemma {:induction false} DrainAll(s0: State, turns: seq<Turn>, t: nat, op: Op, allowed: Op -> bool)
    returns (turns': seq<Turn>)
    requires Legal(s0, turns, allowed) && allowed(op) && Drains(op)
    requires var s := Exec(s0, turns); t < |s.pcs| && s.pcs[t] == Idle && s.q.abort
    requires !Locked(Exec(s0, turns))
    ensures Legal(s0, turns', allowed) && !Locked(Exec(s0, turns'))
    ensures var s, s' := Exec(s0, turns), Exec(s0, turns'); s'.pcs == s.pcs && s'.q.items == []
    decreases |Exec(s0, turns).q.items|
  {
    hide Legal, Next, Locked;
    turns' := turns;
    if Exec(s0, turns).q.items != [] {
      turns' := TakeDrain(s0, turns, t, op, allowed);
      turns' := DrainAll(s0, turns', t, op, allowed);
    }
  }

  /** An operation the program admits, alone on the new queue, after a change of the limit if it needs one. */
  lemma AdmitRun(threads: nat, maxSize: nat, op: Op, allowed: Op -> bool) returns (turns: seq<Turn>)
    requires threads >= 1 && Admits(allowed, maxSize, op)
    ensures Legal(Init(threads, maxSize), turns, allowed)
    ensures var s := Exec(Init(threads, maxSize), turns);
      && s.pcs == Init(threads, maxSize).pcs && !Locked(s) && !s.q.abort
      && s.q.notEmpty == 1 && |s.q.items| == Amount(op)
  {
    var s0 := Init(threads, maxSize);
    turns := [];
    if !(ClampSize(maxSize) > Offset(op)) {
      var size :| allowed(SetMax(size)) && ClampSize(size) > Offset(op);
      turns := TakeSection(s0, turns, 0, SetMax(size), allowed);
      assert s0.pcs[0 := Section(SetMax(size))][0 := Idle] == s0.pcs;
    }
    var s := Exec(s0, turns);
    assert s.pcs == s0.pcs && s.q.maxSize > Offset(op) && s.q.items == [];
    turns := TakeSection(s0, turns, 0, op, allowed);
    assert s0.pcs[0 := Section(op)][0 := Idle] == s0.pcs;
  }

  /* ------------------------------------------------------------------ what holds in every run of a program */

  ghost predicate LimitFrom(s: State, maxSize: nat, allowed: Op -> bool) {
    s.q.maxSize == ClampSize(maxSize) || exists size :: allowed(SetMax(size)) && s.q.maxSize == ClampSize(size)
  }

  ghost predicate OfProgram(s: State, maxSize: nat, allowed: Op -> bool) {
    Runs(s, allowed) && LimitFrom(s, maxSize, allowed)
  }

  /** Whatever is accepted is admitted. */
  lemma AcceptedIsAdmitted(s: State, t: nat, maxSize: nat, allowed: Op -> bool)
    requires OfProgram(s, maxSize, allowed) && t < |s.pcs| && s.pcs[t].Section? && Adds(s.pcs[t].op)
    requires !IsFull(s.q, Offset(s.pcs[t].op))
    ensures Admits(allowed, maxSize, s.pcs[t].op)
  {
  }

  lemma NextLimit(s: State, turn: Turn)
    ensures Next(s, turn).q.maxSize == s.q.maxSize
      || (turn.thread < |s.pcs| && s.pcs[turn.thread].Section? && s.pcs[turn.thread].op.SetMax?
          && Next(s, turn).q.maxSize == ClampSize(s.pcs[turn.thread].op.size))
  {
  }

  lemma {:induction false} ProgramRun(threads: nat, maxSize: nat, turns: seq<Turn>, allowed: Op -> bool)
    requires Obeys(turns, allowed)
    ensures OfProgram(Exec(Init(threads, maxSize), turns), maxSize, allowed)
  {
    if turns == [] {
    } else {
      var init := turns[..|turns| - 1];
      var s, turn := Exec(Init(threads, maxSize), init), turns[|turns| - 1];
      ProgramRun(threads, maxSize, init, allowed);
      NextOneThread(s, turn);
      NextRuns(s, turn, Next(s, turn), allowed);
      NextLimit(s, turn);
      hide Next, OneThread;
      if Next(s, turn).q.maxSize != s.q.maxSize {
        assert allowed(SetMax(s.pcs[turn.thread].op.size));
      }
    }
  }

  /* ------------------------------------------------------------------ programs that never fill the queue */

  /** No thread is about to add or post anything and be accepted. */
  predicate NoneAccepted(s: State) {
    forall t :: 0 <= t < |s.pcs| && s.pcs[t].Section? && Adds(s.pcs[t].op) ==> IsFull(s.q, Offset(s.pcs[t].op))
  }

  /** Empty, with no token but those of an abort, and nobody past the flag test. */
  predicate Barren(s: State) {
    && s.q.items == [] && !s.undefined
    && (forall t :: 0 <= t < |s.pcs| ==> !s.pcs[t].Holding?)
    && (!s.q.abort ==> s.q.notEmpty == 0 && forall t :: 0 <= t < |s.pcs| ==> !s.pcs[t].Woken? && !s.pcs[t].Posting?)
  }

  lemma NextKeepsBarren(s: State, turn: Turn)
    requires Barren(s) && NoneAccepted(s)
    ensures Barren(Next(s, turn))
  {
  }

  lemma {:induction false} BarrenRun(threads: nat, maxSize: nat, turns: seq<Turn>, allowed: Op -> bool)
    requires Obeys(turns, allowed)
    requires forall op :: !Admits(allowed, maxSize, op)
    ensures Barren(Exec(Init(threads, maxSize), turns))
  {
    if turns == [] {
    } else {
      var init := turns[..|turns| - 1];
      var s := Exec(Init(threads, maxSize), init);
      BarrenRun(threads, maxSize, init, allowed);
      ProgramRun(threads, maxSize, init, allowed);
      hide OfProgram, Barren, Next;
      forall t | 0 <= t < |s.pcs| && s.pcs[t].Section? && Adds(s.pcs[t].op) ensures IsFull(s.q, Offset(s.pcs[t].op)) {
        if !IsFull(s.q, Offset(s.pcs[t].op)) {
          AcceptedIsAdmitted(s, t, maxSize, allowed);
        }
      }
      NextKeepsBarren(s, turns[|turns| - 1]);
    }
  }

  /* ------------------------------------------------------------------ programs that never remove behind an abort */

  /** Removes no element. */
  predicate Stays(op: Op) {
    !Drains(op) && !op.Clear?
  }

  /** Aborted, and every token holder will find an element. */
  predicate Late(s: State) {
    && s.q.abort && !s.undefined && Runs(s, Stays)
    && (forall t :: 0 <= t < |s.pcs| ==> !s.pcs[t].Drain? && !s.pcs[t].Clearing?)
    && (forall t :: 0 <= t < |s.pcs| && s.pcs[t].Holding? ==> s.q.items != [])
  }

  /** What the sections of such operations do. */
  predicate KeepsItems(s: State, t: nat, s': State)
    requires t < |s.pcs|
  {
    s' == s || (&& s'.pcs == s.pcs[t := Idle] && s'.q.abort == s.q.abort && s'.undefined == s.undefined
                && |s'.q.items| >= |s.q.items|)
  }

  lemma HoldingKeepsItems(s: State, t: nat, op: Op)
    requires t < |s.pcs| && Stays(op) && s.q.items != []
    ensures KeepsItems(s, t, HoldingSection(s, t, op))
  {
  }

  lemma PlainKeepsItems(s: State, t: nat, op: Op)
    requires t < |s.pcs|
    ensures KeepsItems(s, t, PlainSection(s, t, op))
  {
  }

  lemma KeepsLate(s: State, t: nat, s': State)
    requires Late(s) && t < |s.pcs| && KeepsItems(s, t, s')
    ensures Late(s')
  {
  }

  lemma LatePosting(s: State, t: nat, op: Op)
    requires Late(s) && t < |s.pcs| && s.pcs[t] == Posting(op)
    ensures Late(PostingStep(s, t, op))
  {
  }

  lemma NextKeepsLate(s: State, turn: Turn)
    requires Late(s)
    requires turn.choice.Begin? ==> Stays(turn.choice.op)
    ensures Late(Next(s, turn))
  {
    hide HoldingSection, PlainSection, PostingStep;
    var t := turn.thread;
    if t < |s.pcs| {
      match s.pcs[t] {
        case Holding(op) => HoldingKeepsItems(s, t, op); KeepsLate(s, t, HoldingSection(s, t, op));
        case Section(op) => PlainKeepsItems(s, t, op); KeepsLate(s, t, PlainSection(s, t, op));
        case Posting(op) => LatePosting(s, t, op);
        case _ =>
      }
    }
  }

  /** The step that sets the flag. */
  lemma FlagStep(s: State, turn: Turn)
    requires TokenSafe(s) && Runs(s, Stays) && Next(s, turn).q.abort
    ensures Late(Next(s, turn))
  {
    TokensCovered(s);
  }

  lemma FlagNeedsAbort(s: State, turn: Turn, allowed: Op -> bool)
    requires !s.q.abort && Runs(s, allowed) && !allowed(Abort) && !allowed(Clear)
    requires forall t :: 0 <= t < |s.pcs| ==> NoAbortPath(s.pcs[t])
    ensures !Next(s, turn).q.abort
  {
  }

  lemma PhantomsRefused(s: State, maxSize: nat, allowed: Op -> bool)
    requires OfProgram(s, maxSize, allowed) && !AddsNothing(allowed, maxSize)
    ensures NoPhantom(s)
  {
    forall t | 0 <= t < |s.pcs| && s.pcs[t].Section? && s.pcs[t].op.Insert? && s.pcs[t].op.vs == []
      ensures IsFull(s.q, 0)
    {
      if !IsFull(s.q, 0) {
        AcceptedIsAdmitted(s, t, maxSize, allowed);
      }
    }
  }

  /** Neither aborts nor empty inserts. */
  lemma {:induction false} NoAbortRun(threads: nat, maxSize: nat, turns: seq<Turn>, allowed: Op -> bool)
    requires Obeys(turns, allowed) && !allowed(Abort) && !allowed(Clear) && !AddsNothing(allowed, maxSize)
    ensures TokenSafe(Exec(Init(threads, maxSize), turns))
  {
    if turns == [] {
      InitTokenSafe(threads, maxSize);
    } else {
      var init := turns[..|turns| - 1];
      var s, turn := Exec(Init(threads, maxSize), init), turns[|turns| - 1];
      NoAbortRun(threads, maxSize, init, allowed);
      ProgramRun(threads, maxSize, init, allowed);
      hide Next, AddsNothing, LimitFrom;
      PhantomsRefused(s, maxSize, allowed);
      NextKeepsTokenSafe(s, turn);
      FlagNeedsAbort(s, turn, allowed);
    }
  }

  /** Aborts, but nothing that removes elements without a token. */
  lemma {:induction false} NoRemovalRun(threads: nat, maxSize: nat, turns: seq<Turn>, allowed: Op -> bool)
    requires Obeys(turns, allowed) && !AddsNothing(allowed, maxSize)
    requires forall op :: allowed(op) ==> Stays(op)
    ensures var s := Exec(Init(threads, maxSize), turns); if s.q.abort then Late(s) else TokenSafe(s)
  {
    if turns == [] {
      InitTokenSafe(threads, maxSize);
    } else {
      var init := turns[..|turns| - 1];
      var s, turn := Exec(Init(threads, maxSize), init), turns[|turns| - 1];
      NoRemovalRun(threads, maxSize, init, allowed);
      ProgramRun(threads, maxSize, init, allowed);
      assert Runs(s, Stays);
      hide Next, AddsNothing, LimitFrom, TokenSafe, Late;
      if s.q.abort {
        NextKeepsLate(s, turn);
        FlagStays(s, turn);
      } else {
        PhantomsRefused(s, maxSize, allowed);
        NextKeepsTokenSafe(s, turn);
        if Next(s, turn).q.abort { FlagStep(s, turn); }
      }
    }
  }

  /** A step reaches back() on an empty deque only in Back or PopBack. */
  lemma UndefinedNeedsBack(s: State, turn: Turn, allowed: Op -> bool)
    requires !s.undefined && Runs(s, allowed) && !Uses(allowed, TakesBack)
    ensures !Next(s, turn).undefined
  {
  }

  lemma {:induction false} NoBackRun(threads: nat, maxSize: nat, turns: seq<Turn>, allowed: Op -> bool)
    requires Obeys(turns, allowed) && !Uses(allowed, TakesBack)
    ensures !Exec(Init(threads, maxSize), turns).undefined
  {
    if turns == [] {
    } else {
      var init := turns[..|turns| - 1];
      NoBackRun(threads, maxSize, init, allowed);
      ProgramRun(threads, maxSize, init, allowed);
      hide Next;
      UndefinedNeedsBack(Exec(Init(threads, maxSize), init), turns[|turns| - 1], allowed);
    }
  }

  /* ------------------------------------------------------------------ when back() is safe */

  ghost predicate AlwaysDefined(threads: nat, maxSize: nat, allowed: Op -> bool) {
    forall turns :: Legal(Init(threads, maxSize), turns, allowed) ==> !Exec(Init(threads, maxSize), turns).undefined
  }

  /** The program can empty the deque behind a thread that holds a token. */
  ghost predicate CanEmpty(allowed: Op -> bool) {
    allowed(Clear) || (allowed(Abort) && Uses(allowed, Drains))
  }

  /** An empty range passes the capacity test, inserts nothing and posts: Back or PopBack then takes that token and
      calls back() on an empty deque. */
  lemma EmptyInsertRun(threads: nat, maxSize: nat, allowed: Op -> bool) returns (turns: seq<Turn>)
    requires threads >= 1 && Uses(allowed, TakesBack) && AddsNothing(allowed, maxSize)
    ensures Legal(Init(threads, maxSize), turns, allowed) && Exec(Init(threads, maxSize), turns).undefined
  {
    var s0 := Init(threads, maxSize);
    var op :| Admits(allowed, maxSize, op) && Amount(op) == 0;
    var back :| allowed(back) && TakesBack(back);
    turns := AdmitRun(threads, maxSize, op, allowed);
    turns := TakeToken(s0, turns, 0, back, allowed);
    turns := Take(s0, turns, Turn(0, Go), allowed);
  }

  /** Thread t empties the deque and leaves the other threads where they are. */
  lemma Empties(s0: State, turns: seq<Turn>, t: nat, allowed: Op -> bool) returns (turns': seq<Turn>)
    requires Legal(s0, turns, allowed) && CanEmpty(allowed)
    requires var s := Exec(s0, turns); t < |s.pcs| && s.pcs[t] == Idle
    requires !Locked(Exec(s0, turns))
    ensures Legal(s0, turns', allowed) && !Locked(Exec(s0, turns'))
    ensures Exec(s0, turns').pcs == Exec(s0, turns).pcs && Exec(s0, turns').q.items == []
  {
    hide Legal, Exec, Locked;
    if allowed(Clear) {
      turns' := TakeAbort(s0, turns, t, Clear, allowed);
    } else {
      var drain :| allowed(drain) && Drains(drain);
      turns' := TakeAbort(s0, turns, t, Abort, allowed);
      turns' := DrainAll(s0, turns', t, drain, allowed);
    }
  }

  /** A thread that passed the second flag test still holds its token when another one clears the deque, or aborts
      and drains it without tokens. */
  lemma AbortRun(threads: nat, maxSize: nat, allowed: Op -> bool) returns (turns: seq<Turn>)
    requires threads >= 2 && Uses(allowed, TakesBack) && AddsSome(allowed, maxSize) && CanEmpty(allowed)
    ensures Legal(Init(threads, maxSize), turns, allowed) && Exec(Init(threads, maxSize), turns).undefined
  {
    var s0 := Init(threads, maxSize);
    var op :| Admits(allowed, maxSize, op) && Amount(op) > 0;
    var back :| allowed(back) && TakesBack(back);
    turns := AdmitRun(threads, maxSize, op, allowed);
    turns := TakeToken(s0, turns, 1, back, allowed);
    turns := Empties(s0, turns, 0, allowed);
    turns := Take(s0, turns, Turn(1, Go), allowed);
  }

  lemma DefinedRun(threads: nat, maxSize: nat, turns: seq<Turn>, allowed: Op -> bool)
    requires Obeys(turns, allowed) && Uses(allowed, TakesBack)
    requires !AddsNothing(allowed, maxSize) && !(AddsSome(allowed, maxSize) && CanEmpty(allowed))
    ensures !Exec(Init(threads, maxSize), turns).undefined
  {
    hide Exec, Init, Obeys;
    if !AddsSome(allowed, maxSize) {
      BarrenRun(threads, maxSize, turns, allowed);
    } else if !allowed(Abort) {
      NoAbortRun(threads, maxSize, turns, allowed);
    } else {
      NoRemovalRun(threads, maxSize, turns, allowed);
    }
  }

  /** Main theorem, for any set of allowed operations: Back and PopBack are defined in every run exactly when the
      program does not use them, or no empty range is ever accepted and either nothing is ever added, or there is no
      Clear and no abort together with a pop. */
  lemma BackIsSafeIff(threads: nat, maxSize: nat, allowed: Op -> bool)
    requires threads >= 2
    ensures AlwaysDefined(threads, maxSize, allowed) <==>
      !Uses(allowed, TakesBack)
      || (!AddsNothing(allowed, maxSize) && !(AddsSome(allowed, maxSize) && CanEmpty(allowed)))
  {
    hide Exec, Init, AddsNothing, AddsSome, CanEmpty, Obeys;
    if !Uses(allowed, TakesBack) {
      forall turns | Legal(Init(threads, maxSize), turns, allowed)
        ensures !Exec(Init(threads, maxSize), turns).undefined
      {
        NoBackRun(threads, maxSize, turns, allowed);
      }
    } else if AddsNothing(allowed, maxSize) {
      var turns := EmptyInsertRun(threads, maxSize, allowed);
      assert !AlwaysDefined(threads, maxSize, allowed);
    } else if AddsSome(allowed, maxSize) && CanEmpty(allowed) {
      var turns := AbortRun(threads, maxSize, allowed);
      assert !AlwaysDefined(threads, maxSize, allowed);
    } else {
      forall turns | Legal(Init(threads, maxSize), turns, allowed)
        ensures !Exec(Init(threads, maxSize), turns).undefined
      {
        DefinedRun(threads, maxSize, turns, allowed);
      }
    }
  }

  /* ------------------------------------------------------------------ one token an element */

  predicate OneTokenEach(s: State) {
    s.q.notEmpty + Held(s) == |s.q.items|
  }

  ghost predicate AlwaysEven(threads: nat, maxSize: nat, allowed: Op -> bool) {
    forall turns :: Legal(Init(threads, maxSize), turns, allowed) ==> OneTokenEach(Exec(Init(threads, maxSize), turns))
  }

  /** The program accepts a range of a length other than one, or has an element accepted and spends its token on
      Front, Back or PushFront. */
  ghost predicate Unbalances(allowed: Op -> bool, maxSize: nat) {
    AddsUnevenly(allowed, maxSize) || (AddsOne(allowed, maxSize) && Uses(allowed, Spends))
  }

  lemma NoneHeld(threads: nat, maxSize: nat, s: State)
    requires s.pcs == Init(threads, maxSize).pcs
    ensures Held(s) == 0
  {
    CountNone(s.pcs, HoldsToken);
  }

  lemma AbortUnbalances(threads: nat, maxSize: nat, op: Op, allowed: Op -> bool) returns (turns: seq<Turn>)
    requires threads >= 1 && allowed(op) && (op.Abort? || op.Clear?)
    ensures Legal(Init(threads, maxSize), turns, allowed) && !OneTokenEach(Exec(Init(threads, maxSize), turns))
  {
    turns := TakeAbort(Init(threads, maxSize), [], 0, op, allowed);
  }

  lemma UnbalancingRun(threads: nat, maxSize: nat, allowed: Op -> bool) returns (turns: seq<Turn>)
    requires threads >= 1 && Unbalances(allowed, maxSize)
    ensures Legal(Init(threads, maxSize), turns, allowed) && !OneTokenEach(Exec(Init(threads, maxSize), turns))
  {
    var s0 := Init(threads, maxSize);
    if AddsUnevenly(allowed, maxSize) {
      var op :| Admits(allowed, maxSize, op) && Amount(op) != 1;
      turns := AdmitRun(threads, maxSize, op, allowed);
    } else {
      var op :| Admits(allowed, maxSize, op) && Amount(op) == 1;
      var spend :| allowed(spend) && Spends(spend);
      turns := AdmitRun(threads, maxSize, op, allowed);
      turns := TakeToken(s0, turns, 0, spend, allowed);
      turns := Take(s0, turns, Turn(0, Go), allowed);
      assert s0.pcs[0 := Holding(spend)][0 := Idle] == s0.pcs;
    }
    NoneHeld(threads, maxSize, Exec(s0, turns));
  }

  predicate EvenLog(log: seq<Event>) {
    forall i :: 0 <= i < |log| ==> Weight(log[i]) == 0
  }

  lemma {:induction false} EvenBalance(log: seq<Event>)
    requires EvenLog(log)
    ensures Balance(log) == 0
  {
    if log == [] {
    } else {
      EvenBalance(log[..|log| - 1]);
    }
  }

  /** Only single elements are about to be accepted, and no token is about to be spent on anything but a pop. */
  predicate Steady(s: State) {
    forall t :: 0 <= t < |s.pcs| ==>
      && (s.pcs[t].Section? && Adds(s.pcs[t].op) && !IsFull(s.q, Offset(s.pcs[t].op)) ==> Amount(s.pcs[t].op) == 1)
      && (s.pcs[t].Holding? ==> !Spends(s.pcs[t].op))
  }

  lemma NextKeepsEven(s: State, turn: Turn)
    requires TokenSafe(s) && Steady(s) && EvenLog(s.log) && !Next(s, turn).q.abort
    ensures EvenLog(Next(s, turn).log)
  {
    TokensCovered(s);
  }

  lemma ProgramIsSteady(s: State, maxSize: nat, allowed: Op -> bool)
    requires OfProgram(s, maxSize, allowed) && !AddsUnevenly(allowed, maxSize) && !Uses(allowed, Spends)
    ensures Steady(s)
  {
    forall t | 0 <= t < |s.pcs| && s.pcs[t].Section? && Adds(s.pcs[t].op) && !IsFull(s.q, Offset(s.pcs[t].op))
      ensures Amount(s.pcs[t].op) == 1
    {
      AcceptedIsAdmitted(s, t, maxSize, allowed);
    }
  }

  lemma {:induction false} EvenRun(threads: nat, maxSize: nat, turns: seq<Turn>, allowed: Op -> bool)
    requires Obeys(turns, allowed) && !allowed(Abort) && !allowed(Clear)
    requires !AddsUnevenly(allowed, maxSize) && !Uses(allowed, Spends)
    ensures EvenLog(Exec(Init(threads, maxSize), turns).log)
  {
    if turns == [] {
    } else {
      var init := turns[..|turns| - 1];
      var s, turn := Exec(Init(threads, maxSize), init), turns[|turns| - 1];
      EvenRun(threads, maxSize, init, allowed);
      NoAbortRun(threads, maxSize, init, allowed);
      NoAbortRun(threads, maxSize, turns, allowed);
      ProgramRun(threads, maxSize, init, allowed);
      hide Next, OfProgram, AddsUnevenly, Uses, Steady, EvenLog;
      ProgramIsSteady(s, maxSize, allowed);
      NextKeepsEven(s, turn);
    }
  }

  lemma BalancedRun(threads: nat, maxSize: nat, turns: seq<Turn>, allowed: Op -> bool)
    requires Obeys(turns, allowed) && !allowed(Abort) && !allowed(Clear) && !Unbalances(allowed, maxSize)
    ensures OneTokenEach(Exec(Init(threads, maxSize), turns))
  {
    var s := Exec(Init(threads, maxSize), turns);
    hide Exec, Init, Obeys;
    NoAbortRun(threads, maxSize, turns, allowed);
    if AddsOne(allowed, maxSize) {
      EvenRun(threads, maxSize, turns, allowed);
      EvenBalance(s.log);
    } else {
      BarrenRun(threads, maxSize, turns, allowed);
      CountNone(s.pcs, HoldsToken);
    }
  }

  /** Main theorem, for any set of allowed operations: every run keeps exactly one token, in the semaphore or in a
      thread's hands, for each element, exactly when there is no abort and no Clear, no accepted range of a length
      other than one, and nothing is ever added or no token is spent on Front, Back or PushFront. */
  lemma OneTokenEachIff(threads: nat, maxSize: nat, allowed: Op -> bool)
    requires threads >= 1
    ensures AlwaysEven(threads, maxSize, allowed)
      <==> !allowed(Abort) && !allowed(Clear) && !Unbalances(allowed, maxSize)
  {
    hide Exec, Init, Unbalances, Obeys, OneTokenEach;
    if allowed(Abort) {
      var turns := AbortUnbalances(threads, maxSize, Abort, allowed);
      assert !AlwaysEven(threads, maxSize, allowed);
    } else if allowed(Clear) {
      var turns := AbortUnbalances(threads, maxSize, Clear, allowed);
      assert !AlwaysEven(threads, maxSize, allowed);
    } else if Unbalances(allowed, maxSize) {
      var turns := UnbalancingRun(threads, maxSize, allowed);
      assert !AlwaysEven(threads, maxSize, allowed);
    } else {
      forall turns | Legal(Init(threads, maxSize), turns, allowed)
        ensures OneTokenEach(Exec(Init(threads, maxSize), turns))
      {
        BalancedRun(threads, maxSize, turns, allowed);
      }
    }
  }

  /** In such a program no wakeup is lost: when the semaphore is at zero, the threads that hold a token are as many as
      the elements, so each element is owed to one of them; and a thread with a token always finds an element. */
  lemma NoLostWakeup(threads: nat, maxSize: nat, turns: seq<Turn>, allowed: Op -> bool)
    requires Obeys(turns, allowed) && !allowed(Abort) && !allowed(Clear) && !Unbalances(allowed, maxSize)
    ensures
      var s := Exec(Init(threads, maxSize), turns);
      && (s.q.notEmpty == 0 ==> Held(s) == |s.q.items|)
      && (forall t :: 0 <= t < |s.pcs| && s.pcs[t].Holding? ==> s.q.items != [])
  {
    BalancedRun(threads, maxSize, turns, allowed);
    NoAbortRun(threads, maxSize, turns, allowed);
    TokensCovered(Exec(Init(threads, maxSize), turns));
  }
}

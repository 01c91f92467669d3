/** What an abort stops: pushes test the flag outside the mutex, so some may still commit after it, but only those that
    were past their test when it was set. */
module QueueAbort {
  import opened Counting
  import opened QueueSpec
  import opened QueueProtocol

  /** A thread that can commit a push without looking at the flag again. */
  predicate PastTest(pc: Pc) {
    || (pc.Section? && (pc.op.PushBack? || pc.op.Insert?))
    || (pc.Holding? && pc.op.PushFront?)
  }

  predicate IsPush(e: Event) {
    e.Pushed? || e.PushedFront? || e.Inserted?
  }

  function Pushes(s: State): nat {
    Count(s.log, IsPush)
  }

  /** The pushes made and the pushes that can still be made. */
  function Reach(s: State): nat {
    Pushes(s) + Count(s.pcs, PastTest)
  }

  lemma CountSnoc(log: seq<Event>, e: Event)
    ensures Count(log + [e], IsPush) == Count(log, IsPush) + if IsPush(e) then 1 else 0
  {
    assert (log + [e])[..|log|] == log;
  }

  /** One thread moves and logs at most one event; a push is logged only by a thread that gives up its place. */
  predicate Spends(s: State, t: nat, s': State) {
    && t < |s.pcs| == |s'.pcs| && s'.pcs == s.pcs[t := s'.pcs[t]] && s'.q.abort
    && (PastTest(s'.pcs[t]) ==> PastTest(s.pcs[t]))
    && (s'.log == s.log
        || (|s'.log| == |s.log| + 1 && s'.log == s.log + [s'.log[|s.log|]]
            && (IsPush(s'.log[|s.log|]) ==> PastTest(s.pcs[t]) && !PastTest(s'.pcs[t]))))
  }

  lemma SectionSpends(s: State, t: nat, op: Op)
    requires s.q.abort && t < |s.pcs|
    ensures s.pcs[t] == Holding(op) ==> HoldingSection(s, t, op) == s || Spends(s, t, HoldingSection(s, t, op))
    ensures s.pcs[t] == Section(op) ==> PlainSection(s, t, op) == s || Spends(s, t, PlainSection(s, t, op))
  {
  }

  lemma PostingSpends(s: State, t: nat, op: Op)
    requires s.q.abort && t < |s.pcs| && s.pcs[t] == Posting(op)
    ensures Spends(s, t, PostingStep(s, t, op))
  {
    assert PostingStep(s, t, op).pcs == s.pcs[t := PostingStep(s, t, op).pcs[t]];
  }

  lemma NextSpends(s: State, turn: Turn)
    requires s.q.abort
    ensures Next(s, turn) == s || Spends(s, turn.thread, Next(s, turn))
  {
    hide HoldingSection, PlainSection, PostingStep;
    var t := turn.thread;
    if t < |s.pcs| {
      match s.pcs[t] {
        case Holding(op) => SectionSpends(s, t, op);
        case Section(op) => SectionSpends(s, t, op);
        case Posting(op) => PostingSpends(s, t, op);
        case _ =>
      }
    }
  }

  lemma SpendsKeepsReach(s: State, t: nat, s': State)
    requires Spends(s, t, s')
    ensures Reach(s') <= Reach(s)
  {
    CountUpdate(s.pcs, t, s'.pcs[t], PastTest);
    if s'.log != s.log {
      CountSnoc(s.log, s'.log[|s.log|]);
    }
  }

  lemma {:induction false} ReachRun(s: State, turns: seq<Turn>)
    requires s.q.abort
    ensures Exec(s, turns).q.abort && Reach(Exec(s, turns)) <= Reach(s)
  {
    if turns == [] {
    } else {
      var init := turns[..|turns| - 1];
      ReachRun(s, init);
      NextSpends(Exec(s, init), turns[|turns| - 1]);
      if Exec(s, turns) != Exec(s, init) {
        SpendsKeepsReach(Exec(s, init), turns[|turns| - 1].thread, Exec(s, turns));
      }
    }
  }

  /** Once the flag is set it stays set, and however the run goes on, at most as many pushes commit as there were
      threads past their test at that moment. With none there, the queue takes nothing more. */
  lemma LatePushesAreBounded(s: State, turns: seq<Turn>)
    requires s.q.abort
    ensures Exec(s, turns).q.abort
    ensures Pushes(Exec(s, turns)) <= Pushes(s) + Count(s.pcs, PastTest)
  {
    ReachRun(s, turns);
  }
}

/** The two schedulers of base/src/ThreadPool.cpp on plain values: what one choice is, and what whole runs of
    choices do. ThreadPool.dfy proves the pool's methods against these definitions. */
module Scheduling {
  import opened QueueSpec

  /* ------------------------------------------------------------------ first come, first served */

  function Rotate(ids: seq<nat>): seq<nat> {
    if ids == [] then [] else ids[1..] + [ids[0]]
  }

  function RotateTimes(ids: seq<nat>, t: nat): seq<nat> {
    if t == 0 then ids else Rotate(RotateTimes(ids, t - 1))
  }

  lemma ModNext(t: nat, k: nat, n: nat)
    requires k < n
    ensures (t + (k + 1)) % n == (t + 1 + k) % n
    ensures (t + n) % n == t % n
  {
    assert t + n == n * (t / n + 1) + t % n;
    ModUnique(t + n, n, t / n + 1, t % n);
  }

  lemma {:induction false} MulGrows(n: nat, a: int, b: int)
    requires a <= b
    ensures n * a <= n * b
    ensures a < b ==> n * a + n <= n * b
    decreases b - a
  {
    if a < b {
      MulGrows(n, a + 1, b);
      assert n * (a + 1) == n * a + n;
    }
  }

  /** Quotient and remainder are the only way to split a number. */
  lemma ModUnique(x: int, n: nat, q: int, r: nat)
    requires r < n && x == n * q + r
    ensures x % n == r && x / n == q
  {
    var q', r' := x / n, x % n;
    SplitUnique(n, q, r, q', r');
  }

  lemma SplitUnique(n: nat, q: int, r: nat, q': int, r': nat)
    requires r < n && r' < n && n * q + r == n * q' + r'
    ensures q == q' && r == r'
  {
    if q < q' { MulGrows(n, q, q'); }
    if q' < q { MulGrows(n, q', q); }
  }

  /** Slot k of the rotation after t choices. */
  lemma {:induction false} RotationAt(ids: seq<nat>, t: nat, k: nat)
    requires k < |ids|
    ensures |RotateTimes(ids, t)| == |ids|
    ensures RotateTimes(ids, t)[k] == ids[(t + k) % |ids|]
  {
    var n := |ids|;
    if t == 0 {
      ModUnique(k, n, 0, k);
    } else {
      var next := if k < n - 1 then k + 1 else 0;
      RotationAt(ids, t - 1, next);
      RotationAt(ids, t - 1, 0);
      if k < n - 1 {
        ModNext(t - 1, k, n);
      } else {
        ModNext(t - 1, 0, n);
      }
    }
  }

  lemma {:induction false} RotationKeepsMembers(ids: seq<nat>, t: nat)
    ensures |RotateTimes(ids, t)| == |ids|
    ensures multiset(RotateTimes(ids, t)) == multiset(ids)
  {
    if t == 0 {
    } else {
      var before := RotateTimes(ids, t - 1);
      RotationKeepsMembers(ids, t - 1);
      if before != [] {
        assert before == [before[0]] + before[1..];
      }
    }
  }

  /** Main theorem for FCFS, over any number of choices: choice t is the thread created t modulo N, and the N
      choices from any point on are the whole rotation at that point, each thread exactly once. */
  lemma RoundRobin(ids: seq<nat>, t: nat)
    requires ids != []
    ensures |RotateTimes(ids, t)| == |ids| && RotateTimes(ids, t)[0] == ids[t % |ids|]
    ensures forall k :: 0 <= k < |ids| ==> RotateTimes(ids, t)[k] == ids[(t + k) % |ids|]
    ensures multiset(seq(|ids|, k requires 0 <= k => ids[(t + k) % |ids|])) == multiset(ids)
  {
    RotationAt(ids, t, 0);
    forall k | 0 <= k < |ids| ensures RotateTimes(ids, t)[k] == ids[(t + k) % |ids|] {
      RotationAt(ids, t, k);
    }
    RotationKeepsMembers(ids, t);
    assert seq(|ids|, k requires 0 <= k => ids[(t + k) % |ids|]) == RotateTimes(ids, t);
  }

  /** One FCFS choice on the queue of thread ids: take the head, put it back if the pool knows it. */
  function FcfsQueue(q: Shared, known: set<nat>): Shared {
    if q.abort then DrainFrontSection(q)
    else if q.notEmpty == 0 then q
    else
      var q1 := PopFrontSection(TakeToken(q));
      if q.items != [] && q.items[0] in known then PushBackSection(q1, q.items[0]) else q1
  }

  function FcfsChoice(q: Shared, known: set<nat>): nat {
    if q.items == [] || (!q.abort && q.notEmpty == 0) || q.items[0] !in known then 0 else q.items[0]
  }

  /** The rotation as long as nobody aborts it: duplicate-free, known to the pool, one token an entry. */
  predicate GoodRotation(q: Shared, known: set<nat>) {
    && !q.abort && q.notEmpty == |q.items| <= q.maxSize <= SEM_VALUE_MAX
    && (forall i :: 0 <= i < |q.items| ==> q.items[i] in known && q.items[i] != 0)
    && (forall i, j :: 0 <= i < j < |q.items| ==> q.items[i] != q.items[j])
  }

  function FcfsTimes(q: Shared, known: set<nat>, t: nat): Shared {
    if t == 0 then q else FcfsQueue(FcfsTimes(q, known, t - 1), known)
  }

  lemma FcfsStep(q: Shared, known: set<nat>)
    requires GoodRotation(q, known)
    ensures GoodRotation(FcfsQueue(q, known), known)
    ensures FcfsQueue(q, known).items == Rotate(q.items)
    ensures q.items != [] ==> FcfsChoice(q, known) == q.items[0] != 0
  {
  }

  /** In any run of choices on a rotation nobody aborts, the queue is the original one turned by the number of
      choices, with its tokens intact; every choice answers a thread of the pool and never falls through. */
  lemma {:induction false} FcfsRun(q: Shared, known: set<nat>, t: nat)
    requires GoodRotation(q, known)
    ensures var q' := FcfsTimes(q, known, t);
      && GoodRotation(q', known)
      && q'.items == RotateTimes(q.items, t)
      && (q.items != [] ==> FcfsChoice(q', known) == q.items[t % |q.items|] && FcfsChoice(q', known) in known)
  {
    if t == 0 {
    } else {
      FcfsRun(q, known, t - 1);
      FcfsStep(FcfsTimes(q, known, t - 1), known);
    }
    FcfsStep(FcfsTimes(q, known, t), known);
    if q.items != [] {
      RoundRobin(q.items, t);
    }
  }

  /* ------------------------------------------------------------------ least busy */

  /** The least load, and the first thread in key order that has it. */
  predicate IsLeast(loads: seq<nat>, i: nat) {
    i < |loads| && forall j :: 0 <= j < |loads| ==> loads[i] <= loads[j] && (j < i ==> loads[i] < loads[j])
  }

  function LeastLoaded(loads: seq<nat>): (i: nat)
    requires loads != []
    ensures IsLeast(loads, i)
  {
    var last := |loads| - 1;
    if last == 0 then 0
    else
      var i := LeastLoaded(loads[..last]);
      assert forall j :: 0 <= j < last ==> loads[..last][j] == loads[j];
      if loads[last] < loads[i] then last else i
  }

  function Total(loads: seq<nat>): nat {
    if loads == [] then 0 else Total(loads[..|loads| - 1]) + loads[|loads| - 1]
  }

  lemma {:induction false} TotalUpdate(loads: seq<nat>, i: nat, x: nat)
    requires i < |loads|
    ensures Total(loads[i := x]) + loads[i] == Total(loads) + x
  {
    var last := |loads| - 1;
    if i == last {
      assert loads[i := x][..last] == loads[..last];
    } else {
      assert loads[i := x][..last] == loads[..last][i := x];
      TotalUpdate(loads[..last], i, x);
    }
  }

  lemma OneMore(n: nat, x: nat)
    requires n > 0
    ensures n * x == (n - 1) * x + x
  {
  }

  /** Loads that lie above a bound have a total above the bound times their number. */
  lemma {:induction false} TotalAbove(loads: seq<nat>, lo: nat)
    requires forall j :: 0 <= j < |loads| ==> lo <= loads[j]
    ensures |loads| * lo <= Total(loads)
  {
    if loads == [] {
    } else {
      TotalAbove(loads[..|loads| - 1], lo);
      OneMore(|loads|, lo);
    }
  }

  /** And below. */
  lemma {:induction false} TotalBelow(loads: seq<nat>, hi: nat)
    requires forall j :: 0 <= j < |loads| ==> loads[j] <= hi
    ensures Total(loads) <= |loads| * hi
  {
    if loads == [] {
    } else {
      TotalBelow(loads[..|loads| - 1], hi);
      OneMore(|loads|, hi);
    }
  }

  /** The pool's queue lengths in key order, with the largest total and the largest single length seen so far. */
  datatype Pool = Pool(loads: seq<nat>, peakTotal: nat, peakLoad: nat)

  /** HRP picks a thread and AddTask gives it a task; or some worker takes one of its own. */
  datatype Event = Assign | Take(worker: nat)

  function Max(a: nat, b: nat): nat {
    if a < b then b else a
  }

  function Empty(n: nat): Pool {
    Pool(seq(n, _ => 0), 0, 0)
  }

  function Step(p: Pool, e: Event, limit: nat): Pool
    requires p.loads != []
    ensures |Step(p, e, limit).loads| == |p.loads|
  {
    match e
    case Assign =>
      var i := LeastLoaded(p.loads);
      if p.loads[i] >= limit then p
      else
        var loads := p.loads[i := p.loads[i] + 1];
        Pool(loads, Max(p.peakTotal, Total(loads)), Max(p.peakLoad, loads[i]))
    case Take(w) =>
      if w < |p.loads| && p.loads[w] > 0 then p.(loads := p.loads[w := p.loads[w] - 1]) else p
  }

  function Run(n: nat, events: seq<Event>, limit: nat): (p: Pool)
    requires n > 0
    ensures |p.loads| == n
  {
    if events == [] then Empty(n) else Step(Run(n, events[..|events| - 1], limit), events[|events| - 1], limit)
  }

  predicate Balanced(p: Pool) {
    var n := |p.loads|;
    && n > 0
    && Total(p.loads) <= p.peakTotal <= n * p.peakLoad < p.peakTotal + n
    && (forall j :: 0 <= j < n ==> p.loads[j] <= p.peakLoad)
  }

  lemma AssignKeepsBalanced(p: Pool, limit: nat)
    requires Balanced(p)
    ensures Balanced(Step(p, Assign, limit))
  {
    var n := |p.loads|;
    var i := LeastLoaded(p.loads);
    var least := p.loads[i];
    if least < limit {
      var p' := Step(p, Assign, limit);
      TotalUpdate(p.loads, i, least + 1);
      TotalAbove(p.loads, least);
      TotalBelow(p'.loads, p'.peakLoad);
      PeakMoves(n, least, Total(p.loads), p.peakTotal, p.peakLoad);
      hide Total, LeastLoaded;
    }
  }

  /** The arithmetic of one assignment to a least loaded thread: both peaks stay a rounded-up share apart. */
  lemma PeakMoves(n: nat, least: nat, total: nat, peakTotal: nat, peakLoad: nat)
    requires n > 0 && n * least <= total <= peakTotal <= n * peakLoad < peakTotal + n
    ensures peakTotal <= n * Max(peakLoad, least + 1) < Max(peakTotal, total + 1) + n
  {
    if peakLoad < least + 1 {
      assert n * (least + 1) == n * least + n;
      MulGrows(n, peakLoad, least + 1);
    }
  }

  lemma TakeKeepsBalanced(p: Pool, w: nat, limit: nat)
    requires Balanced(p)
    ensures Balanced(Step(p, Take(w), limit))
  {
    if w < |p.loads| && p.loads[w] > 0 {
      TotalUpdate(p.loads, w, p.loads[w] - 1);
    }
  }

  lemma {:induction false} BalancedRun(n: nat, events: seq<Event>, limit: nat)
    requires n > 0
    ensures Balanced(Run(n, events, limit))
  {
    if events == [] {
      TotalBelow(seq(n, _ => 0), 0);
    } else {
      var p := Run(n, events[..|events| - 1], limit);
      BalancedRun(n, events[..|events| - 1], limit);
      match events[|events| - 1]
      case Assign => AssignKeepsBalanced(p, limit);
      case Take(w) => TakeKeepsBalanced(p, w, limit);
    }
  }

  /** Main theorem for HRP: in every run of assignments and completions, in any order, from an empty pool, the
      longest queue ever seen is exactly the largest total ever queued, divided by the number of threads and
      rounded up. When the total peaks some queue holds at least that share, so no run can show less. */
  lemma HrpIsOptimal(n: nat, events: seq<Event>, limit: nat)
    requires n > 0
    ensures var p := Run(n, events, limit); p.peakLoad == (p.peakTotal + n - 1) / n
  {
    var p := Run(n, events, limit);
    BalancedRun(n, events, limit);
    var slack := p.peakTotal + n - 1 - n * p.peakLoad;
    ModUnique(p.peakTotal + n - 1, n, p.peakLoad, slack);
  }

  /** What one event does to the two peaks: they rise to what the event reached, and never fall. */
  lemma PeaksRise(p: Pool, e: Event, limit: nat)
    requires p.loads != [] && Total(p.loads) <= p.peakTotal
    requires forall j :: 0 <= j < |p.loads| ==> p.loads[j] <= p.peakLoad
    ensures var p' := Step(p, e, limit);
      && p.peakTotal <= p'.peakTotal && p.peakLoad <= p'.peakLoad
      && (p'.peakTotal == p.peakTotal || p'.peakTotal == Total(p'.loads))
      && (p'.peakLoad == p.peakLoad || exists j :: 0 <= j < |p'.loads| && p'.loads[j] == p'.peakLoad)
  {
    if e.Assign? && p.loads[LeastLoaded(p.loads)] < limit {
      assert Step(p, e, limit).loads[LeastLoaded(p.loads)] == p.loads[LeastLoaded(p.loads)] + 1;
    }
  }

  /** No moment of the run was above the peaks. */
  lemma {:induction false} PeaksBound(n: nat, events: seq<Event>, limit: nat, k: nat)
    requires n > 0 && k <= |events|
    ensures var p, q := Run(n, events, limit), Run(n, events[..k], limit);
      Total(q.loads) <= p.peakTotal && forall j :: 0 <= j < n ==> q.loads[j] <= p.peakLoad
  {
    BalancedRun(n, events, limit);
    if k == |events| {
      assert events[..k] == events;
    } else {
      var init := events[..|events| - 1];
      assert init[..k] == events[..k];
      PeaksBound(n, init, limit, k);
      BalancedRun(n, init, limit);
      PeaksRise(Run(n, init, limit), events[|events| - 1], limit);
      hide Step, Total;
    }
  }

  /** And each peak was reached at some moment, the load by some thread. */
  lemma {:induction false} PeaksReached(n: nat, events: seq<Event>, limit: nat) returns (k: nat, l: nat, j: nat)
    requires n > 0
    ensures k <= |events| && Total(Run(n, events[..k], limit).loads) == Run(n, events, limit).peakTotal
    ensures l <= |events| && j < n && Run(n, events[..l], limit).loads[j] == Run(n, events, limit).peakLoad
  {
    assert events[..|events|] == events;
    if events == [] {
      k, l, j := 0, 0, 0;
      TotalBelow(Empty(n).loads, 0);
    } else {
      var init := events[..|events| - 1];
      var p, p' := Run(n, init, limit), Run(n, events, limit);
      k, l, j := PeaksReached(n, init, limit);
      assert init[..k] == events[..k] && init[..l] == events[..l];
      BalancedRun(n, init, limit);
      PeaksRise(p, events[|events| - 1], limit);
      hide Step, Total, Run;
      if p'.peakTotal != p.peakTotal { k := |events|; }
      if p'.peakLoad != p.peakLoad {
        l := |events|;
        j :| 0 <= j < |p'.loads| && p'.loads[j] == p'.peakLoad;
      }
    }
  }

  /** The loads after m assignments dealt out in key order. */
  function Dealt(n: nat, m: nat): seq<nat>
    requires n > 0
  {
    seq(n, i requires 0 <= i < n => m / n + if i < m % n then 1 else 0)
  }

  lemma LeastIsUnique(loads: seq<nat>, i: nat, j: nat)
    requires IsLeast(loads, i) && IsLeast(loads, j)
    ensures i == j
  {
    assert loads[i] <= loads[j] && loads[j] <= loads[i];
    assert !(i < j) && !(j < i);
  }

  lemma DealtLeast(n: nat, m: nat)
    requires n > 0
    ensures LeastLoaded(Dealt(n, m)) == m % n
  {
    LeastIsUnique(Dealt(n, m), LeastLoaded(Dealt(n, m)), m % n);
  }

  lemma DealtNext(n: nat, m: nat)
    requires n > 0
    ensures Dealt(n, m)[m % n := m / n + 1] == Dealt(n, m + 1)
  {
    if m % n + 1 < n {
      ModUnique(m + 1, n, m / n, m % n + 1);
    } else {
      ModUnique(m + 1, n, m / n + 1, 0);
    }
  }

  lemma Below(n: nat, m: nat, limit: nat)
    requires n > 0 && m < n * limit
    ensures m / n < limit
  {
    if limit <= m / n {
      MulGrows(n, limit, m / n);
    }
  }

  lemma DealtStep(p: Pool, n: nat, m: nat, limit: nat)
    requires n > 0 && m < n * limit && p.loads == Dealt(n, m)
    ensures Step(p, Assign, limit).loads == Dealt(n, m + 1)
  {
    DealtLeast(n, m);
    Below(n, m, limit);
    DealtNext(n, m);
  }

  function Assigns(m: nat): seq<Event> {
    seq(m, _ => Assign)
  }

  /** While nothing completes HRP deals tasks out like cards: assignment m goes to key m modulo n, every load is
      the floor or the ceiling of m / n, and nothing is refused until every queue is at its limit. */
  lemma {:induction false} HrpWithoutCompletions(n: nat, m: nat, limit: nat)
    requires n > 0 && m <= n * limit
    ensures Run(n, Assigns(m), limit).loads == Dealt(n, m)
    ensures LeastLoaded(Run(n, Assigns(m), limit).loads) == m % n
  {
    if m == 0 {
      assert Dealt(n, 0) == Empty(n).loads;
    } else {
      HrpWithoutCompletions(n, m - 1, limit);
      assert Assigns(m)[..m - 1] == Assigns(m - 1);
      DealtStep(Run(n, Assigns(m - 1), limit), n, m - 1, limit);
    }
    DealtLeast(n, m);
  }
}

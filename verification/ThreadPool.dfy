/** The pool of base/src/ThreadPool.cpp as objects: one rotation queue of thread ids, one map from ids to thread
    objects, and a thread object's own task queue with its busy counter. Adding a task and taking one are each a
    single step here; WorkerProtocol.dfy looks inside them. */
module KeyOrder {

  predicate Ascending(ks: seq<nat>) {
    forall i, j :: 0 <= i < j < |ks| ==> ks[i] < ks[j]
  }

  predicate IsFirst(s: set<nat>, m: nat) {
    m in s && forall k :: k in s ==> m <= k
  }

  ghost function First(s: set<nat>): (m: nat)
    requires s != {}
    ensures IsFirst(s, m)
  {
    var x :| x in s;
    if s == {x} then x
    else
      var m := First(s - {x});
      assert forall k :: k in s ==> k == x || k in s - {x};
      if m < x then m else x
  }

  lemma FirstIsUnique(s: set<nat>, m: nat)
    requires IsFirst(s, m)
    ensures m == First(s)
  {
    assert First(s) in s && m in s;
  }

  /** The keys of a std::map in iteration order. */
  ghost function SortedKeys(s: set<nat>): (ks: seq<nat>)
    ensures |ks| == |s|
    ensures forall i :: 0 <= i < |ks| ==> ks[i] in s
  {
    if s == {} then [] else [First(s)] + SortedKeys(s - {First(s)})
  }

  lemma {:induction false} SortedKeysAscend(s: set<nat>)
    ensures Ascending(SortedKeys(s))
  {
    if s == {} {
    } else {
      SortedKeysAscend(s - {First(s)});
    }
  }

  lemma {:induction false} SortedKeysHold(s: set<nat>, k: nat) returns (i: nat)
    requires k in s
    ensures i < |SortedKeys(s)| && SortedKeys(s)[i] == k
  {
    if k == First(s) {
      i := 0;
    } else {
      i := SortedKeysHold(s - {First(s)}, k);
      i := i + 1;
    }
  }
}

module ThreadPool {
  import opened QueueSpec
  import opened KeyOrder
  import opened Scheduling
  import opened MsgDeque
  import opened ThreadDefine
  import opened Wrappers

  const NO_THREAD: nat := 0xFFFF_FFFF_FFFF_FFFF  // (pthread_t)-1

  datatype Algorithm = FCFS | HRP | Other

  function Members(ids: seq<nat>): set<nat> {
    set k | k in ids
  }

  predicate Distinct(ids: seq<nat>) {
    forall i, j :: 0 <= i < j < |ids| ==> ids[i] != ids[j]
  }

  /** The ids that find a place. */
  function Placed(ids: seq<nat>, room: nat): (r: seq<nat>)
    ensures |r| == if |ids| <= room then |ids| else room
  {
    if |ids| <= room then ids else ids[..room]
  }

  /** The rotation after copying back what pops of `from`, without this thread. */
  function Refilled(rotation: Shared, from: Shared, thread: nat): Shared
    decreases |from.items|
  {
    match Call(from, PopFront(false))
    case Outcome(rest, Got(v)) =>
      Refilled(if v != thread then Call(rotation, PushBack(v)).q else rotation, rest, thread)
    case _ => rotation
  }

  function Without(ids: seq<nat>, thread: nat): seq<nat> {
    if ids == [] then [] else (if ids[0] == thread then [] else [ids[0]]) + Without(ids[1..], thread)
  }

  /** Had the tokens come along, the copy would be every id but the removed one, in order. */
  lemma {:induction false} RefilledWithTokens(rotation: Shared, from: Shared, thread: nat)
    requires !rotation.abort && |rotation.items| + |from.items| <= rotation.maxSize
    requires !from.abort && from.notEmpty >= |from.items|
    ensures Refilled(rotation, from, thread).items == rotation.items + Without(from.items, thread)
    decreases |from.items|
  {
    if from.items == [] {
    } else {
      var next := if from.items[0] != thread then Call(rotation, PushBack(from.items[0])).q else rotation;
      RefilledWithTokens(next, Call(from, PopFront(false)).q, thread);
    }
  }

  /** Without a token nothing is copied, whatever is there. */
  lemma RefilledWithoutTokens(rotation: Shared, from: Shared, thread: nat)
    requires !from.abort && from.notEmpty == 0
    ensures Refilled(rotation, from, thread) == rotation
  {
  }

  /** After a removal first come, first served is over: however often it is tried, no choice answers a thread. */
  lemma {:induction false} NoChoiceAfterRemoval(q: Shared, known: set<nat>, t: nat)
    requires q.items == []
    ensures FcfsTimes(q, known, t).items == [] && FcfsChoice(FcfsTimes(q, known, t), known) == 0
  {
    if t == 0 {
    } else {
      NoChoiceAfterRemoval(q, known, t - 1);
    }
  }

  lemma RotationGrows(q: Shared, known: set<nat>, id: nat)
    requires GoodRotation(q, known) && id !in known && id != 0
    ensures GoodRotation(Call(q, PushBack(id)).q, known + {id})
  {
  }

  /** The map's keys and the rotation after the first i ids were added to what was there before. */
  predicate Created(ids: seq<nat>, i: nat, keys0: set<nat>, keys: set<nat>, items0: seq<nat>, items: seq<nat>) {
    && i <= |ids| && |items0| <= QUEUE_LIMIT
    && keys == keys0 + Members(ids[..i])
    && items == items0 + Placed(ids[..i], QUEUE_LIMIT - |items0|)
  }

  lemma CreatedNext(ids: seq<nat>, i: nat, keys0: set<nat>, keys: set<nat>, items0: seq<nat>, items: seq<nat>)
    requires Created(ids, i, keys0, keys, items0, items) && i < |ids|
    requires Distinct(ids) && 0 !in Members(ids) && Members(ids) !! keys0
    ensures ids[i] !in keys && ids[i] != 0
    ensures Created(ids, i + 1, keys0, keys + {ids[i]}, items0,
                    items + if |items| < QUEUE_LIMIT then [ids[i]] else [])
  {
    assert ids[..i + 1] == ids[..i] + [ids[i]];
    assert ids[i] in Members(ids);
  }

  lemma CreatedAll(ids: seq<nat>, keys0: set<nat>, keys: set<nat>, items0: seq<nat>, items: seq<nat>)
    requires Created(ids, |ids|, keys0, keys, items0, items)
    ensures keys == keys0 + Members(ids) && items == items0 + Placed(ids, QUEUE_LIMIT - |items0|)
  {
    assert ids[..|ids|] == ids;
  }

  class ThreadObject {
    const id: nat
    const tasks: MsgDeque
    var busying: nat
    var status: Status

    /** One busy count and one token a queued task. */
    ghost predicate Valid()
      reads this, tasks
    {
      && !tasks.abort && busying == tasks.notEmpty == |tasks.items|
      && |tasks.items| <= tasks.maxSize == QUEUE_LIMIT
    }

    constructor (id: nat)
      ensures Valid() && fresh(tasks) && this.id == id && busying == 0 && status == IS_SLEEP
      ensures tasks.items == [] && tasks.maxSize == 50000
    {
      this.id := id;
      tasks := new MsgDeque(QUEUE_LIMIT);
      busying, status := 0, IS_SLEEP;
    }

    /** A null function is refused; the answer is false in every case. */
    method AddThreadTask(task: Option<Elem>) returns (ok: bool)
      requires Valid()
      modifies this, tasks
      ensures Valid() && !ok
      ensures var accepted := task.Some? && old(|tasks.items|) < QUEUE_LIMIT;
        && tasks.items == (if accepted then old(tasks.items) + [task.value] else old(tasks.items))
        && busying == old(busying) + (if accepted then 1 else 0)
        && status == if accepted then IS_WAITING else old(status)
    {
      if task.Some? {
        var pushed := tasks.PushBack(task.value);
        if pushed.Accepted? {
          busying := busying + 1;
          status := IS_WAITING;
        }
      }
      ok := false;
    }

    /** The worker takes its next task and counts it down; with nothing queued it waits and does not come back. */
    method TakeTask(signals: nat) returns (r: Reply)
      requires Valid()
      modifies this, tasks
      ensures Valid()
      ensures old(tasks.items) == [] ==> r == Sleeping && tasks.items == [] && status == old(status)
      ensures old(tasks.items) != [] ==>
        && r.Got? && old(tasks.items) == [r.v] + tasks.items && busying == old(busying) - 1 && status == IS_RUNNING
    {
      r := tasks.PopFront(true, signals);
      if r.Got? {
        busying := busying - 1;
        status := IS_RUNNING;
      }
    }
  }

  class ThreadPool {
    const rotation: MsgDeque
    var pool: map<nat, ThreadObject>
    var threadNumbers: nat

    ghost predicate Valid()
      reads this, pool.Values, set o: ThreadObject | o in pool.Values :: o.tasks
    {
      && (forall k :: k in pool ==> pool[k].id == k && pool[k].Valid() && pool[k].tasks != rotation)
      && (forall k, l :: k in pool && l in pool && k != l ==> pool[k].tasks != pool[l].tasks)
    }

    /** Valid, with a rotation that nobody has aborted. */
    ghost predicate Ready()
      reads this, rotation, pool.Values, set o: ThreadObject | o in pool.Values :: o.tasks
    {
      Valid() && GoodRotation(rotation.State(), pool.Keys) && rotation.maxSize == QUEUE_LIMIT
    }

    ghost function Keys(): seq<nat>
      reads this
    {
      SortedKeys(pool.Keys)
    }

    /** The busy counts in key order. */
    ghost function Loads(): (loads: seq<nat>)
      reads this, pool.Values
      ensures |loads| == |Keys()|
      ensures forall i :: 0 <= i < |loads| ==> loads[i] == pool[Keys()[i]].busying
    {
      var keys := Keys();
      seq(|keys|, i requires 0 <= i < |keys| && keys[i] in pool reads this, pool.Values => pool[keys[i]].busying)
    }

    /** The least busy thread, the smallest id among equals. */
    ghost predicate IsBest(thread: nat)
      reads this, pool.Values
    {
      thread in pool && forall k :: k in pool ==>
        pool[thread].busying < pool[k].busying || (pool[thread].busying == pool[k].busying && thread <= k)
    }

    /** The best thread is the one the run theorems of Scheduling call least loaded. */
    lemma BestIsLeastLoaded(thread: nat)
      requires IsBest(thread)
      ensures Loads() != [] && thread == Keys()[LeastLoaded(Loads())]
    {
      var keys := Keys();
      var loads := Loads();
      var i := SortedKeysHold(pool.Keys, thread);
      SortedKeysAscend(pool.Keys);
      forall j | 0 <= j < |loads| ensures loads[i] <= loads[j] && (j < i ==> loads[i] < loads[j]) {
        assert keys[j] in pool;
        assert j < i ==> keys[j] < keys[i];
      }
      LeastIsUnique(loads, i, LeastLoaded(loads));
    }

    constructor ()
      ensures Valid() && fresh(rotation) && pool == map[] && threadNumbers == 0
      ensures rotation.State() == Fresh(QUEUE_LIMIT) && rotation.items == [] && rotation.maxSize == 50000
    {
      rotation := new MsgDeque(QUEUE_LIMIT);
      pool, threadNumbers := map[], 0;
    }

    /** CTMap::get_all_values: the values in ascending key order. */
    method GetAllValues() returns (objects: seq<ThreadObject>)
      ensures |objects| == |Keys()|
      ensures forall i :: 0 <= i < |objects| ==> objects[i] == pool[Keys()[i]]
    {
      objects := [];
      var rest := pool.Keys;
      ghost var done: seq<nat> := [];
      while rest != {}
        invariant rest <= pool.Keys && done + SortedKeys(rest) == Keys() && |done| == |objects|
        invariant forall i :: 0 <= i < |done| ==> done[i] in pool && objects[i] == pool[done[i]]
        decreases rest
      {
        assert IsFirst(rest, First(rest));
        var k :| k in rest && IsFirst(rest, k);
        FirstIsUnique(rest, k);
        assert done + ([k] + SortedKeys(rest - {k})) == done + [k] + SortedKeys(rest - {k});
        objects, done := objects + [pool[k]], done + [k];
        rest := rest - {k};
      }
    }

    /** What the scan knows after looking at the first i objects, none of them idle. */
    ghost predicate Scanned(objects: seq<ThreadObject>, i: nat, best: nat)
      reads objects
    {
      && i <= |objects| && best < |objects| && (best < i || best == 0)
      && forall j :: 0 <= j < i ==>
        && 0 < objects[j].busying
        && (objects[best].busying < objects[j].busying || (objects[best].busying == objects[j].busying && best <= j))
    }

    /** The scan of schedulingHRP, with its early exit on an idle thread. */
    method SchedulingHRP() returns (thread: nat)
      requires Valid()
      ensures if pool == map[] then thread == NO_THREAD else IsBest(thread)
    {
      hide Valid, IsBest;
      thread := NO_THREAD;
      var objects := GetAllValues();
      if |objects| > 0 {
        var i := 0;
        var best := 0;
        while i < |objects|
          invariant Scanned(objects, i, best)
        {
          if objects[i].busying <= 0 {
            thread := objects[i].id;
            break;
          } else if objects[best].busying > objects[i].busying {
            best := i;
          }
          i := i + 1;
        }
        if i == |objects| {
          thread := objects[best].id;
        }
        ChoiceIsBest(objects, if i == |objects| then best else i);
      } else {
        assert pool.Keys == {};
      }
    }

    lemma ChoiceIsBest(objects: seq<ThreadObject>, c: nat)
      requires Valid() && |objects| == |Keys()| && c < |objects|
      requires forall i :: 0 <= i < |objects| ==> objects[i] == pool[Keys()[i]]
      requires forall j :: 0 <= j < |objects| ==>
        objects[c].busying < objects[j].busying || (objects[c].busying == objects[j].busying && c <= j)
      ensures IsBest(objects[c].id)
    {
      SortedKeysAscend(pool.Keys);
      var keys := Keys();
      var thread := keys[c];
      assert thread in pool && pool[thread] == objects[c];
      forall k | k in pool
        ensures pool[thread].busying < pool[k].busying || (pool[thread].busying == pool[k].busying && thread <= k)
      {
        var j := SortedKeysHold(pool.Keys, k);
        assert objects[j] == pool[k];
        assert c < j ==> keys[c] < keys[j];
      }
    }

    /** There is a head to take: an element and, unless the rotation is aborted, a token. */
    ghost predicate HasHead()
      reads rotation
    {
      rotation.items != [] && (rotation.abort || rotation.notEmpty > 0)
    }

    /** And the pool knows the thread. */
    ghost predicate HeadServes()
      reads this, rotation
    {
      HasHead() && rotation.items[0] in pool
    }

    /** The head of the rotation, put back at its tail if the pool knows it; 0 if there is none, or an unknown one,
        which is dropped. A token is spent even if there is no element. */
    method SchedulingFCFS(signals: nat) returns (thread: nat)
      modifies rotation
      ensures thread == if old(HeadServes()) then old(rotation.items)[0] else 0
      ensures rotation.abort == old(rotation.abort) && rotation.maxSize == old(rotation.maxSize)
      ensures !old(HasHead()) ==> rotation.items == old(rotation.items)
      ensures old(HasHead()) ==>
        var kept := old(HeadServes()) && !rotation.abort && |old(rotation.items)| <= rotation.maxSize;
        rotation.items == old(rotation.items)[1..] + if kept then [old(rotation.items)[0]] else []
      ensures rotation.notEmpty ==
        if rotation.abort || old(rotation.notEmpty) == 0 then old(rotation.notEmpty)
        else if old(HeadServes()) && |old(rotation.items)| <= rotation.maxSize then Post(old(rotation.notEmpty) - 1)
        else old(rotation.notEmpty) - 1
      ensures rotation.notFull ==
        if old(HasHead()) && !rotation.abort then Post(old(rotation.notFull)) else old(rotation.notFull)
      ensures thread == FcfsChoice(old(rotation.State()), pool.Keys)
      ensures rotation.State() == FcfsQueue(old(rotation.State()), pool.Keys)
    {
      var head := rotation.PopFront(false, signals);
      if !head.Got? {
        return 0;
      }
      if head.v in pool {
        var pushed := rotation.PushBack(head.v);
        return head.v;
      }
      return 0;
    }

    method GetBestThread(algorithm: Algorithm, signals: nat) returns (thread: nat)
      requires Valid()
      modifies rotation
      ensures Valid() && Loads() == old(Loads())
      ensures algorithm.FCFS? ==> rotation.State() == FcfsQueue(old(rotation.State()), pool.Keys)
      ensures !algorithm.FCFS? ==> rotation.State() == old(rotation.State())
      ensures algorithm.FCFS? && old(HeadServes() && rotation.items[0] != 0) ==> thread == old(rotation.items)[0]
      ensures algorithm.HRP? || (algorithm.FCFS? && !old(HeadServes() && rotation.items[0] != 0)) ==>
        if pool == map[] then thread == NO_THREAD else IsBest(thread)
      ensures algorithm.Other? ==> thread == NO_THREAD
    {
      hide IsBest, FcfsQueue, FcfsChoice, Keys;
      match algorithm
      case FCFS =>
        thread := SchedulingFCFS(signals);
        if thread == 0 {
          thread := SchedulingHRP();
        }
      case HRP => thread := SchedulingHRP();
      case Other => thread := NO_THREAD;
    }

    method AddTask(thread: nat, task: Option<Elem>) returns (found: bool)
      requires Valid()
      modifies if thread in pool then {pool[thread], pool[thread].tasks} else {}
      ensures Valid() && found == (thread in pool)
      ensures found ==>
        var accepted := task.Some? && old(pool[thread].busying) < QUEUE_LIMIT;
        && pool[thread].tasks.items
           == old(pool[thread].tasks.items) + (if accepted then [task.value] else [])
        && pool[thread].busying == old(pool[thread].busying) + (if accepted then 1 else 0)
      ensures forall k :: k in pool && k != thread ==> pool[k].busying == old(pool[k].busying)
    {
      found := thread in pool;
      if found {
        var ok := pool[thread].AddThreadTask(task);
      }
    }

    /** Choose a thread by HRP, then give it the task: exactly one Assign event of the run theorems. */
    method DispatchHRP(task: Elem) returns (thread: nat)
      requires Valid() && pool != map[]
      modifies pool.Values, set o: ThreadObject | o in pool.Values :: o.tasks
      ensures Valid() && Loads() != []
      ensures Loads() == Step(Pool(old(Loads()), 0, 0), Assign, QUEUE_LIMIT).loads
    {
      hide Valid, Loads, Keys, LeastLoaded, Step;
      thread := SchedulingHRP();
      BestIsLeastLoaded(thread);
      var found := AddTask(thread, Some(task));
      AssignIsStep(thread);
    }

    twostate lemma AssignIsStep(thread: nat)
      requires pool == old(pool) && thread in pool
      requires old(Loads() != [] && thread == Keys()[LeastLoaded(Loads())])
      requires pool[thread].busying
        == old(pool[thread].busying) + if old(pool[thread].busying) < QUEUE_LIMIT then 1 else 0
      requires forall k :: k in pool && k != thread ==> pool[k].busying == old(pool[k].busying)
      ensures Loads() == Step(Pool(old(Loads()), 0, 0), Assign, QUEUE_LIMIT).loads
    {
      LoadsMoved(thread);
    }

    /** The worker of a known thread takes a task: exactly one Take event of the run theorems. */
    method TakeFrom(thread: nat, signals: nat) returns (r: Reply)
      requires Valid() && thread in pool
      modifies pool[thread], pool[thread].tasks
      ensures Valid()
      ensures var items := old(pool[thread].tasks.items);
        if items == [] then r == Sleeping && pool[thread].tasks.items == []
        else r.Got? && items == [r.v] + pool[thread].tasks.items
      ensures forall w :: 0 <= w < |Keys()| && Keys()[w] == thread ==>
        Loads() == Step(Pool(old(Loads()), 0, 0), Take(w), QUEUE_LIMIT).loads
    {
      r := pool[thread].TakeTask(signals);
      LoadsMoved(thread);
    }

    /** When one thread's count changes, one load does. */
    twostate lemma LoadsMoved(thread: nat)
      requires pool == old(pool) && thread in pool
      requires forall k :: k in pool && k != thread ==> pool[k].busying == old(pool[k].busying)
      ensures forall i :: 0 <= i < |Keys()| && Keys()[i] == thread ==>
        Loads() == old(Loads())[i := pool[thread].busying] && old(Loads())[i] == old(pool[thread].busying)
    {
      SortedKeysAscend(pool.Keys);
      var keys := Keys();
      forall i, j | 0 <= i < |keys| && keys[i] == thread && 0 <= j < |keys| && j != i
        ensures Loads()[j] == old(Loads())[j]
      {
        assert keys[j] != keys[i] && keys[j] in pool;
      }
    }

    /** RemoveThreadObject: the ids are swapped into a new queue to be copied back without the removed one. But Swap
        leaves the tokens behind, so the copying stops before its first element and the rotation is empty from then on;
        the tokens stay. */
    method RemoveThreadObject(thread: nat, signals: nat)
      requires Valid()
      modifies this`pool, rotation
      ensures Valid() && pool == old(pool) - {thread}
      ensures rotation.State() == old(rotation.State()).(items := [])
    {
      pool := pool - {thread};
      var ids := new MsgDeque(QUEUE_LIMIT);
      rotation.Swap(ids);
      CopyBack(ids, thread, signals);
    }

    /** The copying loop, for whatever tokens `from` has. */
    method CopyBack(from: MsgDeque, thread: nat, signals: nat)
      requires from != rotation
      modifies rotation, from
      ensures rotation.State() == Refilled(old(rotation.State()), old(from.State()), thread)
    {
      ghost var filled := Refilled(rotation.State(), from.State(), thread);
      var head := from.PopFront(false, signals);
      while head.Got?
        invariant filled ==
          if head.Got? then
            Refilled(if head.v != thread then Call(rotation.State(), PushBack(head.v)).q else rotation.State(),
                     from.State(), thread)
          else rotation.State()
        decreases |from.items| + if head.Got? then 1 else 0
      {
        if head.v != thread {
          var pushed := rotation.PushBack(head.v);
        }
        head := from.PopFront(false, signals);
      }
    }

    /** One round of the creation loop. A full rotation takes no more ids. */
    method AddThread(id: nat)
      requires Ready()
      requires id !in pool && id != 0
      modifies this, rotation
      ensures Ready()
      ensures threadNumbers == old(threadNumbers) + 1
      ensures pool.Keys == old(pool.Keys) + {id}
      ensures pool[id].busying == 0 && forall k :: k in old(pool) ==> pool[k] == old(pool[k])
      ensures rotation.items == old(rotation.items) + if |old(rotation.items)| < QUEUE_LIMIT then [id] else []
    {
      RotationGrows(rotation.State(), pool.Keys, id);
      hide GoodRotation;
      var added := new ThreadObject(id);
      threadNumbers := threadNumbers + 1;
      pool := pool[id := added];
      var pushed := rotation.PushBack(id);
    }

    /** CreateThreadPool; `ids` are the ids pthread_create hands out, never zero and never in use. Every thread
        enters the map, but only as many enter the rotation as its 50000 places allow. */
    method CreateThreadPool(ids: seq<nat>)
      requires Ready()
      requires Distinct(ids) && 0 !in Members(ids) && Members(ids) !! pool.Keys
      modifies this, rotation
      ensures Ready()
      ensures threadNumbers == old(threadNumbers) + |ids|
      ensures pool.Keys == old(pool.Keys) + Members(ids)
      ensures rotation.items == old(rotation.items) + Placed(ids, QUEUE_LIMIT - |old(rotation.items)|)
    {
      ghost var keys0, items0 := pool.Keys, rotation.items;
      assert Created(ids, 0, keys0, pool.Keys, items0, rotation.items);
      hide Ready, Members, Distinct, Placed, Created;
      var i := 0;
      while i < |ids|
        invariant 0 <= i <= |ids|
        invariant Ready()
        invariant threadNumbers == old(threadNumbers) + i
        invariant Created(ids, i, keys0, pool.Keys, items0, rotation.items)
      {
        CreatedNext(ids, i, keys0, pool.Keys, items0, rotation.items);
        AddThread(ids[i]);
        i := i + 1;
      }
      CreatedAll(ids, keys0, pool.Keys, items0, rotation.items);
    }
  }
}

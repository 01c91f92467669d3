/** CEpollWatch (base/src/EpollWatch.h and .cpp): the registration count and the event array sized after it. */
module EventSizing {

  const BLOCK: nat := 1000

  predicate IsSize(size: nat) {
    size >= BLOCK && size % BLOCK == 0
  }

  /** One SafeChangeEvents: a block more, a block less, or nothing. */
  function SizeStep(size: nat, max: nat): nat
    requires IsSize(size)
    ensures IsSize(SizeStep(size, max))
  {
    if max > size then size + BLOCK else if max + BLOCK < size then size - BLOCK else size
  }

  predicate InBand(size: nat, max: nat) {
    max <= size <= max + BLOCK
  }

  function Distance(size: nat, max: nat): nat {
    if size < max then max - size else if size > max + BLOCK then size - max - BLOCK else 0
  }

  function Iterate(size: nat, max: nat, n: nat): (s: nat)
    requires IsSize(size)
    ensures IsSize(s)
  {
    if n == 0 then size else SizeStep(Iterate(size, max, n - 1), max)
  }

  /** With the count fixed the size walks into the band around it, a block nearer each time, and stays. */
  lemma {:induction false} Converges(size: nat, max: nat, n: nat)
    requires IsSize(size)
    ensures var s := Iterate(size, max, n);
      && (InBand(s, max) || Distance(s, max) + n * BLOCK <= Distance(size, max))
      && (n * BLOCK >= Distance(size, max) ==> InBand(s, max) && SizeStep(s, max) == s)
  {
    if n == 0 {
    } else {
      Converges(size, max, n - 1);
    }
  }

  /** One pass of the event loop: the array is resized, other threads close `early` sockets, the wait is made for
      the count as it is then, and until the next pass `added` sockets come and `late` ones go. */
  datatype Pass = Pass(early: nat, added: nat, late: nat)
  datatype Loop = Loop(size: nat, max: nat)

  function Minus(a: nat, b: nat): nat {
    if a < b then 0 else a - b
  }

  /** Where the loop stands when it makes the wait of this pass. */
  function AtWait(l: Loop, p: Pass): Loop
    requires IsSize(l.size)
  {
    Loop(SizeStep(l.size, l.max), Minus(l.max, p.early))
  }

  function AfterPass(l: Loop, p: Pass): Loop
    requires IsSize(l.size)
  {
    var w := AtWait(l, p);
    w.(max := Minus(w.max + p.added, p.late))
  }

  /** The loop starts with one block and the two descriptors of the service itself. */
  function AfterPasses(ps: seq<Pass>): (l: Loop)
    ensures IsSize(l.size)
  {
    if ps == [] then Loop(BLOCK, 2) else AfterPass(AfterPasses(ps[..|ps| - 1]), ps[|ps| - 1])
  }

  predicate Accepts(ps: seq<Pass>, k: nat) {
    forall i :: 0 <= i < |ps| ==> ps[i].added <= k
  }

  /** At the wait of every pass the array has a place for every event epoll_pwait may store. */
  ghost predicate EveryWaitFits(ps: seq<Pass>) {
    forall i :: 0 <= i < |ps| ==> var w := AtWait(AfterPasses(ps[..i]), ps[i]); w.max <= w.size
  }

  lemma {:induction false} MaxBound(ps: seq<Pass>)
    requires Accepts(ps, BLOCK)
    ensures AfterPasses(ps).max <= AfterPasses(ps).size + BLOCK
  {
    if ps == [] {
    } else {
      MaxBound(ps[..|ps| - 1]);
    }
  }

  /** Main theorem: runs that accept at most k sockets a pass keep every wait inside the array, for every run,
      exactly when k is at most one block. */
  lemma AcceptBoundIff(k: nat)
    ensures (forall ps :: Accepts(ps, k) ==> EveryWaitFits(ps)) <==> k <= BLOCK
  {
    if k <= BLOCK {
      forall ps | Accepts(ps, k) ensures EveryWaitFits(ps) {
        forall i | 0 <= i < |ps| ensures var w := AtWait(AfterPasses(ps[..i]), ps[i]); w.max <= w.size {
          MaxBound(ps[..i]);
        }
      }
    } else {
      var ps := [Pass(0, 998, 0), Pass(0, 1001, 0), Pass(0, 0, 0)];
      assert ps[..0] == [];
      assert ps[..1][..0] == [] && AfterPasses(ps[..1]) == Loop(1000, 1000);
      assert ps[..2][..1] == ps[..1] && AfterPasses(ps[..2]) == Loop(1000, 2001);
      assert !EveryWaitFits(ps) by {
        assert AtWait(AfterPasses(ps[..2]), ps[2]) == Loop(2000, 2001);
      }
      assert Accepts(ps, k);
    }
  }
}

module EpollWatch {
  import opened EventSizing

  datatype Event = Event(fd: int, events: int)
  datatype Ctl = ADD | MOD | DEL

  class EpollWatch {
    var epollfd: int
    var vEvents: seq<Event>
    var eventSize: nat
    var maxNumbers: nat
    var interest: set<int>  // the kernel's side: the descriptors epoll watches

    ghost predicate Valid()
      reads this
    {
      && IsSize(eventSize) && |vEvents| == eventSize
      && maxNumbers == |interest|
      && (epollfd <= 0 ==> interest == {})
    }

    constructor ()
      ensures Valid() && eventSize == BLOCK && maxNumbers == 0 && interest == {} && epollfd == 0
    {
      epollfd, eventSize, maxNumbers, interest := 0, 1000, 0, {};
      vEvents := seq(1000, _ => Event(0, 0));
    }

    method Resize(size: nat)
      modifies this`vEvents
      ensures |vEvents| == size
      ensures forall i :: 0 <= i < size && i < |old(vEvents)| ==> vEvents[i] == old(vEvents)[i]
    {
      vEvents := if size <= |vEvents| then vEvents[..size]
                 else vEvents + seq(size - |vEvents|, _ => Event(0, 0));
    }

    method SafeChangeEvents()
      requires Valid()
      modifies this`eventSize, this`vEvents
      ensures Valid() && eventSize == SizeStep(old(eventSize), maxNumbers)
      ensures forall i :: 0 <= i < eventSize && i < old(eventSize) ==> vEvents[i] == old(vEvents)[i]
    {
      if maxNumbers > eventSize {
        eventSize := eventSize + 1000;
        Resize(eventSize);
      } else if maxNumbers + 1000 < eventSize {
        eventSize := eventSize - 1000;
        Resize(eventSize);
      }
    }

    /** The kernel refuses to add a watched descriptor and to change or delete one it does not watch, and it may
        refuse for reasons of its own (`willing`). The count follows what it did. */
    method EpollCtl(op: Ctl, fd: int, willing: bool) returns (ret: int)
      requires Valid()
      modifies this`maxNumbers, this`interest
      ensures Valid()
      ensures epollfd <= 0 ==> ret == -1
      ensures epollfd > 0 ==>
        ret == if op.ADD? == (fd in old(interest)) || !willing then -2 else 0
      ensures interest == if ret != 0 || op.MOD? then old(interest)
                          else if op.ADD? then old(interest) + {fd} else old(interest) - {fd}
      ensures maxNumbers == if ret != 0 || op.MOD? then old(maxNumbers)
                            else if op.ADD? then old(maxNumbers) + 1 else old(maxNumbers) - 1
    {
      ret := -1;
      if epollfd > 0 {
        ret := if op.ADD? == (fd in interest) || !willing then -2 else 0;
        if ret == -2 {
          return;
        }
        match op
        case ADD =>
          interest := interest + {fd};
          maxNumbers := maxNumbers + 1;
        case DEL =>
          interest := interest - {fd};
          maxNumbers := maxNumbers - 1;
        case MOD =>
      }
    }

    method EpollCreate(fd: int)
      requires Valid() && fd > 0
      modifies this`epollfd
      ensures Valid() && epollfd == if old(epollfd) == 0 then fd else old(epollfd)
      ensures old(epollfd) >= 0 ==> epollfd > 0
    {
      if epollfd == 0 {
        epollfd := fd;
      }
    }
  }
}

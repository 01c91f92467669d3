/** The bounded deque of base/src/MsgDeque.h: its shared state, the atomic section each operation runs under the
    mutex, and the class whose methods string those sections together.

    The sections are functions on the shared state so that two readers can use the same definition: the class
    methods below, which run one call from start to end, and the interleaving model in QueueProtocol.dfy. */
module QueueSpec {

  const SEM_VALUE_MAX: nat := 2147483647
  const QUEUE_LIMIT: nat := 50000  // the constructor's default

  /** A queue element: a task pointer or a thread id. The queue moves it and never looks inside. */
  type Elem = nat

  /** m_deque, the two semaphore counts, m_bAbort and m_maxSize. */
  datatype Shared = Shared(items: seq<Elem>, notEmpty: nat, notFull: nat, abort: bool, maxSize: nat)

  /** The operations. `forever` is a wait without a deadline (out == -1). */
  datatype Op =
    | PushBack(v: Elem)
    | PopFront(forever: bool)
    | PushFront(v: Elem, forever: bool)
    | PopBack(forever: bool)
    | Front(forever: bool)
    | Back(forever: bool)
    | Insert(at: nat, vs: seq<Elem>)
    | SetMax(size: nat)
    | Abort
    | Clear

  predicate Forever(op: Op) {
    match op
    case PopFront(f) => f
    case PushFront(_, f) => f
    case PopBack(f) => f
    case Front(f) => f
    case Back(f) => f
    case _ => false
  }

  /** sem_post: at the maximum it fails with EOVERFLOW and leaves the count alone. */
  function Post(count: nat): nat {
    if count < SEM_VALUE_MAX then count + 1 else count
  }

  function ClampSize(maxSize: nat): nat {
    if maxSize > SEM_VALUE_MAX then SEM_VALUE_MAX - 1 else maxSize
  }

  predicate IsFull(q: Shared, offset: nat) {
    |q.items| + offset >= q.maxSize
  }

  function PushBackSection(q: Shared, v: Elem): Shared {
    if IsFull(q, 0) then q else q.(items := q.items + [v], notEmpty := Post(q.notEmpty))
  }

  function PushFrontSection(q: Shared, v: Elem): Shared {
    if IsFull(q, 0) then q else q.(items := [v] + q.items, notEmpty := Post(q.notEmpty))
  }

  /** Insert posts once, however many elements go in, and refuses a range that would fill the queue exactly. */
  function InsertSection(q: Shared, at: nat, vs: seq<Elem>): Shared {
    if IsFull(q, |vs|) then q
    else
      var i := if at <= |q.items| then at else |q.items|;
      q.(items := q.items[..i] + vs + q.items[i..], notEmpty := Post(q.notEmpty))
  }

  /** The section PopFront runs after it has taken a token. */
  function PopFrontSection(q: Shared): Shared {
    if q.items == [] then q else q.(items := q.items[1..], notFull := Post(q.notFull))
  }

  /** The section PopBack runs after it has taken a token; it does not look whether the deque is empty. */
  function PopBackSection(q: Shared): Shared
    requires q.items != []
  {
    q.(items := q.items[..|q.items| - 1], notFull := Post(q.notFull))
  }

  /** The branches of PopFront and PopBack for an aborted queue: no token, no post. */
  function DrainFrontSection(q: Shared): Shared {
    if q.items == [] then q else q.(items := q.items[1..])
  }

  function DrainBackSection(q: Shared): Shared {
    if q.items == [] then q else q.(items := q.items[..|q.items| - 1])
  }

  function TakeToken(q: Shared): Shared
    requires q.notEmpty > 0
  {
    q.(notEmpty := q.notEmpty - 1)
  }

  /** AbortWait in its two visible steps: the flag is read by others without the mutex. */
  function AbortFlag(q: Shared): Shared {
    q.(abort := true)
  }

  function AbortPost(q: Shared): Shared {
    q.(notEmpty := Post(q.notEmpty), notFull := Post(q.notFull))
  }

  function ClearItems(q: Shared): Shared {
    q.(items := [])
  }

  function SetMaxSection(q: Shared, maxSize: nat): Shared {
    q.(maxSize := ClampSize(maxSize))
  }

  function Fresh(maxSize: nat): Shared {
    Shared([], 0, ClampSize(maxSize), false, ClampSize(maxSize))
  }

  /* ------------------------------------------------------------------ one call with nobody else at work */

  /** What a call tells its caller. A call that never returns is Sleeping; back() on an empty deque is Undefined. */
  datatype Reply = Accepted | Refused | Got(v: Elem) | Nothing | Sleeping | Undefined

  datatype Outcome = Outcome(q: Shared, reply: Reply)

  /** A call that waits for a token and gets none: the flag, the deadline, or for ever. */
  function NoToken(q: Shared, op: Op, refusal: Reply): Outcome {
    Outcome(q, if !q.abort && Forever(op) then Sleeping else refusal)
  }

  predicate Granted(q: Shared) {
    !q.abort && q.notEmpty > 0
  }

  function FirstOf(items: seq<Elem>): Reply {
    if items == [] then Nothing else Got(items[0])
  }

  function LastOf(items: seq<Elem>, none: Reply): Reply {
    if items == [] then none else Got(items[|items| - 1])
  }

  function Call(q: Shared, op: Op): Outcome {
    match op
    case PushBack(v) =>
      if q.abort || IsFull(q, 0) then Outcome(q, Refused) else Outcome(PushBackSection(q, v), Accepted)
    case Insert(at, vs) =>
      if q.abort || IsFull(q, |vs|) then Outcome(q, Refused) else Outcome(InsertSection(q, at, vs), Accepted)
    case PushFront(v, _) =>
      if !Granted(q) then NoToken(q, op, Refused)
      else Outcome(PushFrontSection(TakeToken(q), v), if IsFull(q, 0) then Refused else Accepted)
    case Front(_) =>
      if !Granted(q) then NoToken(q, op, Nothing) else Outcome(TakeToken(q), FirstOf(q.items))
    case Back(_) =>
      if !Granted(q) then NoToken(q, op, Nothing) else Outcome(TakeToken(q), LastOf(q.items, Undefined))
    case PopFront(_) =>
      if q.abort then Outcome(DrainFrontSection(q), FirstOf(q.items))
      else if !Granted(q) then NoToken(q, op, Nothing)
      else Outcome(PopFrontSection(TakeToken(q)), FirstOf(q.items))
    case PopBack(_) =>
      if q.abort then Outcome(DrainBackSection(q), LastOf(q.items, Nothing))
      else if !Granted(q) then NoToken(q, op, Nothing)
      else if q.items == [] then Outcome(TakeToken(q), Undefined)
      else Outcome(PopBackSection(TakeToken(q)), LastOf(q.items, Undefined))
    case SetMax(size) => Outcome(SetMaxSection(q, size), Accepted)
    case Abort => Outcome(AbortPost(AbortFlag(q)), Accepted)
    case Clear => Outcome(ClearItems(AbortPost(AbortFlag(q))), Accepted)
  }
}

/** The class, call by call. Each method states its whole effect on the fields, and that it is what QueueSpec.Call says
    of its operation; QueueSolo.dfy proves the latter of every way to run that operation's steps alone. */
module MsgDeque {
  import opened QueueSpec

  /** How a wait for a token ends; Sleeps is a wait that does not. */
  datatype Wait = Token | NoToken | Sleeps

  class MsgDeque {
    var items: seq<Elem>
    var notEmpty: nat
    var notFull: nat
    var abort: bool
    var maxSize: nat

    ghost function State(): Shared
      reads this
    {
      Shared(items, notEmpty, notFull, abort, maxSize)
    }

    constructor (size: nat)
      ensures State() == Fresh(size)
      ensures items == [] && notEmpty == 0 && !abort
      ensures notFull == maxSize == if size > 2147483647 then 2147483646 else size
    {
      var clamped := if size > SEM_VALUE_MAX then SEM_VALUE_MAX - 1 else size;
      items, notEmpty, notFull := [], 0, clamped;
      abort, maxSize := false, clamped;
    }

    method SetMaxQueueSize(size: nat)
      modifies this`maxSize
      ensures Outcome(State(), Accepted) == Call(old(State()), SetMax(size))
      ensures maxSize == if size > 2147483647 then 2147483646 else size
    {
      maxSize := if size > SEM_VALUE_MAX then SEM_VALUE_MAX - 1 else size;
    }

    /** Swap exchanges the elements and leaves the semaphores, the flags and the limits where they are. */
    method Swap(other: MsgDeque)
      modifies this`items, other`items
      ensures items == old(other.items) && other.items == old(items)
    {
      items, other.items := other.items, items;
    }

    method PostNotEmpty()
      modifies this`notEmpty
      ensures notEmpty == Post(old(notEmpty))
    {
      if notEmpty < SEM_VALUE_MAX { notEmpty := notEmpty + 1; }
    }

    method PostNotFull()
      modifies this`notFull
      ensures notFull == Post(old(notFull))
    {
      if notFull < SEM_VALUE_MAX { notFull := notFull + 1; }
    }

    method AbortWait()
      modifies this`abort, this`notEmpty, this`notFull
      ensures Outcome(State(), Accepted) == Call(old(State()), Abort)
      ensures abort && notEmpty == Post(old(notEmpty)) && notFull == Post(old(notFull))
    {
      abort := true;
      PostNotEmpty();
      PostNotFull();
    }

    /** The retry loop around the semaphore. `signals` is how often the wait is interrupted before it settles. */
    method WaitforNotEmpty(forever: bool, signals: nat) returns (w: Wait)
      modifies this`notEmpty
      ensures w == if abort then NoToken else if old(notEmpty) > 0 then Token
                   else if forever then Sleeps else NoToken
      ensures notEmpty == if w.Token? then old(notEmpty) - 1 else old(notEmpty)
    {
      var left := signals;
      while !abort
        invariant notEmpty == old(notEmpty)
        decreases left
      {
        if left > 0 {
          left := left - 1;  // EINTR: look at the flag again
        } else if notEmpty > 0 {
          notEmpty := notEmpty - 1;
          return Token;
        } else {
          return if forever then Sleeps else NoToken;  // ETIMEDOUT
        }
      }
      return NoToken;
    }

    method Front(forever: bool, signals: nat) returns (r: Reply)
      modifies this`notEmpty
      ensures Outcome(State(), r) == Call(old(State()), QueueSpec.Front(forever))
      ensures !abort && old(notEmpty) > 0 ==>
        notEmpty == old(notEmpty) - 1 && r == if items == [] then Nothing else Got(items[0])
      ensures abort || old(notEmpty) == 0 ==>
        notEmpty == old(notEmpty) && r == if !abort && forever then Sleeping else Nothing
    {
      var w := WaitforNotEmpty(forever, signals);
      match w
      case Sleeps => r := Sleeping;
      case NoToken => r := Nothing;
      case Token => r := if |items| > 0 then Got(items[0]) else Nothing;
    }

    method PopFront(forever: bool, signals: nat) returns (r: Reply)
      modifies this`items, this`notEmpty, this`notFull
      ensures Outcome(State(), r) == Call(old(State()), QueueSpec.PopFront(forever))
      ensures abort || old(notEmpty) > 0 ==>
        if old(items) == [] then r == Nothing && items == []
        else r == Got(old(items)[0]) && items == old(items)[1..]
      ensures !abort && old(notEmpty) == 0 ==>
        items == old(items) && r == if forever then Sleeping else Nothing
      ensures notEmpty == if !abort && old(notEmpty) > 0 then old(notEmpty) - 1 else old(notEmpty)
      ensures notFull == if r.Got? && !abort then Post(old(notFull)) else old(notFull)
    {
      r := Nothing;
      if !abort {
        var w := WaitforNotEmpty(forever, signals);
        if w.Sleeps? {
          r := Sleeping;
        } else if w.Token? && |items| > 0 {
          r := Got(items[0]);
          items := items[1..];
          PostNotFull();
        }
      } else if |items| > 0 {
        r := Got(items[0]);
        items := items[1..];
      }
    }

    /** WaitforNotFull waits on the not-empty semaphore, so PushFront spends a token before it pushes. */
    method PushFront(v: Elem, forever: bool, signals: nat) returns (r: Reply)
      modifies this`items, this`notEmpty
      ensures Outcome(State(), r) == Call(old(State()), QueueSpec.PushFront(v, forever))
      ensures !abort && old(notEmpty) > 0 && |old(items)| < maxSize ==>
        r == Accepted && items == [v] + old(items) && notEmpty == Post(old(notEmpty) - 1)
      ensures !abort && old(notEmpty) > 0 && |old(items)| >= maxSize ==>
        r == Refused && items == old(items) && notEmpty == old(notEmpty) - 1
      ensures abort || old(notEmpty) == 0 ==>
        && items == old(items) && notEmpty == old(notEmpty)
        && r == if !abort && forever then Sleeping else Refused
    {
      r := Refused;
      if !abort {
        var w := WaitforNotEmpty(forever, signals);
        if w.Sleeps? {
          r := Sleeping;
        } else if w.Token? && |items| < maxSize {
          items := [v] + items;
          PostNotEmpty();
          r := Accepted;
        }
      }
    }

    /** Back and PopBack call back() without looking whether there is an element. QueuePrograms.BackIsSafeIff says
        which programs never get there with an empty deque. */
    method Back(forever: bool, signals: nat) returns (r: Reply)
      modifies this`notEmpty
      ensures Outcome(State(), r) == Call(old(State()), QueueSpec.Back(forever))
      ensures !abort && old(notEmpty) > 0 ==>
        notEmpty == old(notEmpty) - 1 && r == if items == [] then Undefined else Got(items[|items| - 1])
      ensures abort || old(notEmpty) == 0 ==>
        notEmpty == old(notEmpty) && r == if !abort && forever then Sleeping else Nothing
    {
      var w := WaitforNotEmpty(forever, signals);
      match w
      case Sleeps => r := Sleeping;
      case NoToken => r := Nothing;
      case Token => r := if items == [] then Undefined else Got(items[|items| - 1]);
    }

    method PopBack(forever: bool, signals: nat) returns (r: Reply)
      modifies this`items, this`notEmpty, this`notFull
      ensures Outcome(State(), r) == Call(old(State()), QueueSpec.PopBack(forever))
      ensures abort || old(notEmpty) > 0 ==>
        if old(items) == [] then r == (if abort then Nothing else Undefined) && items == []
        else var last := |old(items)| - 1; r == Got(old(items)[last]) && items == old(items)[..last]
      ensures !abort && old(notEmpty) == 0 ==>
        items == old(items) && r == if forever then Sleeping else Nothing
      ensures notEmpty == if !abort && old(notEmpty) > 0 then old(notEmpty) - 1 else old(notEmpty)
      ensures notFull == if r.Got? && !abort then Post(old(notFull)) else old(notFull)
    {
      r := Nothing;
      if !abort {
        var w := WaitforNotEmpty(forever, signals);
        if w.Sleeps? {
          r := Sleeping;
        } else if w.Token? && items == [] {
          r := Undefined;
        } else if w.Token? {
          r := Got(items[|items| - 1]);
          items := items[..|items| - 1];
          PostNotFull();
        }
      } else if |items| > 0 {
        r := Got(items[|items| - 1]);
        items := items[..|items| - 1];
      }
    }

    method PushBack(v: Elem) returns (r: Reply)
      modifies this`items, this`notEmpty
      ensures Outcome(State(), r) == Call(old(State()), QueueSpec.PushBack(v))
      ensures if abort || |old(items)| >= maxSize
              then r == Refused && items == old(items) && notEmpty == old(notEmpty)
              else r == Accepted && items == old(items) + [v] && notEmpty == Post(old(notEmpty))
    {
      r := Refused;
      if !abort {
        if |items| < maxSize {
          items := items + [v];
          PostNotEmpty();
          r := Accepted;
        }
      }
    }

    method Insert(at: nat, vs: seq<Elem>) returns (r: Reply)
      modifies this`items, this`notEmpty
      ensures Outcome(State(), r) == Call(old(State()), QueueSpec.Insert(at, vs))
      ensures abort || |old(items)| + |vs| >= maxSize ==>
        r == Refused && items == old(items) && notEmpty == old(notEmpty)
      ensures !abort && |old(items)| + |vs| < maxSize ==>
        && r == Accepted && notEmpty == Post(old(notEmpty)) && |items| == |old(items)| + |vs|
        && (at <= |old(items)| ==> items == old(items)[..at] + vs + old(items)[at..])
        && (at > |old(items)| ==> items == old(items) + vs)
    {
      r := Refused;
      if !abort {
        if |items| + |vs| < maxSize {
          var i := if at <= |items| then at else |items|;
          items := items[..i] + vs + items[i..];
          PostNotEmpty();
          r := Accepted;
        }
      }
    }

    /** Clear aborts the queue and then empties it; the tokens stay. */
    method Clear()
      modifies this`items, this`abort, this`notEmpty, this`notFull
      ensures Outcome(State(), Accepted) == Call(old(State()), QueueSpec.Clear)
      ensures abort && items == [] && notEmpty == Post(old(notEmpty)) && notFull == Post(old(notFull))
    {
      AbortWait();
      items := [];
    }
  }
}

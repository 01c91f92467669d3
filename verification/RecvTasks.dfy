/** The receive tasks of one socket (net/src/TcpService.cpp:179-189, 280-317). The socket is edge-triggered: each edge
    becomes a task, tasks wait in the queues of the workers and run side by side, and a task that gets no byte drops
    the client, whether it met the end of the stream or an empty socket. */
module RecvTasks {
  import RecvLoop

  datatype Socket = Socket(
    pending: nat,    // bytes nobody has read
    ended: bool,     // the peer has closed its side
    edge: bool,      // an edge that epoll has not handed out; edges in one pass are one event
    queued: nat,     // tasks in the queues of the workers
    begun: nat,      // running tasks that have read nothing
    reading: nat,       // running tasks that have read something
    open: bool)

  datatype Move = Arrive(bytes: nat) | End | Deliver | Begin | FirstRead | FurtherRead

  const ACCEPTED: Socket := Socket(0, false, false, 0, 0, 0, true)

  /** read(2) with room for one megabyte. */
  function Read(s: Socket): Socket {
    s.(pending := if s.pending > RecvLoop.OFFSET then s.pending - RecvLoop.OFFSET else 0)
  }

  /** A socket that is closed stays closed; a move that nobody can make changes nothing. */
  function Next(s: Socket, m: Move): Socket {
    if !s.open then s
    else
      match m
      case Arrive(n) => if s.ended || n == 0 then s else s.(pending := s.pending + n, edge := true)
      case End => if s.ended then s else s.(ended := true, edge := true)
      case Deliver => if s.edge then s.(edge := false, queued := s.queued + 1) else s
      case Begin => if s.queued > 0 then s.(queued := s.queued - 1, begun := s.begun + 1) else s
      case FirstRead =>
        if s.begun == 0 then s
        else if s.pending > 0 then Read(s).(begun := s.begun - 1, reading := s.reading + 1)
        else s.(begun := s.begun - 1, open := false)
      case FurtherRead =>
        if s.reading == 0 then s
        else if s.pending > 0 then Read(s)
        else s.(reading := s.reading - 1)  // the bytes go to the message function
  }

  function Exec(s: Socket, moves: seq<Move>): Socket {
    if moves == [] then s else Next(Exec(s, moves[..|moves| - 1]), moves[|moves| - 1])
  }

  /** Nothing comes from the peer. */
  predicate OnlyServer(moves: seq<Move>) {
    forall i :: 0 <= i < |moves| ==> !moves[i].Arrive? && !moves[i].End?
  }

  /** Edges and tasks that have read nothing. */
  function Unread(s: Socket): nat {
    (if s.edge then 1 else 0) + s.queued + s.begun
  }

  lemma Take(s: Socket, gos: seq<Move>, m: Move) returns (gos': seq<Move>)
    requires OnlyServer(gos) && !m.Arrive? && !m.End?
    ensures OnlyServer(gos') && Exec(s, gos') == Next(Exec(s, gos), m)
  {
    gos' := gos + [m];
    assert gos'[..|gos|] == gos;
  }

  /* ------------------------------------------------------------------ a live client is dropped */

  /** There is at most one task without bytes, and it has bytes that nobody else is going to read. */
  predicate Calm(s: Socket) {
    Unread(s) == 0 || (Unread(s) == 1 && s.pending > 0 && s.reading == 0)
  }

  lemma {:induction false} CalmRun(s: Socket, gos: seq<Move>)
    requires s.open && Calm(s) && OnlyServer(gos)
    ensures Exec(s, gos).open && Calm(Exec(s, gos))
  {
    if gos == [] {
    } else {
      CalmRun(s, gos[..|gos| - 1]);
    }
  }

  /** Every edge becomes a running task. */
  lemma {:induction false} BeginAll(s: Socket, gos: seq<Move>) returns (gos': seq<Move>)
    requires OnlyServer(gos) && Exec(s, gos).open
    ensures OnlyServer(gos')
    ensures var t, t' := Exec(s, gos), Exec(s, gos'); t' == t.(edge := false, queued := 0, begun := Unread(t))
    decreases var t := Exec(s, gos); (if t.edge then 2 else 0) + t.queued
  {
    var t := Exec(s, gos);
    gos' := gos;
    if t.edge {
      gos' := Take(s, gos, Deliver);
      gos' := BeginAll(s, gos');
    } else if t.queued > 0 {
      gos' := Take(s, gos, Begin);
      gos' := BeginAll(s, gos');
    }
  }

  /** A task that has read something reads the rest. */
  lemma {:induction false} ReadAll(s: Socket, gos: seq<Move>) returns (gos': seq<Move>)
    requires OnlyServer(gos) && Exec(s, gos).open && (Exec(s, gos).reading > 0 || Exec(s, gos).pending == 0)
    ensures OnlyServer(gos') && Exec(s, gos') == Exec(s, gos).(pending := 0)
    decreases Exec(s, gos).pending
  {
    gos' := gos;
    if Exec(s, gos).pending > 0 {
      gos' := Take(s, gos, FurtherRead);
      gos' := ReadAll(s, gos');
    }
  }

  lemma DroppingRun(s: Socket) returns (gos: seq<Move>)
    requires s.open && !Calm(s)
    ensures OnlyServer(gos) && !Exec(s, gos).open && Exec(s, gos).ended == s.ended
  {
    gos := BeginAll(s, []);
    if s.pending > 0 && s.reading == 0 {
      gos := Take(s, gos, FirstRead);
    }
    gos := ReadAll(s, gos);
    gos := Take(s, gos, FirstRead);
  }

  /** However the server goes on, a peer that has not closed is not dropped. */
  ghost predicate Safe(s: Socket) {
    forall gos :: OnlyServer(gos) ==> Exec(s, gos).open || Exec(s, gos).ended
  }

  /** With the peer silent, the server may drop a live client exactly when a task without bytes finds, or may find,
      the socket drained by another. */
  lemma SafeIff(s: Socket)
    requires s.open && !s.ended
    ensures Safe(s) <==> Calm(s)
  {
    if Calm(s) {
      forall gos | OnlyServer(gos) ensures Exec(s, gos).open { CalmRun(s, gos); }
    } else {
      var gos := DroppingRun(s);
      assert !Safe(s);
    }
  }

  lemma {:induction false} EndedRun(s: Socket, gos: seq<Move>)
    requires s.ended
    ensures Exec(s, gos).ended
  {
    if gos == [] {
    } else {
      EndedRun(s, gos[..|gos| - 1]);
    }
  }

  /** After each move of the run the client is safe. */
  ghost predicate SafeThroughout(moves: seq<Move>) {
    Safe(Exec(ACCEPTED, moves)) && (moves == [] || SafeThroughout(moves[..|moves| - 1]))
  }

  /** Bytes come while a task of the socket is queued or running. */
  predicate Overlaps(s: Socket, m: Move) {
    s.open && !s.ended && m.Arrive? && m.bytes > 0 && s.queued + s.begun + s.reading > 0
  }

  predicate NeverOverlaps(moves: seq<Move>) {
    moves == [] ||
      (&& !Overlaps(Exec(ACCEPTED, moves[..|moves| - 1]), moves[|moves| - 1]) && NeverOverlaps(moves[..|moves| - 1]))
  }

  /** The client has closed, or is open and cannot be dropped. */
  predicate Fine(s: Socket) {
    s.ended || (s.open && Calm(s))
  }

  lemma FineIsSafe(s: Socket)
    ensures Fine(s) <==> Safe(s)
  {
    if s.ended {
      forall gos ensures Exec(s, gos).ended { EndedRun(s, gos); }
    } else if s.open {
      SafeIff(s);
    } else {
      assert Exec(s, []) == s;
      assert OnlyServer([]) && !Safe(s);
    }
  }

  lemma NextFineIff(s: Socket, m: Move)
    requires Fine(s)
    ensures Fine(Next(s, m)) <==> !Overlaps(s, m)
  {
  }

  /** Main theorem: at no moment of the run may the server drop a client that has not closed, exactly when bytes never
      come while a receive task of the socket is queued or running. A peer that sends again before its first bytes
      were taken may find itself dropped: one task reads everything, the next reads nothing. */
  lemma {:induction false} LiveClientIff(moves: seq<Move>)
    ensures SafeThroughout(moves) <==> NeverOverlaps(moves)
  {
    FineIsSafe(Exec(ACCEPTED, moves));
    if moves == [] {
    } else {
      var init := moves[..|moves| - 1];
      LiveClientIff(init);
      FineIsSafe(Exec(ACCEPTED, init));
      hide Safe, Fine, Next, Overlaps;
      if SafeThroughout(init) {
        NextFineIff(Exec(ACCEPTED, init), moves[|moves| - 1]);
      }
    }
  }

  /* ------------------------------------------------------------------ a closed client is kept */

  /** Reads it takes to drain so many bytes. */
  function Chunks(pending: nat): nat {
    (pending + RecvLoop.OFFSET - 1) / RecvLoop.OFFSET
  }

  lemma ReadTakesAChunk(s: Socket)
    requires s.pending > 0
    ensures Chunks(Read(s).pending) == Chunks(s.pending) - 1
  {
  }

  /** All edges and tasks are used up: nothing will close this socket any more. */
  predicate Spent(s: Socket) {
    s.open && Unread(s) == 0 && s.reading == 0
  }

  lemma {:induction false} MoreTasksRun(s: Socket, gos: seq<Move>)
    requires Unread(s) > Chunks(s.pending) && OnlyServer(gos)
    ensures var t := Exec(s, gos); !t.open || Unread(t) > Chunks(t.pending)
  {
    if gos == [] {
    } else {
      var t := Exec(s, gos[..|gos| - 1]);
      MoreTasksRun(s, gos[..|gos| - 1]);
      if t.pending > 0 { ReadTakesAChunk(t); }
      hide Chunks, Read;
    }
  }

  /** Each task that has read nothing reads one chunk. */
  lemma {:induction false} ReadEach(s: Socket, gos: seq<Move>) returns (gos': seq<Move>)
    requires OnlyServer(gos)
    requires var t := Exec(s, gos); t.open && !t.edge && t.queued == 0 && t.begun <= Chunks(t.pending)
    ensures OnlyServer(gos')
    ensures var t, t' := Exec(s, gos), Exec(s, gos');
      t'.open && Unread(t') == 0 && (t'.reading > 0 || t' == t)
    decreases Exec(s, gos).begun
  {
    var t := Exec(s, gos);
    gos' := gos;
    if t.begun > 0 {
      assert t.pending > 0;
      ReadTakesAChunk(t);
      gos' := Take(s, gos, FirstRead);
      hide Chunks, Read;
      gos' := ReadEach(s, gos');
    }
  }

  lemma {:induction false} StopAll(s: Socket, gos: seq<Move>) returns (gos': seq<Move>)
    requires OnlyServer(gos) && Exec(s, gos).open && Unread(Exec(s, gos)) == 0
    requires Exec(s, gos).reading > 0 ==> Exec(s, gos).pending == 0
    ensures OnlyServer(gos') && Spent(Exec(s, gos'))
    decreases Exec(s, gos).reading
  {
    gos' := gos;
    if Exec(s, gos).reading > 0 {
      gos' := Take(s, gos, FurtherRead);
      gos' := StopAll(s, gos');
    }
  }

  lemma KeepingRun(s: Socket) returns (gos: seq<Move>)
    requires s.open && Unread(s) <= Chunks(s.pending)
    ensures OnlyServer(gos) && Spent(Exec(s, gos))
  {
    gos := BeginAll(s, []);
    hide Chunks;
    gos := ReadEach(s, gos);
    if Exec(s, gos).reading > 0 {
      gos := ReadAll(s, gos);
    }
    gos := StopAll(s, gos);
  }

  ghost predicate CanBeKept(s: Socket) {
    exists gos :: OnlyServer(gos) && Spent(Exec(s, gos))
  }

  /** The other way round: with the peer silent, an open socket may be left open for good, with no edge and no task,
      exactly when the edges and tasks that have read nothing are no more than the reads it takes to drain it. */
  lemma KeptIff(s: Socket)
    requires s.open
    ensures CanBeKept(s) <==> Unread(s) <= Chunks(s.pending)
  {
    if Unread(s) <= Chunks(s.pending) {
      var gos := KeepingRun(s);
    } else {
      forall gos | OnlyServer(gos) ensures !Spent(Exec(s, gos)) {
        MoreTasksRun(s, gos);
      }
    }
  }

  /** So a client that sends and closes within one edge is never dropped, however the server goes on: its one task gets
      the bytes and takes the end of the stream for "no more now". */
  lemma SendAndCloseIsKept(bytes: nat, gos: seq<Move>)
    requires bytes > 0 && OnlyServer(gos)
    ensures var s := Exec(ACCEPTED, [Arrive(bytes), End]); s.ended && Exec(s, gos).open
  {
    assert [Arrive(bytes), End][..1] == [Arrive(bytes)] && [Arrive(bytes)][..0] == [];
    assert Exec(ACCEPTED, [Arrive(bytes)]) == ACCEPTED.(pending := bytes, edge := true);
    CalmRun(Exec(ACCEPTED, [Arrive(bytes), End]), gos);
  }

  /** A client that closes while its socket is at rest and drained is surely dropped: the server cannot come to rest
      with the socket open. */
  lemma CloseAtRestIsDropped(s: Socket)
    requires Spent(s) && s.pending == 0 && !s.ended
    ensures Next(s, End).ended && !CanBeKept(Next(s, End))
  {
    KeptIff(Next(s, End));
  }
}

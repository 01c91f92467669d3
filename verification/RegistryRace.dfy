/** Dropping a client taken apart. recv_message runs on a worker and accept on the event thread, and several tasks may
    drop one socket, so between the close of a socket and the two removals the kernel may hand the same descriptor, or
    let in the same peer, again. Here each drop is the four steps of net/src/TcpService.cpp:298-301, and any number of
    tasks make theirs in any order. */
module RegistryRace {
  import opened InetAddr
  import opened RegistrySpec
  import opened Wrappers

  /** What a drop does next. */
  datatype Stage = Unwatch | CloseFd | ForgetFd | ForgetHost

  /** A drop in progress: its socket, the key its task works with, and how far it is. */
  datatype Drop = Drop(fd: int, key: string, stage: Stage)

  /** `drops` is keyed by the receive task. */
  datatype Race = Race(r: Registry, drops: map<nat, Drop>)

  /** A client arrives; a receive task that is going to drop its socket names the peer; a drop makes its next step. */
  datatype Move = Arrive(fd: int, addr: Address, added: bool) | Begin(task: nat, fd: int, named: bool) | Go(task: nat)

  function UnwatchFd(r: Registry, fd: int): Registry {
    r.(interest := r.interest - {fd}, count := if fd in r.interest && r.count > 0 then r.count - 1 else r.count)
  }

  /** close: the kernel forgets the peer, and epoll the descriptor. */
  function Close(r: Registry, fd: int): Registry {
    r.(interest := r.interest - {fd}, peers := r.peers - {fd})
  }

  /** The drop of a task makes its next step. */
  function GoStep(s: Race, task: nat): (s': Race)
    requires WellPeered(s.r)
    ensures WellPeered(s'.r)
  {
    if task !in s.drops then s
    else
      var d := s.drops[task];
      match d.stage
      case Unwatch => Race(UnwatchFd(s.r, d.fd), s.drops[task := d.(stage := CloseFd)])
      case CloseFd => Race(Close(s.r, d.fd), s.drops[task := d.(stage := ForgetFd)])
      case ForgetFd => Race(s.r.(fd2host := s.r.fd2host - {d.fd}), s.drops[task := d.(stage := ForgetHost)])
      case ForgetHost => Race(s.r.(host2conn := s.r.host2conn - {d.key}), s.drops - {task})
  }

  function BeginStep(s: Race, task: nat, fd: int, named: bool): (s': Race)
    requires WellPeered(s.r)
    ensures WellPeered(s'.r)
  {
    var key := PeerKey(s.r, fd, named);
    if task in s.drops || key.None? then s else s.(drops := s.drops[task := Drop(fd, key.value, Unwatch)])
  }

  function Next(s: Race, m: Move): (s': Race)
    requires WellPeered(s.r)
    ensures WellPeered(s'.r)
  {
    match m
    case Arrive(fd, addr, added) =>
      if CanAccept(s.r, fd, addr) then s.(r := AcceptStep(s.r, fd, addr, added)) else s
    case Begin(task, fd, named) => BeginStep(s, task, fd, named)
    case Go(task) => GoStep(s, task)
  }

  function Exec(s: Race, moves: seq<Move>): (s': Race)
    requires WellPeered(s.r)
    ensures WellPeered(s'.r)
  {
    if moves == [] then s else Next(Exec(s, moves[..|moves| - 1]), moves[|moves| - 1])
  }

  function Run(listener: int, wakeup: int, moves: seq<Move>): (s: Race)
    ensures WellPeered(s.r)
  {
    Exec(Race(Start(listener, wakeup), map[]), moves)
  }

  predicate AtRest(s: Race) {
    s.drops == map[]
  }

  /** Nothing but steps of drops. */
  predicate OnlyGo(moves: seq<Move>) {
    forall i :: 0 <= i < |moves| ==> moves[i].Go?
  }

  /** In every state, collisions or not: a task to which getpeername answers works with the text of the peer the socket
      has now, whatever the maps say. */
  lemma KeyFollowsSocket(s: Race, task: nat, fd: int)
    requires WellPeered(s.r) && task !in s.drops && fd in s.r.peers
    ensures BeginStep(s, task, fd, true).drops == s.drops[task := Drop(fd, ToIpAndPort(s.r.peers[fd]), Unwatch)]
  {
  }

  /** A drop that nobody comes in between is the single disconnect of RegistrySpec, whichever way its task names the
      peer, and a task that finds no name drops nothing. */
  lemma DropIsDisconnect(s: Race, task: nat, fd: int, named: bool)
    requires WellPeered(s.r) && task !in s.drops
    ensures var s' := GoStep(GoStep(GoStep(GoStep(BeginStep(s, task, fd, named), task), task), task), task);
      s'.drops == s.drops && s'.r == DisconnectStep(s.r, fd, named)
  {
    hide ToIpAndPort, IsAddress;
    var s1 := BeginStep(s, task, fd, named);
    if s1 != s {
      var s2 := GoStep(s1, task);
      var s3 := GoStep(s2, task);
      var s4 := GoStep(s3, task);
      assert s4.drops == s.drops[task := s4.drops[task]] && s4.drops - {task} == s.drops;
      assert s.r.interest - {fd} - {fd} == s.r.interest - {fd};
    }
  }

  /* ------------------------------------------------------------------ collisions */

  /** The drop will take from a client with this descriptor and text. */
  predicate Hits(d: Drop, fd: int, host: string) {
    (d.fd == fd && !d.stage.ForgetHost?) || d.key == host
  }

  predicate Hit(s: Race, fd: int, host: string) {
    exists task :: task in s.drops && Hits(s.drops[task], fd, host)
  }

  /** The arrival of a client whose descriptor or text a drop in progress works on, or whose peer is connected
      already. The event thread could see it before it files the client. */
  predicate Collides(s: Race, m: Move) {
    m.Arrive? && CanAccept(s.r, m.fd, m.addr) && (Hit(s, m.fd, ToIpAndPort(m.addr)) || !NewPeer(s.r, m.addr))
  }

  /* ------------------------------------------------------------------ what holds without collisions */

  /** A drop in progress works on no client but its own, which is open until the drop closes it. */
  predicate Proper(s: Race, task: nat, own: set<int>) {
    && task in s.drops
    && var d := s.drops[task];
       var before := d.stage.Unwatch? || d.stage.CloseFd?;
    && d.fd !in own
    && (d.fd in s.r.peers && !d.stage.ForgetHost? ==> before && d.fd in s.r.fd2host && s.r.fd2host[d.fd] == d.key)
    && (d.stage.CloseFd? || d.stage.ForgetFd? ==> d.fd !in s.r.interest)
    && (forall g :: g in s.r.peers && g in s.r.fd2host && s.r.fd2host[g] == d.key ==> g == d.fd && before)
  }

  /** A text of a closed socket is left for a drop to forget. */
  ghost predicate FdExplained(s: Race, fd: int) {
    && fd in s.r.fd2host
    && (fd in s.r.peers || exists task :: LeavesFd(s, task, fd))
  }

  predicate LeavesFd(s: Race, task: nat, fd: int)
    requires fd in s.r.fd2host
  {
    && task in s.drops && s.drops[task].fd == fd && s.drops[task].key == s.r.fd2host[fd]
    && !s.drops[task].stage.ForgetHost?
  }

  predicate LeavesHost(s: Race, task: nat, host: string) {
    task in s.drops && s.drops[task].key == host
  }

  /** A connection belongs to an open client or is left for a drop to forget. */
  ghost predicate HostExplained(s: Race, host: string) {
    && host in s.r.host2conn
    && (Owned(s.r, host) || exists task :: LeavesHost(s, task, host))
  }

  ghost predicate Sound(s: Race, own: set<int>) {
    && WellPeered(s.r) && Watched(s.r, own)
    && (forall fd {:trigger Filed(s.r, fd)} :: fd in s.r.peers ==> Filed(s.r, fd))
    && (forall task {:trigger Proper(s, task, own)} :: task in s.drops ==> Proper(s, task, own))
    && (forall fd {:trigger FdExplained(s, fd)} :: fd in s.r.fd2host ==> FdExplained(s, fd))
    && (forall host {:trigger HostExplained(s, host)} :: host in s.r.host2conn ==> HostExplained(s, host))
  }

  lemma SoundAtRest(s: Race, own: set<int>)
    requires Sound(s, own) && AtRest(s)
    ensures Inverse(s.r) && Watched(s.r, own)
  {
    hide ToIpAndPort;
    forall fd | fd in s.r.fd2host ensures fd in s.r.peers { assert FdExplained(s, fd); }
    forall fd | fd in s.r.peers ensures fd in s.r.fd2host { assert Filed(s.r, fd); }
    assert s.r.fd2host.Keys == s.r.peers.Keys;
    forall host | host in s.r.host2conn ensures Owned(s.r, host) { assert HostExplained(s, host); }
  }

  /** The texts of open clients differ from that of a new peer. */
  lemma OtherText(s: Race, own: set<int>, g: int, addr: Address)
    requires Sound(s, own) && g in s.r.peers && IsAddress(addr) && NewPeer(s.r, addr)
    ensures g in s.r.fd2host && s.r.fd2host[g] != ToIpAndPort(addr)
  {
    assert Filed(s.r, g);
    KeyInjective(s.r.peers[g], addr);
  }

  lemma ArriveKeepsFiled(s: Race, own: set<int>, fd: int, addr: Address, added: bool, g: int)
    requires Sound(s, own) && CanAccept(s.r, fd, addr) && NewPeer(s.r, addr)
    requires g in AcceptStep(s.r, fd, addr, added).peers
    ensures Filed(AcceptStep(s.r, fd, addr, added), g)
  {
    hide ToIpAndPort;
    if g != fd {
      assert Filed(s.r, g);
      OtherText(s, own, g, addr);
    }
  }

  lemma ArriveKeepsProper(s: Race, own: set<int>, m: Move, task: nat)
    requires Sound(s, own) && m.Arrive? && CanAccept(s.r, m.fd, m.addr) && !Collides(s, m) && task in s.drops
    ensures Proper(Next(s, m), task, own)
  {
    hide ToIpAndPort, IsAddress;
    assert Proper(s, task, own) && !Hits(s.drops[task], m.fd, ToIpAndPort(m.addr));
  }

  lemma ArriveKeepsExplained(s: Race, own: set<int>, m: Move)
    requires Sound(s, own) && m.Arrive? && CanAccept(s.r, m.fd, m.addr)
    ensures forall fd :: fd in Next(s, m).r.fd2host ==> FdExplained(Next(s, m), fd)
    ensures NewPeer(s.r, m.addr) ==>
      forall host :: host in Next(s, m).r.host2conn ==> HostExplained(Next(s, m), host)
  {
    hide ToIpAndPort, IsAddress;
    var s' := Next(s, m);
    forall fd | fd in s'.r.fd2host ensures FdExplained(s', fd) {
      if fd != m.fd {
        assert FdExplained(s, fd);
        FdStays(s, s', fd);
      }
    }
    if NewPeer(s.r, m.addr) {
      forall host | host in s'.r.host2conn ensures HostExplained(s', host) {
        if host == ToIpAndPort(m.addr) {
          assert Owned(s'.r, host);
        } else {
          assert HostExplained(s, host);
          HostStays(s, s', host);
        }
      }
    }
  }

  lemma ArriveKeepsSound(s: Race, own: set<int>, m: Move)
    requires Sound(s, own) && m.Arrive? && CanAccept(s.r, m.fd, m.addr) && !Collides(s, m)
    ensures Sound(Next(s, m), own)
  {
    var s' := Next(s, m);
    AcceptKeepsWatched(s.r, own, m.fd, m.addr, m.added);
    ArriveKeepsExplained(s, own, m);
    hide ToIpAndPort, IsAddress, Filed, Proper, Watched, FdExplained, HostExplained;
    forall g | g in s'.r.peers ensures Filed(s'.r, g) { ArriveKeepsFiled(s, own, m.fd, m.addr, m.added, g); }
    forall task | task in s'.drops ensures Proper(s', task, own) { ArriveKeepsProper(s, own, m, task); }
  }

  lemma AcceptKeepsWatched(r: Registry, own: set<int>, fd: int, addr: Address, added: bool)
    requires Watched(r, own) && CanAccept(r, fd, addr)
    ensures Watched(AcceptStep(r, fd, addr, added), own)
  {
    hide ToIpAndPort, IsAddress;
    assert AcceptStep(r, fd, addr, added).peers.Keys == r.peers.Keys + {fd};
  }

  /** The drops of s go on in s'. */
  ghost predicate GoOn(s: Race, s': Race) {
    forall task :: task in s.drops ==>
      task in s'.drops && s'.drops[task].fd == s.drops[task].fd && s'.drops[task].key == s.drops[task].key
  }

  lemma FdStays(s: Race, s': Race, fd: int)
    requires FdExplained(s, fd) && GoOn(s, s')
    requires fd in s'.r.fd2host && s'.r.fd2host[fd] == s.r.fd2host[fd]
    requires fd in s.r.peers ==> fd in s'.r.peers
    requires forall task :: task in s.drops && s.drops[task].fd == fd && s'.drops[task].stage.ForgetHost? ==>
      s.drops[task].stage.ForgetHost?
    ensures FdExplained(s', fd)
  {
    if fd !in s.r.peers {
      var task :| LeavesFd(s, task, fd);
      assert LeavesFd(s', task, fd);
    }
  }

  lemma HostStays(s: Race, s': Race, host: string)
    requires HostExplained(s, host) && GoOn(s, s') && host in s'.r.host2conn
    requires Owned(s.r, host) ==> Owned(s'.r, host)
    ensures HostExplained(s', host)
  {
    if !Owned(s.r, host) {
      var task :| LeavesHost(s, task, host);
      assert LeavesHost(s', task, host);
    }
  }

  lemma NewDropIsProper(s: Race, own: set<int>, task: nat, fd: int, named: bool)
    requires Sound(s, own) && BeginStep(s, task, fd, named) != s
    ensures Proper(BeginStep(s, task, fd, named), task, own)
  {
    hide ToIpAndPort, IsAddress;
    forall g | g in s.r.peers ensures Filed(s.r, g) { assert Filed(s.r, g); }
    if fd in s.r.peers {
      assert Filed(s.r, fd);
      assert BeginStep(s, task, fd, named).drops[task].key == s.r.fd2host[fd];
      forall g | g in s.r.peers && s.r.fd2host[g] == s.r.fd2host[fd] ensures g == fd {
        assert Filed(s.r, g);
      }
    } else {
      assert FdExplained(s, fd);
      var other :| LeavesFd(s, other, fd);
      assert Proper(s, other, own);
    }
  }

  lemma BeginKeepsSound(s: Race, own: set<int>, task: nat, fd: int, named: bool)
    requires Sound(s, own)
    ensures Sound(BeginStep(s, task, fd, named), own)
  {
    hide ToIpAndPort, IsAddress;
    var s' := BeginStep(s, task, fd, named);
    if s' != s {
      NewDropIsProper(s, own, task, fd, named);
      forall other | other in s'.drops ensures Proper(s', other, own) {
        if other != task { assert Proper(s, other, own); }
      }
      forall fd | fd in s'.r.fd2host ensures FdExplained(s', fd) {
        assert FdExplained(s, fd);
        FdStays(s, s', fd);
      }
      forall host | host in s'.r.host2conn ensures HostExplained(s', host) {
        assert HostExplained(s, host);
        HostStays(s, s', host);
      }
    }
  }

  lemma UnwatchKeepsSound(s: Race, own: set<int>, task: nat)
    requires Sound(s, own) && task in s.drops && s.drops[task].stage.Unwatch?
    ensures Sound(GoStep(s, task), own)
  {
    hide ToIpAndPort, IsAddress;
    var s' := GoStep(s, task);
    assert Proper(s, task, own);
    forall g | g in s'.r.peers ensures Filed(s'.r, g) { assert Filed(s.r, g); }
    forall other | other in s'.drops ensures Proper(s', other, own) { assert Proper(s, other, own); }
    forall fd | fd in s'.r.fd2host ensures FdExplained(s', fd) {
      assert FdExplained(s, fd);
      FdStays(s, s', fd);
    }
    forall host | host in s'.r.host2conn ensures HostExplained(s', host) {
      assert HostExplained(s, host);
      HostStays(s, s', host);
    }
  }

  lemma CloseKeepsExplained(s: Race, own: set<int>, task: nat)
    requires Sound(s, own) && task in s.drops && s.drops[task].stage.CloseFd?
    ensures var s' := GoStep(s, task);
      && (forall fd :: fd in s'.r.fd2host ==> FdExplained(s', fd))
      && (forall host :: host in s'.r.host2conn ==> HostExplained(s', host))
  {
    hide ToIpAndPort, IsAddress;
    var d, s' := s.drops[task], GoStep(s, task);
    assert Proper(s, task, own);
    forall fd | fd in s'.r.fd2host ensures FdExplained(s', fd) {
      assert FdExplained(s, fd);
      if fd == d.fd && fd in s.r.peers { assert LeavesFd(s', task, fd); } else { FdStays(s, s', fd); }
    }
    forall host | host in s'.r.host2conn ensures HostExplained(s', host) {
      assert HostExplained(s, host);
      if Owned(s.r, host) && s.r.host2conn[host].fd == d.fd {
        assert LeavesHost(s', task, host);
      } else {
        HostStays(s, s', host);
      }
    }
  }

  lemma CloseKeepsSound(s: Race, own: set<int>, task: nat)
    requires Sound(s, own) && task in s.drops && s.drops[task].stage.CloseFd?
    ensures Sound(GoStep(s, task), own)
  {
    hide ToIpAndPort, IsAddress;
    var s' := GoStep(s, task);
    CloseKeepsExplained(s, own, task);
    assert Proper(s, task, own);
    forall g | g in s'.r.peers ensures Filed(s'.r, g) { assert Filed(s.r, g); }
    forall other | other in s'.drops ensures Proper(s', other, own) { assert Proper(s, other, own); }
  }

  lemma ForgetFdKeepsSound(s: Race, own: set<int>, task: nat)
    requires Sound(s, own) && task in s.drops && s.drops[task].stage.ForgetFd?
    ensures Sound(GoStep(s, task), own)
  {
    hide ToIpAndPort, IsAddress;
    var s' := GoStep(s, task);
    assert Proper(s, task, own);
    forall g | g in s'.r.peers ensures Filed(s'.r, g) { assert Filed(s.r, g); }
    forall other | other in s'.drops ensures Proper(s', other, own) { assert Proper(s, other, own); }
    forall fd | fd in s'.r.fd2host ensures FdExplained(s', fd) {
      assert FdExplained(s, fd);
      FdStays(s, s', fd);
    }
    forall host | host in s'.r.host2conn ensures HostExplained(s', host) {
      assert HostExplained(s, host);
      HostStays(s, s', host);
    }
  }

  lemma ForgetHostKeepsSound(s: Race, own: set<int>, task: nat)
    requires Sound(s, own) && task in s.drops && s.drops[task].stage.ForgetHost?
    ensures Sound(GoStep(s, task), own)
  {
    hide ToIpAndPort, IsAddress;
    var s' := GoStep(s, task);
    assert Proper(s, task, own);
    forall g | g in s'.r.peers ensures Filed(s'.r, g) { assert Filed(s.r, g); }
    forall other | other in s'.drops ensures Proper(s', other, own) { assert Proper(s, other, own); }
    forall fd | fd in s'.r.fd2host ensures FdExplained(s', fd) {
      assert FdExplained(s, fd);
      if fd !in s.r.peers {
        var other :| LeavesFd(s, other, fd);
        assert LeavesFd(s', other, fd);
      }
    }
    forall host | host in s'.r.host2conn ensures HostExplained(s', host) {
      assert HostExplained(s, host);
      if Owned(s.r, host) {
        assert Owned(s'.r, host);
      } else {
        var other :| LeavesHost(s, other, host);
        assert LeavesHost(s', other, host);
      }
    }
  }

  lemma GoKeepsSound(s: Race, own: set<int>, task: nat)
    requires Sound(s, own)
    ensures Sound(GoStep(s, task), own)
  {
    hide Sound;
    if task in s.drops {
      match s.drops[task].stage
      case Unwatch => UnwatchKeepsSound(s, own, task);
      case CloseFd => CloseKeepsSound(s, own, task);
      case ForgetFd => ForgetFdKeepsSound(s, own, task);
      case ForgetHost => ForgetHostKeepsSound(s, own, task);
    }
  }

  lemma NextKeepsSound(s: Race, own: set<int>, m: Move)
    requires Sound(s, own) && !Collides(s, m)
    ensures Sound(Next(s, m), own)
  {
    hide Sound, Collides;
    match m
    case Arrive(fd, addr, _) => if CanAccept(s.r, fd, addr) { ArriveKeepsSound(s, own, m); }
    case Begin(task, fd, named) => BeginKeepsSound(s, own, task, fd, named);
    case Go(task) => GoKeepsSound(s, own, task);
  }

  /* ------------------------------------------------------------------ runs */

  /** No move of the run collides. */
  predicate NeverCollides(listener: int, wakeup: int, moves: seq<Move>) {
    moves == [] ||
      (&& !Collides(Run(listener, wakeup, moves[..|moves| - 1]), moves[|moves| - 1])
       && NeverCollides(listener, wakeup, moves[..|moves| - 1]))
  }

  lemma {:induction false} SoundRun(listener: int, wakeup: int, moves: seq<Move>)
    requires NeverCollides(listener, wakeup, moves)
    ensures Sound(Run(listener, wakeup, moves), {listener, wakeup})
  {
    if moves == [] {
    } else {
      var init := moves[..|moves| - 1];
      SoundRun(listener, wakeup, init);
      NextKeepsSound(Run(listener, wakeup, init), {listener, wakeup}, moves[|moves| - 1]);
      assert Run(listener, wakeup, moves) == Next(Run(listener, wakeup, init), moves[|moves| - 1]);
    }
  }

  /** In every run without collisions the two maps are inverses on the open clients, and the count is right, whenever no
      drop is in progress. */
  lemma AgreedAtRest(listener: int, wakeup: int, moves: seq<Move>)
    requires NeverCollides(listener, wakeup, moves) && AtRest(Run(listener, wakeup, moves))
    ensures Inverse(Run(listener, wakeup, moves).r) && Watched(Run(listener, wakeup, moves).r, {listener, wakeup})
  {
    SoundRun(listener, wakeup, moves);
    SoundAtRest(Run(listener, wakeup, moves), {listener, wakeup});
  }

  /** However the drops in progress finish, the maps are inverses and the count is right. */
  ghost predicate Settles(s: Race, own: set<int>)
    requires WellPeered(s.r)
  {
    forall gos :: OnlyGo(gos) && AtRest(Exec(s, gos)) ==> Inverse(Exec(s, gos).r) && Watched(Exec(s, gos).r, own)
  }

  /** This client is open and filed, and epoll watches it if it took it. */
  predicate Serves(r: Registry, fd: int, addr: Address, added: bool) {
    Filed(r, fd) && r.peers[fd] == addr && (added ==> fd in r.interest)
  }

  /** However the drops in progress finish, the client is still served. */
  ghost predicate Survives(s: Race, fd: int, addr: Address, added: bool)
    requires WellPeered(s.r)
  {
    forall gos :: OnlyGo(gos) && AtRest(Exec(s, gos)) ==> Serves(Exec(s, gos).r, fd, addr, added)
  }

  ghost predicate SettlesAfter(s: Race, m: Move, own: set<int>)
    requires WellPeered(s.r)
  {
    && Settles(Next(s, m), own)
    && (m.Arrive? && CanAccept(s.r, m.fd, m.addr) ==> Survives(Next(s, m), m.fd, m.addr, m.added))
  }

  /** After each move of the run: let the drops in progress finish, and the maps agree and the client that has just
      come is there. */
  ghost predicate SettlesThroughout(listener: int, wakeup: int, moves: seq<Move>) {
    moves == [] ||
      (&& SettlesAfter(Run(listener, wakeup, moves[..|moves| - 1]), moves[|moves| - 1], {listener, wakeup})
       && SettlesThroughout(listener, wakeup, moves[..|moves| - 1]))
  }

  /* ------------------------------------------------------------------ without a collision */

  lemma {:induction false} SoundSettles(s: Race, own: set<int>, gos: seq<Move>)
    requires Sound(s, own) && OnlyGo(gos)
    ensures Sound(Exec(s, gos), own)
  {
    if gos == [] {
    } else {
      SoundSettles(s, own, gos[..|gos| - 1]);
      GoKeepsSound(Exec(s, gos[..|gos| - 1]), own, gos[|gos| - 1].task);
    }
  }

  lemma GoKeepsServed(s: Race, task: nat, fd: int, addr: Address, added: bool)
    requires WellPeered(s.r) && IsAddress(addr)
    requires Serves(s.r, fd, addr, added) && !Hit(s, fd, ToIpAndPort(addr))
    ensures Serves(GoStep(s, task).r, fd, addr, added) && !Hit(GoStep(s, task), fd, ToIpAndPort(addr))
  {
    hide ToIpAndPort, IsAddress;
    var s' := GoStep(s, task);
    if task in s.drops {
      assert !Hits(s.drops[task], fd, ToIpAndPort(addr));
      forall other | other in s'.drops ensures !Hits(s'.drops[other], fd, ToIpAndPort(addr)) {
        assert !Hits(s.drops[other], fd, ToIpAndPort(addr));
      }
    }
  }

  lemma {:induction false} ServedRun(s: Race, gos: seq<Move>, fd: int, addr: Address, added: bool)
    requires WellPeered(s.r) && IsAddress(addr) && OnlyGo(gos)
    requires Serves(s.r, fd, addr, added) && !Hit(s, fd, ToIpAndPort(addr))
    ensures Serves(Exec(s, gos).r, fd, addr, added) && !Hit(Exec(s, gos), fd, ToIpAndPort(addr))
  {
    if gos == [] {
    } else {
      hide ToIpAndPort, IsAddress, Serves, Hit;
      ServedRun(s, gos[..|gos| - 1], fd, addr, added);
      GoKeepsServed(Exec(s, gos[..|gos| - 1]), gos[|gos| - 1].task, fd, addr, added);
    }
  }

  lemma NoCollisionSettles(s: Race, m: Move, own: set<int>)
    requires Sound(s, own) && !Collides(s, m)
    ensures SettlesAfter(s, m, own)
  {
    var s' := Next(s, m);
    NextKeepsSound(s, own, m);
    forall gos | OnlyGo(gos) && AtRest(Exec(s', gos))
      ensures Inverse(Exec(s', gos).r) && Watched(Exec(s', gos).r, own)
    {
      SoundSettles(s', own, gos);
      SoundAtRest(Exec(s', gos), own);
    }
    if m.Arrive? && CanAccept(s.r, m.fd, m.addr) {
      assert Serves(s'.r, m.fd, m.addr, m.added) && !Hit(s', m.fd, ToIpAndPort(m.addr));
      forall gos | OnlyGo(gos) && AtRest(Exec(s', gos)) ensures Serves(Exec(s', gos).r, m.fd, m.addr, m.added) {
        ServedRun(s', gos, m.fd, m.addr, m.added);
      }
    }
  }

  /* ------------------------------------------------------------------ after a collision */

  /** One more move of a run. */
  lemma Take(s: Race, moves: seq<Move>, m: Move) returns (moves': seq<Move>)
    requires WellPeered(s.r)
    ensures Exec(s, moves') == Next(Exec(s, moves), m) && moves' == moves + [m]
  {
    moves' := moves + [m];
    assert moves'[..|moves|] == moves;
  }

  /** Steps a drop has left. */
  function StepsLeft(stage: Stage): nat {
    match stage
    case Unwatch => 4
    case CloseFd => 3
    case ForgetFd => 2
    case ForgetHost => 1
  }

  lemma {:induction false} FinishTask(s: Race, gos: seq<Move>, task: nat) returns (gos': seq<Move>)
    requires WellPeered(s.r) && OnlyGo(gos) && task in Exec(s, gos).drops
    ensures OnlyGo(gos') && Exec(s, gos').drops == Exec(s, gos).drops - {task}
    decreases StepsLeft(Exec(s, gos).drops[task].stage)
  {
    gos' := Take(s, gos, Go(task));
    if task in Exec(s, gos').drops {
      gos' := FinishTask(s, gos', task);
    }
  }

  lemma {:induction false} Finish(s: Race, gos: seq<Move>) returns (gos': seq<Move>)
    requires WellPeered(s.r) && OnlyGo(gos)
    ensures OnlyGo(gos') && AtRest(Exec(s, gos'))
    decreases |Exec(s, gos).drops|
  {
    gos' := gos;
    var drops := Exec(s, gos).drops;
    if drops != map[] {
      var task :| task in drops;
      gos' := FinishTask(s, gos, task);
      assert drops.Keys == Exec(s, gos').drops.Keys + {task};
      assert |drops.Keys| == |Exec(s, gos').drops.Keys| + 1;
      gos' := Finish(s, gos');
    }
  }

  /** A drop is going to take from the client, or has done so. */
  predicate Doomed(s: Race, fd: int, addr: Address)
    requires IsAddress(addr)
  {
    Hit(s, fd, ToIpAndPort(addr)) || !Filed(s.r, fd) || s.r.peers[fd] != addr
  }

  lemma GoKeepsDoomed(s: Race, task: nat, fd: int, addr: Address)
    requires WellPeered(s.r) && IsAddress(addr) && Doomed(s, fd, addr)
    ensures Doomed(GoStep(s, task), fd, addr)
  {
    hide ToIpAndPort, IsAddress;
    var s' := GoStep(s, task);
    if task in s.drops && Filed(s'.r, fd) && s'.r.peers[fd] == addr {
      var other :| other in s.drops && Hits(s.drops[other], fd, ToIpAndPort(addr));
      assert other in s'.drops && Hits(s'.drops[other], fd, ToIpAndPort(addr));
    }
  }

  lemma {:induction false} DoomedRun(s: Race, gos: seq<Move>, fd: int, addr: Address)
    requires WellPeered(s.r) && IsAddress(addr) && OnlyGo(gos) && Doomed(s, fd, addr)
    ensures Doomed(Exec(s, gos), fd, addr)
  {
    if gos == [] {
    } else {
      hide ToIpAndPort, IsAddress, Doomed;
      DoomedRun(s, gos[..|gos| - 1], fd, addr);
      GoKeepsDoomed(Exec(s, gos[..|gos| - 1]), gos[|gos| - 1].task, fd, addr);
    }
  }

  /** An open client has lost its entry, and no drop will close it. */
  predicate Orphan(s: Race, g: int) {
    && g in s.r.peers && !Filed(s.r, g)
    && forall task :: task in s.drops && s.drops[task].fd == g ==>
         s.drops[task].stage.ForgetFd? || s.drops[task].stage.ForgetHost?
  }

  lemma {:induction false} OrphanRun(s: Race, gos: seq<Move>, g: int)
    requires WellPeered(s.r) && OnlyGo(gos) && Orphan(s, g)
    ensures Orphan(Exec(s, gos), g)
  {
    if gos == [] {
    } else {
      hide ToIpAndPort, IsAddress;
      OrphanRun(s, gos[..|gos| - 1], g);
    }
  }

  lemma SharingOrphans(s: Race, own: set<int>, m: Move) returns (g: int)
    requires Sound(s, own) && m.Arrive? && CanAccept(s.r, m.fd, m.addr) && !NewPeer(s.r, m.addr)
    requires !Hit(s, m.fd, ToIpAndPort(m.addr))
    ensures Orphan(Next(s, m), g)
  {
    hide ToIpAndPort, IsAddress;
    g :| g in s.r.peers && s.r.peers[g] == m.addr;
    assert Filed(s.r, g);
    forall task | task in s.drops && s.drops[task].fd == g
      ensures s.drops[task].stage.ForgetFd? || s.drops[task].stage.ForgetHost?
    {
      assert Proper(s, task, own) && !Hits(s.drops[task], m.fd, ToIpAndPort(m.addr));
    }
  }

  lemma CollisionUnsettles(s: Race, m: Move, own: set<int>)
    requires Sound(s, own) && Collides(s, m)
    ensures !SettlesAfter(s, m, own)
  {
    var s' := Next(s, m);
    var gos := Finish(s', []);
    hide ToIpAndPort, IsAddress, Exec;
    if Hit(s, m.fd, ToIpAndPort(m.addr)) {
      assert Hit(s', m.fd, ToIpAndPort(m.addr));
      DoomedRun(s', gos, m.fd, m.addr);
      assert !Serves(Exec(s', gos).r, m.fd, m.addr, m.added);
    } else {
      var g := SharingOrphans(s, own, m);
      OrphanRun(s', gos, g);
      assert !Inverse(Exec(s', gos).r);
    }
  }

  /** Main theorem, for the code as it is, with any number of tasks on any sockets: after every move of the run the
      drops in progress leave the maps agreed and the client that has just come served, however they finish, exactly
      when no client arrives while a drop works on its descriptor or its text, or with a peer that is connected
      already. */
  lemma {:induction false} SettlesIff(listener: int, wakeup: int, moves: seq<Move>)
    ensures SettlesThroughout(listener, wakeup, moves) <==> NeverCollides(listener, wakeup, moves)
  {
    if moves == [] {
    } else {
      var last := |moves| - 1;
      SettlesIff(listener, wakeup, moves[..last]);
      hide Collides, SettlesAfter, Sound;
      if NeverCollides(listener, wakeup, moves[..last]) {
        var s := Run(listener, wakeup, moves[..last]);
        SoundRun(listener, wakeup, moves[..last]);
        if Collides(s, moves[last]) {
          CollisionUnsettles(s, moves[last], {listener, wakeup});
        } else {
          NoCollisionSettles(s, moves[last], {listener, wakeup});
        }
      }
    }
  }

  /* ------------------------------------------------------------------ two ways to collide */

  const FIRST: Address := Address(10, 0, 0, 1, 5000)
  const SECOND: Address := Address(10, 0, 0, 2, 6000)

  /** One more move that does not collide. */
  lemma TakeClean(listener: int, wakeup: int, moves: seq<Move>, m: Move) returns (moves': seq<Move>)
    requires NeverCollides(listener, wakeup, moves) && !Collides(Run(listener, wakeup, moves), m)
    ensures NeverCollides(listener, wakeup, moves')
    ensures Run(listener, wakeup, moves') == Next(Run(listener, wakeup, moves), m)
  {
    moves' := moves + [m];
    assert moves'[..|moves|] == moves;
  }

  /** One client is there, filed, and tasks 0 and 1 are to drop it. */
  lemma TwoTasksBegin(listener: int, wakeup: int) returns (moves: seq<Move>, fd: int)
    ensures NeverCollides(listener, wakeup, moves)
    ensures var s := Run(listener, wakeup, moves);
      && fd > 0 && s.r.peers == map[fd := FIRST] && s.r.interest == {listener, wakeup, fd} && fd !in {listener, wakeup}
      && s.drops == map[0 := Drop(fd, ToIpAndPort(FIRST), Unwatch), 1 := Drop(fd, ToIpAndPort(FIRST), Unwatch)]
  {
    hide ToIpAndPort;
    fd := 1 + (if listener > 0 then listener else 0) + (if wakeup > 0 then wakeup else 0);
    moves := TakeClean(listener, wakeup, [], Arrive(fd, FIRST, true));
    moves := TakeClean(listener, wakeup, moves, Begin(0, fd, true));
    moves := TakeClean(listener, wakeup, moves, Begin(1, fd, true));
  }

  /** Task 0 has closed the socket and not yet removed it: its descriptor goes to a new client. */
  lemma ReuseCollides(listener: int, wakeup: int) returns (moves: seq<Move>, fd: int)
    ensures NeverCollides(listener, wakeup, moves)
    ensures Collides(Run(listener, wakeup, moves), Arrive(fd, SECOND, true))
    ensures var drops := Run(listener, wakeup, moves).drops; 0 in drops && drops[0].stage == ForgetFd
  {
    moves, fd := TwoTasksBegin(listener, wakeup);
    hide ToIpAndPort, Run, NeverCollides;
    moves := TakeClean(listener, wakeup, moves, Go(0));
    moves := TakeClean(listener, wakeup, moves, Go(0));
    assert Hits(Run(listener, wakeup, moves).drops[0], fd, ToIpAndPort(SECOND));
  }

  /** Task 0 is done, and task 1 has not begun with the same socket: it will close the new client. */
  lemma SecondTaskCollides(listener: int, wakeup: int) returns (moves: seq<Move>, fd: int)
    ensures NeverCollides(listener, wakeup, moves)
    ensures Collides(Run(listener, wakeup, moves), Arrive(fd, SECOND, true))
    ensures var drops := Run(listener, wakeup, moves).drops; drops.Keys == {1} && drops[1].stage == Unwatch
  {
    moves, fd := TwoTasksBegin(listener, wakeup);
    hide ToIpAndPort, Run, NeverCollides;
    moves := TakeClean(listener, wakeup, moves, Go(0));
    moves := TakeClean(listener, wakeup, moves, Go(0));
    moves := TakeClean(listener, wakeup, moves, Go(0));
    moves := TakeClean(listener, wakeup, moves, Go(0));
    assert Hits(Run(listener, wakeup, moves).drops[1], fd, ToIpAndPort(SECOND));
  }
}

/** The connection registry of CTcpService (net/src/TcpService.cpp): the map from sockets to peer texts, the map from
    peer texts to connections, and the registration count. Accepting a client and dropping one are single steps;
    RegistryRace.dfy takes the drop apart. */
module RegistrySpec {
  import opened InetAddr
  import opened Wrappers

  datatype Connection = Connection(fd: int, addr: Address)

  datatype Registry = Registry(
    interest: set<int>,                  // what epoll watches
    count: nat,                          // maxNumbers
    fd2host: map<int, string>,
    host2conn: map<string, Connection>,
    peers: map<int, Address>)            // the kernel's open client sockets and their peers

  /** A client arrives, and epoll takes its socket or not; or a receive task ends the connection of fd. `named` says
      whether getpeername still answers. */
  datatype Event = Accept(fd: int, addr: Address, added: bool) | Disconnect(fd: int, named: bool)

  function Start(listener: int, wakeup: int): Registry {
    Registry({listener, wakeup}, |{listener, wakeup}|, map[], map[], map[])
  }

  /** What the kernel hands out: a descriptor nobody uses. */
  predicate CanAccept(r: Registry, fd: int, addr: Address) {
    IsAddress(addr) && fd > 0 && fd !in r.interest && fd !in r.peers
  }

  /** No open client has this peer already. The kernel does not promise it: the listener is bound to every local
      address, and one remote port may be connected through two of them. */
  predicate NewPeer(r: Registry, addr: Address) {
    forall fd :: fd in r.peers ==> r.peers[fd] != addr
  }

  /** A client is filed whether or not epoll took its socket. */
  function AcceptStep(r: Registry, fd: int, addr: Address, added: bool): Registry
    requires CanAccept(r, fd, addr)
  {
    var host := ToIpAndPort(addr);
    r.(interest := if added then r.interest + {fd} else r.interest,
       count := if added then r.count + 1 else r.count,
       fd2host := r.fd2host[fd := host],
       host2conn := r.host2conn[host := Connection(fd, addr)],
       peers := r.peers[fd := addr])
  }

  predicate WellPeered(r: Registry) {
    forall fd :: fd in r.peers ==> IsAddress(r.peers[fd])
  }

  /** The key a receive task works with: the peer's address if the socket still has one, else the text stored when
      the client was accepted, else none. */
  function PeerKey(r: Registry, fd: int, named: bool): (key: Option<string>)
    requires WellPeered(r)
  {
    if named && fd in r.peers then Some(ToIpAndPort(r.peers[fd]))
    else if fd in r.fd2host then Some(r.fd2host[fd]) else None
  }

  function DisconnectStep(r: Registry, fd: int, named: bool): Registry
    requires WellPeered(r)
  {
    var key := PeerKey(r, fd, named);
    if key.None? then r
    else
      Registry(r.interest - {fd}, if fd in r.interest && r.count > 0 then r.count - 1 else r.count,
               r.fd2host - {fd}, r.host2conn - {key.value}, r.peers - {fd})
  }

  function Step(r: Registry, e: Event): Registry
    requires WellPeered(r)
    ensures WellPeered(Step(r, e))
  {
    match e
    case Accept(fd, addr, added) => if CanAccept(r, fd, addr) then AcceptStep(r, fd, addr, added) else r
    case Disconnect(fd, named) => DisconnectStep(r, fd, named)
  }

  function Run(listener: int, wakeup: int, events: seq<Event>): (r: Registry)
    ensures WellPeered(r)
  {
    if events == [] then Start(listener, wakeup)
    else Step(Run(listener, wakeup, events[..|events| - 1]), events[|events| - 1])
  }

  /** A client is filed under the text of its peer, and that text leads back to it. */
  predicate Filed(r: Registry, fd: int) {
    && fd in r.peers && IsAddress(r.peers[fd]) && fd in r.fd2host && r.fd2host[fd] == ToIpAndPort(r.peers[fd])
    && r.fd2host[fd] in r.host2conn && r.host2conn[r.fd2host[fd]] == Connection(fd, r.peers[fd])
  }

  /** A text in the second map belongs to a client filed under it. */
  predicate Owned(r: Registry, host: string) {
    && host in r.host2conn && r.host2conn[host].fd in r.peers
    && r.host2conn[host].fd in r.fd2host && r.fd2host[r.host2conn[host].fd] == host
  }

  /** The two maps are inverses on the open clients. */
  predicate Inverse(r: Registry) {
    && WellPeered(r) && r.fd2host.Keys == r.peers.Keys
    && (forall fd {:trigger Filed(r, fd)} :: fd in r.peers ==> Filed(r, fd))
    && (forall host {:trigger Owned(r, host)} :: host in r.host2conn ==> Owned(r, host))
  }

  /** Epoll watches the service's own descriptors and, besides, only open clients; the count says how many. */
  predicate Watched(r: Registry, own: set<int>) {
    own <= r.interest <= own + r.peers.Keys && own !! r.peers.Keys && r.count == |r.interest|
  }

  /** What holds with or without shared peers: every open client has its text, and the count is right. */
  predicate Booked(r: Registry, own: set<int>) {
    && WellPeered(r) && Watched(r, own) && r.fd2host.Keys == r.peers.Keys
    && forall fd :: fd in r.peers ==> r.fd2host[fd] == ToIpAndPort(r.peers[fd])
  }

  lemma AcceptKeepsBooked(r: Registry, own: set<int>, fd: int, addr: Address, added: bool)
    requires Booked(r, own) && CanAccept(r, fd, addr)
    ensures Booked(AcceptStep(r, fd, addr, added), own)
  {
    hide ToIpAndPort, IsAddress;
    assert AcceptStep(r, fd, addr, added).peers.Keys == r.peers.Keys + {fd};
  }

  lemma DisconnectKeepsBooked(r: Registry, own: set<int>, fd: int, named: bool)
    requires Booked(r, own)
    ensures Booked(DisconnectStep(r, fd, named), own)
  {
    hide ToIpAndPort, IsAddress;
    var r' := DisconnectStep(r, fd, named);
    if fd in r.peers {
      assert r'.peers.Keys == r.peers.Keys - {fd} && r'.fd2host.Keys == r.fd2host.Keys - {fd};
      assert Watched(r', own);
    }
  }

  lemma StepKeepsBooked(r: Registry, own: set<int>, e: Event)
    requires Booked(r, own)
    ensures Booked(Step(r, e), own)
  {
    hide Booked, AcceptStep, DisconnectStep;
    match e
    case Accept(fd, addr, added) => if CanAccept(r, fd, addr) { AcceptKeepsBooked(r, own, fd, addr, added); }
    case Disconnect(fd, named) => DisconnectKeepsBooked(r, own, fd, named);
  }

  lemma StartIsBooked(listener: int, wakeup: int)
    ensures Booked(Start(listener, wakeup), {listener, wakeup})
  {
  }

  lemma {:induction false} RunIsBooked(listener: int, wakeup: int, events: seq<Event>)
    ensures Booked(Run(listener, wakeup, events), {listener, wakeup})
  {
    if events == [] {
    } else {
      RunIsBooked(listener, wakeup, events[..|events| - 1]);
      StepKeepsBooked(Run(listener, wakeup, events[..|events| - 1]), {listener, wakeup}, events[|events| - 1]);
    }
  }

  lemma NewHost(r: Registry, fd: int, addr: Address)
    requires Inverse(r) && CanAccept(r, fd, addr) && NewPeer(r, addr)
    ensures ToIpAndPort(addr) !in r.host2conn
  {
    var host := ToIpAndPort(addr);
    if host in r.host2conn {
      assert Owned(r, host);
      var other := r.host2conn[host].fd;
      assert Filed(r, other);
      KeyInjective(r.peers[other], addr);
    }
  }

  lemma AcceptKeepsInverse(r: Registry, fd: int, addr: Address, added: bool)
    requires Inverse(r) && CanAccept(r, fd, addr) && NewPeer(r, addr)
    ensures Inverse(AcceptStep(r, fd, addr, added))
  {
    var r' := AcceptStep(r, fd, addr, added);
    NewHost(r, fd, addr);
    forall other | other in r'.peers ensures Filed(r', other) {
      if other != fd { assert Filed(r, other); }
    }
    forall host | host in r'.host2conn ensures Owned(r', host) {
      if host in r.host2conn { assert Owned(r, host); }
    }
  }

  /** A second client with the same peer takes the first one's entry. */
  lemma SharedPeerBreaks(r: Registry, fd: int, addr: Address, added: bool)
    requires Inverse(r) && CanAccept(r, fd, addr) && !NewPeer(r, addr)
    ensures !Inverse(AcceptStep(r, fd, addr, added))
  {
    hide ToIpAndPort;
    var first :| first in r.peers && r.peers[first] == addr;
    assert Filed(r, first) && !Filed(AcceptStep(r, fd, addr, added), first);
    assert first in AcceptStep(r, fd, addr, added).peers;
  }

  lemma DisconnectKeepsInverse(r: Registry, fd: int, named: bool)
    requires Inverse(r)
    ensures Inverse(DisconnectStep(r, fd, named))
  {
    hide ToIpAndPort;
    if fd in r.peers {
      assert Filed(r, fd);
      assert PeerKey(r, fd, named) == Some(r.fd2host[fd]);
      ForgetKeepsInverse(r, fd, DisconnectStep(r, fd, named));
    }
  }

  lemma ForgetKeepsInverse(r: Registry, fd: int, r': Registry)
    requires Inverse(r) && fd in r.peers
    requires r'.fd2host == r.fd2host - {fd} && r'.peers == r.peers - {fd}
    requires r'.host2conn == r.host2conn - {r.fd2host[fd]}
    ensures Inverse(r')
  {
    hide ToIpAndPort;
    var host := r.fd2host[fd];
    assert Filed(r, fd);
    forall other | other in r'.peers ensures Filed(r', other) {
      assert Filed(r, other);
    }
    forall left | left in r'.host2conn ensures Owned(r', left) {
      assert Owned(r, left) && left != host;
      assert r.host2conn[left].fd != fd;
    }
  }

  /** The event is the arrival of a client whose peer is connected already. */
  predicate Shares(r: Registry, e: Event) {
    e.Accept? && CanAccept(r, e.fd, e.addr) && !NewPeer(r, e.addr)
  }

  lemma StepInverseIff(r: Registry, e: Event)
    requires Inverse(r)
    ensures Inverse(Step(r, e)) <==> !Shares(r, e)
  {
    hide Inverse, ToIpAndPort;
    match e
    case Accept(fd, addr, added) =>
      if Shares(r, e) {
        SharedPeerBreaks(r, fd, addr, added);
      } else if CanAccept(r, fd, addr) {
        AcceptKeepsInverse(r, fd, addr, added);
      }
    case Disconnect(fd, named) => DisconnectKeepsInverse(r, fd, named);
  }

  /** The maps are inverses after each event of the run. */
  predicate InverseThroughout(listener: int, wakeup: int, events: seq<Event>) {
    && Inverse(Run(listener, wakeup, events))
    && (events == [] || InverseThroughout(listener, wakeup, events[..|events| - 1]))
  }

  /** No event of the run is the arrival of a peer that is connected already. */
  predicate NeverShares(listener: int, wakeup: int, events: seq<Event>) {
    events == [] ||
      (&& !Shares(Run(listener, wakeup, events[..|events| - 1]), events[|events| - 1])
       && NeverShares(listener, wakeup, events[..|events| - 1]))
  }

  /** In every run of accepts and disconnects the two maps are inverses of each other on the open clients at every
      moment exactly when no client arrives whose peer is connected already. */
  lemma {:induction false} InverseIff(listener: int, wakeup: int, events: seq<Event>)
    ensures InverseThroughout(listener, wakeup, events) <==> NeverShares(listener, wakeup, events)
  {
    if events == [] {
    } else {
      var init := events[..|events| - 1];
      InverseIff(listener, wakeup, init);
      hide Inverse, Shares, Step;
      if InverseThroughout(listener, wakeup, init) {
        StepInverseIff(Run(listener, wakeup, init), events[|events| - 1]);
      }
    }
  }

  lemma Cardinalities(own: set<int>, interest: set<int>, clients: set<int>)
    requires own <= interest <= own + clients && own !! clients
    ensures |own| <= |interest| <= |own| + |clients|
    ensures |interest| == |own| + |clients| <==> clients <= interest
  {
    var watched := interest - own;
    assert interest == own + watched && watched <= clients;
    Subset(watched, clients);
    assert clients <= interest <==> watched == clients;
  }

  lemma {:induction false} Subset(a: set<int>, b: set<int>)
    requires a <= b
    ensures |a| <= |b| && (|a| == |b| <==> a == b)
  {
    assert b == a + (b - a);
  }

  /** In every run the count is what epoll watches: at least the service's own two descriptors, at most these and the
      clients, and exactly these and the clients if and only if epoll has taken every client's socket. */
  lemma CountLaw(listener: int, wakeup: int, events: seq<Event>)
    requires listener != wakeup
    ensures var r := Run(listener, wakeup, events);
      && r.fd2host.Keys == r.peers.Keys && {listener, wakeup} <= r.interest
      && 2 <= r.count == |r.interest| <= |r.fd2host| + 2
      && (r.count == |r.fd2host| + 2 <==> r.peers.Keys <= r.interest)
  {
    RunIsBooked(listener, wakeup, events);
    var r := Run(listener, wakeup, events);
    hide Run, ToIpAndPort;
    assert |{listener, wakeup}| == 2;
    Cardinalities({listener, wakeup}, r.interest, r.peers.Keys);
    assert |r.fd2host| == |r.fd2host.Keys|;
  }

  /** In every run both ways of naming the peer give the same key, and a socket that is gone has none, so its
      disconnect changes nothing. With no peer shared the key finds the connection of that very socket. */
  lemma PeerKeyAgreement(listener: int, wakeup: int, events: seq<Event>, fd: int)
    ensures var r := Run(listener, wakeup, events);
      && PeerKey(r, fd, true) == PeerKey(r, fd, false)
      && (fd !in r.peers ==> DisconnectStep(r, fd, true) == DisconnectStep(r, fd, false) == r)
      && (fd in r.peers && NeverShares(listener, wakeup, events) ==>
            var key := PeerKey(r, fd, true);
            key.Some? && key.value in r.host2conn && r.host2conn[key.value] == Connection(fd, r.peers[fd]))
  {
    RunIsBooked(listener, wakeup, events);
    InverseIff(listener, wakeup, events);
    var r := Run(listener, wakeup, events);
    assert fd in r.peers && Inverse(r) ==> Filed(r, fd);
  }

  /** Every descriptor but this one is watched, open and named as before. */
  ghost predicate OthersKept(r: Registry, r': Registry, fd: int) {
    forall g :: g != fd ==>
      && (g in r'.interest <==> g in r.interest)
      && (g in r'.peers <==> g in r.peers) && (g in r.peers ==> r'.peers[g] == r.peers[g])
      && (g in r'.fd2host <==> g in r.fd2host) && (g in r.fd2host ==> r'.fd2host[g] == r.fd2host[g])
  }

  /** Every text but this one leads to the connection it led to before. */
  ghost predicate TextsKept(r: Registry, r': Registry, host: string) {
    forall h :: h != host ==>
      (h in r'.host2conn <==> h in r.host2conn) && (h in r.host2conn ==> r'.host2conn[h] == r.host2conn[h])
  }

  /** What a disconnect of an open client does, in every state of every run: its descriptor is watched, open and named
      no more, its text leads nowhere, the count falls by one exactly if epoll watched it, and nothing else changes.
      A descriptor that is not open is left alone. */
  lemma DisconnectEffect(listener: int, wakeup: int, events: seq<Event>, fd: int, named: bool)
    ensures var r := Run(listener, wakeup, events); var r' := Run(listener, wakeup, events + [Disconnect(fd, named)]);
      if fd in r.peers then
        && fd !in r'.interest && fd !in r'.peers && fd !in r'.fd2host
        && ToIpAndPort(r.peers[fd]) !in r'.host2conn
        && r'.count + (if fd in r.interest then 1 else 0) == r.count
        && OthersKept(r, r', fd) && TextsKept(r, r', ToIpAndPort(r.peers[fd]))
      else r' == r
  {
    var r := Run(listener, wakeup, events);
    RunIsBooked(listener, wakeup, events);
    RunSnoc(listener, wakeup, events, Disconnect(fd, named));
    hide Run, ToIpAndPort, IsAddress, Booked, OthersKept, TextsKept;
    DisconnectStepEffect(r, {listener, wakeup}, fd, named);
  }

  lemma DisconnectStepEffect(r: Registry, own: set<int>, fd: int, named: bool)
    requires Booked(r, own)
    ensures var r' := DisconnectStep(r, fd, named);
      if fd in r.peers then
        && fd !in r'.interest && fd !in r'.peers && fd !in r'.fd2host
        && ToIpAndPort(r.peers[fd]) !in r'.host2conn
        && r'.count + (if fd in r.interest then 1 else 0) == r.count
        && OthersKept(r, r', fd) && TextsKept(r, r', ToIpAndPort(r.peers[fd]))
      else r' == r
  {
    hide ToIpAndPort, IsAddress;
    if fd in r.peers {
      var host := ToIpAndPort(r.peers[fd]);
      var r' := DisconnectStep(r, fd, named);
      assert PeerKey(r, fd, named) == Some(host);
      assert fd in r.interest ==> r.count > 0;
      RemovalKeepsOthers(r, fd, host, r');
      hide OthersKept, TextsKept;
    }
  }

  lemma RemovalKeepsOthers(r: Registry, fd: int, host: string, r': Registry)
    requires r'.interest == r.interest - {fd} && r'.peers == r.peers - {fd} && r'.fd2host == r.fd2host - {fd}
    requires r'.host2conn == r.host2conn - {host}
    ensures OthersKept(r, r', fd) && TextsKept(r, r', host)
  {
  }

  /** What the arrival of a client does: its descriptor is open and named with the text of its peer, the text leads to
      its connection, it is watched and counted exactly if epoll took it, and nothing else changes. */
  lemma AcceptEffect(listener: int, wakeup: int, events: seq<Event>, fd: int, addr: Address, added: bool)
    requires CanAccept(Run(listener, wakeup, events), fd, addr)
    ensures var r := Run(listener, wakeup, events); var r' := Run(listener, wakeup, events + [Accept(fd, addr, added)]);
      var host := ToIpAndPort(addr);
      && (fd in r'.interest <==> added) && r'.count == r.count + (if added then 1 else 0)
      && fd in r'.peers && r'.peers[fd] == addr && fd in r'.fd2host && r'.fd2host[fd] == host
      && host in r'.host2conn && r'.host2conn[host] == Connection(fd, addr)
      && OthersKept(r, r', fd) && TextsKept(r, r', host)
  {
    RunSnoc(listener, wakeup, events, Accept(fd, addr, added));
    hide Run, ToIpAndPort, IsAddress;
  }

  lemma RunSnoc(listener: int, wakeup: int, events: seq<Event>, e: Event)
    ensures Run(listener, wakeup, events + [e]) == Step(Run(listener, wakeup, events), e)
  {
    assert (events + [e])[..|events|] == events;
  }
}

module TcpService {
  import opened InetAddr
  import opened RegistrySpec
  import opened EpollWatch
  import opened EventSizing
  import opened Wrappers

  class TcpService {
    const epoll: EpollWatch
    const listener: int
    const wakeup: int
    var fd2host: map<int, string>
    var host2conn: map<string, Connection>
    var peers: map<int, Address>

    ghost function State(): Registry
      reads this, epoll
    {
      Registry(epoll.interest, epoll.maxNumbers, fd2host, host2conn, peers)
    }

    ghost predicate Running()
      reads this, epoll
    {
      epoll.Valid() && epoll.epollfd > 0 && Booked(State(), {listener, wakeup})
    }

    /** The start of the service thread: the epoll object, the wakeup descriptor, then the listener. */
    constructor (epollfd: int, wakeup: int, listener: int)
      requires epollfd > 0 && listener != wakeup
      ensures Running() && fresh(epoll) && State() == Start(listener, wakeup)
    {
      this.listener, this.wakeup := listener, wakeup;
      fd2host, host2conn, peers := map[], map[], map[];
      epoll := new EpollWatch();
      new;
      StartIsBooked(listener, wakeup);
      hide Booked, IsSize;
      epoll.EpollCreate(epollfd);
      var added := epoll.EpollCtl(ADD, wakeup, true);
      added := epoll.EpollCtl(ADD, listener, true);
      assert epoll.interest == {listener, wakeup};
    }

    /** The accept branch. `willing` is the kernel's answer to epoll_ctl, which nobody looks at. */
    method Accept(fd: int, addr: Address, willing: bool)
      requires Running() && CanAccept(State(), fd, addr)
      modifies this, epoll
      ensures Running() && State() == AcceptStep(old(State()), fd, addr, willing)
    {
      StepKeepsBooked(State(), {listener, wakeup}, RegistrySpec.Accept(fd, addr, willing));
      hide Booked, Watched, ToIpAndPort, IsAddress;
      peers := peers[fd := addr];
      var added := epoll.EpollCtl(ADD, fd, willing);
      var host := ToIpAndPort(addr);
      host2conn := host2conn[host := Connection(fd, addr)];
      fd2host := fd2host[fd := host];
    }

    /** The key a receive task works with. */
    method NameOf(fd: int, named: bool) returns (key: Option<string>)
      requires WellPeered(State())
      ensures key == PeerKey(State(), fd, named)
    {
      if named && fd in peers {
        return Some(ToIpAndPort(peers[fd]));
      } else if fd in fd2host {
        return Some(fd2host[fd]);
      }
      return None;
    }

    /** The disconnect path of recv_message: name the peer, leave epoll, close, forget it in both maps. `failed` says
        that bytes came before a read failed, and not that nothing was read. */
    method Disconnect(fd: int, named: bool, failed: bool) returns (ret: int)
      requires Running()
      modifies this, epoll
      ensures Running() && State() == DisconnectStep(old(State()), fd, named)
      ensures ret == if failed && fd in old(peers) then -2 else -1
    {
      StepKeepsBooked(State(), {listener, wakeup}, RegistrySpec.Disconnect(fd, named));
      assert fd in fd2host <==> fd in peers;
      assert fd in epoll.interest ==> epoll.maxNumbers > 0;
      assert fd !in epoll.interest ==> epoll.interest - {fd} == epoll.interest;
      ghost var after := DisconnectStep(State(), fd, named);
      hide Booked, Watched, ToIpAndPort, IsAddress, IsSize;
      var key := NameOf(fd, named);
      if key.None? {
        return -1;
      }
      var deleted := epoll.EpollCtl(DEL, fd, true);
      peers := peers - {fd};
      fd2host := fd2host - {fd};
      host2conn := host2conn - {key.value};
      assert State() == after;
      return if failed then -2 else -1;
    }
  }
}

// The event loop (src/rtsp/server.cpp): the map of clients against the subscribers of the hub.
module Servers {
  import opened Prelude
  import P = Protocol
  import opened Sessions
  import HubProtocol
  import HubCalls

  // What epoll_wait reports: a connection that can be accepted, and whether it could be
  // registered; a client that hung up; or what a read from a client brought, nothing at its end.
  datatype Event =
    | Arrives(fd: nat, oracle: P.Oracle, registered: bool)
    | HangsUp(fd: nat)
    | Reads(fd: nat, data: string)

  // ----- What a loop makes of its events -----

  // A client: the number of its session, the session, and what it will get from outside.
  datatype Peer = Peer(number: nat, conn: Conn, oracle: P.Oracle)

  // The clients, how many sessions were ever made, and what all of them said; and whether the
  // process lives.
  datatype Loop = Loop(peers: map<nat, Peer>, sessions: nat, spoken: seq<Sessions.Event>, alive: bool)

  const FRESH := Conn(P.START, "", 0, [], P.Open)

  function Served(x: Loop, fd: nat, data: string): Loop
    requires fd in x.peers
  {
    var p := x.peers[fd];
    var y := FeedSpec(p.conn, data, p.oracle, true);
    FeedParts(p.conn, data, p.oracle, true);
    Loop(if y.verdict.Open? then x.peers[fd := p.(conn := y)] else x.peers - {fd}, x.sessions,
         x.spoken + Says(p.number, y.sent[|p.conn.sent|..]), !y.verdict.Thrown?)
  }

  lemma ServedIs(x: Loop, fd: nat, data: string, y: Conn, spoken: seq<Sessions.Event>)
    requires fd in x.peers && y == FeedSpec(x.peers[fd].conn, data, x.peers[fd].oracle, true)
    requires Spoke(x.peers[fd].number, x.spoken, x.peers[fd].conn.sent, spoken, y.sent)
    ensures Served(x, fd, data) ==
              Loop(if y.verdict.Open? then x.peers[fd := x.peers[fd].(conn := y)] else x.peers - {fd},
                   x.sessions, spoken, !y.verdict.Thrown?)
  {
    hide FeedSpec;
  }

  function After(x: Loop, event: Event): Loop {
    if !x.alive then x
    else
      match event
      case Arrives(fd, oracle, registered) =>
        var peers := if registered && fd !in x.peers then x.peers[fd := Peer(x.sessions, FRESH, oracle)] else x.peers;
        x.(peers := peers, sessions := x.sessions + 1)
      case HangsUp(fd) => x.(peers := x.peers - {fd})
      case Reads(fd, data) =>
        if fd !in x.peers then x
        else if data == "" then x.(peers := x.peers - {fd})
        else Served(x, fd, data)
  }

  function AfterAll(x: Loop, events: seq<Event>): Loop {
    if events == [] then x else After(AfterAll(x, events[..|events| - 1]), events[|events| - 1])
  }

  lemma AfterOneMore(x: Loop, events: seq<Event>, n: nat)
    requires n < |events|
    ensures AfterAll(x, events[..n + 1]) == After(AfterAll(x, events[..n]), events[n])
  {
    assert events[..n + 1][..n] == events[..n];
  }

  lemma NothingYet(x: Loop, events: seq<Event>)
    ensures AfterAll(x, events[..0]) == x
  {}

  lemma {:induction false} DeadStays(x: Loop, events: seq<Event>, n: nat)
    requires n <= |events| && !AfterAll(x, events[..n]).alive
    ensures AfterAll(x, events) == AfterAll(x, events[..n])
    decreases |events| - n
  {
    if n == |events| {
      assert events[..n] == events;
    } else {
      AfterOneMore(x, events, n);
      DeadStays(x, events, n + 1);
    }
  }

  // ----- Clients and subscribers -----

  predicate Apart(a: Option<nat>, b: Option<nat>) {
    a.None? || a != b
  }

  // Without duplicates, the subscribers are exactly the streamers that are held, each by one
  // client.
  ghost predicate Tidy(subscribers: seq<nat>, held: map<nat, Option<nat>>) {
    && HubProtocol.NoDuplicates(subscribers)
    && (forall f, g :: f in held && g in held && f != g ==> Apart(held[f], held[g]))
    && (forall v :: v in subscribers ==> Holds(held, v))
    && (forall f :: f in held && held[f].Some? ==> held[f].value in subscribers)
  }

  ghost predicate Holds(held: map<nat, Option<nat>>, v: nat) {
    exists f :: f in held && held[f] == Some(v)
  }

  // Whatever one client does with its own streamer leaves the others' alone.
  lemma MovedKeepsTidy(before: View, after: View, held: map<nat, Option<nat>>, fd: nat, now: Option<nat>)
    requires Tidy(before.subscribers, held) && fd in held && Moved(before, held[fd], after, now)
    requires forall v :: v in before.subscribers ==> v < before.streamers
    requires HubProtocol.NoDuplicates(after.subscribers)
    ensures Tidy(after.subscribers, held[fd := now])
  {
    hide HubProtocol.NoDuplicates;
    var later := held[fd := now];
    forall v | v in after.subscribers ensures Holds(later, v) {
      if now == Some(v) {
        assert later[fd] == Some(v);
      } else {
        assert Holds(held, v);
        var f :| f in held && held[f] == Some(v);
        assert later[f] == Some(v);
      }
    }
    forall f, g | f in later && g in later && f != g ensures Apart(later[f], later[g]) {
      assert f != fd && g != fd ==> Apart(held[f], held[g]);
      if f == fd && now.Some? {
        assert held[g].Some? ==> held[g].value in before.subscribers;
        assert now == held[fd] ==> Apart(held[fd], held[g]);
      }
      if g == fd && now.Some? {
        assert held[f].Some? ==> held[f].value in before.subscribers;
        assert now == held[fd] ==> Apart(held[f], held[fd]);
      }
    }
    forall f | f in later && later[f].Some? ensures later[f].value in after.subscribers {
      if f != fd {
        assert Apart(held[f], held[fd]);
      }
    }
  }

  lemma HeldAreSubscribed(subscribers: seq<nat>, held: map<nat, Option<nat>>)
    requires Tidy(subscribers, held)
    ensures forall f :: f in held && held[f].Some? ==> held[f].value in subscribers
  {}

  lemma NoTwice(world: World)
    requires world.Valid()
    ensures HubProtocol.NoDuplicates(world.subscribers)
  {}

  lemma MovedKeeps(before: View, mine: Option<nat>, after: View, now: Option<nat>)
    requires Moved(before, mine, after, now)
    ensures Kept(before, after)
  {}

  lemma MovedOff(before: View, mine: Option<nat>, after: View)
    requires Moved(before, mine, after, None)
    ensures forall v :: v in after.subscribers <==> v in before.subscribers && mine != Some(v)
  {}

  // A client without a streamer may come and go.
  lemma IdleKeepsTidy(subscribers: seq<nat>, held: map<nat, Option<nat>>, fd: nat)
    requires Tidy(subscribers, held)
    ensures fd !in held ==> Tidy(subscribers, held[fd := None])
    ensures fd in held && held[fd].None? ==> Tidy(subscribers, held - {fd})
  {
    hide HubProtocol.NoDuplicates;
    forall v | v in subscribers
      ensures fd !in held ==> Holds(held[fd := None], v)
      ensures fd in held && held[fd].None? ==> Holds(held - {fd}, v) {
      var f :| f in held && held[f] == Some(v);
      if fd !in held {
        assert held[fd := None][f] == Some(v);
      } else if held[fd].None? {
        assert (held - {fd})[f] == Some(v);
      }
    }
  }

  lemma MapChanges<T>(before: map<nat, T>, after: map<nat, T>, k: nat)
    requires forall i :: i != k ==> (i in after <==> i in before)
    requires forall i :: i != k && i in after ==> after[i] == before[i]
    ensures after == if k in after then before[k := after[k]] else before - {k}
  {}

  class Server {
    const world: World
    var clients: map<nat, Session>

    ghost function Held(): map<nat, Option<nat>>
      reads this, clients.Values
    {
      map fd | fd in clients :: clients[fd].streamer
    }

    ghost function StreamerOf(fd: nat): Option<nat>
      reads this, clients.Values
    {
      if fd in clients then clients[fd].streamer else None
    }

    // The loop, as long as the process lives.
    ghost function Now(): Loop
      reads this, world, clients.Values
    {
      Loop(Peers(), world.sessions, world.spoken, true)
    }

    ghost function Peers(): map<nat, Peer>
      reads this, clients.Values
    {
      map fd | fd in clients :: PeerOf(clients[fd])
    }

    lemma PeersAt(fd: nat)
      ensures fd in Peers() <==> fd in clients
      ensures fd in clients ==> Peers()[fd] == PeerOf(clients[fd])
    {}

    // Whatever happens to one client alone.
    twostate lemma OneChanges(fd: nat)
      requires forall f :: f != fd ==> (f in clients <==> f in old(clients))
      requires forall f :: f != fd && f in clients ==> clients[f] == old(clients[f]) && unchanged(clients[f])
      ensures Peers() == if fd in clients then old(Peers())[fd := PeerOf(clients[fd])] else old(Peers()) - {fd}
    {
      hide PeerOf;
      var before, after := old(Peers()), Peers();
      forall f | f != fd && f in clients ensures after[f] == before[f] {
        assert PeerOf(clients[f]) == old(PeerOf(clients[f]));
      }
      MapChanges(before, after, fd);
    }

    ghost function PeerOf(client: Session): Peer
      reads client
    {
      Peer(client.number, client.Listening(), client.oracle)
    }

    // A client whose session is CLOSED is dropped at once.
    ghost predicate AllListen()
      reads this, clients.Values
    {
      forall fd :: fd in clients ==> !clients[fd].state.Closed?
    }

    ghost predicate Separate()
      reads this
    {
      forall f, g :: f in clients && g in clients && f != g ==>
        clients[f] != clients[g] && clients[f].number != clients[g].number
    }

    ghost predicate Each()
      reads this, clients.Values, world
    {
      forall fd :: fd in clients ==> clients[fd].world == world && clients[fd].hub && clients[fd].Valid()
    }

    ghost predicate Valid()
      reads this, clients.Values, world
    {
      world.Valid() && Separate() && Each() && Tidy(world.subscribers, Held())
    }

    constructor ()
      ensures Valid() && clients == map[] && fresh(world) && world.subscribers == []
      ensures Now() == Loop(map[], 0, [], true)
    {
      clients := map[];
      world := new World();
    }

    // A client that cannot be registered, or whose descriptor is taken, is gone at once.
    method Accept(fd: nat, oracle: P.Oracle, registered: bool)
      requires Valid()
      modifies this`clients, world`sessions
      ensures Valid() && fresh(clients.Values - old(clients.Values)) && world.Seen() == old(world.Seen())
      ensures !registered || fd in old(clients) ==> clients == old(clients)
      ensures registered && fd !in old(clients) ==> fd in clients && clients == old(clients)[fd := clients[fd]]
      ensures Peers() == if registered && fd !in old(clients)
                         then old(Peers())[fd := Peer(old(world.sessions), FRESH, oracle)] else old(Peers())
      ensures forall f :: f in old(clients) ==> unchanged(old(clients[f]))
      ensures world.sessions == old(world.sessions) + 1 && world.spoken == old(world.spoken)
      ensures fd in clients && fd !in old(clients) ==>
                fresh(clients[fd]) && PeerOf(clients[fd]) == Peer(old(world.sessions), FRESH, oracle)
    {
      hide World.Valid, Tidy, P.CoreInv, Peers;
      label before:
      PeersAt(fd);
      var client := new Session(true, world, oracle);
      CountedStaysValid@before();
      NumbersBelow@before();
      if registered {
        Emplace(fd, client);
      }
      OneChanges(fd);
    }

    // One more session, which is not a client yet, changes nothing for the others.
    twostate lemma CountedStaysValid()
      requires old(Valid()) && clients == old(clients) && forall f :: f in clients ==> unchanged(clients[f])
      requires world.Valid() && world.Seen() == old(world.Seen()) && world.sessions >= old(world.sessions)
      ensures Valid() && Held() == old(Held())
    {
      hide HubProtocol.NoDuplicates, RtpAfterPlay, InStep, HubKept, HandedAreGreeted, P.CoreInv, Tidy;
      assert Held() == old(Held());
      forall f | f in clients ensures clients[f].world == world && clients[f].hub && clients[f].Valid() {
        assert old(clients[f].Valid());
      }
    }

    twostate lemma NumbersBelow()
      requires old(Valid()) && clients == old(clients)
      ensures forall f :: f in clients ==> clients[f].number < old(world.sessions)
    {
      hide World.Valid, Tidy, P.CoreInv;
      assert forall f :: f in clients ==> old(clients[f].Valid());
    }

    // A client whose descriptor is taken is not entered.
    method Emplace(fd: nat, client: Session)
      requires Valid() && client !in clients.Values
      requires forall f :: f in clients ==> clients[f].number != client.number
      requires client.world == world && client.hub && client.Valid() && client.streamer == None
      modifies this`clients
      ensures Valid() && clients == if fd in old(clients) then old(clients) else old(clients)[fd := client]
    {
      hide World.Valid, Session.Valid, Tidy, P.CoreInv;
      if fd !in clients {
        ghost var held := Held();
        IdleKeepsTidy(world.subscribers, held, fd);
        clients := clients[fd := client];
        assert Held() == held[fd := None];
      }
    }

    method Erase(fd: nat)
      requires Valid() && fd in clients && clients[fd].streamer == None
      modifies this`clients
      ensures Valid() && clients == old(clients) - {fd}
    {
      hide World.Valid, Session.Valid, Tidy, P.CoreInv;
      ghost var held := Held();
      IdleKeepsTidy(world.subscribers, held, fd);
      clients := clients - {fd};
      assert Held() == held - {fd};
    }

    // When one session and the world have changed, each in order, and the session has moved no
    // streamer but its own, the server is in order.
    twostate lemma OthersStayValid(fd: nat)
      requires old(Valid()) && fd in clients && clients == old(clients)
      requires forall f :: f in clients && f != fd ==> unchanged(clients[f])
      requires world.Valid() && clients[fd].Valid() && world.sessions == old(world.sessions)
      requires Moved(old(world.Seen()), old(clients[fd].streamer), world.Seen(), clients[fd].streamer)
      ensures Valid() && Held() == old(Held())[fd := clients[fd].streamer]
    {
      hide HubProtocol.NoDuplicates, RtpAfterPlay, InStep, HubKept, HandedAreGreeted, P.CoreInv, Moved, Tidy;
      ghost var held := old(Held());
      assert Held() == held[fd := clients[fd].streamer];
      NoTwice(world);
      MovedKeepsTidy(old(world.Seen()), world.Seen(), held, fd, clients[fd].streamer);
      HeldAreSubscribed(world.subscribers, Held());
      MovedKeeps(old(world.Seen()), old(clients[fd].streamer), world.Seen(), clients[fd].streamer);
      forall f | f in clients ensures clients[f].world == world && clients[f].hub && clients[f].Valid() {
        assert Held()[f] == clients[f].streamer && old(clients[f].Valid());
      }
    }

    // A client that goes takes its streamer with it, and nobody else's.
    method DropClient(fd: nat)
      requires Valid()
      modifies this`clients, world, clients.Values
      ensures Valid() && clients == old(clients) - {fd} && Kept(old(world.Seen()), world.Seen())
      ensures forall f :: f in clients ==> unchanged(clients[f])
      ensures world.sessions == old(world.sessions) && world.spoken == old(world.spoken)
      ensures Moved(old(world.Seen()), old(StreamerOf(fd)), world.Seen(), None)
      ensures Peers() == old(Peers()) - {fd}
    {
      hide World.Valid, Tidy, P.CoreInv, Moved, Peers, Kept;
      MovedNot(world.Seen(), None);
      if fd in clients {
        label before:
        clients[fd].OnDisconnect();
        OthersStayValid@before(fd);
        Erase(fd);
      }
      MovedKeeps(old(world.Seen()), old(StreamerOf(fd)), world.Seen(), None);
      OneChanges(fd);
    }

    // A read changes its own session, as FeedSpec says, and no other.
    method FeedClient(fd: nat, data: string) returns (verdict: P.Verdict)
      requires Valid() && fd in clients
      modifies world, clients.Values
      ensures Valid() && clients == old(clients) && Kept(old(world.Seen()), world.Seen())
      ensures forall f :: f in clients && f != fd ==> unchanged(clients[f])
      ensures clients[fd].Listening().(verdict := verdict)
              == FeedSpec(old(clients[fd].Listening()), data, clients[fd].oracle, true)
      ensures !old(clients[fd].state.Closed?) ==> (verdict.Closing? <==> clients[fd].state.Closed?)
      ensures world.sessions == old(world.sessions)
      ensures Spoke(clients[fd].number, old(world.spoken), old(clients[fd].sent), world.spoken, clients[fd].sent)
      ensures Moved(old(world.Seen()), old(StreamerOf(fd)), world.Seen(), StreamerOf(fd))
      ensures Peers() == old(Peers())[fd := PeerOf(clients[fd])]
    {
      hide World.Valid, Tidy, P.CoreInv, FeedSpec, Moved, Spoke, Peers, Kept;
      label before:
      verdict := clients[fd].Feed(data);
      OthersStayValid@before(fd);
      MovedKeeps(old(world.Seen()), old(StreamerOf(fd)), world.Seen(), StreamerOf(fd));
      OneChanges(fd);
    }

    // A client whose session does not go on is dropped. false: the process has ended, because
    // std::stoi threw out of feed.
    method Read(fd: nat, data: string) returns (alive: bool)
      requires Valid() && AllListen() && fd in clients && data != ""
      modifies this`clients, world, clients.Values
      ensures alive ==> Valid() && AllListen()
      ensures clients == old(clients) || clients == old(clients) - {fd}
      ensures Kept(old(world.Seen()), world.Seen())
      ensures forall f :: f in old(clients) && f != fd ==>
                f in clients && clients[f] == old(clients[f]) && unchanged(clients[f])
      ensures var y := FeedSpec(old(clients[fd].Listening()), data, old(clients[fd].oracle), true);
              && (alive <==> !y.verdict.Thrown?)
              && (y.verdict.Open? ==>
                    && clients == old(clients) && clients[fd].Listening() == y
                    && Moved(old(world.Seen()), old(StreamerOf(fd)), world.Seen(), StreamerOf(fd)))
              && (y.verdict.Closing? || y.verdict.Overflow? ==> Gone(fd))
      ensures var later := Served(old(Now()), fd, data);
              (alive <==> later.alive) && (alive ==> Now() == later) && world.spoken == later.spoken
    {
      hide Valid, P.CoreInv, FeedSpec, Moved, Kept, Peers, Served, Spoke;
      ghost var before, start := world.Seen(), Now();
      HeldAreBelow(fd);
      PeersAt(fd);
      var verdict := FeedClient(fd, data);
      alive := !verdict.Thrown?;
      ServedIs(start, fd, data, clients[fd].Listening().(verdict := verdict), world.spoken);
      if verdict.Closing? || verdict.Overflow? {
        ghost var fed, mine := world.Seen(), StreamerOf(fd);
        DropClient(fd);
        KeptTwice(before, fed, world.Seen());
        MovedTwice(before, old(StreamerOf(fd)), fed, mine, world.Seen(), None);
        MovedOff(before, old(StreamerOf(fd)), world.Seen());
      }
    }

    // The client is not there any more, its streamer is off the list, and nobody else's is.
    twostate predicate Gone(fd: nat)
      reads this, world, clients.Values
    {
      && clients == old(clients) - {fd}
      && forall v :: v in world.subscribers <==> v in old(world.subscribers) && old(StreamerOf(fd)) != Some(v)
    }

    lemma HeldAreBelow(fd: nat)
      requires Valid()
      ensures forall v :: v in world.Seen().subscribers ==> v < world.Seen().streamers
      ensures StreamerOf(fd).Some? ==> StreamerOf(fd).value < world.Seen().streamers
    {
      hide HubProtocol.NoDuplicates, RtpAfterPlay, InStep, HubKept, HandedAreGreeted, SpokenOf, P.CoreInv;
      if fd in clients {
        assert clients[fd].Valid();
      }
    }

    // What an event does to its client, and that it does nothing to the others. false: the
    // process has ended.
    method Dispatch(event: Event) returns (alive: bool)
      requires Valid() && AllListen()
      modifies this`clients, world, clients.Values
      ensures alive ==> Valid() && AllListen()
      ensures fresh(clients.Values - old(clients.Values)) && Kept(old(world.Seen()), world.Seen())
      ensures forall f :: f != event.fd ==> (f in clients <==> f in old(clients))
      ensures forall f :: f != event.fd && f in clients ==> clients[f] == old(clients[f]) && unchanged(clients[f])
      ensures event.HangsUp? || (event.Reads? && event.data == "") ==> alive && Gone(event.fd)
      ensures event.Reads? && event.data != "" && event.fd in old(clients) ==>
                var y := FeedSpec(old(clients[event.fd].Listening()), event.data, old(clients[event.fd].oracle), true);
                && (alive <==> !y.verdict.Thrown?)
                && (y.verdict.Open? ==> clients == old(clients) && clients[event.fd].Listening() == y)
                && (y.verdict.Closing? || y.verdict.Overflow? ==> Gone(event.fd))
      ensures event.Reads? && event.fd !in old(clients) ==>
                alive && clients == old(clients) && world.subscribers == old(world.subscribers)
      ensures event.Arrives? ==>
                && alive && world.subscribers == old(world.subscribers)
                && (event.registered && event.fd !in old(clients) ==>
                      && event.fd in clients && fresh(clients[event.fd])
                      && PeerOf(clients[event.fd]) == Peer(old(world.sessions), FRESH, event.oracle))
                && (!event.registered || event.fd in old(clients) ==> clients == old(clients))
      ensures var later := After(old(Now()), event);
              (alive <==> later.alive) && (alive ==> Now() == later) && world.spoken == later.spoken
    {
      hide Valid, P.CoreInv, FeedSpec, Served, Moved, Kept, Peers;
      KeptTwice(world.Seen(), world.Seen(), world.Seen());
      PeersAt(event.fd);
      alive := true;
      match event
      case Arrives(fd, oracle, registered) =>
        Accept(fd, oracle, registered);
      case HangsUp(fd) =>
        DropClient(fd);
        MovedOff(old(world.Seen()), old(StreamerOf(fd)), world.Seen());
      case Reads(fd, data) =>
        if fd in clients {
          if data == "" {
            DropClient(fd);
            MovedOff(old(world.Seen()), old(StreamerOf(fd)), world.Seen());
          } else {
            alive := Read(fd, data);
          }
        }
    }

    // Events until there are no more, or the process ends.
    method Serve(events: seq<Event>) returns (alive: bool)
      requires Valid() && AllListen()
      modifies this`clients, world, clients.Values
      ensures alive ==> Valid() && AllListen()
      ensures fresh(clients.Values - old(clients.Values)) && Kept(old(world.Seen()), world.Seen())
      ensures var later := AfterAll(old(Now()), events);
              (alive <==> later.alive) && (alive ==> Now() == later) && world.spoken == later.spoken
    {
      hide Valid, P.CoreInv, Kept, After, AfterAll;
      KeptTwice(world.Seen(), world.Seen(), world.Seen());
      ghost var start := Now();
      NothingYet(start, events);
      for i := 0 to |events|
        invariant Valid() && AllListen()
        invariant fresh(clients.Values - old(clients.Values)) && Kept(old(world.Seen()), world.Seen())
        invariant Now() == AfterAll(start, events[..i])
      {
        ghost var seen := world.Seen();
        AfterOneMore(start, events, i);
        alive := Dispatch(events[i]);
        KeptTwice(old(world.Seen()), seen, world.Seen());
        if !alive {
          DeadStays(start, events, i + 1);
          return;
        }
      }
      assert events[..|events|] == events;
      alive := true;
    }

    // The end of run: every client is gone, so when the hub goes nobody is subscribed, no pump is
    // live and no source is started.
    method Shutdown()
      requires Valid()
      modifies this`clients, world, clients.Values
      ensures Valid() && clients == map[] && world.subscribers == [] && Kept(old(world.Seen()), world.Seen())
      ensures world.spoken == old(world.spoken)
      ensures world.hub.run != [] && NothingRuns(HubCalls.Last(world.hub.run))
    {
      hide World.Valid, Session.Valid, P.CoreInv, Tidy, Kept, NothingRuns;
      KeptTwice(world.Seen(), world.Seen(), world.Seen());
      while clients != map[]
        invariant Valid() && clients.Values <= old(clients.Values) && Kept(old(world.Seen()), world.Seen())
        invariant world.spoken == old(world.spoken)
        decreases |clients|
      {
        var fd :| fd in clients;
        ghost var before, seen := clients, world.Seen();
        DropClient(fd);
        KeptTwice(old(world.Seen()), seen, world.Seen());
        assert |clients| < |before| by { Fewer(before, fd); }
        assert forall s :: s in clients.Values ==> s in before.Values;
      }
      NobodyHeld(world.subscribers, Held());
      NothingIsLeft(world);
    }

    // Events until the server is told to stop, or dies: what the sessions have said is what the
    // events make of the clients, and at the end nothing is left.
    method Run(events: seq<Event>) returns (alive: bool)
      requires Valid() && AllListen()
      modifies this`clients, world, clients.Values
      ensures alive <==> AfterAll(old(Now()), events).alive
      ensures world.spoken == AfterAll(old(Now()), events).spoken
      ensures alive ==> Valid() && clients == map[] && world.subscribers == []
      ensures alive ==> world.hub.run != [] && NothingRuns(HubCalls.Last(world.hub.run))
      ensures Kept(old(world.Seen()), world.Seen())
    {
      hide Valid, P.CoreInv, Kept, NothingRuns, AfterAll;
      alive := Serve(events);
      if alive {
        ghost var seen := world.Seen();
        Shutdown();
        KeptTwice(old(world.Seen()), seen, world.Seen());
      }
    }

    // The system invariant in words: the hub's subscribers are, without duplicates, exactly the
    // streamers of the sessions in the map that are PLAYING, each session's its own; no RTP
    // packet of such a streamer was sent before its session answered the PLAY for which it was
    // made; and of no streamer at all was one sent before its own session's.
    lemma SubscribersArePlaying()
      requires Valid()
      ensures HubProtocol.NoDuplicates(world.subscribers)
      ensures forall fd :: fd in clients ==> (clients[fd].state.Playing? <==> clients[fd].streamer.Some?)
      ensures forall v :: v in world.subscribers <==> IsPlaying(v)
      ensures forall f, g :: f in clients && g in clients && f != g ==>
                && clients[f].number != clients[g].number
                && (clients[f].state.Playing? ==> clients[f].streamer != clients[g].streamer)
      ensures forall fd :: fd in clients && clients[fd].state.Playing? ==> clients[fd].PlayedFirst()
      ensures RtpAfterPlay(world.events, world.made, world.greeted)
    {
      hide HubProtocol.NoDuplicates, RtpAfterPlay, InStep, HandedAreGreeted, Session.PlayedFirst;
      var held := Held();
      assert forall fd :: fd in clients ==> held[fd] == clients[fd].streamer && clients[fd].Valid();
      forall v | v in world.subscribers ensures IsPlaying(v) {
        assert Holds(held, v);
        var f :| f in held && held[f] == Some(v);
        assert clients[f].Valid();
      }
      forall f, g | f in clients && g in clients && f != g && clients[f].state.Playing?
        ensures clients[f].streamer != clients[g].streamer
      {
        assert clients[f].Valid() && Apart(held[f], held[g]);
      }
      forall fd | fd in clients && clients[fd].state.Playing? ensures clients[fd].PlayedFirst() {
        clients[fd].StreamerPlayedFirst();
      }
    }

    // v is the streamer of a client that is PLAYING.
    ghost predicate IsPlaying(v: nat)
      reads this, clients.Values
    {
      exists fd :: fd in clients && clients[fd].state.Playing? && clients[fd].streamer == Some(v)
    }
  }

  lemma NothingIsLeft(world: World)
    requires world.Valid() && world.subscribers == []
    ensures world.hub.run != [] && NothingRuns(HubCalls.Last(world.hub.run))
  {
    hide HubProtocol.NoDuplicates, RtpAfterPlay, HandedAreGreeted, NothingRuns;
    NobodyNothing(world.hub, world.streamers);
  }

  lemma KeptTwice(a: View, b: View, c: View)
    ensures Kept(a, a) && (Kept(a, b) && Kept(b, c) ==> Kept(a, c))
  {
    hide HubKept;
    HubKeptTwice(a.hub, b.hub, c.hub);
  }

  lemma Fewer<T>(m: map<nat, T>, k: nat)
    requires k in m
    ensures |m - {k}| < |m|
  {
    assert m.Keys == (m - {k}).Keys + {k};
    assert |m.Keys| == |(m - {k}).Keys| + 1;
  }

  lemma NobodyHeld(subscribers: seq<nat>, held: map<nat, Option<nat>>)
    requires Tidy(subscribers, held) && held == map[]
    ensures subscribers == []
  {
    hide HubProtocol.NoDuplicates;
    assert subscribers == [] || subscribers[0] in subscribers;
    assert forall v :: !Holds(held, v);
  }
}

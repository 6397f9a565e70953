// What a client gets from the server depends on nothing but what this client sent.
module Visits {
  import opened Prelude
  import P = Protocol
  import opened Framing
  import opened Sessions
  import opened Chunks
  import opened Servers

  const START := Loop(map[], 0, [], true)

  // What one session said.
  function TextsOf(spoken: seq<Sessions.Event>, n: nat): seq<string> {
    if spoken == [] then []
    else
      var last := spoken[|spoken| - 1];
      TextsOf(spoken[..|spoken| - 1], n) + if last.Said? && last.session == n then [last.text] else []
  }

  lemma {:induction false} TextsAppend(spoken: seq<Sessions.Event>, session: nat, texts: seq<string>, n: nat)
    ensures TextsOf(spoken + Says(session, texts), n) == TextsOf(spoken, n) + if session == n then texts else []
  {
    var more := Says(session, texts);
    if texts == [] {
      assert spoken + more == spoken;
    } else {
      var k := |texts| - 1;
      TextsAppend(spoken, session, texts[..k], n);
      assert more == Says(session, texts[..k]) + [Said(session, texts[k])];
      var all := spoken + more;
      assert all[..|all| - 1] == spoken + Says(session, texts[..k]) && all[|all| - 1] == Said(session, texts[k]);
      assert texts == texts[..k] + [texts[k]];
    }
  }

  // What a client has sent before it left, in the reads that it took, and whether it has left: it
  // hung up, or there was nothing more to read.
  datatype Stay = Stay(received: seq<string>, left: bool)

  function StayOf(events: seq<Servers.Event>, fd: nat): Stay {
    if events == [] then Stay([], false)
    else Stays(StayOf(events[..|events| - 1], fd), events[|events| - 1], fd)
  }

  function Stays(s: Stay, event: Servers.Event, fd: nat): Stay {
    if s.left || event.fd != fd || event.Arrives? then s
    else if event.HangsUp? || event.data == "" then s.(left := true)
    else s.(received := s.received + [event.data])
  }

  // Sessions have numbers of their own, and nobody else speaks.
  ghost predicate Ordered(x: Loop) {
    && (forall f :: f in x.peers ==> x.peers[f].number < x.sessions)
    && (forall f, g :: f in x.peers && g in x.peers && f != g ==> x.peers[f].number != x.peers[g].number)
    && forall n: nat :: n >= x.sessions ==> TextsOf(x.spoken, n) == []
  }

  // What a read changes.
  lemma ServedSays(x: Loop, fd: nat, data: string, n: nat)
    requires fd in x.peers
    ensures var p := x.peers[fd];
            var y := FeedSpec(p.conn, data, p.oracle, true);
            var later := Served(x, fd, data);
            && p.conn.sent <= y.sent && later.sessions == x.sessions && later.alive == !y.verdict.Thrown?
            && later.peers == (if y.verdict.Open? then x.peers[fd := p.(conn := y)] else x.peers - {fd})
            && TextsOf(later.spoken, n) == TextsOf(x.spoken, n) +
                 if p.number == n then y.sent[|p.conn.sent|..] else []
  {
    var p := x.peers[fd];
    var y := FeedSpec(p.conn, data, p.oracle, true);
    FeedParts(p.conn, data, p.oracle, true);
    hide FeedSpec, Says, TextsOf;
    TextsAppend(x.spoken, p.number, y.sent[|p.conn.sent|..], n);
  }

  lemma ServedKeepsOrder(x: Loop, fd: nat, data: string)
    requires Ordered(x) && fd in x.peers
    ensures Ordered(Served(x, fd, data))
  {
    hide FeedSpec, Served, TextsOf;
    forall n: nat
      ensures n >= x.sessions ==> TextsOf(Served(x, fd, data).spoken, n) == []
    {
      ServedSays(x, fd, data, n);
    }
    ServedSays(x, fd, data, 0);
  }

  lemma AfterKeepsOrder(x: Loop, event: Servers.Event)
    requires Ordered(x)
    ensures Ordered(After(x, event))
  {
    hide Served, TextsOf, FRESH;
    if event.Reads? && event.fd in x.peers {
      ServedKeepsOrder(x, event.fd, event.data);
    }
  }

  lemma {:induction false} AlwaysOrdered(events: seq<Servers.Event>)
    ensures Ordered(AfterAll(START, events))
  {
    hide Ordered, After;
    if events == [] {
      assert Ordered(START) by { StartIsOrdered(); }
    } else {
      AlwaysOrdered(events[..|events| - 1]);
      AfterKeepsOrder(AfterAll(START, events[..|events| - 1]), events[|events| - 1]);
    }
  }

  lemma StartIsOrdered()
    ensures Ordered(START)
  {}

  // The client of session n, which came under fd: it is there while its session listens and it
  // has not left, and it has got what its session made of its reads.
  ghost predicate IsVisit(x: Loop, n: nat, fd: nat, oracle: P.Oracle, left: bool, y: Conn) {
    && n < x.sessions && TextsOf(x.spoken, n) == y.sent
    && (y.verdict.Open? && !left ==> fd in x.peers && x.peers[fd] == Peer(n, y, oracle))
    && (!y.verdict.Open? || left ==> forall f :: f in x.peers ==> x.peers[f].number != n)
  }

  lemma OwnRead(x: Loop, n: nat, fd: nat, oracle: P.Oracle, y: Conn, data: string)
    requires Ordered(x) && IsVisit(x, n, fd, oracle, false, y) && y.verdict.Open?
    ensures IsVisit(Served(x, fd, data), n, fd, oracle, false, FeedSpec(y, data, oracle, true))
  {
    hide FeedSpec, Served, TextsOf;
    ServedSays(x, fd, data, n);
    var z := FeedSpec(y, data, oracle, true);
    assert y.sent + z.sent[|y.sent|..] == z.sent;
  }

  lemma OthersRead(x: Loop, n: nat, fd: nat, oracle: P.Oracle, left: bool, y: Conn, other: nat, data: string)
    requires Ordered(x) && IsVisit(x, n, fd, oracle, left, y)
    requires other in x.peers && (other != fd || !y.verdict.Open? || left)
    ensures IsVisit(Served(x, other, data), n, fd, oracle, left, y)
  {
    hide FeedSpec, Served, TextsOf;
    ServedSays(x, other, data, n);
  }

  // Nothing that is read under a descriptor is lost on the way to its session.
  lemma OneMoreRead(oracle: P.Oracle, received: seq<string>, data: string)
    ensures var y := FeedAll(Fresh(P.START, 0), received, oracle, true);
            FeedAll(Fresh(P.START, 0), received + [data], oracle, true)
            == if y.verdict.Open? then FeedSpec(y, data, oracle, true) else y
  {
    hide FeedSpec;
    assert (received + [data])[..|received|] == received;
  }

  // One event: only what its own client does concerns a visit.
  lemma VisitGoesOn(x: Loop, n: nat, fd: nat, oracle: P.Oracle, s: Stay, event: Servers.Event)
    requires Ordered(x) && x.alive
    requires IsVisit(x, n, fd, oracle, s.left, FeedAll(Fresh(P.START, 0), s.received, oracle, true))
    ensures var t := Stays(s, event, fd);
            IsVisit(After(x, event), n, fd, oracle, t.left, FeedAll(Fresh(P.START, 0), t.received, oracle, true))
  {
    hide Served, FeedSpec, FeedAll, TextsOf;
    var y := FeedAll(Fresh(P.START, 0), s.received, oracle, true);
    if event.Reads? && event.data != "" {
      OneMoreRead(oracle, s.received, event.data);
      if event.fd in x.peers {
        if event.fd == fd && y.verdict.Open? && !s.left {
          OwnRead(x, n, fd, oracle, y, event.data);
        } else {
          OthersRead(x, n, fd, oracle, s.left, y, event.fd, event.data);
        }
      }
    }
  }

  lemma VisitBegins(x: Loop, fd: nat, oracle: P.Oracle)
    requires Ordered(x) && x.alive && fd !in x.peers
    ensures IsVisit(After(x, Arrives(fd, oracle, true)), x.sessions, fd, oracle, false,
                    FeedAll(Fresh(P.START, 0), [], oracle, true))
  {
    hide TextsOf;
  }

  lemma {:induction false} VisitAfter(x: Loop, fd: nat, oracle: P.Oracle, after: seq<Servers.Event>)
    requires Ordered(x) && x.alive && fd !in x.peers
    requires AfterAll(After(x, Arrives(fd, oracle, true)), after).alive
    ensures var s := StayOf(after, fd);
            var later := AfterAll(After(x, Arrives(fd, oracle, true)), after);
            && Ordered(later)
            && IsVisit(later, x.sessions, fd, oracle, s.left, FeedAll(Fresh(P.START, 0), s.received, oracle, true))
  {
    hide Ordered, IsVisit, FeedAll, Stays;
    var x' := After(x, Arrives(fd, oracle, true));
    AfterKeepsOrder(x, Arrives(fd, oracle, true));
    hide After;
    if after == [] {
      VisitBegins(x, fd, oracle);
    } else {
      var n := |after| - 1;
      var y := AfterAll(x', after[..n]);
      assert y.alive by { DeadIsDead(y, after[n]); }
      VisitAfter(x, fd, oracle, after[..n]);
      AfterKeepsOrder(y, after[n]);
      VisitGoesOn(y, x.sessions, fd, oracle, StayOf(after[..n], fd), after[n]);
    }
  }

  lemma DeadIsDead(x: Loop, event: Servers.Event)
    ensures !x.alive ==> After(x, event) == x
  {}

  lemma {:induction false} AfterTwo(x: Loop, a: seq<Servers.Event>, b: seq<Servers.Event>)
    ensures AfterAll(x, a + b) == AfterAll(AfterAll(x, a), b)
  {
    hide After;
    if b == [] {
      assert a + b == a;
    } else {
      var n := |b| - 1;
      AfterTwo(x, a, b[..n]);
      assert (a + b)[..|a + b| - 1] == a + b[..n];
    }
  }

  // Whatever the other clients do, and in whatever order the events come: a client that came in
  // is told exactly what its session answers to its own octets, fed read by read; and unless its
  // buffer overflows that is what serving its requests one after the other answers, however the
  // octets were cut. It is there as long as its session listens and it has not left.
  lemma ClientAlone(before: seq<Servers.Event>, fd: nat, oracle: P.Oracle, after: seq<Servers.Event>)
    requires AfterAll(START, before).alive && fd !in AfterAll(START, before).peers
    requires AfterAll(START, before + ([Arrives(fd, oracle, true)] + after)).alive
    ensures var n := AfterAll(START, before).sessions;
            var x := AfterAll(START, before + ([Arrives(fd, oracle, true)] + after));
            var s := StayOf(after, fd);
            var y := FeedAll(Fresh(P.START, 0), s.received, oracle, true);
            && TextsOf(x.spoken, n) == y.sent
            && (!y.verdict.Overflow? ==>
                  y.sent == P.Serve(P.START, CutAll(Flatten(s.received)).requests, 0, oracle, true).responses)
            && (fd in x.peers && x.peers[fd].number == n <==> y.verdict.Open? && !s.left)
            && (fd in x.peers && x.peers[fd].number == n ==> x.peers[fd].conn == y)
  {
    hide TextsOf, P.Serve, CutAll, FeedAll, StayOf, After;
    var x := AfterAll(START, before);
    var event := Arrives(fd, oracle, true);
    AlwaysOrdered(before);
    AfterTwo(START, before, [event] + after);
    AfterTwo(x, [event], after);
    AfterJust(x, event);
    VisitAfter(x, fd, oracle, after);
    OverflowIff(P.START, 0, StayOf(after, fd).received, oracle, true);
  }

  lemma AfterJust(x: Loop, event: Servers.Event)
    ensures AfterAll(x, [event]) == After(x, event)
  {
    hide After;
    assert [event][..0] == [];
  }
}

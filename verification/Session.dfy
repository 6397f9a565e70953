// Sessions (src/rtsp/session.cpp) as objects that share a hub: each one answers its client and
// subscribes and unsubscribes its streamer, while the pump sends to whoever is subscribed.
module Sessions {
  import opened Prelude
  import opened Text
  import opened Parser
  import R = Responses
  import opened Framing
  import P = Protocol
  import Closings
  import Sdp
  import ParameterSets
  import HubProtocol
  import HubCalls

  // What leaves the server: responses of sessions and RTP packets of streamers. Sessions and
  // streamers are numbered in the order in which they were made.
  datatype Event = Said(session: nat, text: string) | Rtp(streamer: nat)

  // By which session a streamer was made, and when.
  datatype Birth = Birth(session: nat, at: nat)

  // When the PLAY for which a streamer was made was answered, and with what.
  datatype Greeting = Greeting(at: nat, cseq: int, id: string)

  // The 200 is that of the streamer's own session, and came after the streamer was made.
  predicate IsGreeting(events: seq<Event>, b: Birth, g: Greeting) {
    b.at <= g.at < |events| && events[g.at] == Said(b.session, R.Play(g.cseq, g.id))
  }

  // Every RTP packet comes after the PLAY 200 for which its streamer was made, and no two
  // streamers were made for the same one.
  predicate RtpAfterPlay(events: seq<Event>, made: seq<Birth>, greeted: map<nat, Greeting>) {
    && (forall v :: v in greeted ==> v < |made| && IsGreeting(events, made[v], greeted[v]))
    && (forall v, w :: v in greeted && w in greeted && v != w ==> greeted[v].at != greeted[w].at)
    && forall i :: 0 <= i < |events| && events[i].Rtp? ==>
        events[i].streamer in greeted && greeted[events[i].streamer].at < i
  }

  // More events change nothing about this, if their packets are of streamers that were greeted.
  lemma EventsGrow(before: seq<Event>, more: seq<Event>, made: seq<Birth>, greeted: map<nat, Greeting>)
    requires RtpAfterPlay(before, made, greeted)
    requires forall i :: 0 <= i < |more| && more[i].Rtp? ==> more[i].streamer in greeted
    ensures RtpAfterPlay(before + more, made, greeted)
  {
    hide R.Play;
    var events := before + more;
    forall v | v in greeted ensures v < |made| && IsGreeting(events, made[v], greeted[v]) {
      assert IsGreeting(before, made[v], greeted[v]);
    }
    forall i | 0 <= i < |events| && events[i].Rtp?
      ensures events[i].streamer in greeted && greeted[events[i].streamer].at < i
    {
      if i >= |before| {
        assert events[i] == more[i - |before|];
        assert IsGreeting(before, made[events[i].streamer], greeted[events[i].streamer]);
      }
    }
  }

  lemma MadeGrows(events: seq<Event>, made: seq<Birth>, b: Birth, greeted: map<nat, Greeting>)
    requires RtpAfterPlay(events, made, greeted)
    ensures RtpAfterPlay(events, made + [b], greeted)
  {
    hide R.Play;
    forall v | v in greeted ensures v < |made + [b]| && IsGreeting(events, (made + [b])[v], greeted[v]) {
      assert IsGreeting(events, made[v], greeted[v]);
    }
  }

  lemma GreetedGrows(events: seq<Event>, made: seq<Birth>, greeted: map<nat, Greeting>, v: nat, g: Greeting)
    requires RtpAfterPlay(events, made, greeted) && v !in greeted && v < |made| && IsGreeting(events, made[v], g)
    requires forall w :: w in greeted ==> greeted[w].at != g.at
    ensures RtpAfterPlay(events, made, greeted[v := g])
  {
    hide R.Play;
  }

  // What the sessions said, without the packets in between.
  function SpokenOf(events: seq<Event>): seq<Event> {
    if events == [] then []
    else
      var last := events[|events| - 1];
      SpokenOf(events[..|events| - 1]) + if last.Said? then [last] else []
  }

  lemma SpokenAppend(events: seq<Event>, e: Event)
    ensures SpokenOf(events + [e]) == SpokenOf(events) + if e.Said? then [e] else []
  {
    assert (events + [e])[..|events|] == events;
  }

  lemma {:induction false} PacketsSayNothing(events: seq<Event>, more: seq<Event>)
    requires forall i :: 0 <= i < |more| ==> more[i].Rtp?
    ensures SpokenOf(events + more) == SpokenOf(events)
  {
    if more == [] {
      assert events + more == events;
    } else {
      var n := |more| - 1;
      PacketsSayNothing(events, more[..n]);
      SpokenAppend(events + more[..n], more[n]);
      assert events + more == events + more[..n] + [more[n]];
    }
  }

  // The texts as sayings of a session.
  function Says(session: nat, texts: seq<string>): (r: seq<Event>)
    ensures |r| == |texts|
  {
    seq(|texts|, i requires 0 <= i < |texts| => Said(session, texts[i]))
  }

  // A session has sent more, and just that was said.
  ghost predicate Spoke(session: nat, before: seq<Event>, was: seq<string>, after: seq<Event>, now: seq<string>) {
    was <= now && after == before + Says(session, now[|was|..])
  }

  lemma SpokeNot(session: nat, spoken: seq<Event>, sent: seq<string>)
    ensures Spoke(session, spoken, sent, spoken, sent)
  {}

  lemma SpokeOnce(session: nat, spoken: seq<Event>, sent: seq<string>, text: string)
    ensures Spoke(session, spoken, sent, spoken + [Said(session, text)], sent + [text])
  {
    assert (sent + [text])[|sent|..] == [text];
    assert Says(session, [text]) == [Said(session, text)];
  }

  lemma SpokeTwice(session: nat, a: seq<Event>, x: seq<string>, b: seq<Event>, y: seq<string>,
                   c: seq<Event>, z: seq<string>)
    requires Spoke(session, a, x, b, y) && Spoke(session, b, y, c, z)
    ensures Spoke(session, a, x, c, z)
  {
    assert z[|x|..] == y[|x|..] + z[|y|..];
    assert Says(session, z[|x|..]) == Says(session, y[|x|..]) + Says(session, z[|y|..]);
  }

  // A run of the hub and its pumps, interleaved as they may be, in which the calls of the control
  // thread are those that were made so far, and after which the list is this one.
  datatype HubRun = HubRun(run: seq<HubProtocol.Hub>, steps: seq<HubProtocol.Step>)

  ghost predicate InStep(h: HubRun, subscribers: seq<nat>, streamers: nat) {
    && HubProtocol.IsRun(h.run, h.steps) && h.run != [] && HubCalls.Quiet(HubCalls.Last(h.run))
    && HubCalls.Last(h.run).media.subscribers == subscribers
    && HubCalls.Last(h.run).media.streamers <= streamers
  }

  // What the hub has done is not undone.
  ghost predicate HubKept(h: HubRun, h': HubRun) {
    h.run <= h'.run && h.steps <= h'.steps
  }

  lemma HubKeptTwice(a: HubRun, b: HubRun, c: HubRun)
    ensures HubKept(a, a) && (HubKept(a, b) && HubKept(b, c) ==> HubKept(a, c))
  {}

  lemma GoingOnKeeps(h: HubRun, call: Option<HubProtocol.Step>, h': HubRun)
    requires HubGoesOn(h, call, h')
    ensures HubKept(h, h')
  {}

  ghost predicate HubGoesOn(h: HubRun, call: Option<HubProtocol.Step>, h': HubRun) {
    HubCalls.GoesOn(h.run, h.steps, call, h'.run, h'.steps)
  }

  // The list, whatever pumps do while no call is made,
  lemma PumpsKeepStep(h: HubRun, h': HubRun, subscribers: seq<nat>, streamers: nat)
    requires InStep(h, subscribers, streamers) && HubGoesOn(h, None, h')
    requires h'.run != [] && HubCalls.Quiet(HubCalls.Last(h'.run))
    ensures InStep(h', subscribers, streamers)
    ensures HubCalls.Last(h'.run).media.streamers == HubCalls.Last(h.run).media.streamers
  {
    HubCalls.PumpKeepsList(h.run, h.steps, h'.run, h'.steps, |h'.run| - 1);
  }

  // and that there is always a way to go on.
  lemma HubStays(h: HubRun, subscribers: seq<nat>, streamers: nat)
    requires InStep(h, subscribers, streamers)
    ensures HubGoesOn(h, None, h)
  {}

  lemma HubSubscribes(h: HubRun, subscribers: seq<nat>, v: nat, answer: bool) returns (h': HubRun)
    requires InStep(h, subscribers, v)
    ensures HubGoesOn(h, Some(HubProtocol.Subscribe(v)), h')
    ensures InStep(h', subscribers + if answer then [v] else [], v + 1)
    ensures Added(h', v) <==> answer
  {
    hide HubCalls.GoesOn, HubProtocol.IsRun;
    var run, steps := HubCalls.SubscribeRuns(h.run, h.steps, v, answer);
    h' := HubRun(run, steps);
    IsRunAfter(h, Some(HubProtocol.Subscribe(v)), h');
  }

  lemma HubUnsubscribes(h: HubRun, subscribers: seq<nat>, streamers: nat, v: nat) returns (h': HubRun)
    requires InStep(h, subscribers, streamers)
    ensures HubGoesOn(h, Some(HubProtocol.Unsubscribe(v)), h')
    ensures InStep(h', HubProtocol.Remove(subscribers, v), streamers)
  {
    hide HubCalls.GoesOn, HubProtocol.IsRun, HubProtocol.Remove;
    var run, steps := HubCalls.UnsubscribeRuns(h.run, h.steps, v);
    h' := HubRun(run, steps);
    IsRunAfter(h, Some(HubProtocol.Unsubscribe(v)), h');
  }

  // The hub was asked for its parameter sets.
  lemma HubDescribes(h: HubRun, subscribers: seq<nat>, streamers: nat) returns (h': HubRun)
    requires InStep(h, subscribers, streamers)
    ensures HubGoesOn(h, Some(HubProtocol.Describe), h') && InStep(h', subscribers, streamers)
    ensures HubCalls.Last(h'.run).media.streamers == HubCalls.Last(h.run).media.streamers
  {
    hide HubCalls.GoesOn, HubProtocol.IsRun;
    var run, steps := HubCalls.DescribeRuns(h.run, h.steps);
    h' := HubRun(run, steps);
    IsRunAfter(h, Some(HubProtocol.Describe), h');
  }

  // The streamer was added to the list once.
  ghost predicate Added(h: HubRun, v: nat) {
    h.run != [] && v in HubCalls.Last(h.run).media.from
  }

  // And it was if and only if subscribe found running_ set, or the source started.
  lemma AddedIff(h: HubRun, subscribers: seq<nat>, streamers: nat, v: nat)
    requires InStep(h, subscribers, streamers)
    ensures |h.steps| < |h.run|
    ensures Added(h, v) <==> HubProtocol.Granted(h.run, h.steps, |h.steps|, v)
  {
    HubProtocol.RunLength(h.run, h.steps);
    HubProtocol.AddedIff(h.run, h.steps, |h.steps|, v);
  }

  ghost predicate HubGranted(h: HubRun, v: nat) {
    |h.steps| < |h.run| && HubProtocol.Granted(h.run, h.steps, |h.steps|, v)
  }

  // Whoever was ever handed anything has been greeted.
  ghost predicate HandedAreGreeted(h: HubRun, greeted: map<nat, Greeting>) {
    h.run != [] && forall v :: v in HubCalls.Last(h.run).media.handed ==> v in greeted
  }

  lemma HandedStayGreeted(h: HubRun, call: Option<HubProtocol.Step>, h': HubRun, subscribers: seq<nat>,
                          streamers: nat, greeted: map<nat, Greeting>)
    requires InStep(h, subscribers, streamers) && HubGoesOn(h, call, h') && HandedAreGreeted(h, greeted)
    requires forall v :: HubCalls.Subscribes(call, v) ==> v in greeted
    ensures h.run != [] && h'.run != [] && HandedAreGreeted(h', greeted)
  {
    HubCalls.Parts(h.run, h.steps, call, h'.run, h'.steps);
    hide HubProtocol.IsRun, HubCalls.GoesOn;
    HubCalls.CallKnows(h.run, h.steps, call, h'.run, h'.steps, |h'.run| - 1);
  }

  // Packets of those who were handed something on the way from one state of the hub to another.
  ghost predicate PacketsOf(h: HubRun, h': HubRun, more: seq<Event>) {
    && h.run != [] && h'.run != []
    && forall i :: 0 <= i < |more| ==>
        more[i].Rtp? && HubCalls.Grown(HubCalls.Last(h.run), HubCalls.Last(h'.run), more[i].streamer)
  }

  // No packets at all are packets of nobody; and whose packets there are was greeted.
  lemma NoPackets(h: HubRun, h': HubRun)
    requires h.run != [] && h'.run != []
    ensures PacketsOf(h, h', [])
  {}

  lemma PacketsAreOfGreeted(h: HubRun, h': HubRun, more: seq<Event>, greeted: map<nat, Greeting>)
    requires PacketsOf(h, h', more) && HandedAreGreeted(h', greeted)
    ensures forall i :: 0 <= i < |more| && more[i].Rtp? ==> more[i].streamer in greeted
  {}

  lemma PacketsAreNoWords(h: HubRun, h': HubRun, more: seq<Event>)
    requires PacketsOf(h, h', more)
    ensures forall i :: 0 <= i < |more| ==> more[i].Rtp?
  {}

  lemma IsRunAfter(h: HubRun, call: Option<HubProtocol.Step>, h': HubRun)
    requires HubGoesOn(h, call, h')
    ensures HubProtocol.IsRun(h'.run, h'.steps)
  {}

  lemma HubStarts()
    ensures InStep(HubRun([HubProtocol.INITIAL], []), [], 0)
    ensures HandedAreGreeted(HubRun([HubProtocol.INITIAL], []), map[])
  {}

  // With nobody subscribed, no pump is live and no source is started.
  predicate NothingRuns(h: HubProtocol.Hub) {
    !h.running && !h.started && HubCalls.AllEnded(h)
  }

  lemma NobodyNothing(h: HubRun, streamers: nat)
    requires InStep(h, [], streamers)
    ensures NothingRuns(HubCalls.Last(h.run))
  {
    HubProtocol.NobodyWatchesNothingRuns(h.run, h.steps, |h.run| - 1);
  }

  // What a session may see of the world.
  datatype View = View(
    subscribers: seq<nat>, streamers: nat, hub: HubRun,
    events: seq<Event>, made: seq<Birth>, greeted: map<nat, Greeting>)

  // What control thread and pump share. Methods that take the lock first let the pump send.
  class World {
    var subscribers: seq<nat>
    var streamers: nat        // how many were ever made
    ghost var hub: HubRun
    ghost var sessions: nat   // how many were ever made
    ghost var events: seq<Event>
    ghost var spoken: seq<Event>  // those of them that are responses
    ghost var made: seq<Birth>
    ghost var greeted: map<nat, Greeting>

    ghost predicate Valid()
      reads this
    {
      && HubProtocol.NoDuplicates(subscribers)
      && (forall v :: v in subscribers ==> v < streamers && v in greeted)
      && |made| == streamers && (forall v :: v in greeted ==> v < streamers)
      && RtpAfterPlay(events, made, greeted) && InStep(hub, subscribers, streamers)
      && HandedAreGreeted(hub, greeted) && spoken == SpokenOf(events)
    }

    ghost function Seen(): View
      reads this
    {
      View(subscribers, streamers, hub, events, made, greeted)
    }

    // The hub has seen no streamer of this number or above.
    ghost predicate IsNew(v: nat)
      reads this
    {
      hub.run != [] && HubCalls.Last(hub.run).media.streamers <= v
    }

    constructor ()
      ensures Valid() && subscribers == [] && events == [] && spoken == [] && sessions == 0
    {
      HubStarts();
      subscribers, streamers := [], 0;
      hub := HubRun([HubProtocol.INITIAL], []);
      sessions, events, spoken, made, greeted := 0, [], [], [], map[];
    }

    ghost method CountSession() returns (number: nat)
      requires Valid()
      modifies this`sessions
      ensures Valid() && number == old(sessions) && sessions == number + 1
    {
      number := sessions;
      sessions := sessions + 1;
    }

    // The hub goes on, and those who are handed something meanwhile send any number of packets.
    ghost method Advance(call: Option<HubProtocol.Step>, later: HubRun)
      requires RtpAfterPlay(events, made, greeted) && InStep(hub, subscribers, streamers)
      requires HandedAreGreeted(hub, greeted) && HubGoesOn(hub, call, later)
      requires forall v :: HubCalls.Subscribes(call, v) ==> v in greeted
      modifies this`events, this`hub
      ensures hub == later && HubKept(old(hub), hub) && HandedAreGreeted(hub, greeted)
      ensures RtpAfterPlay(events, made, greeted) && old(events) <= events
      ensures PacketsOf(old(hub), hub, events[|old(events)|..]) && SpokenOf(events) == old(SpokenOf(events))
    {
      hide RtpAfterPlay, InStep, HubGoesOn, HubKept, HandedAreGreeted, PacketsOf, SpokenOf;
      HandedStayGreeted(hub, call, later, subscribers, streamers, greeted);
      GoingOnKeeps(hub, call, later);
      NoPackets(hub, later);
      var more :| PacketsOf(hub, later, more);
      PacketsAreOfGreeted(hub, later, more, greeted);
      EventsGrow(events, more, made, greeted);
      PacketsAreNoWords(hub, later, more);
      PacketsSayNothing(events, more);
      assert (events + more)[|events|..] == more;
      hub := later;
      events := events + more;
    }

    // The pumps go on for a while.
    ghost method PumpSends()
      requires Valid()
      modifies this`events, this`hub
      ensures Valid() && old(events) <= events && HubGoesOn(old(hub), None, hub) && HubKept(old(hub), hub)
      ensures PacketsOf(old(hub), hub, events[|old(events)|..])
      ensures forall v :: IsNew(v) == old(IsNew(v))
    {
      hide RtpAfterPlay, HubProtocol.NoDuplicates, InStep, HubGoesOn, HubKept, HandedAreGreeted, SpokenOf, PacketsOf;
      HubStays(hub, subscribers, streamers);
      IsQuiet(hub, subscribers, streamers);
      var later :| HubGoesOn(hub, None, later) && later.run != [] && HubCalls.Quiet(HubCalls.Last(later.run));
      PumpsKeepStep(hub, later, subscribers, streamers);
      Advance(None, later);
    }

    ghost method Record(e: Event)
      requires Valid() && e.Said?
      modifies this`events, this`spoken
      ensures Valid() && events == old(events) + [e] && spoken == old(spoken) + [e]
    {
      hide RtpAfterPlay, HubProtocol.NoDuplicates, InStep, HandedAreGreeted, SpokenOf;
      EventsGrow(events, [e], made, greeted);
      SpokenAppend(events, e);
      events, spoken := events + [e], spoken + [e];
    }

    ghost method Say(session: nat, text: string)
      requires Valid()
      modifies this`events, this`spoken, this`hub
      ensures Valid() && old(events) <= events && |events| > |old(events)|
      ensures events[|events| - 1] == Said(session, text) && spoken == old(spoken) + [Said(session, text)]
      ensures HubGoesOn(old(hub), None, hub) && HubKept(old(hub), hub)
      ensures forall v :: IsNew(v) == old(IsNew(v))
    {
      hide RtpAfterPlay, HubProtocol.NoDuplicates, InStep, HubGoesOn, HubKept, HandedAreGreeted, SpokenOf;
      PumpSends();
      Record(Said(session, text));
    }

    method MakeStreamer(ghost session: nat) returns (v: nat)
      requires Valid()
      modifies this`streamers, this`made
      ensures Valid() && v == old(streamers) && streamers == v + 1
      ensures made == old(made) + [Birth(session, |events|)] && IsNew(v)
    {
      hide RtpAfterPlay, HubProtocol.NoDuplicates;
      MadeGrows(events, made, Birth(session, |events|), greeted);
      v := streamers;
      streamers := streamers + 1;
      made := made + [Birth(session, |events|)];
    }

    // A streamer's PLAY was answered, by its own session, after it was made, and by a 200 for
    // which no other was made. Only then may it be subscribed.
    ghost method Greet(v: nat, g: Greeting)
      requires Valid() && v < streamers && v !in greeted && IsGreeting(events, made[v], g)
      requires forall w :: w in greeted ==> greeted[w].at != g.at
      modifies this`greeted
      ensures Valid() && greeted == old(greeted)[v := g]
    {
      hide RtpAfterPlay, HubProtocol.NoDuplicates;
      GreetedGrows(events, made, greeted, v, g);
      greeted := greeted[v := g];
    }

    // The call of the hub, with one of the interleavings that give this answer: it is true if and
    // only if running_ was set when subscribe read it, or the source started.
    method Subscribe(v: nat, available: bool) returns (ok: bool)
      requires Valid() && v in greeted && v !in subscribers && IsNew(v) && v < streamers
      modifies this`subscribers, this`events, this`hub
      ensures Valid() && ok == available && old(events) <= events
      ensures subscribers == old(subscribers) + if ok then [v] else []
      ensures HubGoesOn(old(hub), Some(HubProtocol.Subscribe(v)), hub) && HubKept(old(hub), hub)
      ensures ok <==> HubGranted(hub, v)
    {
      hide RtpAfterPlay, HubGoesOn, HubKept, InStep, HandedAreGreeted, SpokenOf, PacketsOf, Added;
      ghost var before, call := hub, Some(HubProtocol.Subscribe(v));
      PumpSends();
      ghost var middle := hub;
      StepOf(hub, subscribers, streamers, v);
      ghost var one := HubSubscribes(hub, subscribers, v, available);
      ghost var later :| HubGoesOn(hub, call, later) && (Added(later, v) <==> available)
        && InStep(later, subscribers + (if available then [v] else []), v + 1);
      Advance(call, later);
      PumpThenCall(before, middle, call, later);
      GoingOnKeeps(before, call, later);
      if available {
        subscribers := subscribers + [v];
      }
      assert !available ==> subscribers + [] == subscribers;
      AddedIff(later, subscribers, v + 1, v);
      StepIsEnough(later, subscribers, v + 1, streamers);
      return available;
    }

    method Unsubscribe(v: nat)
      requires Valid()
      modifies this`subscribers, this`events, this`hub
      ensures Valid() && old(events) <= events && subscribers == HubProtocol.Remove(old(subscribers), v)
      ensures HubGoesOn(old(hub), Some(HubProtocol.Unsubscribe(v)), hub) && HubKept(old(hub), hub)
    {
      hide RtpAfterPlay, HubGoesOn, HubKept, InStep, HandedAreGreeted, SpokenOf, PacketsOf;
      ghost var before, call := hub, Some(HubProtocol.Unsubscribe(v));
      PumpSends();
      ghost var middle := hub;
      ghost var one := HubUnsubscribes(hub, subscribers, streamers, v);
      ghost var later :| HubGoesOn(hub, call, later)
        && InStep(later, HubProtocol.Remove(subscribers, v), streamers);
      Advance(call, later);
      PumpThenCall(before, middle, call, later);
      GoingOnKeeps(before, call, later);
      HubProtocol.RemoveIsFilter(subscribers, v);
      subscribers := HubProtocol.Remove(subscribers, v);
    }

    // sprop_parameter_sets: what the hub has cached is read under its lock.
    method AskSprop(sets: ParameterSets.Cached) returns (text: string)
      requires Valid()
      modifies this`events, this`hub
      ensures Valid() && old(events) <= events && text == Sdp.SpropText(sets.sps, sets.pps)
      ensures HubGoesOn(old(hub), Some(HubProtocol.Describe), hub) && HubKept(old(hub), hub)
    {
      hide RtpAfterPlay, HubGoesOn, HubKept, InStep, HandedAreGreeted, SpokenOf, PacketsOf;
      ghost var before, call := hub, Some(HubProtocol.Describe);
      PumpSends();
      ghost var middle := hub;
      ghost var one := HubDescribes(hub, subscribers, streamers);
      ghost var later :| HubGoesOn(hub, call, later) && InStep(later, subscribers, streamers);
      Advance(call, later);
      PumpThenCall(before, middle, call, later);
      GoingOnKeeps(before, call, later);
      text := ParameterSets.SpropOf(sets);
    }
  }

  lemma IsQuiet(h: HubRun, subscribers: seq<nat>, streamers: nat)
    requires InStep(h, subscribers, streamers)
    ensures h.run != [] && HubCalls.Quiet(HubCalls.Last(h.run))
  {}

  lemma StepOf(h: HubRun, subscribers: seq<nat>, streamers: nat, v: nat)
    requires InStep(h, subscribers, streamers) && HubCalls.Last(h.run).media.streamers <= v
    ensures InStep(h, subscribers, v)
  {}

  lemma StepIsEnough(h: HubRun, subscribers: seq<nat>, n: nat, streamers: nat)
    requires InStep(h, subscribers, n) && n <= streamers
    ensures InStep(h, subscribers, streamers)
  {}

  lemma PumpThenCall(a: HubRun, b: HubRun, call: Option<HubProtocol.Step>, c: HubRun)
    requires HubGoesOn(a, None, b) && HubGoesOn(b, call, c) && call.Some?
    ensures HubGoesOn(a, call, c)
  {
    HubCalls.GoesOnTwice(a.run, a.steps, None, b.run, b.steps, call, c.run, c.steps);
  }

  // What a session did to the world: exactly its own streamer left or joined, and one that
  // joined was made meanwhile; and nothing of the history was changed.
  ghost predicate Moved(before: View, mine: Option<nat>, after: View, now: Option<nat>) {
    && before.streamers <= after.streamers && Kept(before, after)
    && (forall w :: w in after.subscribers <==> now == Some(w) || (w in before.subscribers && mine != Some(w)))
    && (now.Some? && now != mine ==>
          && before.streamers <= now.value < |after.made|
          && after.made[now.value].at >= |before.events|)
  }

  ghost predicate Kept(before: View, after: View) {
    && before.events <= after.events && before.made <= after.made
    && HubKept(before.hub, after.hub)
    && forall v :: v in before.greeted ==> v in after.greeted && after.greeted[v] == before.greeted[v]
  }

  lemma MovedTwice(a: View, x: Option<nat>, b: View, y: Option<nat>, c: View, z: Option<nat>)
    requires Moved(a, x, b, y) && Moved(b, y, c, z)
    requires forall w :: w in a.subscribers ==> w < a.streamers
    requires x.Some? ==> x.value < a.streamers
    ensures Moved(a, x, c, z)
  {}

  lemma MovedNot(v: View, mine: Option<nat>)
    requires mine.Some? ==> mine.value in v.subscribers
    ensures Moved(v, mine, v, mine)
  {}

  // PLAY makes a streamer, which may then be greeted and may be subscribed.
  lemma PlayMoves(a: View, b: View, v: nat, subscribed: bool)
    requires (forall w :: w in a.subscribers ==> w < v) && v == a.streamers == |a.made| && b.streamers == v + 1
    requires b.subscribers == a.subscribers + if subscribed then [v] else []
    requires a.events <= b.events && a.made <= b.made && |b.made| == v + 1 && b.made[v].at >= |a.events|
    requires HubKept(a.hub, b.hub)
    requires v !in a.greeted
    requires b.greeted == a.greeted || (v in b.greeted && b.greeted == a.greeted[v := b.greeted[v]])
    ensures Moved(a, None, b, if subscribed then Some(v) else None)
  {}

  lemma GreetedBefore(world: World)
    requires world.Valid()
    ensures forall w :: w in world.greeted ==> world.greeted[w].at < |world.events|
    ensures world.streamers !in world.greeted
  {
    hide R.Play;
  }

  lemma OwnPacketsLater(world: World)
    requires world.Valid()
    ensures forall i :: 0 <= i < |world.events| && world.events[i].Rtp? ==>
              && world.events[i].streamer in world.greeted
              && world.greeted[world.events[i].streamer].at < i
    ensures forall v :: v in world.greeted ==> IsGreeting(world.events, world.made[v], world.greeted[v])
  {
    hide R.Play;
  }

  const MAX_RX_BUFFER := 64 * 1024

  // A session from outside: what it is, has buffered, has served and has sent, and whether it
  // still listens.
  datatype Conn = Conn(core: P.Core, buffer: string, served: nat, sent: seq<string>, verdict: P.Verdict)

  // Serving what the buffer holds,
  function Drain(x: Conn, oracle: P.Oracle, hub: bool): Conn {
    var cut := CutAll(x.buffer);
    var s := P.Serve(x.core, cut.requests, x.served, oracle, hub);
    Conn(s.core, Flatten(cut.requests[s.count..]) + cut.rest, x.served + s.count, x.sent + s.responses, s.verdict)
  }

  // and what feeding makes of a session.
  function FeedSpec(x: Conn, data: string, oracle: P.Oracle, hub: bool): Conn {
    if |x.buffer + data| > MAX_RX_BUFFER then x.(buffer := x.buffer + data, verdict := P.Overflow)
    else Drain(x.(buffer := x.buffer + data), oracle, hub)
  }

  lemma FeedParts(x: Conn, data: string, oracle: P.Oracle, hub: bool)
    ensures var y := FeedSpec(x, data, oracle, hub);
            var cut := CutAll(x.buffer + data);
            var s := P.Serve(x.core, cut.requests, x.served, oracle, hub);
            && x.sent <= y.sent
            && if y.verdict.Overflow? && |x.buffer + data| > MAX_RX_BUFFER
               then y.core == x.core && y.sent[|x.sent|..] == [] && y.served == x.served
               else && y.core == s.core && y.verdict == s.verdict && y.sent[|x.sent|..] == s.responses
                    && y.served == x.served + s.count && y.buffer == Flatten(cut.requests[s.count..]) + cut.rest
  {
    hide CutAll, P.Serve, Flatten;
  }

  // Feeding ends with verdict Closing if and only if the session is CLOSED then, which it is
  // exactly if the last request taken off the buffer is a TEARDOWN answered with 200. What is
  // behind it stays in the buffer, and is not answered.
  lemma FeedClosesIff(x: Conn, data: string, oracle: P.Oracle, hub: bool)
    requires P.CoreInv(x.core) && !x.core.state.Closed?
    ensures var y := FeedSpec(x, data, oracle, hub);
            var requests := CutAll(x.buffer + data).requests;
            && (y.verdict.Closing? <==> y.core.state.Closed?)
            && x.sent <= y.sent && x.served <= y.served <= x.served + |requests|
            && var (taken, answers) := (y.served - x.served, y.sent[|x.sent|..]);
            && (y.verdict.Closing? <==>
                  0 < taken == |answers| && Closings.Ends(requests[taken - 1], answers[taken - 1]))
            && (forall i :: 0 <= i < |answers| && i + 1 < taken ==> !Closings.Ends(requests[i], answers[i]))
            && (!y.verdict.Overflow? ==>
                  y.buffer == Flatten(requests[taken..]) + CutAll(x.buffer + data).rest)
  {
    hide CutAll, P.Serve, Closings.Ends, P.CoreInv, FeedSpec, Flatten, Parse;
    FeedParts(x, data, oracle, hub);
    Closings.ClosingIff(x.core, CutAll(x.buffer + data).requests, x.served, oracle, hub);
  }

  lemma NothingToDrain(x: Conn, oracle: P.Oracle, hub: bool)
    requires Search(x.buffer, END, 0).None?
    ensures Drain(x, oracle, hub) == x.(verdict := P.Open)
  {
    hide Search, P.HandleRaw;
    CutUnfold(x.buffer);
    assert Flatten<char>([]) + x.buffer == x.buffer;
    assert x.sent + [] == x.sent;
  }

  // The session after its first request.
  function AfterFirst(x: Conn, n: nat, oracle: P.Oracle, hub: bool): Conn
    requires n <= |x.buffer|
  {
    var t := P.HandleRaw(x.core, x.buffer[..n], oracle(x.served), hub);
    Conn(t.core, x.buffer[n..], x.served + 1, x.sent + t.responses, t.verdict)
  }

  lemma AfterFirstIs(x: Conn, n: nat, oracle: P.Oracle, hub: bool, y: Conn)
    requires n <= |x.buffer|
    requires var t := P.HandleRaw(x.core, x.buffer[..n], oracle(x.served), hub);
             && y.core == t.core && y.buffer == x.buffer[n..] && y.served == x.served + 1
             && y.sent == x.sent + t.responses && y.verdict == t.verdict
    ensures y == AfterFirst(x, n, oracle, hub)
  {}

  lemma DrainFirst(x: Conn, end: nat, oracle: P.Oracle, hub: bool)
    requires Search(x.buffer, END, 0) == Some(end) && end + |END| <= |x.buffer|
    ensures var y := AfterFirst(x, end + |END|, oracle, hub);
            Drain(x, oracle, hub) == if y.verdict.Open? then Drain(y, oracle, hub) else y
  {
    var n := end + |END|;
    CutUnfold(x.buffer);
    hide Search, P.HandleRaw, CutAll, P.Serve;
    var cut, more := CutAll(x.buffer), CutAll(x.buffer[n..]);
    assert cut.requests == [x.buffer[..n]] + more.requests;
    assert cut.requests[1..] == more.requests;
    P.ServeUnfold(x.core, cut.requests, x.served, oracle, hub);
    var y := AfterFirst(x, n, oracle, hub);
    var s := P.Serve(y.core, more.requests, x.served + 1, oracle, hub);
    CutIsPartition(x.buffer[n..]);
    assert cut.requests[1 + s.count..] == more.requests[s.count..];
    var t := P.HandleRaw(x.core, x.buffer[..n], oracle(x.served), hub);
    assert x.sent + (t.responses + s.responses) == (x.sent + t.responses) + s.responses;
  }

  class Session {
    ghost const number: nat
    const hub: bool  // whether there is one
    const world: World
    const oracle: P.Oracle
    var rxBuffer: string
    var state: P.State
    var sessionId: string
    var clientRtpPort: int
    var clientRtcpPort: int
    var streamer: Option<nat>
    var destination: uint16  // where the streamer is connected to
    var served: nat
    var sent: seq<string>

    function Core(): P.Core
      reads this
    {
      P.Core(state, sessionId, R.Ports(clientRtpPort, clientRtcpPort),
             if streamer.Some? then Some(destination) else None)
    }

    // The streamer that is held is the hub's subscriber; it was made by this session, for a PLAY
    // that this session answered under the id it has.
    ghost predicate Linked()
      reads this, world
    {
      && world.Valid() && number < world.sessions
      && (streamer.Some? ==> hub && streamer.value in world.subscribers && IsMine(streamer.value))
    }

    ghost predicate IsMine(v: nat)
      reads this, world
    {
      && v < |world.made| && world.made[v].session == number
      && v in world.greeted && world.greeted[v].id == sessionId
    }

    ghost predicate Valid()
      reads this, world
    {
      Linked() && P.CoreInv(Core())
    }

    // The PLAY for which the streamer that is held was made was answered with 200 by this session,
    // under the id it has; and no RTP packet of the streamer was sent before.
    ghost predicate PlayedFirst()
      reads this, world
    {
      streamer.Some? && IsMine(streamer.value) &&
      var v := streamer.value;
      var g := world.greeted[v];
      && world.made[v].at <= g.at < |world.events|
      && world.events[g.at] == Said(number, R.Play(g.cseq, sessionId))
      && forall i :: 0 <= i < |world.events| && world.events[i] == Rtp(v) ==> g.at < i
    }

    lemma StreamerPlayedFirst()
      requires Linked() && streamer.Some?
      ensures PlayedFirst()
    {
      hide R.Play;
      OwnPacketsLater(world);
    }

    // And the one it has gained since then was greeted since then.
    lemma GainedPlayedFirst(before: View, mine: Option<nat>)
      requires Linked() && Moved(before, mine, world.Seen(), streamer)
      ensures streamer.Some? ==> PlayedFirst()
      ensures streamer.Some? && streamer != mine ==> world.greeted[streamer.value].at >= |before.events|
    {
      hide RtpAfterPlay, PlayedFirst, HubProtocol.NoDuplicates, InStep, HubGoesOn, HubKept, HandedAreGreeted, SpokenOf;
      if streamer.Some? {
        StreamerPlayedFirst();
        GreetedAfterMade(streamer.value);
      }
    }

    lemma GreetedAfterMade(v: nat)
      requires Linked() && IsMine(v)
      ensures world.greeted[v].at >= world.made[v].at
    {
      hide R.Play;
      OwnPacketsLater(world);
    }

    constructor (hub: bool, world: World, oracle: P.Oracle)
      requires world.Valid()
      modifies world`sessions
      ensures Valid() && Core() == P.START && rxBuffer == "" && served == 0 && sent == []
      ensures this.hub == hub && this.world == world && this.oracle == oracle
      ensures streamer == None && number == old(world.sessions) && world.sessions == number + 1
    {
      this.hub, this.world, this.oracle := hub, world, oracle;
      number := world.sessions;
      rxBuffer, state, sessionId := "", P.Init, "";
      clientRtpPort, clientRtcpPort := 0, 0;
      streamer, destination := None, 0;
      served, sent := 0, [];
      new;
      hide RtpAfterPlay, HubProtocol.NoDuplicates, InStep, HubGoesOn, HubKept, HandedAreGreeted, SpokenOf;
      var _ := world.CountSession();
    }

    method Send(text: string)
      requires Linked()
      modifies this`sent, world`events, world`spoken, world`hub
      ensures Linked() && sent == old(sent) + [text] && old(world.events) <= world.events
      ensures Spoke(number, old(world.spoken), old(sent), world.spoken, sent)
      ensures |world.events| > |old(world.events)| && world.events[|world.events| - 1] == Said(number, text)
      ensures Moved(old(world.Seen()), streamer, world.Seen(), streamer)
      ensures forall v :: world.IsNew(v) == old(world.IsNew(v))
    {
      hide RtpAfterPlay, HubProtocol.NoDuplicates, InStep, HubGoesOn, HubKept, HandedAreGreeted, SpokenOf;
      SpokeOnce(number, world.spoken, sent, text);
      world.Say(number, text);
      sent := sent + [text];
    }

    method StopStreaming()
      requires Linked()
      modifies this`streamer, world`subscribers, world`events, world`hub
      ensures Linked() && streamer == None && Moved(old(world.Seen()), old(streamer), world.Seen(), None)
    {
      hide RtpAfterPlay, HubProtocol.NoDuplicates, InStep, HubGoesOn, HubKept, HandedAreGreeted, SpokenOf;
      MovedNot(world.Seen(), streamer);
      if streamer.Some? {
        if hub {
          world.Unsubscribe(streamer.value);
        }
        streamer := None;
      }
    }

    method OnDisconnect()
      requires Valid()
      modifies this`streamer, this`state, world`subscribers, world`events, world`hub
      ensures Valid() && streamer == None && Moved(old(world.Seen()), old(streamer), world.Seen(), None)
      ensures Core() == old(Core()).(state := P.Closed, streaming := None)
    {
      hide RtpAfterPlay, HubProtocol.NoDuplicates, InStep, HubGoesOn, HubKept, HandedAreGreeted, SpokenOf;
      StopStreaming();
      state := P.Closed;
    }

    // Writes the ports as it reads them, and only then tests their range.
    method ParseTransport(transport: string) returns (ok: bool)
      modifies this`clientRtpPort, this`clientRtcpPort
      ensures (ok, R.Ports(clientRtpPort, clientRtcpPort))
              == R.ParseTransport(transport, old(R.Ports(clientRtpPort, clientRtcpPort)))
    {
      hide Search, Stoi, R.FindEither;
      var text := R.PortsText(transport);
      if text.None? {
        return false;
      }
      var ports := text.value;
      var dash := Search(ports, "-", 0);
      SearchIff(ports, "-", 0, dash);
      if dash.None? {
        var rtp := Stoi(ports);
        if rtp.None? {
          return false;
        }
        clientRtpPort := rtp.value;
        clientRtcpPort := clientRtpPort + 1;
      } else {
        var rtp := Stoi(ports[..dash.value]);
        if rtp.None? {
          return false;
        }
        clientRtpPort := rtp.value;
        var rtcp := Stoi(ports[dash.value + 1..]);
        if rtcp.None? {
          return false;
        }
        clientRtcpPort := rtcp.value;
      }
      return clientRtpPort > 0 && clientRtpPort <= 65535;
    }

    method HandleDescribe(req: Request, a: P.Answer) returns (response: string)
      requires Valid()
      modifies world`events, world`hub
      ensures Valid() && Moved(old(world.Seen()), streamer, world.Seen(), streamer)
      ensures response == P.HandleDescribe(req, if hub then a else a.(sets := ParameterSets.NOTHING))
    {
      hide HubProtocol.NoDuplicates, RtpAfterPlay, InStep, HubGoesOn, HubKept, HandedAreGreeted, SpokenOf, P.CoreInv,
           R.Describe, Sdp.Lines, Sdp.Joined;
      MovedNot(world.Seen(), streamer);
      var sprop := "";
      if hub {
        sprop := world.AskSprop(a.sets);
      }
      var sdp := Sdp.Build(Sdp.VideoStreamInfo(96, 90000, sprop));
      return R.Describe(req.cseq, sdp, req.uri + "/");
    }

    method HandleSetup(req: Request, a: P.Answer) returns (response: string)
      requires Valid() && (state.Init? || state.Ready?) && P.IsId(a.id)
      modifies this`clientRtpPort, this`clientRtcpPort, this`sessionId, this`state
      ensures Valid() && (Core(), response) == P.HandleSetup(old(Core()), req, a)
    {
      hide R.ParseTransport, R.Setup, R.Error, Lookup, HubProtocol.NoDuplicates, RtpAfterPlay, InStep,
           HubGoesOn, HubKept, HandedAreGreeted, SpokenOf;
      var transport := Lookup(req.headers, "Transport");
      if transport.None? {
        return R.Error(req.cseq, 400, "Bad Request - No Transport");
      }
      var ok := ParseTransport(transport.value);
      if !ok {
        return R.Error(req.cseq, 461, "Unsupported Transport");
      }
      if sessionId == "" {
        sessionId := a.id;
      }
      state := P.Ready;
      return R.Setup(req.cseq, sessionId, clientRtpPort, clientRtcpPort, 6970, 6971);
    }

    // The 200 is sent first; an empty result says that a response was sent. A streamer that is
    // held afterwards was made for this very 200, which precedes each of its packets.
    method HandlePlay(req: Request, a: P.Answer) returns (response: string)
      requires Valid() && state.Ready?
      modifies this`streamer, this`destination, this`state, this`sent
      modifies world`subscribers, world`streamers, world`events, world`spoken, world`hub, world`made, world`greeted
      ensures Valid() && Moved(old(world.Seen()), old(streamer), world.Seen(), streamer)
      ensures Spoke(number, old(world.spoken), old(sent), world.spoken, sent)
      ensures var (core, text) := P.HandlePlay(old(Core()), req, a, hub);
              && Core() == core
              && (response != "" ==> response == text && sent == old(sent))
              && (response == "" ==> sent == old(sent) + [text])
      ensures response == "" && hub ==> (state.Playing? <==> HubGranted(world.hub, old(world.streamers)))
      ensures streamer.Some? ==>
                && PlayedFirst() && world.greeted[streamer.value].cseq == req.cseq
                && world.greeted[streamer.value].at >= |old(world.events)|
    {
      hide Head, R.Play, R.Error, P.SessionMatches, HubProtocol.NoDuplicates, RtpAfterPlay, InStep, HubGoesOn,
           HubKept, HandedAreGreeted, SpokenOf, HubGranted, P.IsId, Moved, Spoke;
      MovedNot(world.Seen(), streamer);
      SpokeNot(number, world.spoken, sent);
      ghost var first := world.Seen();
      if !P.SessionMatches(Core(), req) {
        return R.Error(req.cseq, 454, "Session Not Found");
      }
      var made := world.MakeStreamer(number);
      HubKeptTwice(first.hub, first.hub, world.hub);
      PlayMoves(first, world.Seen(), made, false);
      if !a.connected {
        return R.Error(req.cseq, 500, "Internal Server Error");
      }
      AnswerPlay(made, req.cseq);
      ghost var answered := world.hub;
      var subscribed := false;
      if hub {
        subscribed := world.Subscribe(made, a.subscribed);
      }
      if subscribed {
        streamer, destination := Some(made), P.PortOf(Core());
        state := P.Playing;
      }
      HubKeptTwice(first.hub, answered, world.hub);
      HubKeptTwice(answered, answered, world.hub);
      PlayMoves(first, world.Seen(), made, subscribed);
      if subscribed {
        StreamerPlayedFirst();
      }
      return "";
    }

    // Sends the 200 for which a streamer was made.
    method AnswerPlay(made: nat, cseq: int)
      requires Linked() && streamer == None
      requires made + 1 == world.streamers && made !in world.greeted && world.made[made].session == number
      requires world.IsNew(made)
      requires world.made[made].at <= |world.events|
      modifies this`sent, world`events, world`spoken, world`hub, world`greeted
      ensures Spoke(number, old(world.spoken), old(sent), world.spoken, sent)
      ensures Linked() && sent == old(sent) + [R.Play(cseq, sessionId)]
      ensures old(world.events) <= world.events && made in world.greeted && world.IsNew(made)
      ensures HubKept(old(world.hub), world.hub)
      ensures var g := world.greeted[made];
              g.at >= |old(world.events)| && g.cseq == cseq && g.id == sessionId
      ensures world.greeted == old(world.greeted)[made := world.greeted[made]]
    {
      hide R.Play, HubProtocol.NoDuplicates, RtpAfterPlay, InStep, HubGoesOn, HubKept, HandedAreGreeted,
           SpokenOf, Spoke;
      GreetedBefore(world);
      Send(R.Play(cseq, sessionId));
      world.Greet(made, Greeting(|world.events| - 1, cseq, sessionId));
    }

    method HandlePause(req: Request) returns (response: string)
      requires Valid() && state.Playing?
      modifies this`streamer, this`state, world`subscribers, world`events, world`hub
      ensures Valid() && Moved(old(world.Seen()), old(streamer), world.Seen(), streamer)
      ensures (Core(), response) == P.HandlePause(old(Core()), req)
    {
      hide R.OkSession, R.Error, P.SessionMatches, HubProtocol.NoDuplicates, RtpAfterPlay, InStep, HubGoesOn,
           HubKept, HandedAreGreeted, SpokenOf, P.IsId;
      MovedNot(world.Seen(), streamer);
      if !P.SessionMatches(Core(), req) {
        return R.Error(req.cseq, 454, "Session Not Found");
      }
      StopStreaming();
      state := P.Ready;
      return R.OkSession(req.cseq, sessionId);
    }

    method HandleTeardown(req: Request) returns (response: string)
      requires Valid() && (state.Ready? || state.Playing?)
      modifies this`streamer, this`state, world`subscribers, world`events, world`hub
      ensures Valid() && Moved(old(world.Seen()), old(streamer), world.Seen(), streamer)
      ensures (Core(), response) == P.HandleTeardown(old(Core()), req)
    {
      hide R.Teardown, R.Error, P.SessionMatches, HubProtocol.NoDuplicates, RtpAfterPlay, InStep, HubGoesOn,
           HubKept, HandedAreGreeted, SpokenOf, P.IsId;
      MovedNot(world.Seen(), streamer);
      if !P.SessionMatches(Core(), req) {
        return R.Error(req.cseq, 454, "Session Not Found");
      }
      StopStreaming();
      state := P.Closed;
      return R.Teardown(req.cseq, sessionId);
    }

    // Everything that handling requests may change.
    method Handle(req: Request, a: P.Answer) returns (response: string)
      requires Valid() && P.IsId(a.id)
      modifies this`clientRtpPort, this`clientRtcpPort, this`sessionId, this`state
      modifies this`streamer, this`destination, this`sent
      modifies world`subscribers, world`streamers, world`events, world`spoken, world`hub, world`made, world`greeted
      ensures Valid() && Moved(old(world.Seen()), old(streamer), world.Seen(), streamer)
      ensures Spoke(number, old(world.spoken), old(sent), world.spoken, sent)
      ensures var (core, text) := P.Handle(old(Core()), req, a, hub);
              && Core() == core
              && (response != "" ==> response == text && sent == old(sent))
              && (response == "" ==> sent == old(sent) + [text])
      ensures response == "" && hub ==> (state.Playing? <==> HubGranted(world.hub, old(world.streamers)))
    {
      hide R.Teardown, R.OkSession, R.Ok, R.Options, R.Error, R.Play, P.SessionMatches, P.HandleDescribe;
      hide P.HandleSetup, P.HandlePlay, P.HandlePause, P.HandleTeardown, HubProtocol.NoDuplicates,
           RtpAfterPlay, InStep, HubGoesOn, HubKept, HandedAreGreeted, SpokenOf, HubGranted, P.IsId, Spoke;
      MovedNot(world.Seen(), streamer);
      SpokeNot(number, world.spoken, sent);
      P.HandleNotEmpty(Core(), req, a, hub);
      if req.command.Unknown? {
        return R.Error(req.cseq, 501, "Not Implemented");
      }
      if !P.MethodAllowed(state, req.command) {
        return R.Error(req.cseq, 455, "Method Not Valid in This State");
      }
      match req.command
      case Options => response := R.Options(req.cseq);
      case Describe => response := HandleDescribe(req, a);
      case Setup => response := HandleSetup(req, a);
      case Play => response := HandlePlay(req, a);
      case Pause => response := HandlePause(req);
      case Teardown => response := HandleTeardown(req);
      case GetParameter =>
        response := if sessionId == "" then R.Ok(req.cseq) else R.OkSession(req.cseq, sessionId);
    }

    // The session as others see it, still listening.
    function Listening(): Conn
      reads this
    {
      Conn(Core(), rxBuffer, served, sent, P.Open)
    }

    // Answers one request.
    method Answer(raw: string, a: P.Answer) returns (verdict: P.Verdict)
      requires Valid() && P.IsId(a.id)
      modifies this`clientRtpPort, this`clientRtcpPort, this`sessionId, this`state
      modifies this`streamer, this`destination, this`sent
      modifies world`subscribers, world`streamers, world`events, world`spoken, world`hub, world`made, world`greeted
      ensures Valid() && Moved(old(world.Seen()), old(streamer), world.Seen(), streamer)
      ensures Spoke(number, old(world.spoken), old(sent), world.spoken, sent)
      ensures var t := P.HandleRaw(old(Core()), raw, a, hub);
              Core() == t.core && sent == old(sent) + t.responses && verdict == t.verdict
    {
      hide Search, Parse, P.Handle, P.CoreInv, P.IsId, R.Error, HubProtocol.NoDuplicates, RtpAfterPlay, InStep,
           HubGoesOn, HubKept, HandedAreGreeted, SpokenOf, Moved, Spoke;
      MovedNot(world.Seen(), streamer);
      SpokeNot(number, world.spoken, sent);
      ghost var first, was, before := world.Seen(), sent, world.spoken;
      var outcome := ParseRequest(raw);
      match outcome
      case Malformed =>
        Send(R.Error(0, 400, "Bad Request"));
        verdict := P.Open;
      case Thrown =>
        verdict := P.Verdict.Thrown;
      case Parsed(req) =>
        var response := Handle(req, a);
        if response != "" {
          ghost var handled, handledSent, spoken := world.Seen(), sent, world.spoken;
          Send(response);
          MovedTwice(first, old(streamer), handled, streamer, world.Seen(), streamer);
          SpokeTwice(number, before, was, spoken, handledSent, world.spoken, sent);
        }
        verdict := if state.Closed? then P.Closing else P.Open;
    }

    // Takes one request off the buffer and answers it.
    method TakeRequest(end: nat) returns (verdict: P.Verdict)
      requires Valid() && Search(rxBuffer, END, 0) == Some(end) && end + |END| <= |rxBuffer|
      modifies this
      modifies world`subscribers, world`streamers, world`events, world`spoken, world`hub, world`made, world`greeted
      ensures Valid() && Moved(old(world.Seen()), old(streamer), world.Seen(), streamer)
      ensures Spoke(number, old(world.spoken), old(sent), world.spoken, sent)
      ensures rxBuffer == old(rxBuffer)[end + |END|..] && served == old(served) + 1
      ensures var t := P.HandleRaw(old(Core()), old(rxBuffer)[..end + |END|], oracle(old(served)), hub);
              Core() == t.core && sent == old(sent) + t.responses && verdict == t.verdict
    {
      hide Search, P.HandleRaw, P.CoreInv, P.IsId, World.Valid, Moved, Spoke;
      var raw := rxBuffer[..end + |END|];
      rxBuffer := rxBuffer[end + |END|..];
      var a := oracle(served);
      served := served + 1;
      verdict := Answer(raw, a);
    }

    // false, in the source, is every verdict but Open.
    method Feed(data: string) returns (verdict: P.Verdict)
      requires Valid()
      modifies this
      modifies world`subscribers, world`streamers, world`events, world`spoken, world`hub, world`made, world`greeted
      ensures Valid() && Moved(old(world.Seen()), old(streamer), world.Seen(), streamer)
      ensures Spoke(number, old(world.spoken), old(sent), world.spoken, sent)
      ensures streamer.Some? ==> PlayedFirst()
      ensures streamer.Some? && streamer != old(streamer) ==>
                world.greeted[streamer.value].at >= |old(world.events)|
      ensures Listening().(verdict := verdict) == FeedSpec(old(Listening()), data, oracle, hub)
      ensures !old(state.Closed?) ==> (verdict.Closing? <==> state.Closed?)
    {
      hide Drain, Search, P.CoreInv, AfterFirst, P.HandleRaw, Moved, HubProtocol.NoDuplicates, RtpAfterPlay,
           InStep, HubGoesOn, HubKept, HandedAreGreeted, SpokenOf, PlayedFirst, Spoke;
      MovedNot(world.Seen(), streamer);
      SpokeNot(number, world.spoken, sent);
      if !state.Closed? {
        FeedClosesIff(Listening(), data, oracle, hub);
      }
      rxBuffer := rxBuffer + data;
      if |rxBuffer| > MAX_RX_BUFFER {
        GainedPlayedFirst(old(world.Seen()), old(streamer));
        return P.Overflow;
      }
      ghost var start := Listening();
      while true
        invariant Valid() && Moved(old(world.Seen()), old(streamer), world.Seen(), streamer)
        invariant Spoke(number, old(world.spoken), old(sent), world.spoken, sent)
        invariant Drain(Listening(), oracle, hub) == Drain(start, oracle, hub)
        decreases |rxBuffer|
      {
        ghost var before, mine, seen, said := Listening(), streamer, world.Seen(), world.spoken;
        var end := Search(rxBuffer, END, 0);
        SearchIff(rxBuffer, END, 0, end);
        if end.None? {
          NothingToDrain(before, oracle, hub);
          GainedPlayedFirst(old(world.Seen()), old(streamer));
          return P.Open;
        }
        DrainFirst(before, end.value, oracle, hub);
        verdict := TakeRequest(end.value);
        AfterFirstIs(before, end.value + |END|, oracle, hub, Listening().(verdict := verdict));
        MovedTwice(old(world.Seen()), old(streamer), seen, mine, world.Seen(), streamer);
        SpokeTwice(number, old(world.spoken), old(sent), said, before.sent, world.spoken, sent);
        if verdict != P.Open {
          GainedPlayedFirst(old(world.Seen()), old(streamer));
          return;
        }
      }
    }
  }
}

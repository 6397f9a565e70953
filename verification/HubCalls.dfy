// The calls of the control thread as a whole: each one, with whatever answer, is a stretch of a
// run of the hub.
module HubCalls {
  import opened Prelude
  import opened HubProtocol

  // No call is in progress and nobody holds the lock.
  predicate Quiet(h: Hub) {
    h.control.Idle? && h.mu.Nobody?
  }

  function Last(run: seq<Hub>): Hub
    requires run != []
  {
    run[|run| - 1]
  }

  // The second run goes on where the first one stops: with steps of the pumps and of the control
  // thread, which begins no call but this one.
  ghost predicate GoesOn(run: seq<Hub>, steps: seq<Step>, call: Option<Step>, run': seq<Hub>, steps': seq<Step>) {
    IsRun(run, steps) && IsRun(run', steps') && run <= run' && OnlyCall(steps, call, steps')
  }

  predicate OnlyCall(steps: seq<Step>, call: Option<Step>, steps': seq<Step>) {
    && steps <= steps'
    && forall i :: |steps| <= i < |steps'| ==> steps'[i].Pump? || steps'[i].Control? || Some(steps'[i]) == call
  }

  // A call that has been made, or no call at all, and what happens after it.
  lemma GoesOnTwice(run: seq<Hub>, steps: seq<Step>, call: Option<Step>, run': seq<Hub>, steps': seq<Step>,
                    next: Option<Step>, run'': seq<Hub>, steps'': seq<Step>)
    requires GoesOn(run, steps, call, run', steps') && GoesOn(run', steps', next, run'', steps'')
    requires call == None || next == None
    ensures GoesOn(run, steps, if call == None then next else call, run'', steps'')
  {
    hide IsRun;
  }

  lemma GoOn(run: seq<Hub>, steps: seq<Step>, step: Step) returns (run': seq<Hub>, steps': seq<Step>)
    requires IsRun(run, steps) && Enabled(Last(run), step)
    ensures GoesOn(run, steps, if step.Pump? || step.Control? then None else Some(step), run', steps')
    ensures Last(run') == Next(Last(run), step)
  {
    hide Enabled, Next, IsRun;
    RunLength(run, steps);
    run', steps' := Extend(run, steps, step, Next(Last(run), step));
  }

  lemma LastIsOrderly(run: seq<Hub>, steps: seq<Step>)
    requires IsRun(run, steps)
    ensures ThreadInv(Last(run))
  {
    RunKeepsThreads(run, steps, |run| - 1);
  }

  // ----- Letting the pump run out -----

  // How far a pump is from its end, if the next call of read_nal fails.
  function Distance(pc: PumpPc, n: nat): nat {
    match pc
    case Test => 5
    case Call(rest, ok) => 4 + rest * (n + 3) + if ok then 10 else 0
    case Read(_, rest, ok) => 3 + rest * (n + 3) + if ok then 10 else 0
    case Lock(_, rest, ok) => 3 + rest * (n + 3) + n + 2 + if ok then 10 else 0
    case Send(_, i, rest, ok) => 3 + rest * (n + 3) + 1 + (if i < n then n - i else 0) + if ok then 10 else 0
    case Broke => 2
    case Stopped => 1
    case Done => 0
  }

  // What a pump step leaves alone.
  predicate SameCall(h: Hub, g: Hub) {
    && g.control == h.control && g.media.subscribers == h.media.subscribers
    && g.media.streamers == h.media.streamers && g.media.from == h.media.from
    && g.handle == h.handle && g.toJoin == h.toJoin
    && |g.pumps| == |h.pumps| && (g.running ==> h.running)
  }

  lemma PumpComesNearer(h: Hub, id: nat)
    requires PumpEnabled(h, id) && h.source.Some?
    ensures var g := PumpStep(h, id, 0, false);
            && SameCall(h, g) && g.source == h.source
            && Distance(g.pumps[id], |h.media.subscribers|) < Distance(h.pumps[id], |h.media.subscribers|)
            && (forall i :: 0 <= i < |h.pumps| && i != id ==> g.pumps[i] == h.pumps[i])
  {
    var n := |h.media.subscribers|;
    var pc := h.pumps[id];
    if pc.Read? && pc.rest > 0 {
      assert pc.rest * (n + 3) == (pc.rest - 1) * (n + 3) + (n + 3);
    }
  }

  lemma LastPumpCanGo(h: Hub)
    requires ThreadInv(h) && (h.control.Idle? || h.control.UnsJoin?) && h.pumps != []
    requires !h.pumps[|h.pumps| - 1].Done?
    ensures PumpEnabled(h, |h.pumps| - 1) && h.source.Some?
  {}

  // Every pump has ended.
  predicate AllEnded(h: Hub) {
    forall i :: 0 <= i < |h.pumps| ==> h.pumps[i].Done?
  }

  lemma EndedIsQuiet(h: Hub)
    requires ThreadInv(h) && (h.control.Idle? || h.control.UnsJoin?)
    requires h.pumps == [] || h.pumps[|h.pumps| - 1].Done?
    ensures AllEnded(h) && h.mu.Nobody? && !h.running
  {}

  // Wherever the pump is, there is a way in which it ends, without the control thread.
  lemma {:induction false} PumpRunsOut(run: seq<Hub>, steps: seq<Step>) returns (run': seq<Hub>, steps': seq<Step>)
    requires IsRun(run, steps) && (Last(run).control.Idle? || Last(run).control.UnsJoin?)
    ensures GoesOn(run, steps, None, run', steps') && SameCall(Last(run), Last(run'))
    ensures AllEnded(Last(run')) && Last(run').mu.Nobody? && !Last(run').running
    decreases var h := Last(run);
              if h.pumps == [] then 0 else Distance(h.pumps[|h.pumps| - 1], |h.media.subscribers|)
  {
    hide IsRun, ThreadInv, Next, Enabled, Distance, PumpStep, PumpEnabled, AllEnded, OnlyCall;
    RunLength(run, steps);
    var h := Last(run);
    LastIsOrderly(run, steps);
    if h.pumps == [] || h.pumps[|h.pumps| - 1].Done? {
      EndedIsQuiet(h);
      run', steps' := run, steps;
      StaysPut(run, steps);
    } else {
      var id := |h.pumps| - 1;
      LastPumpCanGo(h);
      PumpComesNearer(h, id);
      IsPumpStep(h, id);
      var run1, steps1 := GoOn(run, steps, Step.Pump(id, 0, false));
      run', steps' := PumpRunsOut(run1, steps1);
      GoesOnTwice(run, steps, None, run1, steps1, None, run', steps');
    }
  }

  lemma StaysPut(run: seq<Hub>, steps: seq<Step>)
    requires IsRun(run, steps)
    ensures GoesOn(run, steps, None, run, steps)
  {}

  lemma IsPumpStep(h: Hub, id: nat)
    requires PumpEnabled(h, id)
    ensures Enabled(h, Step.Pump(id, 0, false)) && Next(h, Step.Pump(id, 0, false)) == PumpStep(h, id, 0, false)
  {}

  // ----- subscribe -----

  // One more step of the control thread.
  lemma ControlGoesOn(run: seq<Hub>, steps: seq<Step>, call: Option<Step>, run1: seq<Hub>, steps1: seq<Step>,
                      choice: bool)
    returns (run': seq<Hub>, steps': seq<Step>)
    requires GoesOn(run, steps, call, run1, steps1) && run1 != [] && ControlEnabled(Last(run1))
    ensures GoesOn(run, steps, call, run', steps') && run' != [] && Last(run') == ControlStep(Last(run1), choice)
  {
    hide IsRun, OnlyCall;
    run', steps' := GoOn(run1, steps1, Step.Control(choice));
    GoesOnTwice(run, steps, call, run1, steps1, None, run', steps');
    if call == None {
      assert (if call == None then None else call) == call;
    }
  }

  // The part of subscribe that starts the source, or fails to.
  lemma StartRuns(run: seq<Hub>, steps: seq<Step>, call: Option<Step>, run1: seq<Hub>, steps1: seq<Step>, answer: bool)
    returns (run': seq<Hub>, steps': seq<Step>)
    requires GoesOn(run, steps, call, run1, steps1) && run1 != [] && Last(run1).control.SubReap?
    ensures GoesOn(run, steps, call, run', steps') && run' != []
    ensures Last(run').control == if answer then SubPush(Last(run1).control.v) else SubUnlock
    ensures Last(run').media == Last(run1).media.(position := Last(run').media.position)
  {
    hide GoesOn, ThreadInv;
    OrderlyAfter(run, steps, call, run1, steps1);
    ReapIsImmediate(Last(run1));
    run', steps' := ControlGoesOn(run, steps, call, run1, steps1, answer);
    run', steps' := ControlGoesOn(run, steps, call, run', steps', answer);
    if answer {
      run', steps' := ControlGoesOn(run, steps, call, run', steps', answer);
      run', steps' := ControlGoesOn(run, steps, call, run', steps', answer);
    }
  }

  lemma OrderlyAfter(run: seq<Hub>, steps: seq<Step>, call: Option<Step>, run': seq<Hub>, steps': seq<Step>)
    requires GoesOn(run, steps, call, run', steps')
    ensures run' != [] && ThreadInv(Last(run')) && IsRun(run', steps')
  {
    hide ThreadInv;
    LastIsOrderly(run', steps');
  }

  // The call, the lock, and the test of running_.
  lemma LockRuns(run: seq<Hub>, steps: seq<Step>, run1: seq<Hub>, steps1: seq<Step>, v: nat)
    returns (run': seq<Hub>, steps': seq<Step>)
    requires GoesOn(run, steps, None, run1, steps1) && run1 != [] && Quiet(Last(run1))
              && v >= Last(run1).media.streamers
    ensures GoesOn(run, steps, Some(Subscribe(v)), run', steps') && run' != []
    ensures Last(run').control == if Last(run1).running then SubPush(v) else SubReap(v)
    ensures Last(run').media == Last(run1).media.(streamers := v + 1)
  {
    hide IsRun, OnlyCall;
    run', steps' := GoOn(run1, steps1, Subscribe(v));
    GoesOnTwice(run, steps, None, run1, steps1, Some(Subscribe(v)), run', steps');
    hide GoesOn;
    run', steps' := ControlGoesOn(run, steps, Some(Subscribe(v)), run', steps', true);
    run', steps' := ControlGoesOn(run, steps, Some(Subscribe(v)), run', steps', true);
  }

  // Between calls, subscribe can be called, and whatever the pump does meanwhile, it can have
  // either answer: with the answer true the streamer is in the list, otherwise the list is as it was.
  lemma SubscribeRuns(run: seq<Hub>, steps: seq<Step>, v: nat, answer: bool) returns (run': seq<Hub>, steps': seq<Step>)
    requires IsRun(run, steps) && Quiet(Last(run)) && v >= Last(run).media.streamers
    ensures GoesOn(run, steps, Some(Subscribe(v)), run', steps') && run' != [] && Quiet(Last(run'))
    ensures Last(run').media.subscribers == Last(run).media.subscribers + if answer then [v] else []
    ensures Last(run').media.streamers == v + 1
    ensures v in Last(run').media.from <==> answer
  {
    hide IsRun, ThreadInv, AllEnded, GoesOn;
    NotYetKnown(run, steps, v);
    var call := Some(Subscribe(v));
    RunLength(run, steps);
    StaysPut(run, steps);
    run', steps' := run, steps;
    if !answer {
      run', steps' := PumpRunsOut(run, steps);
      NotEmptyAfter(run, steps, None, run', steps');
    }
    run', steps' := LockRuns(run, steps, run', steps', v);
    if Last(run').control.SubReap? {
      run', steps' := StartRuns(run, steps, call, run', steps', answer);
    }
    if answer {
      run', steps' := ControlGoesOn(run, steps, call, run', steps', answer);
    }
    run', steps' := ControlGoesOn(run, steps, call, run', steps', answer);
  }

  lemma NotYetKnown(run: seq<Hub>, steps: seq<Step>, v: nat)
    requires IsRun(run, steps) && v >= Last(run).media.streamers
    ensures v !in Last(run).media.from
  {
    hide IsRun, HasSeen;
    RunLength(run, steps);
    RunKeepsDelivery(run, steps, |run| - 1);
  }

  lemma NotEmptyAfter(run: seq<Hub>, steps: seq<Step>, call: Option<Step>, run': seq<Hub>, steps': seq<Step>)
    requires GoesOn(run, steps, call, run', steps')
    ensures run' != []
  {}

  lemma ReapIsImmediate(h: Hub)
    requires ThreadInv(h) && h.control.SubReap?
    ensures ControlEnabled(h)
  {}

  // ----- unsubscribe -----

  // The critical section of unsubscribe.
  lemma EraseRuns(run: seq<Hub>, steps: seq<Step>, v: nat) returns (run': seq<Hub>, steps': seq<Step>)
    requires IsRun(run, steps) && Quiet(Last(run))
    ensures GoesOn(run, steps, Some(Unsubscribe(v)), run', steps') && run' != []
    ensures Last(run').control.UnsStop? || Last(run').control.UnsUnlock?
    ensures Last(run').media == RemoveSubscriber(Last(run).media, v)
  {
    hide IsRun, GoesOn, RemoveSubscriber;
    var call := Some(Unsubscribe(v));
    run', steps' := GoOn(run, steps, Unsubscribe(v));
    NotEmptyAfter(run, steps, call, run', steps');
    run', steps' := ControlGoesOn(run, steps, call, run', steps', true);
    run', steps' := ControlGoesOn(run, steps, call, run', steps', true);
    run', steps' := ControlGoesOn(run, steps, call, run', steps', true);
  }

  // Between calls, unsubscribe can be called, and it comes to its end: the streamer is not in
  // the list any more.
  lemma UnsubscribeRuns(run: seq<Hub>, steps: seq<Step>, v: nat) returns (run': seq<Hub>, steps': seq<Step>)
    requires IsRun(run, steps) && Quiet(Last(run))
    ensures GoesOn(run, steps, Some(Unsubscribe(v)), run', steps') && run' != [] && Quiet(Last(run'))
    ensures Last(run').media.subscribers == Remove(Last(run).media.subscribers, v)
    ensures Last(run').media.streamers == Last(run).media.streamers
  {
    hide IsRun, ThreadInv, Remove, AllEnded, GoesOn;
    var call := Some(Unsubscribe(v));
    run', steps' := EraseRuns(run, steps, v);
    if Last(run').control.UnsStop? {
      run', steps' := ControlGoesOn(run, steps, call, run', steps', true);
      run', steps' := ControlGoesOn(run, steps, call, run', steps', true);
    }
    run', steps' := ControlGoesOn(run, steps, call, run', steps', true);
    OrderlyAfter(run, steps, call, run', steps');
    var run1, steps1 := run', steps';
    run', steps' := PumpRunsOut(run1, steps1);
    GoesOnTwice(run, steps, call, run1, steps1, None, run', steps');
    NotEmptyAfter(run, steps, call, run', steps');
    JoinIsEnabled(Last(run'));
    run', steps' := ControlGoesOn(run, steps, call, run', steps', true);
  }

  lemma JoinIsEnabled(h: Hub)
    requires AllEnded(h) && h.control.UnsJoin?
    ensures ControlEnabled(h)
  {}

  // ----- sprop_parameter_sets -----

  // Between calls, the parameter sets can be asked for, under the lock, and the list stays.
  lemma DescribeRuns(run: seq<Hub>, steps: seq<Step>) returns (run': seq<Hub>, steps': seq<Step>)
    requires IsRun(run, steps) && Quiet(Last(run))
    ensures GoesOn(run, steps, Some(Describe), run', steps') && run' != [] && Quiet(Last(run'))
    ensures Last(run').media == Last(run).media
  {
    hide IsRun, GoesOn;
    var call := Some(Describe);
    run', steps' := GoOn(run, steps, Describe);
    NotEmptyAfter(run, steps, call, run', steps');
    run', steps' := ControlGoesOn(run, steps, call, run', steps', true);
    run', steps' := ControlGoesOn(run, steps, call, run', steps', true);
  }

  // ----- Who is handed anything -----

  // The streamer of a subscribe.
  predicate Subscribes(call: Option<Step>, v: nat) {
    call == Some(Subscribe(v))
  }

  predicate Grown(h: Hub, g: Hub, v: nat) {
    v in g.media.handed && |g.media.handed[v]| > if v in h.media.handed then |h.media.handed[v]| else 0
  }

  // Only whom a subscribe names is anybody new.
  predicate Known(h: Hub, call: Option<Step>, g: Hub) {
    && (forall v :: v in g.media.handed ==> v in h.media.handed || Subscribes(call, v))
    && (Joining(g.control) ==> Subscribes(call, g.control.v))
  }

  lemma StepKnows(h: Hub, call: Option<Step>, g: Hub, step: Step)
    requires Known(h, call, g) && Enabled(g, step)
    requires step.Pump? || step.Control? || Some(step) == call
    ensures Known(h, call, Next(g, step))
  {
    hide ControlStep, PumpStep, ControlEnabled, PumpEnabled;
    match step
    case Control(choice) => ControlKnows(h, call, g, choice);
    case Pump(id, count, ok) => PumpKnows(h, call, g, id, count, ok);
    case _ =>
  }

  lemma ControlKnows(h: Hub, call: Option<Step>, g: Hub, choice: bool)
    requires Known(h, call, g) && ControlEnabled(g)
    ensures Known(h, call, ControlStep(g, choice))
  {}

  lemma PumpKnows(h: Hub, call: Option<Step>, g: Hub, id: nat, count: nat, ok: bool)
    requires Known(h, call, g) && PumpEnabled(g, id)
    ensures Known(h, call, PumpStep(g, id, count, ok))
  {}

  lemma {:induction false} CallKnows(run: seq<Hub>, steps: seq<Step>, call: Option<Step>, run': seq<Hub>,
                                     steps': seq<Step>, k: nat)
    requires GoesOn(run, steps, call, run', steps') && run != [] && Quiet(Last(run)) && |run| <= k + 1 <= |run'|
    ensures Known(Last(run), call, run'[k])
  {
    hide *;
    Parts(run, steps, call, run', steps');
    if |run| == k + 1 {
      NobodyNew(Last(run), call);
    } else {
      CallKnows(run, steps, call, run', steps', k - 1);
      StepOfRun(run', steps', k - 1);
      StepKnows(Last(run), call, run'[k - 1], steps'[k - 1]);
    }
  }

  lemma NobodyNew(h: Hub, call: Option<Step>)
    requires Quiet(h)
    ensures Known(h, call, h)
  {}

  // ----- The pump alone -----

  // While no call is made, the list does not change.
  lemma {:induction false} PumpKeepsList(run: seq<Hub>, steps: seq<Step>, run': seq<Hub>, steps': seq<Step>, k: nat)
    requires GoesOn(run, steps, None, run', steps') && Quiet(Last(run)) && |run| <= k + 1 <= |run'|
    ensures Quiet(run'[k]) || run'[k].mu.Pump?
    ensures run'[k].control.Idle? && run'[k].media.subscribers == Last(run).media.subscribers
    ensures run'[k].media.streamers == Last(run).media.streamers
  {
    hide *;
    Parts(run, steps, None, run', steps');
    if |run| == k + 1 {
      assert run'[k] == Last(run);
      QuietIs(Last(run));
    } else {
      PumpKeepsList(run, steps, run', steps', k - 1);
      StepOfRun(run', steps', k - 1);
      RunKeepsThreads(run', steps', k);
      OnlyPump(run'[k - 1], steps'[k - 1]);
      IdleIsQuiet(run'[k]);
    }
  }

  lemma Parts(run: seq<Hub>, steps: seq<Step>, call: Option<Step>, run': seq<Hub>, steps': seq<Step>)
    requires GoesOn(run, steps, call, run', steps')
    ensures IsRun(run', steps') && run <= run' && |run| == |steps| + 1 && |run'| == |steps'| + 1
    ensures Last(run) == run[|run| - 1] == run'[|run| - 1]
    ensures forall i :: |steps| <= i < |steps'| ==> steps'[i].Pump? || steps'[i].Control? || Some(steps'[i]) == call
  {}

  lemma QuietIs(h: Hub)
    requires Quiet(h)
    ensures h.control.Idle?
  {}

  lemma IdleIsQuiet(h: Hub)
    requires ThreadInv(h) && h.control.Idle?
    ensures Quiet(h) || h.mu.Pump?
  {}

  lemma OnlyPump(h: Hub, step: Step)
    requires Enabled(h, step) && h.control.Idle? && (step.Pump? || step.Control?)
    ensures step.Pump? && Next(h, step).control == h.control
    ensures Next(h, step).media.subscribers == h.media.subscribers
    ensures Next(h, step).media.streamers == h.media.streamers
  {}
}

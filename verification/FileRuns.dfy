// Runs of the hub whose sources play a file: what the pumps get from read_nal is what the file
// source makes of the octets of the file.
module FileRuns {
  import opened Prelude
  import opened AnnexB
  import opened FileSources
  import opened HubProtocol

  // In this step the last pump's call of read_nal on source s begins.
  predicate Begins(h: Hub, step: Step, s: nat) {
    step.Pump? && step.id < |h.pumps| && h.pumps[step.id].Call? && h.source == Some(s)
  }

  // How many calls on source s have begun in the first k steps.
  function Begun(run: seq<Hub>, steps: seq<Step>, k: nat, s: nat): nat
    requires k <= |steps| < |run|
  {
    if k == 0 then 0 else Begun(run, steps, k - 1, s) + if Begins(run[k - 1], steps[k - 1], s) then 1 else 0
  }

  // The call calls back as often, and returns, as this one does.
  predicate Fits(pc: PumpPc, call: ReadCall) {
    pc.Call? && pc.rest == |call.emitted| && pc.ok == call.ok
  }

  // Every source is a file source that loops over these octets: its n-th call is the n-th call
  // on the file.
  ghost predicate FileDriven(run: seq<Hub>, steps: seq<Step>, content: Bytes)
    requires |steps| < |run|
  {
    forall j, s | 0 <= j < |steps| && Begins(run[j], steps[j], s) ::
      Fits(run[j].pumps[steps[j].id], NthRead(content, Begun(run, steps, j, s)))
  }

  // How many NALs of a call in progress are still to be broadcast.
  function Rest(pc: PumpPc): nat {
    match pc
    case Read(_, rest, _) => rest
    case Lock(_, rest, _) => rest + 1
    case Send(_, _, rest, _) => rest
    case _ => 0
  }

  function Due(h: Hub): nat {
    if h.pumps == [] then 0 else Rest(h.pumps[|h.pumps| - 1])
  }

  // played is how many NALs the calls on the source in source_ play: what has been broadcast of
  // it and what is due.
  predicate Plays(h: Hub, played: nat) {
    h.source.Some? ==> h.media.position + Due(h) == played
  }

  lemma AllDone(h: Hub)
    requires ThreadInv(h) && (h.control.SubStart? || h.control.SubSpawn?)
    ensures Due(h) == 0
  {
    if h.pumps != [] {
      assert h.pumps[|h.pumps| - 1].Done?;
    }
  }

  lemma ControlMoves(h: Hub, choice: bool)
    requires ControlEnabled(h)
    ensures var g := ControlStep(h, choice);
            && g.pumps == (if h.control.SubSpawn? then h.pumps + [Test] else h.pumps)
            && (h.control.SubStart? ==> (g.source.Some? ==> g.media.position == 0))
            && (!h.control.SubStart? ==> g.source == h.source && g.media.position == h.media.position)
  {}

  lemma ControlPlays(h: Hub, choice: bool, played: nat)
    requires ThreadInv(h) && ControlEnabled(h) && Plays(h, played)
    ensures Plays(ControlStep(h, choice), if h.control.SubStart? then 0 else played)
  {
    hide ThreadInv, ControlStep, ControlEnabled;
    ControlMoves(h, choice);
    if h.control.SubStart? || h.control.SubSpawn? {
      AllDone(h);
    }
  }

  lemma LiveIsLast(h: Hub, id: nat)
    requires ThreadInv(h) && PumpEnabled(h, id)
    ensures id == |h.pumps| - 1 && (h.pumps[id].Call? ==> h.source.Some?)
  {}

  lemma PumpMoves(h: Hub, id: nat, count: nat, ok: bool)
    requires PumpEnabled(h, id)
    ensures var g := PumpStep(h, id, count, ok);
            && id < |g.pumps| && g.pumps == h.pumps[id := g.pumps[id]] && g.source == h.source
            && g.media.position == h.media.position + (if h.pumps[id].Lock? then 1 else 0)
            && (!h.pumps[id].Call? ==>
                  && Rest(g.pumps[id]) + (if h.pumps[id].Lock? then 1 else 0) == Rest(h.pumps[id])
                  && (SourceOf(g.pumps[id]).Some? ==> SourceOf(h.pumps[id]).Some? && g.pumps[id].ok == h.pumps[id].ok))
            && (h.pumps[id].Call? && h.source.Some? ==>
                  g.pumps[id] == Read(h.source.value, h.pumps[id].rest, h.pumps[id].ok))
  {}

  lemma PumpPlays(h: Hub, id: nat, count: nat, ok: bool, played: nat)
    requires ThreadInv(h) && PumpEnabled(h, id) && Plays(h, played)
    ensures Plays(PumpStep(h, id, count, ok), played + if h.pumps[id].Call? then h.pumps[id].rest else 0)
  {
    LiveIsLast(h, id);
    PumpMoves(h, id, count, ok);
    PlaysOn(h, PumpStep(h, id, count, ok), id, played);
  }

  lemma PlaysOn(h: Hub, g: Hub, id: nat, played: nat)
    requires Plays(h, played) && id == |h.pumps| - 1 && g.source == h.source
    requires id < |g.pumps| && g.pumps == h.pumps[id := g.pumps[id]]
    requires h.pumps[id].Call? ==> h.source.Some?
    requires g.media.position == h.media.position + (if h.pumps[id].Lock? then 1 else 0)
    requires !h.pumps[id].Call? ==> Rest(g.pumps[id]) + (if h.pumps[id].Lock? then 1 else 0) == Rest(h.pumps[id])
    requires h.pumps[id].Call? && h.source.Some? ==>
               g.pumps[id] == Read(h.source.value, h.pumps[id].rest, h.pumps[id].ok)
    ensures Plays(g, played + if h.pumps[id].Call? then h.pumps[id].rest else 0)
  {}

  // ----- Runs -----

  // How many NALs the calls play that have begun on a source.
  function PlayedOf(run: seq<Hub>, steps: seq<Step>, k: nat, s: nat, content: Bytes): nat
    requires k <= |steps| < |run|
  {
    |PlayedBy(content, Begun(run, steps, k, s))|
  }

  // Every NAL that was broadcast is played by a call that has begun.
  ghost predicate Logged(run: seq<Hub>, steps: seq<Step>, k: nat, content: Bytes)
    requires k <= |steps| < |run|
  {
    forall p :: 0 <= p < |run[k].media.log| ==> WasPlayed(run[k].media.log[p], run, steps, k, content)
  }

  ghost predicate WasPlayed(e: Entry, run: seq<Hub>, steps: seq<Step>, k: nat, content: Bytes)
    requires k <= |steps| < |run|
  {
    e.index < PlayedOf(run, steps, k, e.source, content)
  }

  ghost predicate FileInv(run: seq<Hub>, steps: seq<Step>, k: nat, content: Bytes)
    requires k <= |steps| < |run|
  {
    && (run[k].source.Some? ==> Plays(run[k], PlayedOf(run, steps, k, run[k].source.value, content)))
    && Logged(run, steps, k, content) && NoneBegun(run, steps, k)
  }

  // No call has begun on a source that was not made yet.
  ghost predicate NoneBegun(run: seq<Hub>, steps: seq<Step>, k: nat)
    requires k <= |steps| < |run|
  {
    forall s :: s >= run[k].sources ==> Begun(run, steps, k, s) == 0
  }

  // A step lets at most one call begin, on the source in source_.
  lemma BegunGrows(run: seq<Hub>, steps: seq<Step>, k: nat, s: nat, content: Bytes)
    requires k < |steps| < |run|
    ensures Begun(run, steps, k + 1, s) == Begun(run, steps, k, s) + if Begins(run[k], steps[k], s) then 1 else 0
    ensures PlayedOf(run, steps, k + 1, s, content) == PlayedOf(run, steps, k, s, content) +
              if Begins(run[k], steps[k], s) then |NthRead(content, Begun(run, steps, k, s)).emitted| else 0
  {
    hide NthRead;
    PlayedOneMore(content, Begun(run, steps, k, s));
  }

  lemma LogGrows(h: Hub, step: Step)
    requires ThreadInv(h) && Enabled(h, step)
    ensures var g := Next(h, step);
            if step.Pump? && h.pumps[step.id].Lock?
            then h.source.Some? && g.media.log == h.media.log + [Entry(h.source.value, h.media.position)]
            else g.media.log == h.media.log
  {
    if step.Pump? && h.pumps[step.id].Lock? {
      assert SourceOf(h.pumps[step.id]) == h.source;
    } else {
      LogStands(h, step);
    }
  }

  lemma StepLogs(run: seq<Hub>, steps: seq<Step>, k: nat, content: Bytes)
    requires IsRun(run, steps) && k < |steps| && ThreadInv(run[k]) && FileInv(run, steps, k, content)
    ensures Logged(run, steps, k + 1, content) && NoneBegun(run, steps, k + 1)
  {
    StepOfRun(run, steps, k);
    var h, step, now := run[k], steps[k], k + 1;
    LogGrows(h, step);
    SourcesGrow(h, step);
    SourceWasMade(h);
    if step.Pump? && h.pumps[step.id].Lock? {
      LiveIsLast(h, step.id);
    }
    hide IsRun, ThreadInv, Next, Enabled, PlayedOf, Begun;
    forall s | s >= run[now].sources ensures Begun(run, steps, now, s) == 0 {
      BegunGrows(run, steps, k, s, content);
    }
    var log := run[now].media.log;
    forall p | 0 <= p < |log| ensures WasPlayed(log[p], run, steps, now, content) {
      BegunGrows(run, steps, k, log[p].source, content);
      if p < |h.media.log| {
        assert log[p] == h.media.log[p] && WasPlayed(h.media.log[p], run, steps, k, content);
      }
    }
  }

  lemma SourcesGrow(h: Hub, step: Step)
    requires Enabled(h, step)
    ensures Next(h, step).sources >= h.sources
    ensures !(step.Control? && h.control.SubStart?) ==> Next(h, step).source == h.source
    ensures step.Control? && h.control.SubStart? && Next(h, step).source.Some? ==>
              Next(h, step).source.value == h.sources
  {}

  lemma SourceWasMade(h: Hub)
    requires ThreadInv(h)
    ensures h.source.Some? ==> h.source.value < h.sources
  {}

  // What the calls on the source in source_ play.
  function PlayedNow(run: seq<Hub>, steps: seq<Step>, k: nat, content: Bytes): nat
    requires k <= |steps| < |run|
  {
    if run[k].source.Some? then PlayedOf(run, steps, k, run[k].source.value, content) else 0
  }

  lemma StepPlays(run: seq<Hub>, steps: seq<Step>, k: nat, content: Bytes)
    requires IsRun(run, steps) && k < |steps| && FileDriven(run, steps, content)
    requires ThreadInv(run[k]) && FileInv(run, steps, k, content)
    ensures run[k + 1].source.Some? ==>
              Plays(run[k + 1], PlayedOf(run, steps, k + 1, run[k + 1].source.value, content))
  {
    hide *;
    StepOfRun(run, steps, k);
    NowIs(run, steps, k, content);
    match steps[k]
    case Control(choice) => ControlStepPlays(run, steps, k, content);
    case Pump(id, count, ok) => PumpStepPlays(run, steps, k, content);
    case _ =>
      OthersPlay(run[k], steps[k], PlayedNow(run, steps, k, content));
      OthersPlayAsMuch(run, steps, k, content);
  }

  lemma NowIs(run: seq<Hub>, steps: seq<Step>, k: nat, content: Bytes)
    requires k < |steps| < |run| && FileInv(run, steps, k, content)
    ensures Plays(run[k], PlayedNow(run, steps, k, content))
    ensures Plays(run[k + 1], PlayedNow(run, steps, k + 1, content)) && run[k + 1].source.Some? ==>
              Plays(run[k + 1], PlayedOf(run, steps, k + 1, run[k + 1].source.value, content))
  {
    hide PlayedOf, Due;
  }

  lemma ControlStepPlays(run: seq<Hub>, steps: seq<Step>, k: nat, content: Bytes)
    requires IsRun(run, steps) && k < |steps| && ThreadInv(run[k]) && FileInv(run, steps, k, content)
    requires steps[k].Control? && |run| == |steps| + 1 && Enabled(run[k], steps[k])
    requires run[k + 1] == Next(run[k], steps[k]) && Plays(run[k], PlayedNow(run, steps, k, content))
    ensures Plays(run[k + 1], PlayedNow(run, steps, k + 1, content))
  {
    hide PlayedOf, ThreadInv, ControlStep, Plays, NthRead, Logged, Begun, IsRun, NoneBegun;
    var h := run[k];
    ControlPlays(h, steps[k].choice, PlayedNow(run, steps, k, content));
    SourcesGrow(h, steps[k]);
    var s := if run[k + 1].source.Some? then run[k + 1].source.value else 0;
    BegunGrows(run, steps, k, s, content);
    if h.control.SubStart? && run[k + 1].source.Some? {
      FirstCall(run, steps, k, h.sources, content);
    } else if run[k + 1].source.None? {
      NoSourcePlays(run[k + 1]);
    }
  }

  lemma PumpStepPlays(run: seq<Hub>, steps: seq<Step>, k: nat, content: Bytes)
    requires k < |steps| && |run| == |steps| + 1 && ThreadInv(run[k])
    requires FileDriven(run, steps, content)
    requires steps[k].Pump? && Enabled(run[k], steps[k])
    requires run[k + 1] == Next(run[k], steps[k]) && Plays(run[k], PlayedNow(run, steps, k, content))
    ensures Plays(run[k + 1], PlayedNow(run, steps, k + 1, content))
  {
    hide PlayedOf, ThreadInv, PumpStep, Plays, NthRead, Begun;
    var h, step := run[k], steps[k];
    var s := if h.source.Some? then h.source.value else 0;
    LiveIsLast(h, step.id);
    BegunGrows(run, steps, k, s, content);
    if h.pumps[step.id].Call? {
      assert Begins(h, step, s);
      assert Fits(h.pumps[step.id], NthRead(content, Begun(run, steps, k, s)));
    }
    PumpPlays(h, step.id, step.count, step.ok, PlayedNow(run, steps, k, content));
    SourcesGrow(h, step);
  }

  lemma OthersPlayAsMuch(run: seq<Hub>, steps: seq<Step>, k: nat, content: Bytes)
    requires k < |steps| && |run| == |steps| + 1 && !steps[k].Pump? && run[k + 1].source == run[k].source
    ensures PlayedNow(run, steps, k + 1, content) == PlayedNow(run, steps, k, content)
  {
    hide PlayedOf;
    if run[k].source.Some? {
      BegunGrows(run, steps, k, run[k].source.value, content);
    }
  }

  lemma NoSourcePlays(h: Hub)
    ensures h.source.None? ==> Plays(h, 0)
  {}

  lemma FirstCall(run: seq<Hub>, steps: seq<Step>, k: nat, s: nat, content: Bytes)
    requires k <= |steps| < |run| && NoneBegun(run, steps, k) && s >= run[k].sources
    ensures PlayedOf(run, steps, k, s, content) == 0
  {
    assert Begun(run, steps, k, s) == 0;
  }

  lemma OthersPlay(h: Hub, step: Step, played: nat)
    requires Enabled(h, step) && !step.Control? && !step.Pump? && Plays(h, played)
    ensures var g := Next(h, step); g.source == h.source && Plays(g, played)
  {}

  lemma {:induction false} RunPlays(run: seq<Hub>, steps: seq<Step>, k: nat, content: Bytes)
    requires IsRun(run, steps) && k <= |steps| && FileDriven(run, steps, content)
    ensures FileInv(run, steps, k, content)
  {
    hide IsRun, FileDriven, ThreadInv, Plays, Logged;
    RunLength(run, steps);
    if k == 0 {
      NothingPlayed(run, steps, content);
    } else {
      RunPlays(run, steps, k - 1, content);
      RunKeepsThreads(run, steps, k - 1);
      StepPlays(run, steps, k - 1, content);
      StepLogs(run, steps, k - 1, content);
    }
  }

  lemma NothingPlayed(run: seq<Hub>, steps: seq<Step>, content: Bytes)
    requires IsRun(run, steps)
    ensures FileInv(run, steps, 0, content)
  {}

  // Everything that was broadcast is played by the calls that have begun on its source, whose
  // NALs are a prefix of the file's NAL list repeated for ever.
  lemma BroadcastIsOfLoop(run: seq<Hub>, steps: seq<Step>, k: nat, p: nat, content: Bytes)
    requires IsRun(run, steps) && k <= |steps| && FileDriven(run, steps, content)
    requires p < |run[k].media.log|
    ensures var e := run[k].media.log[p];
            var played := PlayedBy(content, Begun(run, steps, k, e.source));
            && e.index < |played| && IsLoopPrefix(played, Nals(content))
  {
    hide IsRun, FileDriven, PlayedBy, Begun, Nals, IsLoopPrefix;
    RunLength(run, steps);
    RunPlays(run, steps, k, content);
    assert WasPlayed(run[k].media.log[p], run, steps, k, content);
    LoopingPlays(content, Begun(run, steps, k, run[k].media.log[p].source));
  }

  // The NAL that stands in the log: the source delivered it as its index-th, so it is that one
  // of the NALs which the calls on the source play.
  function NalOf(e: Entry, run: seq<Hub>, steps: seq<Step>, k: nat, content: Bytes): Bytes
    requires k <= |steps| < |run|
  {
    var played := PlayedBy(content, Begun(run, steps, k, e.source));
    if e.index < |played| then played[e.index] else []
  }

  // What a streamer is handed in the first k steps of a run over a file.
  function Heard(entries: seq<Entry>, run: seq<Hub>, steps: seq<Step>, k: nat, content: Bytes): seq<Bytes>
    requires k <= |steps| < |run|
  {
    seq(|entries|, i requires 0 <= i < |entries| => NalOf(entries[i], run, steps, k, content))
  }

  // ----- A file with two start codes -----

  // No call that is in progress will fail.
  predicate NoneWillFail(h: Hub) {
    forall i :: 0 <= i < |h.pumps| && SourceOf(h.pumps[i]).Some? ==> h.pumps[i].ok
  }

  lemma StepFailsNot(h: Hub, step: Step)
    requires Enabled(h, step) && NoneWillFail(h)
    requires step.Pump? && h.pumps[step.id].Call? ==> h.pumps[step.id].ok
    ensures NoneWillFail(Next(h, step))
  {
    hide ControlStep, PumpStep;
    match step
    case Control(choice) => ControlMoves(h, choice);
    case Pump(id, count, ok) =>
      PumpMoves(h, id, count, ok);
      if h.pumps[id].Call? && h.source.None? {
        NoSourceBreaks(h, id, count, ok);
      }
    case _ =>
  }

  lemma NoSourceBreaks(h: Hub, id: nat, count: nat, ok: bool)
    requires PumpEnabled(h, id) && h.pumps[id].Call? && h.source.None?
    ensures SourceOf(PumpStep(h, id, count, ok).pumps[id]).None?
  {}

  lemma {:induction false} NoneEverWillFail(run: seq<Hub>, steps: seq<Step>, k: nat, content: Bytes)
    requires IsRun(run, steps) && k <= |steps| && FileDriven(run, steps, content) && HasTwoCodes(content)
    ensures NoneWillFail(run[k])
  {
    hide IsRun, HasTwoCodes, ThreadInv, NoneWillFail, NthRead, Next, Begun;
    RunLength(run, steps);
    if k == 0 {
      NobodyFails(run, steps);
    } else {
      var h, step := run[k - 1], steps[k - 1];
      NoneEverWillFail(run, steps, k - 1, content);
      StepOfRun(run, steps, k - 1);
      RunKeepsThreads(run, steps, k - 1);
      if step.Pump? && step.id < |h.pumps| && h.pumps[step.id].Call? {
        CallHasSource(h, step);
        assert Begins(h, step, h.source.value);
        LoopingPlays(content, Begun(run, steps, k - 1, h.source.value));
      }
      StepFailsNot(h, step);
    }
  }

  lemma CallHasSource(h: Hub, step: Step)
    requires ThreadInv(h) && Enabled(h, step) && step.Pump? && h.pumps[step.id].Call?
    ensures h.source.Some?
  {}

  lemma NobodyFails(run: seq<Hub>, steps: seq<Step>)
    requires IsRun(run, steps)
    ensures NoneWillFail(run[0])
  {}

  // With two start codes in the file, no read_nal ever returns false.
  lemma FileNeverEnds(run: seq<Hub>, steps: seq<Step>, k: nat, content: Bytes)
    requires IsRun(run, steps) && k <= |steps| && FileDriven(run, steps, content) && HasTwoCodes(content)
    ensures NeverEnds(run, steps, k)
  {
    hide IsRun, FileDriven, HasTwoCodes;
    RunLength(run, steps);
    forall j | 0 <= j < k ensures !ReturnsFalse(run[j], steps[j]) {
      NoneEverWillFail(run, steps, j, content);
      NotFalse(run[j], steps[j]);
    }
  }

  lemma NotFalse(h: Hub, step: Step)
    requires NoneWillFail(h)
    ensures !ReturnsFalse(h, step)
  {}

  // ----- Such runs go on -----

  lemma {:induction false} BegunInPrefix(run: seq<Hub>, steps: seq<Step>, run': seq<Hub>, steps': seq<Step>,
                                         k: nat, s: nat)
    requires k <= |steps| < |run| && |steps'| < |run'| && run <= run' && steps <= steps'
    ensures Begun(run', steps', k, s) == Begun(run, steps, k, s)
  {
    hide Begins;
    if k > 0 {
      BegunInPrefix(run, steps, run', steps', k - 1, s);
    }
  }

  lemma DrivenOn(run: seq<Hub>, steps: seq<Step>, next: Hub, step: Step, content: Bytes)
    requires |run| == |steps| + 1 && FileDriven(run, steps, content)
    requires forall s :: Begins(run[|steps|], step, s) ==>
               Fits(run[|steps|].pumps[step.id], NthRead(content, Begun(run, steps, |steps|, s)))
    ensures FileDriven(run + [next], steps + [step], content)
  {
    hide Fits, NthRead, Begun;
    var run', steps' := run + [next], steps + [step];
    forall j, s | 0 <= j < |steps'| && Begins(run'[j], steps'[j], s)
      ensures Fits(run'[j].pumps[steps'[j].id], NthRead(content, Begun(run', steps', j, s)))
    {
      BegunInPrefix(run, steps, run', steps', j, s);
      if j < |steps| {
        assert Begins(run[j], steps[j], s);
      }
    }
  }

  // A pump that finds running_ set can go on to the call that is next on its source.
  lemma NextCallBegins(run: seq<Hub>, steps: seq<Step>, id: nat, content: Bytes)
    returns (run': seq<Hub>, steps': seq<Step>)
    requires IsRun(run, steps) && |run| == |steps| + 1 && FileDriven(run, steps, content)
    requires var h := run[|steps|];
             id < |h.pumps| && h.pumps[id].Test? && h.running && h.source.Some?
    ensures IsRun(run', steps') && |run'| == |steps'| + 1 && run <= run' && FileDriven(run', steps', content)
    ensures var h, g := run[|steps|], run'[|steps'|];
            var call := NthRead(content, Begun(run, steps, |steps|, h.source.value));
            id < |g.pumps| && g.pumps[id] == Read(h.source.value, |call.emitted|, call.ok)
  {
    hide IsRun, FileDriven, NthRead, Begun;
    var h := run[|steps|];
    var call := NthRead(content, Begun(run, steps, |steps|, h.source.value));
    var test, begin := Step.Pump(id, |call.emitted|, call.ok), Step.Pump(id, 0, false);
    var h1 := Next(h, test);
    DrivenOn(run, steps, h1, test, content);
    var run1, steps1 := Extend(run, steps, test, h1);
    BegunInPrefix(run, steps, run1, steps1, |steps|, h.source.value);
    NotBegun(run1, steps1, |steps|, h.source.value);
    var h2 := Next(h1, begin);
    DrivenOn(run1, steps1, h2, begin, content);
    run', steps' := Extend(run1, steps1, begin, h2);
  }

  lemma NotBegun(run: seq<Hub>, steps: seq<Step>, k: nat, s: nat)
    requires k < |steps| < |run| && !Begins(run[k], steps[k], s)
    ensures Begun(run, steps, k + 1, s) == Begun(run, steps, k, s)
  {}
}

// The media hub and its pump threads (src/media/hub.cpp) as interleaved atomic steps of one
// control thread, the epoll loop, which alone calls subscribe, unsubscribe, sprop_parameter_sets
// and the destructor, and of every pump thread it ever spawned. Outside the critical sections each
// access to a shared field is a step of its own; inside them, each access that matters to others.
module HubProtocol {
  import opened Prelude

  // ----- States -----

  datatype Owner = Nobody | Control | Pump(id: nat)

  // The NAL that a source delivered as its index-th.
  datatype Entry = Entry(source: nat, index: nat)

  // Where a pump thread is. In a call of read_nal, rest is how often it will still call back
  // and ok is what it will then return.
  datatype PumpPc =
    | Test                                           // about to read running_
    | Call(rest: nat, ok: bool)                      // has found it set, about to use source_
    | Read(source: nat, rest: nat, ok: bool)         // inside source_->read_nal
    | Lock(source: nat, rest: nat, ok: bool)         // in on_nal, wants mu_
    | Send(source: nat, i: nat, rest: nat, ok: bool) // holds mu_, has served i subscribers
    | Broke                                          // has left the loop
    | Stopped                                        // has called source_->stop()
    | Done                                           // has stored running_ = false and ended

  // Where the control thread is; v is the streamer of the call.
  datatype ControlPc =
    | Idle
    | SubLock(v: nat) | SubTest(v: nat) | SubReap(v: nat) | SubStart(v: nat)
    | SubRun(v: nat) | SubSpawn(v: nat) | SubPush(v: nat) | SubUnlock
    | DesLock | DesUnlock
    | UnsLock(v: nat) | UnsErase(v: nat) | UnsTest | UnsStop | UnsMove | UnsUnlock | UnsJoin
    | DtorClear | DtorJoin | Gone

  // What the critical sections work on. log and handed are history: what was broadcast, and
  // what each streamer was handed. from and to tell between which lengths of the log a
  // streamer was subscribed.
  datatype Media = Media(
    position: nat,           // how many NALs the source in source_ has delivered
    subscribers: seq<nat>,
    streamers: nat,          // streamers that subscribed so far have lower numbers
    log: seq<Entry>,
    handed: map<nat, seq<Entry>>,
    from: map<nat, nat>,
    to: map<nat, nat>)

  datatype Hub = Hub(
    mu: Owner,
    running: bool,
    handle: Option<nat>,     // pump_thread_, when joinable
    toJoin: Option<nat>,     // to_join, when joinable
    source: Option<nat>,     // source_, by number
    sources: nat,            // how many sources were ever made
    started: bool,           // the source in source_ is started and not stopped
    pumps: seq<PumpPc>,      // every pump thread ever spawned
    control: ControlPc,
    media: Media)

  const INITIAL :=
    Hub(Nobody, false, None, None, None, 0, false, [], Idle, Media(0, [], 0, [], map[], map[], map[]))

  // ----- Steps -----

  datatype Step =
    | Subscribe(v: nat)                    // with a streamer just made, as every PLAY does
    | Describe                             // a DESCRIBE asks for the parameter sets
    | Unsubscribe(v: nat)
    | Destroy
    | Control(choice: bool)                // choice: whether the source starts
    | Pump(id: nat, count: nat, ok: bool)  // count, ok: what a read_nal that begins will do

  function Remove(s: seq<nat>, v: nat): (r: seq<nat>)
    ensures forall x :: x in r <==> x in s && x != v
  {
    if s == [] then [] else (if s[0] == v then [] else [s[0]]) + Remove(s[1..], v)
  }

  predicate NoDuplicates(s: seq<nat>) {
    forall i, j :: 0 <= i < j < |s| ==> s[i] != s[j]
  }

  // A step can be taken: locks are free, joined threads have ended.
  predicate Enabled(h: Hub, step: Step) {
    match step
    case Subscribe(v) => h.control.Idle? && v >= h.media.streamers
    case Describe => h.control.Idle?
    case Unsubscribe(_) => h.control.Idle?
    case Destroy => h.control.Idle?
    case Control(_) => ControlEnabled(h)
    case Pump(id, _, _) => PumpEnabled(h, id)
  }

  predicate Ended(h: Hub, thread: Option<nat>) {
    thread.Some? && thread.value < |h.pumps| ==> h.pumps[thread.value].Done?
  }

  predicate ControlEnabled(h: Hub) {
    match h.control
    case Idle => false
    case Gone => false
    case SubLock(_) => h.mu.Nobody?
    case DesLock => h.mu.Nobody?
    case UnsLock(_) => h.mu.Nobody?
    case SubReap(_) => Ended(h, h.handle)
    case UnsJoin => Ended(h, h.toJoin)
    case DtorJoin => Ended(h, h.handle)
    case _ => true
  }

  predicate PumpEnabled(h: Hub, id: nat) {
    id < |h.pumps| && !h.pumps[id].Done? && (h.pumps[id].Lock? ==> h.mu.Nobody?)
  }

  function AddSubscriber(m: Media, v: nat): Media {
    m.(subscribers := m.subscribers + [v], handed := m.handed[v := []], from := m.from[v := |m.log|])
  }

  function RemoveSubscriber(m: Media, v: nat): Media {
    m.(subscribers := Remove(m.subscribers, v), to := if v in m.subscribers then m.to[v := |m.log|] else m.to)
  }

  // on_nal with the lock: the next NAL of the source is on the air,
  function Announce(m: Media, source: nat): Media {
    m.(log := m.log + [Entry(source, m.position)], position := m.position + 1)
  }

  // and the i-th subscriber is handed it.
  function HandTo(m: Media, i: nat): Media
    requires i < |m.subscribers|
  {
    var v := m.subscribers[i];
    if v in m.handed && m.log != [] then m.(handed := m.handed[v := m.handed[v] + [m.log[|m.log| - 1]]]) else m
  }

  function ControlStep(h: Hub, choice: bool): Hub
    requires ControlEnabled(h)
  {
    match h.control
    case SubLock(v) => h.(mu := Owner.Control, control := SubTest(v))
    case SubTest(v) => h.(control := if h.running then SubPush(v) else SubReap(v))
    case SubReap(v) => h.(handle := None, control := SubStart(v))
    case SubStart(v) =>
      if choice
      then h.(source := Some(h.sources), sources := h.sources + 1, started := true,
              media := h.media.(position := 0), control := SubRun(v))
      else h.(source := None, sources := h.sources + 1, control := SubUnlock)
    case SubRun(v) => h.(running := true, control := SubSpawn(v))
    case SubSpawn(v) => h.(pumps := h.pumps + [Test], handle := Some(|h.pumps|), control := SubPush(v))
    case SubPush(v) => h.(media := AddSubscriber(h.media, v), control := SubUnlock)
    case SubUnlock => h.(mu := Nobody, control := Idle)
    case DesLock => h.(mu := Owner.Control, control := DesUnlock)
    case DesUnlock => h.(mu := Nobody, control := Idle)
    case UnsLock(v) => h.(mu := Owner.Control, control := UnsErase(v))
    case UnsErase(v) => h.(media := RemoveSubscriber(h.media, v), control := UnsTest)
    case UnsTest => h.(control := if h.media.subscribers == [] && h.running then UnsStop else UnsUnlock)
    case UnsStop => h.(running := false, control := UnsMove)
    case UnsMove => h.(toJoin := h.handle, handle := None, control := UnsUnlock)
    case UnsUnlock => h.(mu := Nobody, control := UnsJoin)
    case UnsJoin => h.(toJoin := None, control := Idle)
    case DtorClear => h.(running := false, control := DtorJoin)
    case DtorJoin => h.(handle := None, control := Gone)
  }

  // A pump that read a null source_ would crash in read_nal; no such state is reached.
  function PumpStep(h: Hub, id: nat, count: nat, ok: bool): Hub
    requires PumpEnabled(h, id)
  {
    match h.pumps[id]
    case Test =>
      h.(pumps := h.pumps[id := if h.running then Call(count, ok) else Broke])
    case Call(rest, ok) =>
      h.(pumps := h.pumps[id := if h.source.Some? then Read(h.source.value, rest, ok) else Broke])
    case Read(src, rest, ok) =>
      h.(pumps := h.pumps[id := if rest > 0 then Lock(src, rest - 1, ok) else if ok then Test else Broke])
    case Lock(src, rest, ok) =>
      h.(mu := Owner.Pump(id), media := Announce(h.media, src), pumps := h.pumps[id := Send(src, 0, rest, ok)])
    case Send(src, i, rest, ok) =>
      if i < |h.media.subscribers|
      then h.(media := HandTo(h.media, i), pumps := h.pumps[id := Send(src, i + 1, rest, ok)])
      else h.(mu := Nobody, pumps := h.pumps[id := Read(src, rest, ok)])
    case Broke => h.(started := false, pumps := h.pumps[id := Stopped])
    case Stopped => h.(running := false, pumps := h.pumps[id := Done])
  }

  function Next(h: Hub, step: Step): Hub
    requires Enabled(h, step)
  {
    match step
    case Subscribe(v) => h.(media := h.media.(streamers := v + 1), control := SubLock(v))
    case Describe => h.(control := DesLock)
    case Unsubscribe(v) => h.(control := UnsLock(v))
    case Destroy => h.(control := DtorClear)
    case Control(choice) => ControlStep(h, choice)
    case Pump(id, count, ok) => PumpStep(h, id, count, ok)
  }

  // ----- The invariant -----

  // The control thread is inside a critical section.
  predicate Critical(pc: ControlPc) {
    pc.SubTest? || pc.SubReap? || pc.SubStart? || pc.SubRun? || pc.SubSpawn? || pc.SubPush? || pc.SubUnlock?
    || pc.DesUnlock? || pc.UnsErase? || pc.UnsTest? || pc.UnsStop? || pc.UnsMove? || pc.UnsUnlock?
  }

  predicate Ending(pc: ControlPc) {
    pc.DtorClear? || pc.DtorJoin? || pc.Gone?
  }

  // mu_ is held by exactly whom the program counters say.
  ghost predicate LockInv(h: Hub) {
    && (h.mu == Owner.Control <==> Critical(h.control))
    && (h.mu.Pump? ==> h.mu.id < |h.pumps|)
    && forall i :: 0 <= i < |h.pumps| ==> (h.pumps[i].Send? <==> h.mu == Owner.Pump(i))
  }

  // A pump that has not ended is the one that pump_thread_ or to_join stands for, and never
  // both stand for one.
  ghost predicate HandleInv(h: Hub) {
    && (h.handle.Some? ==> h.handle.value < |h.pumps|)
    && (h.toJoin.Some? ==> h.toJoin.value < |h.pumps| && h.handle.None? && !h.running)
    && (h.toJoin.Some? ==> h.control.UnsUnlock? || h.control.UnsJoin?)
    && (h.control.SubSpawn? ==> h.handle.None?)
    && forall i :: 0 <= i < |h.pumps| && !h.pumps[i].Done? ==>
        (h.handle == Some(i) || h.toJoin == Some(i)) && i == |h.pumps| - 1
  }

  // running_ and pump_thread_: while running_ is set its pump has not ended, and while it is
  // clear a joinable pump_thread_ has ended, but for the two places where the control thread
  // has just cleared it.
  ghost predicate RunningInv(h: Hub) {
    && (h.running && !h.control.SubSpawn? ==>
          h.handle.Some? && h.handle.value < |h.pumps| && !h.pumps[h.handle.value].Done?)
    && (!h.running && !h.control.UnsMove? && !h.control.DtorJoin? ==> Ended(h, h.handle))
    && (h.control.SubStart? || h.control.SubRun? ==> h.handle.None?)
    && (h.control.SubReap? || h.control.SubStart? || h.control.SubRun? || h.control.UnsMove? ==> !h.running)
    && (h.control.DtorJoin? || h.control.Gone? ==> !h.running)
    && (h.control.Gone? ==> h.handle.None?)
    && (h.control.SubSpawn? ==> h.running)
  }

  // Every pump that has not ended works on the source in source_.
  ghost predicate SourceInv(h: Hub) {
    && (h.source.Some? ==> h.source.value < h.sources)
    && (forall i :: 0 <= i < |h.pumps| && !h.pumps[i].Done? ==> h.source.Some?)
    && (forall i :: 0 <= i < |h.pumps| && SourceOf(h.pumps[i]).Some? ==> h.source == SourceOf(h.pumps[i]))
    && (h.control.SubRun? || h.control.SubSpawn? ==> h.source.Some?)
  }

  // The source is started exactly as long as its pump has not stopped it.
  ghost predicate StartedInv(h: Hub) {
    && (h.control.SubRun? || h.control.SubSpawn? ==> h.started)
    && (h.started ==> h.control.SubRun? || h.control.SubSpawn? || IsPlaying(h, h.handle) || IsPlaying(h, h.toJoin))
    && (forall i :: 0 <= i < |h.pumps| && Playing(h.pumps[i]) ==> h.started)
  }

  function SourceOf(pc: PumpPc): Option<nat> {
    if pc.Read? || pc.Lock? || pc.Send? then Some(pc.source) else None
  }

  predicate IsPlaying(h: Hub, thread: Option<nat>) {
    thread.Some? && thread.value < |h.pumps| && Playing(h.pumps[thread.value])
  }

  // The pump has not yet stopped its source.
  predicate Playing(pc: PumpPc) {
    !pc.Stopped? && !pc.Done?
  }

  ghost predicate ThreadInv(h: Hub) {
    LockInv(h) && HandleInv(h) && RunningInv(h) && SourceInv(h) && StartedInv(h)
  }

  // ----- Every step keeps the threads in order -----

  lemma ControlKeepsLock(h: Hub, choice: bool)
    requires LockInv(h) && ControlEnabled(h)
    ensures LockInv(ControlStep(h, choice))
  {}

  lemma PumpKeepsLock(h: Hub, id: nat, count: nat, ok: bool)
    requires LockInv(h) && PumpEnabled(h, id)
    ensures LockInv(PumpStep(h, id, count, ok))
  {}

  lemma ControlKeepsHandle(h: Hub, choice: bool)
    requires HandleInv(h) && RunningInv(h) && ControlEnabled(h)
    ensures HandleInv(ControlStep(h, choice))
  {}

  lemma PumpKeepsHandle(h: Hub, id: nat, count: nat, ok: bool)
    requires HandleInv(h) && PumpEnabled(h, id)
    ensures HandleInv(PumpStep(h, id, count, ok))
  {}

  lemma ControlKeepsRunning(h: Hub, choice: bool)
    requires HandleInv(h) && RunningInv(h) && ControlEnabled(h)
    ensures RunningInv(ControlStep(h, choice))
  {}

  lemma PumpKeepsRunning(h: Hub, id: nat, count: nat, ok: bool)
    requires HandleInv(h) && RunningInv(h) && PumpEnabled(h, id)
    ensures RunningInv(PumpStep(h, id, count, ok))
  {}

  lemma ControlKeepsSource(h: Hub, choice: bool)
    requires HandleInv(h) && RunningInv(h) && SourceInv(h) && ControlEnabled(h)
    ensures SourceInv(ControlStep(h, choice))
  {}

  lemma PumpKeepsSource(h: Hub, id: nat, count: nat, ok: bool)
    requires SourceInv(h) && PumpEnabled(h, id)
    ensures SourceInv(PumpStep(h, id, count, ok))
  {}

  lemma ControlKeepsStarted(h: Hub, choice: bool)
    requires HandleInv(h) && RunningInv(h) && StartedInv(h) && ControlEnabled(h)
    ensures StartedInv(ControlStep(h, choice))
  {}

  lemma PumpKeepsStarted(h: Hub, id: nat, count: nat, ok: bool)
    requires HandleInv(h) && RunningInv(h) && StartedInv(h) && PumpEnabled(h, id)
    ensures StartedInv(PumpStep(h, id, count, ok))
  {}

  lemma StepKeepsThreads(h: Hub, step: Step)
    requires ThreadInv(h) && Enabled(h, step)
    ensures ThreadInv(Next(h, step))
  {
    match step
    case Control(choice) =>
      ControlKeepsLock(h, choice);
      ControlKeepsHandle(h, choice);
      ControlKeepsRunning(h, choice);
      ControlKeepsSource(h, choice);
      ControlKeepsStarted(h, choice);
    case Pump(id, count, ok) =>
      PumpKeepsLock(h, id, count, ok);
      PumpKeepsHandle(h, id, count, ok);
      PumpKeepsRunning(h, id, count, ok);
      PumpKeepsSource(h, id, count, ok);
      PumpKeepsStarted(h, id, count, ok);
    case _ =>
  }

  // ----- Runs -----

  // A finite run from the freshly made hub, under any interleaving.
  ghost predicate IsRun(run: seq<Hub>, steps: seq<Step>) {
    && |run| == |steps| + 1 && run[0] == INITIAL
    && forall i :: 0 <= i < |steps| ==> Enabled(run[i], steps[i]) && run[i + 1] == Next(run[i], steps[i])
  }

  lemma {:induction false} RunKeepsThreads(run: seq<Hub>, steps: seq<Step>, k: nat)
    requires IsRun(run, steps) && k < |run|
    ensures ThreadInv(run[k])
  {
    if k > 0 {
      RunKeepsThreads(run, steps, k - 1);
      StepKeepsThreads(run[k - 1], steps[k - 1]);
    }
  }

  // ----- What the threads never do -----

  // At most one pump is live at any time, and it is the one that was started last: the
  // running_ = false of an earlier pump never lands after a later one was started.
  lemma OnePump(run: seq<Hub>, steps: seq<Step>, k: nat, i: nat)
    requires IsRun(run, steps) && k < |run| && i < |run[k].pumps| && !run[k].pumps[i].Done?
    ensures i == |run[k].pumps| - 1
    ensures forall j :: 0 <= j < |run[k].pumps| && j != i ==> run[k].pumps[j].Done?
  {
    RunKeepsThreads(run, steps, k);
  }

  // A pump that has not ended can dereference source_, and a step that replaces source_
  // is only taken when every pump has ended.
  lemma SourceOutlivesPump(run: seq<Hub>, steps: seq<Step>, k: nat)
    requires IsRun(run, steps) && k < |run|
    ensures forall i :: 0 <= i < |run[k].pumps| && !run[k].pumps[i].Done? ==>
              run[k].source.Some? && (SourceOf(run[k].pumps[i]).Some? ==> SourceOf(run[k].pumps[i]) == run[k].source)
    ensures k < |steps| && run[k + 1].source != run[k].source ==>
              forall i :: 0 <= i < |run[k].pumps| ==> run[k].pumps[i].Done?
  {
    RunKeepsThreads(run, steps, k);
  }

  // pump_thread_ is never assigned while it is joinable, which would end the process.
  lemma NoJoinableOverwritten(run: seq<Hub>, steps: seq<Step>, k: nat)
    requires IsRun(run, steps) && k < |steps| && |run[k + 1].pumps| > |run[k].pumps|
    ensures run[k].handle.None? && run[k].toJoin.None?
    ensures forall i :: 0 <= i < |run[k].pumps| ==> run[k].pumps[i].Done?
  {
    RunKeepsThreads(run, steps, k);
    SpawnOnly(run[k], steps[k]);
    hide Next, Enabled, SourceInv, LockInv;
  }

  // Only the spawn in subscribe makes a thread.
  lemma SpawnOnly(h: Hub, step: Step)
    requires Enabled(h, step) && |Next(h, step).pumps| > |h.pumps|
    ensures h.control.SubSpawn?
  {}

  // The join under mu_ never waits: when subscribe comes to it, the pump has ended.
  lemma JoinUnderLockIsImmediate(run: seq<Hub>, steps: seq<Step>, k: nat)
    requires IsRun(run, steps) && k < |run| && run[k].control.SubReap?
    ensures ControlEnabled(run[k]) && forall i :: 0 <= i < |run[k].pumps| ==> run[k].pumps[i].Done?
  {
    RunKeepsThreads(run, steps, k);
  }

  // Mutual exclusion: whoever is in a critical section holds mu_.
  lemma MutualExclusion(run: seq<Hub>, steps: seq<Step>, k: nat, i: nat)
    requires IsRun(run, steps) && k < |run| && i < |run[k].pumps| && run[k].pumps[i].Send?
    ensures !Critical(run[k].control)
    ensures forall j :: 0 <= j < |run[k].pumps| && run[k].pumps[j].Send? ==> j == i
  {
    RunKeepsThreads(run, steps, k);
  }

  // ----- No deadlock -----

  // How many more steps the pump takes until it ends, once running_ is clear: a bound that
  // depends on where it is and on the callbacks the read_nal in progress will still make.
  function StepsToEnd(pc: PumpPc, n: nat): nat {
    match pc
    case Test => 3
    case Call(rest, _) => 5 + rest * (n + 3)
    case Read(_, rest, _) => 4 + rest * (n + 3)
    case Lock(_, rest, _) => 4 + rest * (n + 3) + n + 2
    case Send(_, i, rest, _) => 4 + rest * (n + 3) + 1 + if i < n then n - i else 0
    case Broke => 2
    case Stopped => 1
    case Done => 0
  }

  lemma PumpStepMakesProgress(h: Hub, id: nat, count: nat, ok: bool)
    requires PumpEnabled(h, id) && !h.running
    ensures var g := PumpStep(h, id, count, ok);
            && id < |g.pumps| && !g.running
            && StepsToEnd(g.pumps[id], |h.media.subscribers|) < StepsToEnd(h.pumps[id], |h.media.subscribers|)
            && g.media.subscribers == h.media.subscribers && g.control == h.control
            && g.handle == h.handle && g.toJoin == h.toJoin
  {
    var n := |h.media.subscribers|;
    var pc := h.pumps[id];
    if pc.Read? && pc.rest > 0 {
      assert pc.rest * (n + 3) == (pc.rest - 1) * (n + 3) + (n + 3);
    }
  }

  // The control thread is in the middle of a call.
  predicate InCall(pc: ControlPc) {
    !pc.Idle? && !pc.Gone?
  }

  // No deadlock: when the control thread cannot go on, a pump can, and it is the one that the
  // control thread waits for: the thread it joins, or the holder of mu_.
  lemma NoDeadlock(run: seq<Hub>, steps: seq<Step>, k: nat) returns (id: nat)
    requires IsRun(run, steps) && k < |run| && InCall(run[k].control) && !ControlEnabled(run[k])
    ensures PumpEnabled(run[k], id)
    ensures run[k].control.UnsJoin? ==> run[k].toJoin == Some(id)
    ensures run[k].control.DtorJoin? ==> run[k].handle == Some(id)
    ensures run[k].control.SubLock? || run[k].control.DesLock? || run[k].control.UnsLock? ==>
              run[k].mu == Owner.Pump(id)
  {
    RunKeepsThreads(run, steps, k);
    var h := run[k];
    id := if h.mu.Pump? && (h.control.SubLock? || h.control.DesLock? || h.control.UnsLock?) then h.mu.id
        else JoinedThread(h);
  }

  // The pump that holds mu_ gives it back after serving the subscribers, which do not change
  // in the meantime: each of its steps serves one more or releases the lock.
  lemma HolderReleases(h: Hub, id: nat, count: nat, ok: bool)
    requires ThreadInv(h) && PumpEnabled(h, id) && h.mu == Owner.Pump(id)
    ensures var g := PumpStep(h, id, count, ok);
            && h.pumps[id].Send? && g.media.subscribers == h.media.subscribers
            && (g.mu == Nobody
                || (g.mu == h.mu && g.pumps[id] == h.pumps[id].(i := h.pumps[id].i + 1)
                    && h.pumps[id].i < |h.media.subscribers|))
  {}

  // A join ends: however the steps are interleaved and whatever read_nal does, as long as it
  // returns, the control thread waits for no more than this many steps of the pump.
  lemma {:induction false} JoinWaitIsBounded(run: seq<Hub>, steps: seq<Step>, k: nat, m: nat)
    requires IsRun(run, steps) && k + m < |run|
    requires run[k].control.UnsJoin? || run[k].control.DtorJoin?
    requires forall j :: k <= j < k + m ==> !ControlEnabled(run[j])
    ensures run[k + m].control == run[k].control && run[k + m].media.subscribers == run[k].media.subscribers
    ensures m > 0 ==>
              && JoinedThread(run[k]) < |run[k].pumps| && JoinedThread(run[k + m]) == JoinedThread(run[k])
              && JoinedThread(run[k]) < |run[k + m].pumps|
              && StepsToEnd(run[k + m].pumps[JoinedThread(run[k])], |run[k].media.subscribers|) + m
                 <= StepsToEnd(run[k].pumps[JoinedThread(run[k])], |run[k].media.subscribers|)
  {
    if m > 0 {
      JoinWaitIsBounded(run, steps, k, m - 1);
      var i := k + m - 1;
      RunKeepsThreads(run, steps, i);
      WaitingStep(run[i], steps[i]);
      hide StepsToEnd, ThreadInv, Next, Enabled, ControlEnabled;
    }
  }

  // The thread that the control thread is joining.
  function JoinedThread(h: Hub): nat {
    if h.control.UnsJoin? && h.toJoin.Some? then h.toJoin.value
    else if h.control.DtorJoin? && h.handle.Some? then h.handle.value
    else 0
  }

  lemma WaitingStep(h: Hub, step: Step)
    requires ThreadInv(h) && Enabled(h, step)
    requires (h.control.UnsJoin? || h.control.DtorJoin?) && !ControlEnabled(h)
    ensures var g := Next(h, step);
            var id := JoinedThread(h);
            && g.control == h.control && g.media.subscribers == h.media.subscribers
            && JoinedThread(g) == id && id < |h.pumps| && id < |g.pumps|
            && StepsToEnd(g.pumps[id], |h.media.subscribers|) < StepsToEnd(h.pumps[id], |h.media.subscribers|)
  {
    PumpStepMakesProgress(h, step.id, step.count, step.ok);
    hide StepsToEnd;
  }

  // ----- What is handed to whom -----

  ghost predicate SubscriberInv(m: Media) {
    && (forall v :: v in m.from ==> v < m.streamers)
    && m.handed.Keys == m.from.Keys && m.to.Keys <= m.from.Keys
    && NoDuplicates(m.subscribers)
    && (forall v :: v in m.subscribers <==> v in m.from && v !in m.to)
  }

  // The first served subscribers have been handed everything that was broadcast since they
  // subscribed; the others, all of it but the NAL that is being handed out.
  ghost predicate HandedInv(m: Media, served: nat) {
    && SubscriberInv(m) && served <= |m.subscribers|
    && (forall k :: 0 <= k < |m.subscribers| ==> HasSeen(m, m.subscribers[k], Upto(m, served, k)))
    && (forall v :: v in m.to ==> HasSeen(m, v, m.to[v]))
  }

  function Upto(m: Media, served: nat, k: nat): int {
    if k < served then |m.log| else |m.log| - 1
  }

  // v has been handed the log from where it subscribed up to the given length.
  ghost predicate HasSeen(m: Media, v: nat, upto: int) {
    && v in m.from && v in m.handed
    && m.from[v] <= upto <= |m.log| && m.handed[v] == m.log[m.from[v]..upto]
  }

  // What was seen up to somewhere stays seen, if that part of the history stays.
  lemma SeenStays(m: Media, n: Media, w: nat, upto: int)
    requires HasSeen(m, w, upto) && n.log == m.log
    requires w in n.from && n.from[w] == m.from[w] && w in n.handed && n.handed[w] == m.handed[w]
    ensures HasSeen(n, w, upto)
  {}

  lemma AddKeepsSubscribers(m: Media, v: nat)
    requires SubscriberInv(m) && v < m.streamers && v !in m.from
    ensures SubscriberInv(AddSubscriber(m, v))
  {
    var n := AddSubscriber(m, v);
    assert n.handed.Keys == m.handed.Keys + {v} && n.from.Keys == m.from.Keys + {v};
    forall w ensures w in n.subscribers <==> w in n.from && w !in n.to {
      assert w in m.subscribers <==> w in m.from && w !in m.to;
    }
  }

  lemma AddKeepsHanded(m: Media, v: nat)
    requires HandedInv(m, |m.subscribers|) && v < m.streamers && v !in m.from
    ensures HandedInv(AddSubscriber(m, v), |m.subscribers| + 1)
  {
    hide HasSeen, SubscriberInv;
    AddKeepsSubscribers(m, v);
    var n := AddSubscriber(m, v);
    forall k | 0 <= k < |n.subscribers| ensures HasSeen(n, n.subscribers[k], |n.log|) {
      if k < |m.subscribers| {
        var w := m.subscribers[k];
        assert HasSeen(m, w, Upto(m, |m.subscribers|, k));
        SeenIsKnown(m, w, |m.log|);
        SeenStays(m, n, w, |n.log|);
      } else {
        NothingSeenYet(n, v);
      }
    }
    forall w | w in n.to ensures HasSeen(n, w, n.to[w]) {
      assert HasSeen(m, w, m.to[w]);
      SeenIsKnown(m, w, m.to[w]);
      SeenStays(m, n, w, n.to[w]);
    }
  }

  lemma SeenIsKnown(m: Media, w: nat, upto: int)
    requires HasSeen(m, w, upto)
    ensures w in m.from && w in m.handed
  {}

  lemma NothingSeenYet(m: Media, v: nat)
    requires v in m.from && m.from[v] == |m.log| && v in m.handed && m.handed[v] == []
    ensures HasSeen(m, v, |m.log|)
  {}

  lemma RemoveIsFilter(s: seq<nat>, v: nat)
    requires NoDuplicates(s)
    ensures NoDuplicates(Remove(s, v))
  {
    if s != [] {
      RemoveIsFilter(s[1..], v);
      var r := Remove(s[1..], v);
      assert forall i :: 0 <= i < |r| ==> r[i] in r && r[i] in s[1..];
    }
  }

  lemma RemoveKeepsSubscribers(m: Media, v: nat)
    requires SubscriberInv(m)
    ensures SubscriberInv(RemoveSubscriber(m, v))
  {
    RemoveIsFilter(m.subscribers, v);
    var n := RemoveSubscriber(m, v);
    assert forall w :: w in n.to <==> w in m.to || (w == v && v in m.subscribers);
    forall w ensures w in n.subscribers <==> w in n.from && w !in n.to {
      assert w in m.subscribers <==> w in m.from && w !in m.to;
    }
    assert n.to.Keys <= n.from.Keys;
  }

  lemma SubscriberHasSeenAll(m: Media, v: nat)
    requires HandedInv(m, |m.subscribers|) && v in m.subscribers
    ensures HasSeen(m, v, |m.log|)
  {
    var k :| 0 <= k < |m.subscribers| && m.subscribers[k] == v;
    assert HasSeen(m, m.subscribers[k], Upto(m, |m.subscribers|, k));
  }

  lemma RemoveKeepsHanded(m: Media, v: nat)
    requires HandedInv(m, |m.subscribers|)
    ensures HandedInv(RemoveSubscriber(m, v), |RemoveSubscriber(m, v).subscribers|)
  {
    var n := RemoveSubscriber(m, v);
    RemoveKeepsSubscribers(m, v);
    hide SubscriberInv;
    forall k | 0 <= k < |n.subscribers| ensures HasSeen(n, n.subscribers[k], |n.log|) {
      assert n.subscribers[k] in m.subscribers;
      SubscriberHasSeenAll(m, n.subscribers[k]);
    }
    forall w | w in n.to ensures HasSeen(n, w, n.to[w]) {
      if w in m.to && !(w == v && v in m.subscribers) {
        assert HasSeen(m, w, m.to[w]);
      } else {
        SubscriberHasSeenAll(m, v);
      }
    }
  }

  // Neither a new source nor a new streamer changes what was handed out.
  lemma CountersKeepHanded(m: Media, position: nat, streamers: nat, served: nat)
    requires HandedInv(m, served) && streamers >= m.streamers
    ensures HandedInv(m.(position := position, streamers := streamers), served)
  {
    var n := m.(position := position, streamers := streamers);
    forall k | 0 <= k < |n.subscribers| ensures HasSeen(n, n.subscribers[k], Upto(n, served, k)) {
      assert HasSeen(m, m.subscribers[k], Upto(m, served, k));
    }
    forall w | w in n.to ensures HasSeen(n, w, n.to[w]) {
      assert HasSeen(m, w, m.to[w]);
    }
  }

  lemma AnnounceKeepsHanded(m: Media, source: nat)
    requires HandedInv(m, |m.subscribers|)
    ensures HandedInv(Announce(m, source), 0)
  {
    var n := Announce(m, source);
    assert n.log[..|m.log|] == m.log;
    forall k | 0 <= k < |n.subscribers| ensures HasSeen(n, n.subscribers[k], Upto(n, 0, k)) {
      assert HasSeen(m, m.subscribers[k], Upto(m, |m.subscribers|, k));
      assert n.log[n.from[n.subscribers[k]]..|m.log|] == m.log[m.from[m.subscribers[k]]..|m.log|];
    }
    forall w | w in n.to ensures HasSeen(n, w, n.to[w]) {
      assert HasSeen(m, w, m.to[w]);
      assert n.log[n.from[w]..n.to[w]] == m.log[m.from[w]..m.to[w]];
    }
  }

  lemma SeenOneMore(m: Media, v: nat)
    requires HasSeen(m, v, |m.log| - 1) && m.log != []
    ensures m.handed[v] + [m.log[|m.log| - 1]] == m.log[m.from[v]..|m.log|]
  {}

  lemma HandToKeepsHanded(m: Media, i: nat)
    requires i < |m.subscribers| && HandedInv(m, i)
    ensures HandedInv(HandTo(m, i), i + 1)
  {
    var n := HandTo(m, i);
    var v := m.subscribers[i];
    assert HasSeen(m, v, Upto(m, i, i));
    assert m.log != [];
    SeenOneMore(m, v);
    assert HasSeen(n, v, |n.log|);
    hide HasSeen;
    forall k | 0 <= k < |n.subscribers| ensures HasSeen(n, n.subscribers[k], Upto(n, i + 1, k)) {
      if k != i {
        assert HasSeen(m, m.subscribers[k], Upto(m, i, k));
        SeenStays(m, n, m.subscribers[k], Upto(m, i, k));
      }
    }
    forall w | w in n.to ensures HasSeen(n, w, n.to[w]) {
      assert HasSeen(m, w, m.to[w]);
      SeenStays(m, n, w, m.to[w]);
    }
  }

  // How many subscribers the broadcast in progress has served; all of them if there is none.
  function Served(h: Hub): nat {
    if h.mu.Pump? && h.mu.id < |h.pumps| && h.pumps[h.mu.id].Send? then h.pumps[h.mu.id].i
    else |h.media.subscribers|
  }

  // The streamer of a subscribe in progress has not subscribed before.
  ghost predicate DeliveryInv(h: Hub) {
    && HandedInv(h.media, Served(h))
    && (Joining(h.control) ==> h.control.v < h.media.streamers && h.control.v !in h.media.from)
  }

  predicate Joining(pc: ControlPc) {
    pc.SubLock? || pc.SubTest? || pc.SubReap? || pc.SubStart? || pc.SubRun? || pc.SubSpawn? || pc.SubPush?
  }

  lemma ControlKeepsDelivery(h: Hub, choice: bool)
    requires LockInv(h) && DeliveryInv(h) && ControlEnabled(h)
    ensures DeliveryInv(ControlStep(h, choice))
  {
    hide HandedInv, AddSubscriber, RemoveSubscriber;
    var m := h.media;
    match h.control
    case SubStart(v) => CountersKeepHanded(m, 0, m.streamers, Served(h));
    case SubPush(v) =>
      AddKeepsHanded(m, v);
      AddedOne(m, v);
    case UnsErase(v) => RemoveKeepsHanded(m, v);
    case _ =>
  }

  lemma AddedOne(m: Media, v: nat)
    ensures |AddSubscriber(m, v).subscribers| == |m.subscribers| + 1
  {}

  lemma PumpKeepsDelivery(h: Hub, id: nat, count: nat, ok: bool)
    requires LockInv(h) && DeliveryInv(h) && PumpEnabled(h, id)
    ensures DeliveryInv(PumpStep(h, id, count, ok))
  {
    hide HandedInv, Announce, HandTo;
    var m := h.media;
    AnnouncedTo(m);
    match h.pumps[id]
    case Lock(src, _, _) => AnnounceKeepsHanded(m, src);
    case Send(_, i, _, _) =>
      if i < |m.subscribers| {
        HandToKeepsHanded(m, i);
      } else {
        ServedAll(m, i);
      }
    case _ =>
  }

  lemma AnnouncedTo(m: Media)
    ensures forall src :: Announce(m, src).(log := m.log, position := m.position) == m
    ensures forall i | 0 <= i < |m.subscribers| :: HandTo(m, i).(handed := m.handed) == m
  {}

  lemma ServedAll(m: Media, i: nat)
    requires HandedInv(m, i) && i >= |m.subscribers|
    ensures i == |m.subscribers|
  {}

  lemma StepKeepsDelivery(h: Hub, step: Step)
    requires ThreadInv(h) && DeliveryInv(h) && Enabled(h, step)
    ensures DeliveryInv(Next(h, step))
  {
    hide HandedInv, HandleInv, RunningInv, SourceInv, StartedInv, ControlStep, PumpStep;
    match step
    case Subscribe(v) =>
      CountersKeepHanded(h.media, h.media.position, v + 1, Served(h));
      KnownAreBelow(h.media, Served(h));
    case Control(choice) => ControlKeepsDelivery(h, choice);
    case Pump(id, count, ok) => PumpKeepsDelivery(h, id, count, ok);
    case _ =>
  }

  lemma KnownAreBelow(m: Media, served: nat)
    requires HandedInv(m, served)
    ensures forall v :: v in m.from ==> v < m.streamers
  {}

  lemma {:induction false} RunKeepsDelivery(run: seq<Hub>, steps: seq<Step>, k: nat)
    requires IsRun(run, steps) && k < |run|
    ensures DeliveryInv(run[k])
  {
    if k > 0 {
      RunKeepsDelivery(run, steps, k - 1);
      RunKeepsThreads(run, steps, k - 1);
      StepKeepsDelivery(run[k - 1], steps[k - 1]);
      hide DeliveryInv, ThreadInv;
    }
  }

  // ----- Source order -----

  // Each source is on the air from its first NAL on, without a gap, and never again once a
  // later source has been.
  ghost predicate LogInv(h: Hub) {
    var log := h.media.log;
    && (forall p :: 0 <= p < |log| ==> log[p].source < h.sources)
    && (forall p :: 0 <= p < |log| && h.source.Some? ==> log[p].source <= h.source.value)
    && (forall p :: 0 <= p < |log| ==> InOrder(log, p))
    && (h.source.Some? ==>
          h.source.value < h.sources
          && h.media.position == if log != [] && log[|log| - 1].source == h.source.value
                                 then log[|log| - 1].index + 1 else 0)
  }

  // The entry behind which p stands is the NAL before it, or of an earlier source.
  ghost predicate InOrder(log: seq<Entry>, p: nat)
    requires p < |log|
  {
    if p > 0 && log[p - 1].source == log[p].source then log[p].index == log[p - 1].index + 1
    else log[p].index == 0 && (p > 0 ==> log[p - 1].source < log[p].source)
  }

  lemma StepKeepsLog(h: Hub, step: Step)
    requires SourceInv(h) && LogInv(h) && Enabled(h, step)
    ensures LogInv(Next(h, step))
  {
    if step.Pump? && h.pumps[step.id].Lock? {
      AnnounceKeepsLog(h, step);
    } else {
      LogStands(h, step);
      hide SourceInv, Next, Enabled;
    }
  }

  lemma LogStands(h: Hub, step: Step)
    requires Enabled(h, step) && !(step.Pump? && h.pumps[step.id].Lock?)
    ensures var g := Next(h, step);
            && g.media.log == h.media.log
            && if step.Control? && h.control.SubStart?
               then g.sources == h.sources + 1 && (g.source.Some? ==>
                   g.source.value == h.sources && g.media.position == 0)
               else g.sources == h.sources && g.source == h.source && g.media.position == h.media.position
  {}

  lemma AnnounceKeepsLog(h: Hub, step: Step)
    requires SourceInv(h) && LogInv(h) && Enabled(h, step) && step.Pump? && h.pumps[step.id].Lock?
    ensures LogInv(Next(h, step))
  {
    var log := h.media.log;
    var g := Next(h, step);
    var src := h.pumps[step.id].source;
    assert SourceOf(h.pumps[step.id]) == Some(src) == h.source;
    assert g.media.log == log + [Entry(src, h.media.position)];
    forall p | 0 <= p < |g.media.log| ensures InOrder(g.media.log, p) {
      if p < |log| {
        assert InOrder(log, p);
      }
    }
  }

  // ----- The last subscriber -----

  // running_ is set only while somebody is subscribed, but within the critical sections that
  // bring that about.
  ghost predicate StopInv(h: Hub) {
    h.running && !h.control.SubSpawn? && !h.control.SubPush? && !h.control.UnsTest? && !h.control.UnsStop?
    ==> h.media.subscribers != []
  }

  lemma StepKeepsStop(h: Hub, step: Step)
    requires ThreadInv(h) && StopInv(h) && Enabled(h, step)
    ensures StopInv(Next(h, step))
  {}

  lemma {:induction false} RunKeepsStopAndLog(run: seq<Hub>, steps: seq<Step>, k: nat)
    requires IsRun(run, steps) && k < |run|
    ensures StopInv(run[k]) && LogInv(run[k])
  {
    if k > 0 {
      RunKeepsStopAndLog(run, steps, k - 1);
      RunKeepsThreads(run, steps, k - 1);
      StepKeepsStop(run[k - 1], steps[k - 1]);
      StepKeepsLog(run[k - 1], steps[k - 1]);
      hide StopInv, LogInv, LockInv, HandleInv, RunningInv, SourceInv, StartedInv, Next, Enabled;
    }
  }

  // When nobody is subscribed and no call is in progress, so in particular when the
  // unsubscribe of the last subscriber has returned, no pump is live and no source is started.
  lemma NobodyWatchesNothingRuns(run: seq<Hub>, steps: seq<Step>, k: nat)
    requires IsRun(run, steps) && k < |run|
    requires (run[k].control.Idle? && run[k].media.subscribers == []) || run[k].control.Gone?
    ensures !run[k].running && !run[k].started
    ensures forall i :: 0 <= i < |run[k].pumps| ==> run[k].pumps[i].Done?
  {
    RunKeepsThreads(run, steps, k);
    RunKeepsStopAndLog(run, steps, k);
  }

  // Each streamer is handed exactly the run of NALs that was broadcast between its subscribe
  // and its unsubscribe critical section, in order; so all streamers see the same.
  lemma HandedIsSlice(run: seq<Hub>, steps: seq<Step>, k: nat, v: nat)
    requires IsRun(run, steps) && k < |run| && v in run[k].media.handed
    ensures var m := run[k].media;
            && v in m.from
            && (v in m.to ==> m.from[v] <= m.to[v] <= |m.log| && m.handed[v] == m.log[m.from[v]..m.to[v]])
            && (v in m.subscribers && !run[k].mu.Pump? ==> m.from[v] <= |m.log| && m.handed[v] == m.log[m.from[v]..])
            && (v in m.to || v in m.subscribers)
  {
    RunKeepsDelivery(run, steps, k);
    var m := run[k].media;
    if v in m.to {
      assert HasSeen(m, v, m.to[v]);
    } else if !run[k].mu.Pump? {
      SubscriberHasSeenAll(m, v);
    }
  }

  // History is never rewritten: the log only grows, and once a streamer has left it is handed
  // nothing more, whatever happens later.
  lemma {:induction false} NothingAfterUnsubscribe(run: seq<Hub>, steps: seq<Step>, k: nat, j: nat, v: nat)
    requires IsRun(run, steps) && k <= j < |run| && v in run[k].media.to && v in run[k].media.handed
    ensures v in run[j].media.to && v in run[j].media.handed && run[j].media.handed[v] == run[k].media.handed[v]
    ensures run[k].media.log <= run[j].media.log
    decreases j
  {
    hide *;
    if k < j {
      NothingAfterUnsubscribe(run, steps, k, j - 1, v);
      RunKeepsDelivery(run, steps, j - 1);
      RunLength(run, steps);
      StepOfRun(run, steps, j - 1);
      StepKeepsHistory(run[j - 1], steps[j - 1], v);
    }
  }

  lemma RunLength(run: seq<Hub>, steps: seq<Step>)
    requires IsRun(run, steps)
    ensures |run| == |steps| + 1
  {}

  lemma StepOfRun(run: seq<Hub>, steps: seq<Step>, i: nat)
    requires IsRun(run, steps) && i < |steps|
    ensures |run| == |steps| + 1 && Enabled(run[i], steps[i]) && run[i + 1] == Next(run[i], steps[i])
  {}

  lemma StepKeepsHistory(h: Hub, step: Step, v: nat)
    requires DeliveryInv(h) && Enabled(h, step) && v in h.media.to && v in h.media.handed
    ensures var g := Next(h, step);
            && v in g.media.to && v in g.media.handed && g.media.handed[v] == h.media.handed[v]
            && h.media.log <= g.media.log
  {
    hide DeliveryInv, Joining, ControlStep, PumpStep, ControlEnabled, PumpEnabled;
    HasLeft(h, v);
    match step
    case Control(choice) => ControlHistory(h, choice, v);
    case Pump(id, count, ok) => PumpHistory(h, id, count, ok, v);
    case _ =>
  }

  // Who has left is not subscribed and does not come back.
  lemma HasLeft(h: Hub, v: nat)
    requires DeliveryInv(h) && v in h.media.to
    ensures v in h.media.from && v !in h.media.subscribers && (Joining(h.control) ==> h.control.v != v)
  {}

  // The history of one streamer goes on: nothing is taken back, and what it was handed does not
  // change.
  ghost predicate HistoryKept(m: Media, n: Media, v: nat) {
    && m.log <= n.log && v in n.to && v in n.handed && v in m.handed && n.handed[v] == m.handed[v]
  }

  lemma ControlHistory(h: Hub, choice: bool, v: nat)
    requires ControlEnabled(h) && v in h.media.to && v in h.media.handed
    requires Joining(h.control) ==> h.control.v != v
    ensures HistoryKept(h.media, ControlStep(h, choice).media, v)
  {}

  lemma PumpHistory(h: Hub, id: nat, count: nat, ok: bool, v: nat)
    requires PumpEnabled(h, id) && v in h.media.to && v in h.media.handed && v !in h.media.subscribers
    ensures HistoryKept(h.media, PumpStep(h, id, count, ok).media, v)
  {}

  // ----- Who is subscribed at all -----

  // In this step subscribe decides to add the streamer: it finds running_ set, or the source starts.
  predicate Grants(h: Hub, step: Step, v: nat) {
    step.Control? && ((h.control == SubTest(v) && h.running) || (h.control == SubStart(v) && step.choice))
  }

  ghost predicate Granted(run: seq<Hub>, steps: seq<Step>, k: nat, v: nat)
    requires k <= |steps| < |run|
  {
    exists j :: 0 <= j < k && Grants(run[j], steps[j], v)
  }

  // The streamer was added, or is about to be.
  predicate Entered(h: Hub, v: nat) {
    v in h.media.from || h.control == SubRun(v) || h.control == SubSpawn(v) || h.control == SubPush(v)
  }

  lemma StepEnters(h: Hub, step: Step, v: nat)
    requires Enabled(h, step) && (Joining(h.control) ==> h.control.v !in h.media.from)
    ensures Entered(Next(h, step), v) <==> Entered(h, v) || Grants(h, step, v)
  {
    hide ControlStep, PumpStep, ControlEnabled, PumpEnabled;
    match step
    case Control(choice) => ControlEnters(h, choice, v);
    case Pump(id, count, ok) => PumpEnters(h, id, count, ok, v);
    case _ =>
  }

  lemma ControlEnters(h: Hub, choice: bool, v: nat)
    requires ControlEnabled(h) && (Joining(h.control) ==> h.control.v !in h.media.from)
    ensures Entered(ControlStep(h, choice), v) <==> Entered(h, v) || Grants(h, Step.Control(choice), v)
  {}

  lemma PumpEnters(h: Hub, id: nat, count: nat, ok: bool, v: nat)
    requires PumpEnabled(h, id)
    ensures Entered(PumpStep(h, id, count, ok), v) <==> Entered(h, v)
  {}

  lemma {:induction false} EnteredIff(run: seq<Hub>, steps: seq<Step>, k: nat, v: nat)
    requires IsRun(run, steps) && k <= |steps| < |run|
    ensures Entered(run[k], v) <==> Granted(run, steps, k, v)
  {
    hide IsRun, Entered, Grants, Next, Enabled, HandedInv;
    if k == 0 {
      NobodyEntered(run, steps, v);
    } else {
      EnteredIff(run, steps, k - 1, v);
      StepOfRun(run, steps, k - 1);
      RunKeepsDelivery(run, steps, k - 1);
      StepEnters(run[k - 1], steps[k - 1], v);
    }
  }

  lemma NobodyEntered(run: seq<Hub>, steps: seq<Step>, v: nat)
    requires IsRun(run, steps)
    ensures !Entered(run[0], v)
  {}

  // The answer of subscribe: when it is over, its streamer was added if and only if running_ was
  // set when subscribe read it, or was clear and the source started.
  lemma AddedIff(run: seq<Hub>, steps: seq<Step>, k: nat, v: nat)
    requires IsRun(run, steps) && k <= |steps| < |run| && run[k].control.Idle?
    ensures v in run[k].media.from <==> Granted(run, steps, k, v)
  {
    hide IsRun, Granted;
    EnteredIff(run, steps, k, v);
  }

  // ----- Who is being served -----

  // In this step a read_nal returns false to its pump.
  predicate ReturnsFalse(h: Hub, step: Step) {
    && step.Pump? && step.id < |h.pumps| && h.pumps[step.id].Read?
    && h.pumps[step.id].rest == 0 && !h.pumps[step.id].ok
  }

  // A read_nal of this pump has returned false.
  ghost predicate GaveUp(run: seq<Hub>, steps: seq<Step>, k: nat, id: nat)
    requires k <= |steps| < |run|
  {
    exists j :: 0 <= j < k && ReturnsFalse(run[j], steps[j]) && steps[j].id == id
  }

  // No read_nal has returned false, as with a looping file.
  ghost predicate NeverEnds(run: seq<Hub>, steps: seq<Step>, k: nat)
    requires k <= |steps| < |run|
  {
    forall j :: 0 <= j < k ==> !ReturnsFalse(run[j], steps[j])
  }

  predicate InLoop(pc: PumpPc) {
    pc.Test? || pc.Call? || pc.Read? || pc.Lock? || pc.Send?
  }

  function LastPump(h: Hub): nat {
    if h.pumps == [] then 0 else |h.pumps| - 1
  }

  // gone: the last pump was told that its source has ended. If it was not, running_ is set while
  // somebody is subscribed, and the pump leaves its loop only when running_ is clear.
  ghost predicate ServedInv(h: Hub, gone: bool) {
    if gone then h.pumps != [] && !InLoop(h.pumps[|h.pumps| - 1])
    else
      && (forall i :: 0 <= i < |h.pumps| ==> (h.pumps[i].Broke? || h.pumps[i].Stopped? ==> !h.running))
      && (h.media.subscribers != [] && !Ending(h.control) ==> h.running)
      && (h.control.UnsStop? || h.control.UnsMove? ==> h.media.subscribers == [])
      && (h.control.SubPush? ==> h.running)
  }

  lemma ControlKeepsServed(h: Hub, choice: bool, gone: bool)
    requires HandleInv(h) && RunningInv(h) && ServedInv(h, gone) && ControlEnabled(h)
    ensures ServedInv(ControlStep(h, choice), gone && !h.control.SubSpawn?)
  {}

  lemma PumpKeepsServed(h: Hub, id: nat, count: nat, ok: bool, gone: bool)
    requires HandleInv(h) && SourceInv(h) && ServedInv(h, gone) && PumpEnabled(h, id)
    ensures ServedInv(PumpStep(h, id, count, ok), gone || ReturnsFalse(h, Step.Pump(id, count, ok)))
  {}

  lemma StepKeepsServed(h: Hub, step: Step, gone: bool)
    requires ThreadInv(h) && ServedInv(h, gone) && Enabled(h, step)
    ensures ServedInv(Next(h, step), (gone || ReturnsFalse(h, step)) && !(step.Control? && h.control.SubSpawn?))
  {
    match step
    case Control(choice) => ControlKeepsServed(h, choice, gone);
    case Pump(id, count, ok) => PumpKeepsServed(h, id, count, ok, gone);
    case _ =>
  }

  // Only the last pump can be told anything; and a pump that has just been spawned was not.
  lemma OnlyLastIsTold(h: Hub, step: Step)
    requires ThreadInv(h) && Enabled(h, step) && ReturnsFalse(h, step)
    ensures step.id == LastPump(h) && |Next(h, step).pumps| == |h.pumps|
  {}

  lemma PumpsGrow(h: Hub, step: Step)
    requires Enabled(h, step)
    ensures |Next(h, step).pumps| == |h.pumps| + if step.Control? && h.control.SubSpawn? then 1 else 0
  {}

  lemma {:induction false} NotYetSpawned(run: seq<Hub>, steps: seq<Step>, k: nat, id: nat)
    requires IsRun(run, steps) && k <= |steps| && id >= |run[k].pumps|
    ensures !GaveUp(run, steps, k, id)
  {
    if k > 0 {
      PumpsGrow(run[k - 1], steps[k - 1]);
      NotYetSpawned(run, steps, k - 1, id);
    }
  }

  lemma {:induction false} RunKeepsServed(run: seq<Hub>, steps: seq<Step>, k: nat)
    requires IsRun(run, steps) && k <= |steps|
    ensures ServedInv(run[k], GaveUp(run, steps, k, LastPump(run[k])))
  {
    hide ServedInv, ThreadInv, Next, Enabled, ReturnsFalse, IsRun;
    RunLength(run, steps);
    if k > 0 {
      var h, step := run[k - 1], steps[k - 1];
      RunKeepsServed(run, steps, k - 1);
      RunKeepsThreads(run, steps, k - 1);
      StepOfRun(run, steps, k - 1);
      var gone := GaveUp(run, steps, k - 1, LastPump(h));
      StepKeepsServed(h, step, gone);
      PumpsGrow(h, step);
      if ReturnsFalse(h, step) {
        OnlyLastIsTold(h, step);
      }
      if step.Control? && h.control.SubSpawn? {
        NotYetSpawned(run, steps, k - 1, LastPump(run[k]));
        assert !ReturnsFalse(h, step);
      }
      assert GaveUp(run, steps, k, LastPump(run[k])) ==
             ((gone || ReturnsFalse(h, step)) && !(step.Control? && h.control.SubSpawn?));
    } else {
      NothingServed(run, steps);
    }
  }

  lemma NothingServed(run: seq<Hub>, steps: seq<Step>)
    requires IsRun(run, steps)
    ensures ServedInv(run[0], false) && !GaveUp(run, steps, 0, LastPump(run[0]))
  {}

  // All that v was handed, or will be of the NAL on the air, comes from one source; while v is
  // subscribed, from the source in source_.
  ghost predicate OneSourceInv(h: Hub) {
    OneSource(h.media, h.source)
  }

  ghost predicate OneSource(m: Media, source: Option<nat>) {
    && (forall v :: v in m.subscribers ==> source.Some? && v in m.from)
    && (forall v :: v in m.subscribers ==> Single(m.log, m.from[v], source.value))
    && (forall v :: v in m.to && v in m.from ==> SomeSingle(m.log, m.from[v], m.to[v]))
  }

  ghost predicate Single(log: seq<Entry>, from: nat, source: nat) {
    forall p :: from <= p < |log| ==> log[p].source == source
  }

  ghost predicate SomeSingle(log: seq<Entry>, from: nat, to: nat) {
    to <= |log| && forall p, q :: from <= p < to && from <= q < to ==> log[p].source == log[q].source
  }

  lemma AddKeepsOneSource(m: Media, source: Option<nat>, v: nat)
    requires OneSource(m, source) && source.Some? && v !in m.from && v !in m.to
    ensures OneSource(AddSubscriber(m, v), source)
  {
    hide SomeSingle;
    assert Single(m.log, |m.log|, source.value);
    hide Single;
    var n := AddSubscriber(m, v);
    forall w | w in n.to && w in n.from ensures SomeSingle(n.log, n.from[w], n.to[w]) {
      assert w != v && SomeSingle(m.log, m.from[w], m.to[w]);
    }
  }

  lemma RemoveKeepsOneSource(m: Media, source: Option<nat>, v: nat)
    requires OneSource(m, source)
    ensures OneSource(RemoveSubscriber(m, v), source)
  {
    var n := RemoveSubscriber(m, v);
    if v in m.subscribers {
      SingleIsSome(m.log, m.from[v], source.value);
    }
    hide Single, SomeSingle;
    forall w | w in n.to && w in n.from ensures SomeSingle(n.log, n.from[w], n.to[w]) {
      assert w in m.to ==> SomeSingle(m.log, m.from[w], m.to[w]);
    }
  }

  lemma SingleIsSome(log: seq<Entry>, from: nat, source: nat)
    requires Single(log, from, source)
    ensures SomeSingle(log, from, |log|)
  {}

  lemma ControlKeepsOneSource(h: Hub, choice: bool)
    requires DeliveryInv(h) && OneSourceInv(h) && RunningInv(h) && ServedInv(h, false) && SourceInv(h)
              && ControlEnabled(h)
    ensures OneSourceInv(ControlStep(h, choice))
  {
    hide AddSubscriber, RemoveSubscriber, Single, SomeSingle;
    match h.control
    case SubStart(v) =>
      assert h.media.subscribers == [];
    case SubPush(v) =>
      Newcomer(h, v);
      AddKeepsOneSource(h.media, h.source, v);
    case UnsErase(v) =>
      RemoveKeepsOneSource(h.media, h.source, v);
    case _ =>
  }

  lemma Newcomer(h: Hub, v: nat)
    requires DeliveryInv(h) && RunningInv(h) && ServedInv(h, false) && SourceInv(h) && h.control == SubPush(v)
    ensures h.source.Some? && v !in h.media.from && v !in h.media.to
  {}

  lemma PumpKeepsOneSource(h: Hub, id: nat, count: nat, ok: bool)
    requires OneSourceInv(h) && SourceInv(h) && PumpEnabled(h, id)
    ensures OneSourceInv(PumpStep(h, id, count, ok))
  {
    if h.pumps[id].Lock? {
      var src := h.pumps[id].source;
      assert SourceOf(h.pumps[id]) == Some(src) == h.source;
      var m := h.media;
      var n := Announce(m, src);
      forall v | v in m.to && v in m.from ensures SomeSingle(n.log, n.from[v], n.to[v]) {
        assert SomeSingle(m.log, m.from[v], m.to[v]);
      }
      forall v | v in m.subscribers ensures Single(n.log, n.from[v], src) {
        assert Single(m.log, m.from[v], src);
      }
    }
  }

  lemma {:induction false} RunKeepsOneSource(run: seq<Hub>, steps: seq<Step>, k: nat)
    requires IsRun(run, steps) && k <= |steps| && NeverEnds(run, steps, k)
    ensures OneSourceInv(run[k])
  {
    hide OneSourceInv, ServedInv, LockInv, HandleInv, RunningInv, SourceInv, DeliveryInv, IsRun;
    RunLength(run, steps);
    if k > 0 {
      RunKeepsOneSource(run, steps, k - 1);
      RunKeepsThreads(run, steps, k - 1);
      RunKeepsDelivery(run, steps, k - 1);
      RunKeepsServed(run, steps, k - 1);
      StepOfRun(run, steps, k - 1);
      var h := run[k - 1];
      assert !GaveUp(run, steps, k - 1, LastPump(h));
      match steps[k - 1]
      case Control(choice) => ControlKeepsOneSource(h, choice);
      case Pump(id, count, ok) => PumpKeepsOneSource(h, id, count, ok);
      case _ => BeginKeepsOneSource(h, steps[k - 1]);
    } else {
      NothingHandedYet(run, steps);
    }
  }

  lemma NothingHandedYet(run: seq<Hub>, steps: seq<Step>)
    requires IsRun(run, steps)
    ensures OneSourceInv(run[0])
  {}

  lemma BeginKeepsOneSource(h: Hub, step: Step)
    requires Enabled(h, step) && !step.Control? && !step.Pump? && OneSourceInv(h)
    ensures OneSourceInv(Next(h, step))
  {}

  // Whoever is subscribed while no call is in progress is being served, which is to say that
  // running_ is set and the pump that pump_thread_ stands for is in its loop, if and only if
  // no read_nal of the pump that was spawned last has returned false.
  lemma ServedIff(run: seq<Hub>, steps: seq<Step>, k: nat)
    requires IsRun(run, steps) && k <= |steps|
    requires run[k].control.Idle? && run[k].media.subscribers != []
    ensures var h := run[k];
            var last := |h.pumps| - 1;
            && last >= 0
            && ((h.running && h.handle == Some(last) && InLoop(h.pumps[last])) <==> !GaveUp(run, steps, k, last))
  {
    RunKeepsThreads(run, steps, k);
    RunKeepsServed(run, steps, k);
    hide LockInv, StartedInv, IsRun, GaveUp;
  }

  // So with a source that has not ended, everybody who is subscribed is being served.
  lemma WatchedIsRunning(run: seq<Hub>, steps: seq<Step>, k: nat)
    requires IsRun(run, steps) && k <= |steps| && NeverEnds(run, steps, k)
    requires run[k].control.Idle? && run[k].media.subscribers != []
    ensures run[k].running && run[k].handle.Some? && run[k].handle.value < |run[k].pumps|
    ensures InLoop(run[k].pumps[run[k].handle.value])
  {
    ServedIff(run, steps, k);
  }

  // For any source: between calls, running_ is set exactly while the pump that pump_thread_
  // stands for has not ended; a subscriber that is left behind is left behind by its pump.
  lemma RunningTellsPump(run: seq<Hub>, steps: seq<Step>, k: nat)
    requires IsRun(run, steps) && k < |run| && run[k].control.Idle?
    ensures var h := run[k];
            && (h.handle.Some? ==> h.handle.value < |h.pumps|)
            && (h.running <==> h.handle.Some? && !h.pumps[h.handle.value].Done?)
            && (h.media.subscribers != [] && !h.running ==> forall i :: 0 <= i < |h.pumps| ==> h.pumps[i].Done?)
  {
    RunKeepsThreads(run, steps, k);
  }

  // For any source: what a streamer is handed are stretches of the NALs of one source after the
  // other, in the order in which each delivers them, without a gap, and each but the first from
  // the first NAL of its source on.
  lemma HandedInOrder(run: seq<Hub>, steps: seq<Step>, k: nat, v: nat, p: nat)
    requires IsRun(run, steps) && k < |run| && v in run[k].media.handed && p + 1 < |run[k].media.handed[v]|
    ensures var one, next := run[k].media.handed[v][p], run[k].media.handed[v][p + 1];
            || (one.source == next.source && next.index == one.index + 1)
            || (one.source < next.source && next.index == 0)
  {
    RunKeepsStopAndLog(run, steps, k);
    RunKeepsDelivery(run, steps, k);
    HandedLength(run[k], v);
    InOrderAll(run[k]);
    hide DeliveryInv, LogInv, StopInv, IsRun;
    var m := run[k].media;
    var q := m.from[v] + p;
    assert m.handed[v][p] == m.log[q] && m.handed[v][p + 1] == m.log[q + 1];
    assert InOrder(m.log, q + 1);
  }

  // Consecutive NALs of one source.
  function Stretch(source: nat, first: nat, n: nat): seq<Entry> {
    seq(n, i requires 0 <= i < n => Entry(source, first + i))
  }

  lemma {:induction false} SingleIsStretch(log: seq<Entry>, from: nat, to: nat)
    requires from < to <= |log| && forall p :: 0 <= p < |log| ==> InOrder(log, p)
    requires forall p, q :: from <= p < to && from <= q < to ==> log[p].source == log[q].source
    ensures log[from..to] == Stretch(log[from].source, log[from].index, to - from)
  {
    if from + 1 < to {
      SingleIsStretch(log, from, to - 1);
      assert log[from..to] == log[from..to - 1] + [log[to - 1]];
      assert log[from..to - 1][to - 2 - from] == log[to - 2];
      assert InOrder(log, to - 1) && log[to - 2].source == log[to - 1].source;
    }
  }

  // With a source that never ends, what a streamer is handed is a gapless stretch of the NALs
  // of a single source, in the order in which that source delivers them.
  lemma HandedIsStretch(run: seq<Hub>, steps: seq<Step>, k: nat, v: nat) returns (source: nat, first: nat)
    requires IsRun(run, steps) && k <= |steps| && NeverEnds(run, steps, k) && v in run[k].media.handed
    ensures run[k].media.handed[v] == Stretch(source, first, |run[k].media.handed[v]|)
  {
    RunKeepsOneSource(run, steps, k);
    RunKeepsStopAndLog(run, steps, k);
    RunKeepsDelivery(run, steps, k);
    var m := run[k].media;
    var from := m.from[v];
    var to := from + |m.handed[v]|;
    HandedLength(run[k], v);
    hide *;
    if from < to {
      OneSourceSpan(run[k], v, to);
      InOrderAll(run[k]);
      SingleIsStretch(m.log, from, to);
      source, first := m.log[from].source, m.log[from].index;
    } else {
      source, first := 0, 0;
      StretchOfNothing();
    }
  }

  lemma StretchOfNothing()
    ensures Stretch(0, 0, 0) == []
  {}

  lemma HandedLength(h: Hub, v: nat)
    requires DeliveryInv(h) && v in h.media.handed
    ensures v in h.media.from
    ensures var m := h.media;
            var to := m.from[v] + |m.handed[v]|;
            && to <= |m.log| && m.handed[v] == m.log[m.from[v]..to]
            && (v in m.to ==> to == m.to[v]) && (v in m.to || v in m.subscribers)
  {
    var m := h.media;
    if v in m.to {
      assert HasSeen(m, v, m.to[v]);
    } else {
      assert v in m.subscribers;
      var i :| 0 <= i < |m.subscribers| && m.subscribers[i] == v;
      assert HasSeen(m, m.subscribers[i], Upto(m, Served(h), i));
    }
  }

  lemma OneSourceSpan(h: Hub, v: nat, to: nat)
    requires OneSourceInv(h) && v in h.media.from && to <= |h.media.log|
    requires (v in h.media.to && to == h.media.to[v]) || (v !in h.media.to && v in h.media.subscribers)
    ensures forall p, q :: h.media.from[v] <= p < to && h.media.from[v] <= q < to ==>
              h.media.log[p].source == h.media.log[q].source
  {
    if v in h.media.to {
      assert SomeSingle(h.media.log, h.media.from[v], h.media.to[v]);
    } else {
      assert Single(h.media.log, h.media.from[v], h.source.value);
    }
  }

  lemma InOrderAll(h: Hub)
    requires LogInv(h)
    ensures forall p :: 0 <= p < |h.media.log| ==> InOrder(h.media.log, p)
  {}

  // A run and one more step.
  lemma Extend(run: seq<Hub>, steps: seq<Step>, step: Step, next: Hub) returns (run': seq<Hub>, steps': seq<Step>)
    requires IsRun(run, steps) && Enabled(run[|run| - 1], step) && next == Next(run[|run| - 1], step)
    ensures IsRun(run', steps') && run' == run + [next] && steps' == steps + [step] && run'[|run'| - 1] == next
  {
    hide Enabled, Next;
    run', steps' := run + [next], steps + [step];
    forall i | 0 <= i < |steps'| ensures Enabled(run'[i], steps'[i]) && run'[i + 1] == Next(run'[i], steps'[i]) {
      if i < |steps| {
        assert Enabled(run[i], steps[i]) && run[i + 1] == Next(run[i], steps[i]);
      }
    }
  }

  // A first subscribe, uninterrupted.
  lemma FirstSubscribe() returns (run: seq<Hub>, steps: seq<Step>)
    ensures IsRun(run, steps)
    ensures run[|run| - 1] == Hub(Nobody, true, Some(0), None, Some(0), 1, true, [Test], Idle,
                                  Media(0, [0], 1, [], map[0 := []], map[0 := 0], map[]))
  {
    var go := Step.Control(true);
    var m := Media(0, [], 1, [], map[], map[], map[]);
    var h := Hub(Nobody, false, None, None, None, 0, false, [], SubLock(0), m);
    run, steps := [INITIAL], [];
    hide IsRun;
    run, steps := Extend(run, steps, Subscribe(0), h);
    run, steps := Extend(run, steps, go, h.(mu := Owner.Control, control := SubTest(0)));
    run, steps := Extend(run, steps, go, h.(mu := Owner.Control, control := SubReap(0)));
    run, steps := Extend(run, steps, go, h.(mu := Owner.Control, control := SubStart(0)));
    h := h.(mu := Owner.Control, source := Some(0), sources := 1, started := true, control := SubRun(0));
    run, steps := Extend(run, steps, go, h);
    h := h.(running := true, control := SubSpawn(0));
    run, steps := Extend(run, steps, go, h);
    h := h.(pumps := [Test], handle := Some(0), control := SubPush(0));
    run, steps := Extend(run, steps, go, h);
    h := h.(media := AddSubscriber(m, 0), control := SubUnlock);
    run, steps := Extend(run, steps, go, h);
    run, steps := Extend(run, steps, go, h.(mu := Nobody, control := Idle));
  }

  // Without a source that never ends the claim is false: when its read_nal returns false, the
  // pump leaves its subscriber behind with running_ clear.
  lemma WatchedMayBeStopped() returns (run: seq<Hub>, steps: seq<Step>)
    ensures IsRun(run, steps)
    ensures var h := run[|run| - 1]; h.control.Idle? && h.media.subscribers == [0] && !h.running
  {
    run, steps := FirstSubscribe();
    var h := run[|run| - 1];
    hide IsRun;
    var end := Step.Pump(0, 0, false);
    run, steps := Extend(run, steps, end, h.(pumps := [Call(0, false)]));
    run, steps := Extend(run, steps, end, h.(pumps := [Read(0, 0, false)]));
    run, steps := Extend(run, steps, end, h.(pumps := [Broke]));
    run, steps := Extend(run, steps, end, h.(started := false, pumps := [Stopped]));
    run, steps := Extend(run, steps, end, h.(started := false, running := false, pumps := [Done]));
  }
}

// From the file to every viewer: splitting, looping, fanning out, packetizing and putting
// together again, in one statement.
module EndToEnd {
  import opened Prelude
  import AnnexB
  import opened FileSources
  import opened FileRuns
  import opened HubProtocol
  import opened Fua
  import opened Streamers
  import opened Receivers
  import opened RtpClock

  // A contiguous slice of the list repeated for ever.
  ghost predicate IsLoopSlice(heard: seq<Bytes>, nals: seq<Bytes>, first: nat) {
    forall i :: 0 <= i < |heard| ==> IsOfLoop(heard[i], nals, first + i)
  }

  predicate IsOfLoop(nal: Bytes, nals: seq<Bytes>, k: nat) {
    nals != [] && nal == nals[k % |nals|]
  }

  // What the hub hands to a streamer is a contiguous slice of the file's NAL list repeated for ever.
  lemma HandedIsLoopSlice(run: seq<Hub>, steps: seq<HubProtocol.Step>, k: nat, v: nat, content: Bytes)
    returns (first: nat)
    requires IsRun(run, steps) && k <= |steps| && v in run[k].media.handed && FileDriven(run, steps, content)
    ensures IsLoopSlice(Heard(run[k].media.handed[v], run, steps, k, content), AnnexB.Nals(content), first)
  {
    hide *;
    RunLength(run, steps);
    if AnnexB.HasTwoCodes(content) {
      first := LongFileIsSlice(run, steps, k, v, content);
    } else {
      first := 0;
      ShortFileIsSlice(run, steps, k, v, content);
    }
  }

  // With two start codes in the file, its source never ends, so all comes from one source.
  lemma LongFileIsSlice(run: seq<Hub>, steps: seq<HubProtocol.Step>, k: nat, v: nat, content: Bytes)
    returns (first: nat)
    requires IsRun(run, steps) && k <= |steps| && v in run[k].media.handed && FileDriven(run, steps, content)
    requires AnnexB.HasTwoCodes(content)
    ensures IsLoopSlice(Heard(run[k].media.handed[v], run, steps, k, content), AnnexB.Nals(content), first)
  {
    hide IsRun, FileDriven, NeverEnds, DeliveryInv, IsLoopPrefix, PlayedBy, Begun, AnnexB.HasTwoCodes, AnnexB.Nals;
    RunLength(run, steps);
    FileNeverEnds(run, steps, k, content);
    var m := run[k].media;
    var source;
    source, first := HandedIsStretch(run, steps, k, v);
    RunKeepsDelivery(run, steps, k);
    HandedLength(run[k], v);
    var from := m.from[v];
    var heard := Heard(m.handed[v], run, steps, k, content);
    forall i | 0 <= i < |heard| ensures IsOfLoop(heard[i], AnnexB.Nals(content), first + i) {
      assert m.handed[v][i] == Stretch(source, first, |m.handed[v]|)[i] == Entry(source, first + i);
      assert m.handed[v][i] == m.log[from + i];
      BroadcastIsOfLoop(run, steps, k, from + i, content);
      LoopAt(PlayedBy(content, Begun(run, steps, k, source)), AnnexB.Nals(content), first + i);
      assert heard[i] == NalOf(m.handed[v][i], run, steps, k, content);
    }
  }

  // Otherwise the file has at most one NAL, which is all that any of its sources delivers.
  lemma ShortFileIsSlice(run: seq<Hub>, steps: seq<HubProtocol.Step>, k: nat, v: nat, content: Bytes)
    requires IsRun(run, steps) && k <= |steps| && v in run[k].media.handed && FileDriven(run, steps, content)
    requires !AnnexB.HasTwoCodes(content)
    ensures IsLoopSlice(Heard(run[k].media.handed[v], run, steps, k, content), AnnexB.Nals(content), 0)
  {
    hide IsRun, FileDriven, DeliveryInv, IsLoopPrefix, PlayedBy, Begun, AnnexB.HasTwoCodes, AnnexB.Nals;
    RunLength(run, steps);
    FewCodesFewNals(content);
    var m := run[k].media;
    RunKeepsDelivery(run, steps, k);
    HandedLength(run[k], v);
    var from := m.from[v];
    var heard := Heard(m.handed[v], run, steps, k, content);
    forall i | 0 <= i < |heard| ensures IsOfLoop(heard[i], AnnexB.Nals(content), i) {
      var e := m.handed[v][i];
      assert e == m.log[from + i];
      BroadcastIsOfLoop(run, steps, k, from + i, content);
      LoopAt(PlayedBy(content, Begun(run, steps, k, e.source)), AnnexB.Nals(content), e.index);
      OneIsAll(heard[i], AnnexB.Nals(content), e.index, i);
    }
  }

  lemma FewCodesFewNals(content: Bytes)
    requires !AnnexB.HasTwoCodes(content)
    ensures |AnnexB.Nals(content)| <= 1
  {
    hide AnnexB.Nals, AnnexB.HasTwoCodes, AnnexB.NextRead;
    AnnexB.NextReadTakes(content);
  }

  lemma OneIsAll(nal: Bytes, nals: seq<Bytes>, i: nat, j: nat)
    requires IsOfLoop(nal, nals, i) && |nals| <= 1
    ensures IsOfLoop(nal, nals, j)
  {
    assert i % 1 == 0 && j % 1 == 0;
  }

  lemma LoopAt(played: seq<Bytes>, nals: seq<Bytes>, i: nat)
    requires IsLoopPrefix(played, nals) && i < |played|
    ensures IsOfLoop(played[i], nals, i)
  {}

  // ----- The calls of the hub -----

  predicate AllTyped(nals: seq<Bytes>) {
    forall i :: 0 <= i < |nals| ==> TypeInRange(nals[i])
  }

  predicate Possible(nals: seq<Bytes>, taken: seq<nat>)
    requires NoEmptyNal(nals)
  {
    |taken| == |nals| && forall i :: 0 <= i < |nals| ==> taken[i] <= |Fragments(nals[i], DEFAULT_MTU)|
  }

  // The socket took every packet.
  predicate NothingFailed(nals: seq<Bytes>, taken: seq<nat>)
    requires NoEmptyNal(nals)
  {
    |taken| == |nals| && forall i :: 0 <= i < |nals| ==> taken[i] == |Fragments(nals[i], DEFAULT_MTU)|
  }

  lemma NalsAppend(actions: seq<Action>, a: Action)
    ensures Nals(actions + [a]) == Nals(actions) + if a.Send? then [a.nal] else []
  {
    assert (actions + [a])[..|actions|] == actions;
  }

  lemma NalsOfOneMore(actions: seq<Action>, nal: Bytes, taken: nat, increment: uint32)
    requires nal != []
    ensures Nals(actions + OneNal(nal, taken, increment)) == Nals(actions) + [nal]
  {
    NalsAppend(actions, Action.Send(nal, taken));
    if IsVcl(nal) {
      NalsAppend(actions + [Action.Send(nal, taken)], Advance(increment));
      assert actions + OneNal(nal, taken, increment) == actions + [Action.Send(nal, taken)] + [Advance(increment)];
    }
  }

  // The sends among the calls are one for each NAL.
  predicate Sends(actions: seq<Action>, nals: seq<Bytes>, taken: seq<nat>) {
    |taken| == |nals| &&
    forall i :: 0 <= i < |actions| && actions[i].Send? ==> IsSend(actions[i], nals, taken)
  }

  predicate IsSend(a: Action, nals: seq<Bytes>, taken: seq<nat>)
    requires |taken| == |nals| && a.Send?
  {
    exists k :: 0 <= k < |nals| && a.nal == nals[k] && a.taken == taken[k]
  }

  lemma SendsOneMore(actions: seq<Action>, nals: seq<Bytes>, taken: seq<nat>, n: nat, increment: uint32)
    requires |taken| == |nals| && n < |nals| && nals[n] != [] && Sends(actions, nals[..n], taken[..n])
    ensures Sends(actions + OneNal(nals[n], taken[n], increment), nals, taken)
  {
    hide IsVcl;
    var all := actions + OneNal(nals[n], taken[n], increment);
    forall i | 0 <= i < |all| && all[i].Send? ensures IsSend(all[i], nals, taken) {
      if i < |actions| {
        assert IsSend(actions[i], nals[..n], taken[..n]);
        var k :| 0 <= k < n && actions[i].nal == nals[..n][k] && actions[i].taken == taken[..n][k];
        assert all[i].nal == nals[k] && all[i].taken == taken[k];
      } else {
        assert all[i].nal == nals[n] && all[i].taken == taken[n];
      }
    }
  }

  lemma {:induction false} CallsAreSends(nals: seq<Bytes>, taken: seq<nat>, increment: uint32)
    requires |taken| == |nals| && NoEmptyNal(nals)
    ensures Sends(HubCalls(nals, taken, increment), nals, taken) && Nals(HubCalls(nals, taken, increment)) == nals
  {
    hide OneNal, Nals, Sends;
    if nals != [] {
      var n := |nals| - 1;
      CallsAreSends(nals[..n], taken[..n], increment);
      var before := HubCalls(nals[..n], taken[..n], increment);
      assert nals[..n + 1] == nals && taken[..n + 1] == taken;
      SendsOneMore(before, nals, taken, n, increment);
      NalsOfOneMore(before, nals[n], taken[n], increment);
      assert nals == nals[..n] + [nals[n]];
    } else {
      NoSends();
    }
  }

  lemma NoSends()
    ensures Sends([], [], []) && Nals([]) == []
  {}

  lemma CallsOfHub(nals: seq<Bytes>, taken: seq<nat>, increment: uint32)
    requires AllTyped(nals) && NoEmptyNal(nals) && Possible(nals, taken)
    ensures var actions := HubCalls(nals, taken, increment);
            && AllLegal(actions) && AllTypesInRange(actions) && Nals(actions) == nals
            && (NothingFailed(nals, taken) ==> forall i :: 0 <= i < |actions| && actions[i].Send? ==>
                Succeeded(actions[i]))
  {
    hide Fragments, TypeInRange, IsVcl, HubCalls, Nals, IsSend;
    CallsAreSends(nals, taken, increment);
    var actions := HubCalls(nals, taken, increment);
    forall i | 0 <= i < |actions| && actions[i].Send?
      ensures Legal(actions[i]) && TypeInRange(actions[i].nal)
      ensures NothingFailed(nals, taken) ==> Succeeded(actions[i]) {
      var k := WhichSend(actions[i], nals, taken);
    }
  }

  lemma WhichSend(a: Action, nals: seq<Bytes>, taken: seq<nat>) returns (k: nat)
    requires |taken| == |nals| && a.Send? && IsSend(a, nals, taken)
    ensures k < |nals| && a.nal == nals[k] && a.taken == taken[k]
  {
    k :| 0 <= k < |nals| && a.nal == nals[k] && a.taken == taken[k];
  }

  lemma TypedIsNotEmpty(nals: seq<Bytes>)
    requires AllTyped(nals)
    ensures NoEmptyNal(nals)
  {}

  lemma SliceIsTyped(heard: seq<Bytes>, nals: seq<Bytes>, first: nat)
    requires IsLoopSlice(heard, nals, first) && AllTyped(nals)
    ensures AllTyped(heard)
  {}

  // For every file whose NALs have types 1 to 23, every interleaving of the hub and its pumps
  // whose sources loop over the file, and every streamer, at any time: the streamer is handed a
  // contiguous slice of the file's NAL list repeated for ever; its receiver outputs exactly that
  // slice if nothing fails or is lost; and in any case, if and only if the losses splice no NAL
  // together, just those NALs of it that arrived, byte for byte and in order.
  lemma EndToEnd(content: Bytes, run: seq<Hub>, steps: seq<HubProtocol.Step>, k: nat, v: nat,
                 sequence: uint16, ssrc: uint32, increment: uint32, taken: seq<nat>, keep: seq<bool>)
    returns (first: nat, heard: seq<Bytes>)
    requires AllTyped(AnnexB.Nals(content))
    requires IsRun(run, steps) && k <= |steps| && v in run[k].media.handed
    requires FileDriven(run, steps, content)
    ensures heard == Heard(run[k].media.handed[v], run, steps, k, content)
    ensures IsLoopSlice(heard, AnnexB.Nals(content), first) && NoEmptyNal(heard)
    ensures Possible(heard, taken) ==>
              var start := Start(sequence, ssrc);
              var actions := HubCalls(heard, taken, increment);
              var slots := SlotsIn(start, actions);
              && AllSound(slots)
              && (NothingFailed(heard, taken) ==> ReceiveAll(Wire(slots)).1 == heard)
              && (|keep| == |slots| ==>
                    && (ReceiveAll(Kept(slots, keep, |keep|)).1 == Arrived(start, actions, keep)
                        <==> NoSplice(slots, keep))
                    && Subsequence(Arrived(start, actions, keep), heard))
  {
    hide *;
    var nals := AnnexB.Nals(content);
    RunLength(run, steps);
    first := HandedIsLoopSlice(run, steps, k, v, content);
    heard := Heard(run[k].media.handed[v], run, steps, k, content);
    SliceIsTyped(heard, nals, first);
    TypedIsNotEmpty(heard);
    if Possible(heard, taken) {
      PossibleLength(heard, taken);
      CallsOfHub(heard, taken, increment);
      var actions := HubCalls(heard, taken, increment);
      WireDelivers(sequence, ssrc, actions);
      var start := Start(sequence, ssrc);
      if |keep| == |SlotsIn(start, actions)| {
        ReceivesWhatArrived(sequence, ssrc, actions, keep);
        ArrivedIsSubsequence(start, actions, keep);
      }
    }
  }

  lemma PossibleLength(nals: seq<Bytes>, taken: seq<nat>)
    requires NoEmptyNal(nals) && Possible(nals, taken)
    ensures |taken| == |nals|
  {}
}

// The parameter sets that the hub has cached, over runs of the hub whose sources play a file.
module CachedSets {
  import opened Prelude
  import opened AnnexB
  import opened FileSources
  import opened HubProtocol
  import opened FileRuns
  import opened ParameterSets
  import Sdp
  import Parser
  import P = Protocol
  import Handshake

  // Every NAL that on_nal has seen in the first k steps: those that were broadcast.
  function Seen(run: seq<Hub>, steps: seq<Step>, k: nat, content: Bytes): seq<Bytes>
    requires k <= |steps| < |run|
  {
    Heard(run[k].media.log, run, steps, k, content)
  }

  // What stands in front of an entry of the log: the earlier NALs of its source.
  lemma {:induction false} EarlierInLog(log: seq<Entry>, p: nat, j: nat)
    requires p < |log| && j <= log[p].index && forall q :: 0 <= q < |log| ==> InOrder(log, q)
    ensures j <= p && log[p - j] == Entry(log[p].source, log[p].index - j)
  {
    if j > 0 {
      EarlierInLog(log, p, j - 1);
      assert InOrder(log, p - (j - 1));
    }
  }

  lemma SeenIsOfLoop(run: seq<Hub>, steps: seq<Step>, k: nat, p: nat, content: Bytes)
    requires IsRun(run, steps) && k <= |steps| < |run| && FileDriven(run, steps, content)
    requires p < |run[k].media.log|
    ensures var nals := Nals(content);
            nals != [] && Seen(run, steps, k, content)[p] == nals[run[k].media.log[p].index % |nals|]
  {
    hide IsRun, FileDriven, Nals, PlayedBy, Begun;
    BroadcastIsOfLoop(run, steps, k, p, content);
  }

  lemma FirstIndex(nals: seq<Bytes>, kind: byte) returns (p: nat)
    requires FirstOf(nals, kind) != []
    ensures p < |nals| && IsFirst(nals, kind, p)
  {
    if nals[0] != [] && NalType(nals[0]) == kind {
      p := 0;
    } else {
      var q := FirstIndex(nals[1..], kind);
      p := q + 1;
      assert forall i :: 1 <= i < p ==> nals[i] == nals[1..][i - 1];
    }
  }

  // What stands i behind the start of a source is number i of the endless repetition.
  predicate IsOfLoop(seen: seq<Bytes>, nals: seq<Bytes>, start: nat, i: nat) {
    start + i < |seen| && nals != [] && seen[start + i] == nals[i % |nals|]
  }

  // The first of a type comes in the first round.
  lemma RoundIsFirst(nals: seq<Bytes>, seen: seq<Bytes>, kind: byte, start: nat, n: nat)
    requires start + n < |seen| && IsFirst(seen, kind, start + n)
    requires forall i :: 0 <= i <= n ==> IsOfLoop(seen, nals, start, i)
    ensures n < |nals|
  {
    var d := |nals|;
    if n >= d {
      assert IsOfLoop(seen, nals, start, n) && IsOfLoop(seen, nals, start, n - d);
      SameAfterRound(n - d, d);
    }
  }

  lemma FirstRoundOf(nals: seq<Bytes>, seen: seq<Bytes>, kind: byte, start: nat, n: nat)
    requires start + n < |seen| && IsFirst(seen, kind, start + n)
    requires forall i :: 0 <= i <= n ==> IsOfLoop(seen, nals, start, i)
    ensures n < |nals| && nals[n] == seen[start + n] && IsFirst(nals, kind, n)
  {
    RoundIsFirst(nals, seen, kind, start, n);
    forall i | 0 <= i <= n ensures nals[i] == seen[start + i] {
      assert IsOfLoop(seen, nals, start, i);
      ModOfMultiple(0, |nals|, i);
    }
  }

  // The first NAL of a type that is broadcast, from whatever source, is the file's first.
  lemma FirstSeenIsFirst(run: seq<Hub>, steps: seq<Step>, k: nat, content: Bytes, kind: byte)
    requires IsRun(run, steps) && k <= |steps| < |run| && FileDriven(run, steps, content)
    ensures var seen := Seen(run, steps, k, content);
            FirstOf(seen, kind) == [] || FirstOf(seen, kind) == FirstOf(Nals(content), kind)
  {
    hide IsRun, FileDriven, Nals, FirstOf, NalOf, LogInv, StopInv, IsFirst;
    var seen, nals, log := Seen(run, steps, k, content), Nals(content), run[k].media.log;
    if FirstOf(seen, kind) != [] {
      var p := FirstIndex(seen, kind);
      var n := log[p].index;
      RunKeepsStopAndLog(run, steps, k);
      InOrderAll(run[k]);
      EarlierInLog(log, p, n);
      var start := p - n;
      forall i | 0 <= i <= n ensures IsOfLoop(seen, nals, start, i) {
        EarlierInLog(log, p, n - i);
        SeenIsOfLoop(run, steps, k, p - (n - i), content);
      }
      FirstRoundOf(nals, seen, kind, start, n);
      FirstOfIff(seen, kind);
      FirstOfIff(nals, kind);
    }
  }

  // For a hub whose sources loop over a file, in whatever interleaving and at any time: the cache
  // that the prescan and then every broadcast have filled holds the file's first SPS and the
  // file's first PPS, or misses one; and a client that takes them out of the session description
  // has their very octets. looked is what the prescan has looked at.
  lemma CacheIsOfFile(run: seq<Hub>, steps: seq<Step>, k: nat, content: Bytes, looked: seq<Bytes>)
    requires IsRun(run, steps) && k <= |steps| < |run| && FileDriven(run, steps, content)
    requires IsFront(looked, Nals(content))
    ensures var c := KeepAll(NOTHING, looked + Seen(run, steps, k, content));
            var first := Cached(FirstOf(Nals(content), 7), FirstOf(Nals(content), 8));
            && (c.sps == [] || c.sps == first.sps) && (c.pps == [] || c.pps == first.pps)
            && forall pt: int, rate: int ::
                 Sdp.ParameterSetsOf(Sdp.Joined(Sdp.Lines(Sdp.VideoStreamInfo(pt, rate, Sdp.SpropText(c.sps, c.pps)))))
                 == if c.sps == [] || c.pps == [] then None else Some((first.sps, first.pps))
  {
    hide IsRun, FileDriven, Nals, FirstOf, Seen, KeepAll, Sdp.ParameterSetsOf, Sdp.Joined, Sdp.Lines, Sdp.SpropText;
    var nals, seen := Nals(content), Seen(run, steps, k, content);
    KeepsFirst(looked + seen);
    FirstOfPrefix(nals, |looked|, SPS);
    FirstOfPrefix(nals, |looked|, PPS);
    FirstSeenIsFirst(run, steps, k, content, SPS);
    FirstSeenIsFirst(run, steps, k, content, PPS);
    FirstOfAppend(looked, seen, SPS);
    FirstOfAppend(looked, seen, PPS);
    var c := KeepAll(NOTHING, looked + seen);
    forall pt: int, rate: int
      ensures Sdp.ParameterSetsOf(Sdp.Joined(Sdp.Lines(Sdp.VideoStreamInfo(pt, rate, Sdp.SpropText(c.sps, c.pps)))))
              == if c.sps == [] || c.pps == [] then None else Some((c.sps, c.pps))
    {
      Sdp.ParameterSetsSurvive(Sdp.VideoStreamInfo(pt, rate, Sdp.SpropText(c.sps, c.pps)), c.sps, c.pps);
    }
  }

  // From the file to a client: a session that is asked to describe the stream when its hub has
  // cached these sets answers so that the client has the file's first SPS and first PPS.
  lemma DescribeGivesFile(run: seq<Hub>, steps: seq<Step>, k: nat, content: Bytes, looked: seq<Bytes>,
                          c: P.Core, req: Parser.Request, a: P.Answer)
    requires IsRun(run, steps) && k <= |steps| < |run| && FileDriven(run, steps, content)
    requires IsFront(looked, Nals(content))
    requires a.sets == KeepAll(NOTHING, looked + Seen(run, steps, k, content))
    requires req.command.Describe? && Parser.Word(req.uri)
    ensures var first := Cached(FirstOf(Nals(content), 7), FirstOf(Nals(content), 8));
            Sdp.ParameterSetsOf(Handshake.BodyRead(P.Handle(c, req, a, true).1))
            == if a.sets.sps == [] || a.sets.pps == [] then None else Some((first.sps, first.pps))
  {
    hide *;
    CacheIsOfFile(run, steps, k, content, looked);
    Handshake.DescribeDelivers(c, req, a, true);
  }
}

// The looping file source (src/media/file_source.cpp): whatever the chunks, what it plays is
// the file's NAL list, over and over.
module FileSources {
  import opened Prelude
  import opened AnnexB

  // The list n times.
  function Repeat<T>(list: seq<T>, n: nat): seq<T> {
    if n == 0 then [] else Repeat(list, n - 1) + list
  }

  // What has been played is a prefix of the list repeated for ever.
  ghost predicate IsLoopPrefix<T(!new)>(played: seq<T>, list: seq<T>) {
    && (list == [] ==> played == [])
    && forall i :: 0 <= i < |played| ==> list != [] && played[i] == list[i % |list|]
  }

  lemma {:induction false} RepeatIsLoopPrefix<T>(list: seq<T>, n: nat, i: nat)
    requires i < |Repeat(list, n)|
    ensures list != [] && |Repeat(list, n)| == n * |list|
    ensures Repeat(list, n)[i] == list[i % |list|]
  {
    RepeatLength(list, n - 1);
    RepeatLength(list, n);
    var m := |Repeat(list, n - 1)|;
    if i < m {
      RepeatIsLoopPrefix(list, n - 1, i);
    } else {
      ModOfMultiple(n - 1, |list|, i - m);
    }
  }

  lemma {:induction false} RepeatLength<T>(list: seq<T>, n: nat)
    ensures |Repeat(list, n)| == n * |list|
  {
    if n > 0 {
      RepeatLength(list, n - 1);
    }
  }

  // Whole rounds and the beginning of another one make a loop prefix.
  lemma RoundsAreLoopPrefix<T(!new)>(list: seq<T>, n: nat, k: nat)
    requires k <= |list|
    ensures IsLoopPrefix(Repeat(list, n) + list[..k], list)
  {
    var played := Repeat(list, n) + list[..k];
    RepeatLength(list, n);
    forall i | 0 <= i < |played| ensures list != [] && played[i] == list[i % |list|] {
      if i < |Repeat(list, n)| {
        RepeatIsLoopPrefix(list, n, i);
      } else {
        ModOfMultiple(n, |list|, i - n * |list|);
      }
    }
  }

  // The account of a replay: a number of whole rounds has been played and the beginning of
  // another one, and the rest of that one is to come.
  ghost predicate Account<T(!new)>(list: seq<T>, played: seq<T>, toCome: seq<T>, rounds: nat) {
    && |toCome| <= |list| && toCome == list[|list| - |toCome|..]
    && played == Repeat(list, rounds) + list[..|list| - |toCome|]
  }

  lemma AccountOpens<T(!new)>(list: seq<T>)
    ensures Account(list, [], list, 0)
  {}

  // Playing e moves e from what is to come to what has been played.
  lemma AccountStep<T(!new)>(list: seq<T>, played: seq<T>, e: seq<T>, before: seq<T>, after: seq<T>, n: nat)
    requires Account(list, played, before, n) && before == e + after
    ensures Account(list, played + e, after, n)
  {
    var k := |list| - |before|;
    assert list[..k] + e == list[..k + |e|];
    Regroup(Repeat(list, n), list[..k], e);
  }

  // At the end of a round the next one begins.
  lemma AccountTurns<T(!new)>(list: seq<T>, played: seq<T>, n: nat)
    requires Account(list, played, [], n)
    ensures Account(list, played, list, n + 1)
  {
    assert list[..|list|] == list;
    assert Repeat(list, n + 1) + [] == Repeat(list, n + 1);
  }

  // ----- The calls on a source that loops -----

  // One call of read_nal on a looping source: at the end of the file, the first read of the
  // next round is tried as well.
  function NextLoopRead(content: Bytes, s: Bytes): (ReadCall, Bytes) {
    var (one, rest) := NextRead(s);
    if one.ok then (one, rest)
    else
      var (again, rest') := NextRead(content);
      (ReadCall(one.emitted + again.emitted, again.ok), rest')
  }

  // What is unread after n calls,
  function UnreadAfter(content: Bytes, n: nat): Bytes {
    if n == 0 then content else NextLoopRead(content, UnreadAfter(content, n - 1)).1
  }

  // what the next call does,
  function NthRead(content: Bytes, n: nat): ReadCall {
    NextLoopRead(content, UnreadAfter(content, n)).0
  }

  // and everything that has been played.
  function PlayedBy(content: Bytes, n: nat): seq<Bytes> {
    if n == 0 then [] else PlayedBy(content, n - 1) + NthRead(content, n - 1).emitted
  }

  lemma NextLoopReadTakes(content: Bytes, s: Bytes, played: seq<Bytes>, rounds: nat) returns (rounds': nat)
    requires Account(Nals(content), played, Nals(s), rounds)
    ensures var (call, rest) := NextLoopRead(content, s);
            && Account(Nals(content), played + call.emitted, Nals(rest), rounds')
            && |call.emitted| <= 2 && (call.ok <==> HasTwoCodes(s) || HasTwoCodes(content))
  {
    hide Account, Nals, HasTwoCodes, NextRead;
    var list := Nals(content);
    NextReadTakes(s);
    NextReadTakes(content);
    var (one, rest) := NextRead(s);
    AccountStep(list, played, one.emitted, Nals(s), Nals(rest), rounds);
    rounds' := rounds;
    if !one.ok {
      AccountTurns(list, played + one.emitted, rounds);
      rounds' := rounds + 1;
      var (again, rest') := NextRead(content);
      AccountStep(list, played + one.emitted, again.emitted, list, Nals(rest'), rounds');
      Regroup(played, one.emitted, again.emitted);
    }
  }

  lemma {:induction false} PlayingKeepsAccount(content: Bytes, n: nat) returns (rounds: nat)
    ensures Account(Nals(content), PlayedBy(content, n), Nals(UnreadAfter(content, n)), rounds)
  {
    hide Account, Nals, NextLoopRead;
    if n == 0 {
      AccountOpens(Nals(content));
      rounds := 0;
    } else {
      rounds := PlayingKeepsAccount(content, n - 1);
      rounds := NextLoopReadTakes(content, UnreadAfter(content, n - 1), PlayedBy(content, n - 1), rounds);
    }
  }

  // However often a looping source is called, what it has played is a prefix of the file's NAL
  // list repeated for ever; and with two start codes in the file no call fails.
  lemma LoopingPlays(content: Bytes, n: nat)
    ensures IsLoopPrefix(PlayedBy(content, n), Nals(content))
    ensures |NthRead(content, n).emitted| <= 2
    ensures HasTwoCodes(content) ==> NthRead(content, n).ok
  {
    hide Account, Nals, NextLoopRead, IsLoopPrefix, HasTwoCodes;
    var rounds := PlayingKeepsAccount(content, n);
    AccountIsLoopPrefix(Nals(content), PlayedBy(content, n), Nals(UnreadAfter(content, n)), rounds);
    var _ := NextLoopReadTakes(content, UnreadAfter(content, n), PlayedBy(content, n), rounds);
  }

  lemma AccountIsLoopPrefix<T(!new)>(list: seq<T>, played: seq<T>, toCome: seq<T>, rounds: nat)
    requires Account(list, played, toCome, rounds)
    ensures IsLoopPrefix(played, list)
  {
    RoundsAreLoopPrefix(list, rounds, |list| - |toCome|);
  }

  // ----- The source -----

  class FileSource {
    const path: Bytes  // the octets of the file at path_
    const fps: nat
    const loop: bool
    var file: File?
    const reader: AnnexBReader
    var nextFrameTime: nat  // in microseconds

    ghost predicate Valid()
      reads this, file
    {
      fps > 0 && (file != null ==> file.content == path && file.Valid())
    }

    // What has not been read of the round in progress.
    ghost function Unread(): Bytes
      requires file != null && file.Valid()
      reads this, reader, file
    {
      reader.Unread(file)
    }

    constructor (path: Bytes, fps: int, loop: bool)
      ensures Valid() && file == null && fresh(reader)
      ensures this.path == path && this.loop == loop && this.fps == if fps > 0 then fps else 30
    {
      this.path := path;
      this.fps := if fps > 0 then fps else 30;
      this.loop := loop;
      file := null;
      reader := new AnnexBReader();
      nextFrameTime := 0;
    }

    // found tells whether fopen finds the file.
    method Start(found: bool, now: nat) returns (ok: bool)
      requires Valid()
      modifies this, reader
      ensures Valid() && ok == (old(file) != null || found) && (ok <==> file != null)
      ensures old(file) == null && ok ==> fresh(file) && Unread() == path && nextFrameTime == now
      ensures old(file) != null ==>
                file == old(file) && nextFrameTime == old(nextFrameTime)
                    && Unread() == old(if file == null then [] else Unread())
    {
      if file != null {
        return true;
      }
      if !found {
        return false;
      }
      file := new File(path);
      reader.Reset();
      nextFrameTime := now;
      reader.NothingBuffered(file);
      return true;
    }

    // Closes the file and forgets what was read ahead of it.
    method Stop()
      requires Valid()
      modifies this`file, reader
      ensures Valid() && file == null
      ensures reader.buffer == if old(file) == null then old(reader.buffer) else []
    {
      if file != null {
        file := null;
        reader.Reset();
      }
    }

    // Whatever the chunks, one call is the next one on the file's octets, with a second round
    // exactly in loop mode. The time at which the next frame is due moves by one frame if the
    // call succeeds and a NAL of it ends a frame; sleeping until then is left out.
    method ReadNal() returns (ok: bool, emitted: seq<Bytes>)
      requires Valid()
      modifies this, reader, if file == null then {} else {file}
      ensures Valid() && file == old(file)
      ensures file == null ==> !ok && emitted == []
      ensures file != null ==>
                (ReadCall(emitted, ok), Unread()) ==
                var s := old(if file == null then [] else Unread());
                if loop then NextLoopRead(path, s) else NextRead(s)
      ensures nextFrameTime == old(nextFrameTime) +
                               if ok && EndsFrame(emitted) then 1000000 / fps else 0
    {
      hide NextRead, EndsFrame;
      if file == null {
        return false, [];
      }
      ok, emitted := reader.ReadNal(file);
      if !ok {
        if !loop {
          return false, emitted;
        }
        file.Rewind();
        reader.Reset();
        reader.NothingBuffered(file);
        var again;
        ok, again := reader.ReadNal(file);
        emitted := emitted + again;
        if !ok {
          return false, emitted;
        }
      }
      if EndsFrame(emitted) {
        nextFrameTime := nextFrameTime + 1000000 / fps;
      }
    }
  }

  // The first calls on a source that loops and has just been started are what NthRead says,
  // however fread cuts the file; so with two start codes in the file none of them fails, and
  // what they play is a prefix of the file's NAL list repeated for ever.
  method PlayCalls(source: FileSource, n: nat) returns (calls: seq<ReadCall>, played: seq<Bytes>)
    requires source.Valid() && source.file != null && source.Unread() == source.path && source.loop
    modifies source, source.reader, source.file
    ensures |calls| == n && forall i :: 0 <= i < n ==> calls[i] == NthRead(source.path, i)
    ensures played == PlayedBy(source.path, n) && IsLoopPrefix(played, Nals(source.path))
    ensures HasTwoCodes(source.path) ==> forall i :: 0 <= i < n ==> calls[i].ok
  {
    hide NextLoopRead, NextRead, IsLoopPrefix, PlayedBy, UnreadAfter, NthRead, HasTwoCodes, Nals;
    calls, played := [], [];
    PlayedNothing(source.path);
    for i := 0 to n
      invariant source.Valid() && source.file == old(source.file)
      invariant source.Unread() == UnreadAfter(source.path, i)
      invariant |calls| == i && forall k :: 0 <= k < i ==> calls[k] == NthRead(source.path, k)
      invariant played == PlayedBy(source.path, i)
      invariant HasTwoCodes(source.path) ==> forall k :: 0 <= k < i ==> calls[k].ok
    {
      PlayedOneMore(source.path, i);
      LoopingPlays(source.path, i);
      var ok, emitted := source.ReadNal();
      calls := calls + [ReadCall(emitted, ok)];
      played := played + emitted;
    }
    LoopingPlays(source.path, n);
  }

  lemma PlayedNothing(content: Bytes)
    ensures UnreadAfter(content, 0) == content && PlayedBy(content, 0) == []
  {}

  lemma PlayedOneMore(content: Bytes, n: nat)
    ensures NextLoopRead(content, UnreadAfter(content, n)) == (NthRead(content, n), UnreadAfter(content, n + 1))
    ensures PlayedBy(content, n + 1) == PlayedBy(content, n) + NthRead(content, n).emitted
  {}

  // One of the NALs ends a frame.
  predicate EndsFrame(nals: seq<Bytes>) {
    exists nal :: nal in nals && nal != [] && IsVcl(nal)
  }

  // These are the NALs of type 1 or 5.
  lemma EndsFrameIff(nals: seq<Bytes>)
    ensures EndsFrame(nals) <==>
            exists nal: Bytes :: nal in nals && nal != [] && (nal[0] & 0x1F == 1 || nal[0] & 0x1F == 5)
  {
    if nal: Bytes :| nal in nals && nal != [] && (nal[0] & 0x1F == 1 || nal[0] & 0x1F == 5) {
      assert IsVcl(nal);
    }
  }
}

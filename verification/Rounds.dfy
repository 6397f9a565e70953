// How far a looping source has come after so many calls.
module Rounds {
  import opened Prelude
  import opened AnnexB
  import opened FileSources

  // ----- Many calls -----

  // The first m elements of the list repeated for ever.
  function LoopOf<T>(list: seq<T>, m: nat): seq<T>
    requires list != []
  {
    seq(m, i requires 0 <= i < m => list[i % |list|])
  }

  // How many pieces n calls take, of a file of k pieces: one each, and one more whenever a call
  // comes upon the last piece, which is every k - 1 calls.
  function PiecesTaken(n: nat, k: nat): nat
    requires k >= 2
  {
    if n == 0 then 0 else n + (n - 1) / (k - 1)
  }

  lemma TakenInRound(q: nat, i: nat, k: nat)
    requires i < k - 1
    ensures PiecesTaken(q * (k - 1) + i + 1, k) == q * k + (i + 1)
    ensures PiecesTaken(q * (k - 1) + i + 1, k) % k == i + 1
  {
    var x := q * (k - 1);
    assert x >= 0 by { Times(q, k - 1); }
    ModOfMultiple(q, k - 1, i);
    assert x + q == q * k;
    ModOfMultiple(q, k, i + 1);
  }

  lemma Times(a: nat, b: nat)
    ensures a * b >= 0
  {}

  lemma DivMod(n: nat, d: nat)
    requires d > 0
    ensures n == (n / d) * d + n % d && (n / d + 1) * d == (n / d) * d + d
  {}

  lemma TakenNext(q: nat, i: nat, k: nat)
    requires i < k - 1
    ensures var n := q * (k - 1) + i + 1;
            var m := PiecesTaken(n, k);
            && PiecesTaken(n + 1, k) == m + (if m % k == k - 1 then 2 else 1)
            && PiecesTaken(n + 1, k) % k == (if m % k == k - 1 then 1 else m % k + 1)
  {
    hide PiecesTaken;
    TakenInRound(q, i, k);
    if i + 1 < k - 1 {
      TakenInRound(q, i + 1, k);
    } else {
      TakenInRound(q + 1, 0, k);
      OneLess(q + 1, k);
      OneLess(q + 1, k - 1);
    }
  }

  lemma FirstCall(k: nat)
    requires k >= 2
    ensures PiecesTaken(0, k) == 0 && PiecesTaken(1, k) == 1 && 0 % k == 0 && 1 % k == 1
  {
    ModOfMultiple(0, k, 1);
    ModOfMultiple(0, k, 0);
    ModOfMultiple(0, k - 1, 0);
  }

  lemma TakenStep(n: nat, k: nat)
    requires k >= 2
    ensures var m := PiecesTaken(n, k);
            && PiecesTaken(n + 1, k) == m + (if m % k == k - 1 then 2 else 1)
            && PiecesTaken(n + 1, k) % k == (if m % k == k - 1 then 1 else m % k + 1)
  {
    hide *;
    if n > 0 {
      DivMod(n - 1, k - 1);
      TakenNext((n - 1) / (k - 1), (n - 1) % (k - 1), k);
    } else {
      FirstCall(k);
    }
  }

  lemma LoopOfMore<T>(list: seq<T>, m: nat)
    requires list != []
    ensures LoopOf(list, m + 1) == LoopOf(list, m) + [list[m % |list|]]
  {}

  lemma PlayedMore(pieces: seq<Bytes>, m: nat, played: seq<Bytes>)
    requires pieces != [] && played == NonEmpty(LoopOf(pieces, m))
    ensures played + NonEmpty([pieces[m % |pieces|]]) == NonEmpty(LoopOf(pieces, m + 1))
  {
    hide NonEmpty;
    LoopOfMore(pieces, m);
    NonEmptyAppend(LoopOf(pieces, m), [pieces[m % |pieces|]]);
  }

  // One call plays the piece that is next, and if that was the last one of the file the first
  // one again; it never fails.
  lemma CallPlays(content: Bytes, s: Bytes, m: nat, played: seq<Bytes>)
    requires |Split(content)| >= 2 && Split(s) == Split(content)[m % |Split(content)|..]
    requires played == NonEmpty(LoopOf(Split(content), m))
    ensures var pieces := Split(content);
            var (call, rest) := NextLoopRead(content, s);
            var more := if m % |pieces| == |pieces| - 1 then 2 else 1;
            && call.ok && played + call.emitted == NonEmpty(LoopOf(pieces, m + more))
            && Split(rest) == pieces[(if more == 2 then 1 else m % |pieces| + 1)..]
  {
    hide Split, NextRead, NonEmpty;
    var pieces := Split(content);
    var k := |pieces|;
    ReadTakesPiece(s);
    PlayedMore(pieces, m, played);
    if m % k == k - 1 {
      ReadTakesPiece(content);
      var q := m / k;
      assert m + 1 == (q + 1) * k + 0;
      ModOfMultiple(q + 1, k, 0);
      var one, again := NextRead(s).0.emitted, NextRead(content).0.emitted;
      PlayedMore(pieces, m + 1, played + one);
      assert played + one + again == played + (one + again);
    }
  }

  // Of a file with two start codes, n calls play the first n + (n - 1) / (k - 1) of its k pieces,
  // over and over, but for the empty ones.
  lemma {:induction false} PlayedExactly(content: Bytes, n: nat)
    requires HasTwoCodes(content)
    ensures var pieces := Split(content);
            && |pieces| >= 2
            && var m := PiecesTaken(n, |pieces|);
            && PlayedBy(content, n) == NonEmpty(LoopOf(pieces, m))
            && Split(UnreadAfter(content, n)) == pieces[m % |pieces|..]
  {
    TwoPieces(content);
    hide HasTwoCodes, Split, NextLoopRead, LoopOf, PiecesTaken, NonEmpty;
    var pieces := Split(content);
    if n == 0 {
      NothingTaken(pieces);
    } else {
      PlayedExactly(content, n - 1);
      TakenStep(n - 1, |pieces|);
      CallPlays(content, UnreadAfter(content, n - 1), PiecesTaken(n - 1, |pieces|), PlayedBy(content, n - 1));
    }
  }

  lemma NothingTaken(pieces: seq<Bytes>)
    requires |pieces| >= 2
    ensures PiecesTaken(0, |pieces|) == 0 && NonEmpty(LoopOf(pieces, 0)) == [] && pieces[0..] == pieces
  {}

  lemma RoundFirst(pieces: seq<Bytes>, m: nat)
    requires pieces != []
    ensures LoopOf(pieces, |pieces| + m) == pieces + LoopOf(pieces, m)
  {
    var k := |pieces|;
    var all, sum := LoopOf(pieces, k + m), pieces + LoopOf(pieces, m);
    forall i | 0 <= i < k + m ensures all[i] == sum[i] {
      if i >= k {
        SameAfterRound(i - k, k);
      } else {
        ModOfMultiple(0, k, i);
      }
    }
  }

  lemma {:induction false} WholeRounds(pieces: seq<Bytes>, rounds: nat, more: nat)
    requires pieces != []
    ensures rounds * |pieces| >= 0
    ensures |NonEmpty(LoopOf(pieces, rounds * |pieces| + more))| >= rounds * |NonEmpty(pieces)|
  {
    hide NonEmpty, LoopOf;
    Times(rounds, |pieces|);
    if rounds > 0 {
      WholeRounds(pieces, rounds - 1, more);
      var rest := (rounds - 1) * |pieces| + more;
      OneLess(rounds, |pieces|);
      OneLess(rounds, |NonEmpty(pieces)|);
      RoundFirst(pieces, rest);
      NonEmptyAppend(pieces, LoopOf(pieces, rest));
    }
  }

  lemma OneLess(a: nat, b: nat)
    requires a > 0
    ensures a * b == (a - 1) * b + b
  {}

  lemma AtLeast(n: nat, k: nat)
    requires k >= 2
    ensures PiecesTaken(n, k) >= n
  {}

  // So the replay never stops coming round: as many calls as there are pieces in so many rounds
  // play every NAL of the file at least as often.
  lemma PlaysForEver(content: Bytes, rounds: nat)
    requires HasTwoCodes(content)
    ensures |PlayedBy(content, rounds * |Split(content)|)| >= rounds * |Nals(content)|
  {
    hide *;
    var pieces := Split(content);
    var n := rounds * |pieces|;
    Times(rounds, |pieces|);
    TwoPieces(content);
    AtLeast(n, |pieces|);
    PlayedExactly(content, n);
    WholeRounds(pieces, rounds, PiecesTaken(n, |pieces|) - n);
    assert NonEmpty(pieces) == Nals(content) by { NalsAre(content); }
  }

  lemma NalsAre(s: Bytes)
    ensures NonEmpty(Split(s)) == Nals(s)
  {}
}

// Types and small facts that every component shares.
module Prelude {

  // One octet of a stream or a packet; masks and shifts on it are real bit operations.
  type byte = bv8

  type Bytes = seq<byte>

  datatype Option<+T> = None | Some(value: T)

  // The source's uint16_t and uint32_t, with wrap-around written out where it happens.
  type uint16 = x: int | 0 <= x < 0x1_0000
  type uint32 = x: int | 0 <= x < 0x1_0000_0000

  // nal_unit_type: the low five bits of the first octet of a NAL.
  function NalType(nal: Bytes): byte
    requires nal != []
  {
    nal[0] & 0x1F
  }

  // A VCL NAL, which ends a frame: slice (1) or IDR slice (5).
  predicate IsVcl(nal: Bytes)
    requires nal != []
  {
    NalType(nal) == 1 || NalType(nal) == 5
  }

  // The elements of the pieces, one after the other.
  function Flatten<T>(pieces: seq<seq<T>>): seq<T> {
    if pieces == [] then [] else pieces[0] + Flatten(pieces[1..])
  }

  lemma {:induction false} FlattenAppend<T>(a: seq<seq<T>>, b: seq<seq<T>>)
    ensures Flatten(a + b) == Flatten(a) + Flatten(b)
  {
    if a == [] {
      assert a + b == b;
    } else {
      FlattenAppend(a[1..], b);
      assert (a + b)[1..] == a[1..] + b;
      assert a[0] + (Flatten(a[1..]) + Flatten(b)) == (a[0] + Flatten(a[1..])) + Flatten(b);
    }
  }

  lemma EmptyPlus<T>(s: seq<T>)
    ensures [] + s == s
  {}

  lemma Regroup<T>(a: seq<T>, b: seq<T>, c: seq<T>)
    ensures (a + b) + c == a + (b + c)
  {}

  lemma RestOfSum<T>(a: seq<T>, b: seq<T>)
    requires a != []
    ensures a + b != [] && (a + b)[0] == a[0] && (a + b)[1..] == a[1..] + b
  {}

  lemma CutInThree<T>(s: seq<T>, i: nat, j: nat)
    requires i <= j <= |s|
    ensures s == s[..i] + (s[i..j] + s[j..])
  {}

  lemma ModOfMultiple(n: nat, d: nat, r: nat)
    requires r < d
    ensures (n * d + r) % d == r && (n * d + r) / d == n
  {
    var x := n * d + r;
    var q, m := x / d, x % d;
    assert x == q * d + m;
    assert (n - q) * d == m - r;
    if q < n {
      MulAtLeast(n - q, d);
    } else if q > n {
      MulAtLeast(q - n, d);
    }
  }

  lemma MulAtLeast(k: nat, d: nat)
    requires k >= 1
    ensures k * d >= d
  {}

  // The octet with a given value.
  function ToByte(v: nat): (b: byte)
    requires v < 0x100
    ensures b as int == v
  {
    if v == 0 then 0 else ToByte(v - 1) + 1
  }

  lemma AddMod(a: nat, b: nat, m: nat)
    requires m > 0
    ensures (a % m + b) % m == (a + b) % m
  {
    var x := a % m + b;
    var k, q := a / m, x / m;
    assert a + b == k * m + x;
    assert x == q * m + x % m;
    assert a + b == (k + q) * m + x % m;
    ModOfMultiple(k + q, m, x % m);
  }

  lemma SameAfterRound(n: nat, d: nat)
    requires d > 0
    ensures (n + d) % d == n % d
  {
    ModOfMultiple(n / d + 1, d, n % d);
    assert (n / d + 1) * d + n % d == n + d;
  }
}

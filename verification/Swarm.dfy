/** Have-bitfields (core/src/swarm.rs): bit `i` is bit `i % 8` of byte `i / 8`. */
module Swarm {
  import opened Bytes

  function Mask(k: nat): bv8
    requires k < 8
  {
    match k
    case 0 => 1
    case 1 => 2
    case 2 => 4
    case 3 => 8
    case 4 => 16
    case 5 => 32
    case 6 => 64
    case _ => 128
  }

  predicate BitOf(b: bv8, k: nat)
    requires k < 8
  {
    b & Mask(k) != 0
  }

  predicate Has(bf: seq<bv8>, i: nat) {
    i / 8 < |bf| && BitOf(bf[i / 8], i % 8)
  }

  /** Index `i` is the bit `i % 8` places above the lowest of byte `i / 8`. */
  lemma HasIsShift(bf: seq<bv8>, i: nat)
    ensures Has(bf, i) <==> i / 8 < |bf| && (bf[i / 8] >> (i % 8)) & 1 == 1
  {
    if i / 8 < |bf| { BitIsShift(bf[i / 8], i % 8); }
  }

  lemma BitIsShift(b: bv8, k: nat)
    requires k < 8
    ensures BitOf(b, k) <==> (b >> k) & 1 == 1
  {
    match k
    case 0 =>
    case 1 =>
    case 2 =>
    case 3 =>
    case 4 =>
    case 5 =>
    case 6 =>
    case _ =>
  }

  function ByteCount(n: nat): nat {
    CeilDiv(n, 8)
  }

  function New(n: nat): seq<bv8> {
    seq(ByteCount(n), _ => 0)
  }

  /** A fresh bitfield has room for its pieces and marks none. */
  lemma NewIsEmpty(n: nat, i: nat)
    ensures !Has(New(n), i)
    ensures i < n ==> i / 8 < |New(n)|
  {
    CeilDivBounds(n, 8);
  }

  function WithBit(bf: seq<bv8>, i: nat): seq<bv8> {
    if i / 8 < |bf| then bf[i / 8 := bf[i / 8] | Mask(i % 8)] else bf
  }

  /** In place; out of range it does nothing. */
  method Set(bf: array<bv8>, i: nat)
    modifies bf
    ensures bf[..] == WithBit(old(bf[..]), i)
  {
    if i / 8 < bf.Length {
      bf[i / 8] := bf[i / 8] | Mask(i % 8);
    }
  }

  lemma OrMask(b: bv8, k: nat, j: nat)
    requires k < 8 && j < 8
    ensures BitOf(b | Mask(k), j) <==> BitOf(b, j) || j == k
  {
    var m, x := Mask(j), Mask(k);
    assert (b | x) & m == (b & m) | (x & m);
    if j == k {
      assert x & m == m && m != 0;
      assert (b & m) | m == m;
    } else {
      assert x & m == 0;
    }
  }

  /** Setting a bit sets that bit and no other. */
  lemma SetFrame(bf: seq<bv8>, i: nat, j: nat)
    ensures Has(WithBit(bf, i), j) <==> Has(bf, j) || (j == i && i / 8 < |bf|)
    ensures |WithBit(bf, i)| == |bf|
  {
    if i / 8 < |bf| && j / 8 == i / 8 {
      OrMask(bf[i / 8], i % 8, j % 8);
      assert i == i / 8 * 8 + i % 8 && j == j / 8 * 8 + j % 8;
    }
  }

  // ---- counting ------------------------------------------------------------------

  function Bit(b: bv8, k: nat): nat
    requires k < 8
  {
    if BitOf(b, k) then 1 else 0
  }

  /** `count_ones`. */
  function Ones(b: bv8): nat {
    Bit(b, 0) + Bit(b, 1) + Bit(b, 2) + Bit(b, 3) + Bit(b, 4) + Bit(b, 5) + Bit(b, 6) + Bit(b, 7)
  }

  function Marked(bf: seq<bv8>, below: nat): set<nat> {
    set i: nat | i < below && Has(bf, i)
  }

  lemma MarkedStep(bf: seq<bv8>, n: nat)
    ensures |Marked(bf, n + 1)| == |Marked(bf, n)| + if Has(bf, n) then 1 else 0
  {
    if Has(bf, n) {
      assert Marked(bf, n + 1) == Marked(bf, n) + {n};
    } else {
      assert Marked(bf, n + 1) == Marked(bf, n);
    }
  }

  lemma MarkedBit(bf: seq<bv8>, n: nat, k: nat)
    requires n < |bf| && k < 8
    ensures |Marked(bf, 8 * n + k + 1)| == |Marked(bf, 8 * n + k)| + Bit(bf[n], k)
  {
    hide Mask, Marked;
    DivModUnique(n, k, 8);
    MarkedStep(bf, 8 * n + k);
  }

  lemma MarkedByte(bf: seq<bv8>, n: nat)
    requires n < |bf|
    ensures |Marked(bf, 8 * n + 8)| == |Marked(bf, 8 * n)| + Ones(bf[n])
  {
    hide Bit, Marked;
    MarkedBit(bf, n, 0);
    MarkedBit(bf, n, 1);
    MarkedBit(bf, n, 2);
    MarkedBit(bf, n, 3);
    MarkedBit(bf, n, 4);
    MarkedBit(bf, n, 5);
    MarkedBit(bf, n, 6);
    MarkedBit(bf, n, 7);
  }

  /** The count is the number of marked pieces. */
  method Count(bf: seq<bv8>) returns (c: nat)
    ensures c == |Marked(bf, 8 * |bf|)|
  {
    c := 0;
    for n := 0 to |bf|
      invariant c == |Marked(bf, 8 * n)|
    {
      MarkedByte(bf, n);
      c := c + Ones(bf[n]);
    }
  }
}

/** Bytes, options and the little arithmetic the other modules share. */
module Bytes {

  type byte = x: int | 0 <= x < 256

  const TWO_TO_32: nat := 0x1_0000_0000

  datatype Option<+T> = None | Some(value: T)

  function Min(a: int, b: int): (m: int)
    ensures m <= a && m <= b && (m == a || m == b)
  {
    if a <= b then a else b
  }

  function Max(a: int, b: int): (m: int)
    ensures a <= m && b <= m && (m == a || m == b)
  {
    if a <= b then b else a
  }

  // ---- concatenation ---------------------------------------------------------

  function Flatten<T>(pieces: seq<seq<T>>): seq<T> {
    if |pieces| == 0 then [] else Flatten(pieces[..|pieces| - 1]) + pieces[|pieces| - 1]
  }

  lemma FlattenSnoc<T>(pieces: seq<seq<T>>, piece: seq<T>)
    ensures Flatten(pieces + [piece]) == Flatten(pieces) + piece
  {
    assert (pieces + [piece])[..|pieces|] == pieces;
  }

  lemma AppendAssoc<T>(a: seq<T>, b: seq<T>, c: seq<T>)
    ensures a + (b + c) == (a + b) + c
  {
  }

  lemma SubSlice<T>(s: seq<T>, lo: nat, hi: nat, x: nat, y: nat)
    requires lo <= hi <= |s| && x <= y <= hi - lo
    ensures s[lo..hi][x..y] == s[lo + x..lo + y]
  {
    var t := s[lo..hi];
    forall k | 0 <= k < y - x ensures t[x..y][k] == s[lo + x..lo + y][k] {
      assert t[x..y][k] == t[x + k] == s[lo + (x + k)];
    }
  }

  // ---- little-endian integers ------------------------------------------------

  /** The low `width` bytes of `n`, least significant first: what writing
      `(n as uN).to_le_bytes()` leaves, truncation included. */
  function Le(n: nat, width: nat): (bs: seq<byte>)
    ensures |bs| == width
  {
    if width == 0 then [] else [n % 256] + Le(n / 256, width - 1)
  }

  function FromLe(bs: seq<byte>): nat {
    if |bs| == 0 then 0 else bs[0] + 256 * FromLe(bs[1..])
  }

  function Pow256(width: nat): (p: nat)
    ensures p > 0
  {
    if width == 0 then 1 else 256 * Pow256(width - 1)
  }

  lemma {:induction false} LeReadsBack(n: nat, width: nat)
    requires n < Pow256(width)
    ensures FromLe(Le(n, width)) == n
  {
    if width > 0 {
      LeReadsBack(n / 256, width - 1);
      assert Le(n, width)[1..] == Le(n / 256, width - 1);
    }
  }

  lemma {:induction false} FromLeBound(bs: seq<byte>)
    ensures FromLe(bs) < Pow256(|bs|)
  {
    if |bs| > 0 { FromLeBound(bs[1..]); }
  }

  /** The last byte is the most significant. */
  lemma {:induction false} FromLeAppend(bs: seq<byte>, b: byte)
    ensures FromLe(bs + [b]) == FromLe(bs) + b * Pow256(|bs|)
  {
    if |bs| == 0 {
      assert bs + [b] == [b] && [b][1..] == [];
    } else {
      assert (bs + [b])[1..] == bs[1..] + [b];
      FromLeAppend(bs[1..], b);
      assert 256 * (b * Pow256(|bs| - 1)) == b * (256 * Pow256(|bs| - 1));
    }
  }

  lemma Pow256Words()
    ensures Pow256(4) == TWO_TO_32
    ensures Pow256(8) == TWO_TO_32 * TWO_TO_32
  {
    assert Pow256(2) == 65536;
    assert Pow256(3) == 16777216;
    assert Pow256(5) == 256 * Pow256(4);
    assert Pow256(6) == 256 * Pow256(5);
    assert Pow256(7) == 256 * Pow256(6);
  }

  // ---- division --------------------------------------------------------------

  /** Rust's `a.div_ceil(b)`. */
  function CeilDiv(a: nat, b: nat): (q: nat)
    requires b > 0
  {
    if a % b == 0 then a / b else a / b + 1
  }

  lemma CeilDivBounds(a: nat, b: nat)
    requires b > 0
    ensures a <= CeilDiv(a, b) * b < a + b
  {
    assert a == a / b * b + a % b;
    assert (a / b + 1) * b == a / b * b + b;
  }

  lemma MulMono(a: nat, b: nat, c: nat)
    requires a <= b
    ensures a * c <= b * c
  {
  }

  /** The quotient and remainder of `q * b + r`. */
  lemma DivModUnique(q: nat, r: nat, b: nat)
    requires r < b
    ensures (q * b + r) / b == q && (q * b + r) % b == r
  {
    var n := q * b + r;
    var d := n / b - q;
    assert d * b == r - n % b by {
      assert n == n / b * b + n % b;
      assert d * b == n / b * b - q * b;
    }
    assert d >= 1 ==> d * b >= b;
    assert d <= -1 ==> d * b + b <= 0;
  }

  lemma QuotientBound(i: nat, n: nat, b: nat)
    requires b > 0
    ensures i <= n / b <==> i * b <= n
  {
    var d := n / b - i;
    assert d * b == n - n % b - i * b by {
      assert n == n / b * b + n % b;
      assert d * b == n / b * b - i * b;
    }
    assert d >= 0 ==> d * b >= 0;
    assert d <= -1 ==> d * b + b <= 0;
  }

  lemma DivMono(a: nat, b: nat, c: nat)
    requires a <= b && c > 0
    ensures a / c <= b / c
  {
    QuotientBound(a / c, a, c);
    QuotientBound(a / c, b, c);
  }
}

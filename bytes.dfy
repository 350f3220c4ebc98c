/** Bytes, unsigned 64-bit integers, their big-endian encoding and the byte order of keys. */
module Bytes {

  type byte = x: int | 0 <= x < 256

  /** Rust's `u64`. */
  type u64 = x: int | 0 <= x < 0x1_0000_0000_0000_0000

  function Pow256(n: nat): (r: nat)
    ensures r > 0
  {
    if n == 0 then 1 else 256 * Pow256(n - 1)
  }

  lemma Pow256Eight()
    ensures Pow256(8) == 0x1_0000_0000_0000_0000
  {
    assert Pow256(1) == 0x100;
    assert Pow256(2) == 0x1_0000;
    assert Pow256(4) == 0x1_0000_0000 by {
      assert Pow256(3) == 0x100_0000;
    }
    assert Pow256(6) == 0x1_0000_0000_0000 by {
      assert Pow256(5) == 0x100_0000_0000;
    }
    assert Pow256(7) == 0x100_0000_0000_0000;
  }

  /** The `width` low-order bytes of `n`, most significant byte first. */
  function ToBigEndian(n: nat, width: nat): (s: seq<byte>)
    ensures |s| == width
  {
    if width == 0 then [] else ToBigEndian(n / 256, width - 1) + [n % 256]
  }

  /** The number a big-endian byte string denotes. */
  function FromBigEndian(s: seq<byte>): (n: nat)
    ensures n < Pow256(|s|)
  {
    if s == [] then 0 else 256 * FromBigEndian(s[..|s| - 1]) + s[|s| - 1]
  }

  lemma {:induction false} FromToBigEndian(n: nat, width: nat)
    requires n < Pow256(width)
    ensures FromBigEndian(ToBigEndian(n, width)) == n
  {
    if width > 0 {
      var s := ToBigEndian(n, width);
      assert s[..|s| - 1] == ToBigEndian(n / 256, width - 1);
      FromToBigEndian(n / 256, width - 1);
    }
  }

  lemma {:induction false} ToFromBigEndian(s: seq<byte>)
    ensures ToBigEndian(FromBigEndian(s), |s|) == s
  {
    if s != [] {
      var init := s[..|s| - 1];
      ToFromBigEndian(init);
      assert s == init + [s[|s| - 1]];
    }
  }

  /** Two byte strings of one length denote the same number only if they are equal. */
  lemma FromBigEndianInjective(s: seq<byte>, t: seq<byte>)
    requires |s| == |t| && FromBigEndian(s) == FromBigEndian(t)
    ensures s == t
  {
    ToFromBigEndian(s);
    ToFromBigEndian(t);
  }

  /** Rust's `u64::to_be_bytes`. */
  function U64ToBeBytes(n: u64): (s: seq<byte>)
    ensures |s| == 8
    ensures FromBigEndian(s) == n
  {
    Pow256Eight();
    FromToBigEndian(n, 8);
    ToBigEndian(n, 8)
  }

  /** Rust's `u64::from_be_bytes`, the inverse of `U64ToBeBytes`. */
  function U64FromBeBytes(s: seq<byte>): (n: u64)
    requires |s| == 8
    ensures U64ToBeBytes(n) == s
  {
    Pow256Eight();
    ToFromBigEndian(s);
    FromBigEndian(s)
  }

  lemma U64ToBeBytesInjective(a: u64, b: u64)
    requires U64ToBeBytes(a) == U64ToBeBytes(b)
    ensures a == b
  {
  }

  /** Strict lexicographic order on byte strings: the order of Rust's `[u8]` and of sled's keys. */
  predicate LexLess(a: seq<byte>, b: seq<byte>)
  {
    if a == [] then b != []
    else b != [] && (a[0] < b[0] || (a[0] == b[0] && LexLess(a[1..], b[1..])))
  }

  /** A common prefix does not change the order of two byte strings. */
  lemma {:induction false} LexLessCommonPrefix(p: seq<byte>, a: seq<byte>, b: seq<byte>)
    ensures LexLess(p + a, p + b) <==> LexLess(a, b)
  {
    if p == [] {
      assert p + a == a && p + b == b;
    } else {
      assert (p + a)[0] == (p + b)[0] == p[0];
      assert (p + a)[1..] == p[1..] + a;
      assert (p + b)[1..] == p[1..] + b;
      LexLessCommonPrefix(p[1..], a, b);
    }
  }

  /** Comparing two strings of one length with one byte appended to each. */
  lemma {:induction false} LexLessAppend(a: seq<byte>, b: seq<byte>, x: byte, y: byte)
    requires |a| == |b|
    ensures LexLess(a + [x], b + [y]) <==> LexLess(a, b) || (a == b && x < y)
  {
    if a != [] {
      assert (a + [x])[1..] == a[1..] + [x];
      assert (b + [y])[1..] == b[1..] + [y];
      LexLessAppend(a[1..], b[1..], x, y);
      assert a == [a[0]] + a[1..];
      assert b == [b[0]] + b[1..];
    }
  }

  /** On strings of one length, byte order is the numeric order of their big-endian values. */
  lemma {:induction false} LexLessBigEndian(s: seq<byte>, t: seq<byte>)
    requires |s| == |t|
    ensures LexLess(s, t) <==> FromBigEndian(s) < FromBigEndian(t)
  {
    if s != [] {
      var s', t' := s[..|s| - 1], t[..|t| - 1];
      var x, y := s[|s| - 1], t[|t| - 1];
      assert s == s' + [x];
      assert t == t' + [y];
      LexLessAppend(s', t', x, y);
      LexLessBigEndian(s', t');
      if FromBigEndian(s') == FromBigEndian(t') {
        FromBigEndianInjective(s', t');
      }
    }
  }

  /** The big-endian encoding of `u64` values sorts in numeric order. */
  lemma U64ToBeBytesOrdered(a: u64, b: u64)
    ensures LexLess(U64ToBeBytes(a), U64ToBeBytes(b)) <==> a < b
  {
    LexLessBigEndian(U64ToBeBytes(a), U64ToBeBytes(b));
  }
}

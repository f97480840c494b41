/** Byte strings: big-endian integers, lexicographic order and prefix ranges. */
module Bytes {
  datatype Option<+T> = None | Some(value: T)

  type byte = b: int | 0 <= b < 256
  type Bytes = seq<byte>

  const SLASH: byte := 47

  function Pow256(n: nat): (r: nat)
    ensures r > 0
  {
    if n == 0 then 1 else 256 * Pow256(n - 1)
  }

  type u32 = v: int | 0 <= v < 0x1_0000_0000
  type u64 = v: int | 0 <= v < 0x1_0000_0000_0000_0000

  /** `v` as exactly `n` bytes, most significant first. */
  function BE(v: nat, n: nat): (b: Bytes)
    ensures |b| == n
  {
    if n == 0 then [] else BE(v / 256, n - 1) + [v % 256]
  }

  function FromBE(b: Bytes): (v: nat)
    ensures v < Pow256(|b|)
  {
    if b == [] then 0 else 256 * FromBE(b[..|b| - 1]) + b[|b| - 1]
  }

  function U32(v: u32): (b: Bytes)
    ensures |b| == 4
  {
    BE(v, 4)
  }

  function U64(v: u64): (b: Bytes)
    ensures |b| == 8
  {
    BE(v, 8)
  }

  function ReadU32(b: Bytes): (v: u32)
    requires |b| == 4
  {
    Pow256Values();
    FromBE(b)
  }

  function ReadU64(b: Bytes): (v: u64)
    requires |b| == 8
  {
    Pow256Values();
    FromBE(b)
  }

  lemma Pow256Values()
    ensures Pow256(4) == 0x1_0000_0000
    ensures Pow256(8) == 0x1_0000_0000_0000_0000
  {
    assert Pow256(2) == 65536;
    assert Pow256(4) == 256 * (256 * Pow256(2));
    assert Pow256(6) == 256 * (256 * Pow256(4));
    assert Pow256(8) == 256 * (256 * Pow256(6));
  }

  lemma {:induction false} BERoundTrip(v: nat, n: nat)
    requires v < Pow256(n)
    ensures FromBE(BE(v, n)) == v
  {
    if n > 0 {
      BERoundTrip(v / 256, n - 1);
      assert BE(v, n)[..n - 1] == BE(v / 256, n - 1);
    }
  }

  lemma {:induction false} FromBERoundTrip(b: Bytes)
    ensures BE(FromBE(b), |b|) == b
  {
    if b != [] {
      FromBERoundTrip(b[..|b| - 1]);
    }
  }

  lemma U32RoundTrip(v: u32)
    ensures ReadU32(U32(v)) == v
  {
    Pow256Values();
    BERoundTrip(v, 4);
  }

  lemma U64RoundTrip(v: u64)
    ensures ReadU64(U64(v)) == v
  {
    Pow256Values();
    BERoundTrip(v, 8);
  }

  // ----- lexicographic order (bytes.Compare) -----

  predicate Lt(a: Bytes, b: Bytes) {
    b != [] && (a == [] || a[0] < b[0] || (a[0] == b[0] && Lt(a[1..], b[1..])))
  }

  predicate Le(a: Bytes, b: Bytes) {
    a == b || Lt(a, b)
  }

  lemma {:induction false} LtTrans(a: Bytes, b: Bytes, c: Bytes)
    requires Lt(a, b) && Lt(b, c)
    ensures Lt(a, c)
  {
    if a != [] && a[0] == b[0] && b[0] == c[0] {
      LtTrans(a[1..], b[1..], c[1..]);
    }
  }

  lemma {:induction false} LtIrreflexive(a: Bytes)
    ensures !Lt(a, a)
  {
    if a != [] {
      LtIrreflexive(a[1..]);
    }
  }

  lemma LtAsymmetric(a: Bytes, b: Bytes)
    requires Lt(a, b)
    ensures !Lt(b, a) && a != b
  {
    LtIrreflexive(a);
    if Lt(b, a) {
      LtTrans(a, b, a);
    }
  }

  lemma {:induction false} LtTotal(a: Bytes, b: Bytes)
    ensures Lt(a, b) || a == b || Lt(b, a)
  {
    if a != [] && b != [] && a[0] == b[0] {
      LtTotal(a[1..], b[1..]);
      assert a == [a[0]] + a[1..] && b == [b[0]] + b[1..];
    }
  }

  lemma {:induction false} LtAfterCommonPrefix(p: Bytes, a: Bytes, b: Bytes)
    ensures Lt(p + a, p + b) == Lt(a, b)
  {
    if p == [] {
      assert p + a == a && p + b == b;
    } else {
      LtAfterCommonPrefix(p[1..], a, b);
      assert (p + a)[1..] == p[1..] + a && (p + b)[1..] == p[1..] + b;
    }
  }

  /** Fixed-width big-endian encoding keeps the numeric order: this is what lets keys be range-scanned. */
  lemma {:induction false} BEOrder(v: nat, w: nat, n: nat)
    requires v < Pow256(n) && w < Pow256(n)
    ensures v < w <==> Lt(BE(v, n), BE(w, n))
  {
    if n > 0 {
      var hv, hw := BE(v / 256, n - 1), BE(w / 256, n - 1);
      BEOrder(v / 256, w / 256, n - 1);
      if v / 256 == w / 256 {
        LtAfterCommonPrefix(hv, [v % 256], [w % 256]);
      } else {
        BERoundTrip(v / 256, n - 1);
        BERoundTrip(w / 256, n - 1);
        LtBeforeSuffix(hv, hw, [v % 256], [w % 256]);
      }
    }
  }

  lemma {:induction false} LtBeforeSuffix(a: Bytes, b: Bytes, s: Bytes, t: Bytes)
    requires |a| == |b| && a != b
    ensures Lt(a + s, b + t) == Lt(a, b)
  {
    assert (a + s)[1..] == a[1..] + s && (b + t)[1..] == b[1..] + t;
    if a[0] == b[0] {
      assert a == [a[0]] + a[1..] && b == [b[0]] + b[1..];
      LtBeforeSuffix(a[1..], b[1..], s, t);
    }
  }

  predicate HasPrefix(k: Bytes, p: Bytes) {
    p <= k
  }

  /** The smallest string above every string that starts with `p`; None when `p` is all 0xFF. */
  function PrefixUpperBound(p: Bytes): (r: Option<Bytes>) {
    if p == [] then None
    else match PrefixUpperBound(p[1..])
         case Some(u) => Some([p[0]] + u)
         case None => if p[0] < 255 then Some([p[0] + 1]) else None
  }

  lemma {:induction false} BumpLastByte(p: Bytes, i: nat)
    requires i < |p| && p[i] < 255 && forall j :: i < j < |p| ==> p[j] == 255
    ensures PrefixUpperBound(p) == Some(p[..i] + [p[i] + 1])
  {
    if i == 0 {
      AllMax(p[1..]);
      assert p[..0] + [p[0] + 1] == [p[0] + 1];
    } else {
      BumpLastByte(p[1..], i - 1);
      assert p[..i] + [p[i] + 1] == [p[0]] + (p[1..][..i - 1] + [p[1..][i - 1] + 1]);
    }
  }

  lemma {:induction false} AllMax(p: Bytes)
    requires forall j :: 0 <= j < |p| ==> p[j] == 255
    ensures PrefixUpperBound(p) == None
  {
    if p != [] {
      AllMax(p[1..]);
    }
  }

  /** PrefixUpperBound as the store computes it: from the last byte backwards. */
  method ComputePrefixUpperBound(prefix: Bytes) returns (r: Option<Bytes>)
    ensures r == PrefixUpperBound(prefix)
    ensures r == None <==> forall j :: 0 <= j < |prefix| ==> prefix[j] == 255
  {
    var up := prefix;
    var i := |up| - 1;
    while i >= 0
      invariant -1 <= i < |up| && up == prefix
      invariant forall j :: i < j < |up| ==> up[j] == 255
    {
      if up[i] < 255 {
        BumpLastByte(prefix, i);
        up := up[i := up[i] + 1];
        assert up[..i + 1] == prefix[..i] + [prefix[i] + 1];
        return Some(up[..i + 1]);
      }
      i := i - 1;
    }
    AllMax(prefix);
    return None;
  }

  /** [p, PrefixUpperBound(p)) is exactly the set of strings with prefix p. */
  lemma {:induction false} PrefixRange(p: Bytes, k: Bytes)
    ensures HasPrefix(k, p) <==>
            Le(p, k) && (PrefixUpperBound(p).Some? ==> Lt(k, PrefixUpperBound(p).value))
  {
    if p == [] {
    } else if k == [] {
    } else if k[0] == p[0] {
      PrefixRange(p[1..], k[1..]);
      assert p == [p[0]] + p[1..] && k == [k[0]] + k[1..];
      assert HasPrefix(k, p) <==> HasPrefix(k[1..], p[1..]);
      assert Le(p, k) <==> Le(p[1..], k[1..]);
      match PrefixUpperBound(p[1..]) {
        case Some(u) => assert ([p[0]] + u)[1..] == u;
        case None =>
      }
    } else {
      match PrefixUpperBound(p[1..]) {
        case Some(u) => assert ([p[0]] + u)[0] == p[0];
        case None =>
      }
    }
  }

  /** Position of the first `c` in `b`, or |b|. */
  function IndexOf(b: Bytes, c: byte): (i: nat)
    ensures i <= |b|
    ensures c !in b[..i]
    ensures i < |b| ==> b[i] == c
  {
    if b == [] || b[0] == c then 0 else
      var i := 1 + IndexOf(b[1..], c);
      assert b[..i] == [b[0]] + b[1..][..i - 1];
      i
  }

  lemma {:induction false} IndexOfAfter(p: Bytes, c: byte, s: Bytes)
    requires c !in p
    ensures IndexOf(p + [c] + s, c) == |p|
  {
    var b := p + [c] + s;
    if p == [] {
      assert b[0] == c;
    } else {
      assert b[0] == p[0] && p[0] in p;
      assert b[1..] == p[1..] + [c] + s;
      IndexOfAfter(p[1..], c, s);
    }
  }

  lemma LeLtTrans(a: Bytes, b: Bytes, c: Bytes)
    requires Le(a, b) && Lt(b, c)
    ensures Lt(a, c)
  {
    if a != b {
      LtTrans(a, b, c);
    }
  }

  lemma LtLeTrans(a: Bytes, b: Bytes, c: Bytes)
    requires Lt(a, b) && Le(b, c)
    ensures Lt(a, c)
  {
    if b != c {
      LtTrans(a, b, c);
    }
  }

  lemma LeTrans(a: Bytes, b: Bytes, c: Bytes)
    requires Le(a, b) && Le(b, c)
    ensures Le(a, c)
  {
    if a != b && b != c {
      LtTrans(a, b, c);
    }
  }
}

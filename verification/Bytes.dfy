/** Byte strings: their order and the little-endian form of lengths. */
module ByteStrings {
  import opened Sorting

  type Byte = b: int | 0 <= b < 256
  type Bytes = seq<Byte>

  function Ascii(s: string): Bytes {
    seq(|s|, i requires 0 <= i < |s| => s[i] as int % 256)
  }

  // ---- Order

  predicate LexLe(a: Bytes, b: Bytes) {
    a == [] || (b != [] && (a[0] < b[0] || (a[0] == b[0] && LexLe(a[1..], b[1..]))))
  }

  /** `a` and `b` agree before `k`, where `a` ends or holds the smaller byte. */
  predicate FirstDifference(a: Bytes, b: Bytes, k: nat) {
    && k <= |a| && k <= |b| && a[..k] == b[..k]
    && (k == |a| || (k < |b| && a[k] < b[k]))
  }

  /** The order is lexicographic: the first difference decides, and a prefix comes first, whatever the lengths. */
  lemma {:induction false} LexLeIff(a: Bytes, b: Bytes)
    ensures LexLe(a, b) <==> exists k: nat :: FirstDifference(a, b, k)
  {
    if a == [] {
      assert FirstDifference(a, b, 0);
    } else if b == [] {
      assert forall k: nat :: FirstDifference(a, b, k) ==> k == 0;
    } else if a[0] != b[0] {
      if a[0] < b[0] { assert FirstDifference(a, b, 0); }
      forall k: nat
        ensures FirstDifference(a, b, k) ==> k == 0
      {
        PastHeads(a, b, k);
      }
    } else {
      LexLeIff(a[1..], b[1..]);
      if k: nat :| FirstDifference(a[1..], b[1..], k) { DifferenceMoves(a, b, k); }
      if k: nat :| FirstDifference(a, b, k) && k > 0 { DifferenceMoves(a, b, k - 1); }
    }
  }

  lemma PastHeads(a: Bytes, b: Bytes, k: nat)
    requires a != [] && b != []
    ensures FirstDifference(a, b, k) && k > 0 ==> a[0] == b[0]
  {
    if 0 < k <= |a| && k <= |b| { assert a[..k][0] == a[0] && b[..k][0] == b[0]; }
  }

  lemma DifferenceMoves(a: Bytes, b: Bytes, k: nat)
    requires a != [] && b != [] && a[0] == b[0]
    ensures FirstDifference(a[1..], b[1..], k) <==> FirstDifference(a, b, k + 1)
  {
    var next := k + 1;
    if next <= |a| && next <= |b| {
      assert a[..next] == [a[0]] + a[1..][..k] && b[..next] == [b[0]] + b[1..][..k];
      assert a[..next][1..] == a[1..][..k] && b[..next][1..] == b[1..][..k];
    }
  }

  lemma {:induction false} LexTotal(a: Bytes, b: Bytes)
    ensures LexLe(a, b) || LexLe(b, a)
  {
    if a != [] && b != [] { LexTotal(a[1..], b[1..]); }
  }

  lemma {:induction false} LexAntisymmetric(a: Bytes, b: Bytes)
    requires LexLe(a, b) && LexLe(b, a)
    ensures a == b
  {
    if a != [] {
      LexAntisymmetric(a[1..], b[1..]);
      assert a == [a[0]] + a[1..] && b == [b[0]] + b[1..];
    }
  }

  lemma {:induction false} LexTransitive(a: Bytes, b: Bytes, c: Bytes)
    requires LexLe(a, b) && LexLe(b, c)
    ensures LexLe(a, c)
  {
    if a != [] && a[0] == b[0] == c[0] { LexTransitive(a[1..], b[1..], c[1..]); }
  }

  lemma LexOrder()
    ensures TotalOrder(LexLe)
  {
    forall a: Bytes, b: Bytes ensures LexLe(a, b) || LexLe(b, a) { LexTotal(a, b); }
    forall a: Bytes, b: Bytes | LexLe(a, b) && LexLe(b, a) ensures a == b { LexAntisymmetric(a, b); }
    forall a: Bytes, b: Bytes, c: Bytes | LexLe(a, b) && LexLe(b, c) ensures LexLe(a, c) { LexTransitive(a, b, c); }
  }

  /** Pairs compare by their first part, then by their second. */
  predicate PairLe(p: (Bytes, Bytes), q: (Bytes, Bytes)) {
    if p.0 == q.0 then LexLe(p.1, q.1) else LexLe(p.0, q.0)
  }

  lemma PairOrder()
    ensures TotalOrder(PairLe)
  {
    LexOrder();
  }

  // ---- Little-endian numbers

  function Pow256(width: nat): (p: nat)
    ensures p > 0
  {
    if width == 0 then 1 else 256 * Pow256(width - 1)
  }

  /** The low `width` bytes of `n`, least significant first. */
  function LittleEndian(n: nat, width: nat): (b: Bytes)
    ensures |b| == width
  {
    if width == 0 then [] else [n % 256] + LittleEndian(n / 256, width - 1)
  }

  /** Four and eight bytes, written out. */
  lemma FourBytes(n: nat)
    ensures LittleEndian(n, 4) == [n % 0x100, n / 0x100 % 0x100, n / 0x1_0000 % 0x100, n / 0x100_0000 % 0x100]
  {
    TwoBytes(n, 2);
    TwoBytes(n / 0x1_0000, 0);
  }

  lemma EightBytes(n: nat)
    ensures LittleEndian(n, 8) == LittleEndian(n, 4) + LittleEndian(n / 0x1_0000_0000, 4)
  {
    var m, high := n / 0x1_0000, n / 0x1_0000_0000;
    assert m / 0x1_0000 == high;
    TwoBytes(n, 6);
    TwoBytes(m, 4);
    TwoBytes(n, 2);
    TwoBytes(m, 0);
    TwoAndTwo([n % 0x100, n / 0x100 % 0x100], [m % 0x100, m / 0x100 % 0x100], LittleEndian(high, 4), LittleEndian(high, 0));
  }

  lemma TwoAndTwo(a: Bytes, b: Bytes, rest: Bytes, none: Bytes)
    requires none == []
    ensures a + (b + rest) == (a + (b + none)) + rest
  {
  }

  lemma TwoBytes(n: nat, width: nat)
    ensures LittleEndian(n, width + 2) == [n % 0x100, n / 0x100 % 0x100] + LittleEndian(n / 0x1_0000, width)
  {
    assert n / 0x100 / 0x100 == n / 0x1_0000;
    assert LittleEndian(n, width + 2) == [n % 0x100] + LittleEndian(n / 0x100, width + 1);
  }

  function FromLittleEndian(b: Bytes): nat {
    if b == [] then 0 else b[0] + 256 * FromLittleEndian(b[1..])
  }

  lemma {:induction false} LittleEndianRoundTrip(n: nat, width: nat)
    ensures n < Pow256(width) ==> FromLittleEndian(LittleEndian(n, width)) == n
  {
    if width > 0 { LittleEndianRoundTrip(n / 256, width - 1); }
  }
}

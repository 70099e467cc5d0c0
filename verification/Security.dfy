/**
 * Classifying addresses that a caller must not be led to. Octets and segments are numbers: shifting right and masking
 * the upper bits are written as division, truncating to an octet as a remainder.
 */
module Security {
  import opened Wrappers

  type Octet = x: int | 0 <= x < 0x100
  type Word = x: int | 0 <= x < 0x1_0000

  datatype V4 = V4(a: Octet, b: Octet, c: Octet, d: Octet)

  /** Eight segments, `s0` first. */
  datatype V6 = V6(s0: Word, s1: Word, s2: Word, s3: Word, s4: Word, s5: Word, s6: Word, s7: Word)

  // ---- The classifier

  /** The upper two bits of the second octet are `01`. */
  predicate IsCgnat(v: V4) {
    v.a == 100 && v.b / 0x40 == 1
  }

  predicate IsReserved(v: V4) {
    v.a == 0 || v.a >= 240
  }

  predicate IsPrivateV4(v: V4) {
    v.a == 10 || (v.a == 172 && 16 <= v.b <= 31) || (v.a == 192 && v.b == 168)
  }

  predicate IsBlockedV4(v: V4) {
    || v.a == 127
    || IsPrivateV4(v)
    || (v.a == 169 && v.b == 254)
    || v == V4(255, 255, 255, 255)
    || v == V4(0, 0, 0, 0)
    || 224 <= v.a <= 239
    || IsCgnat(v)
    || IsReserved(v)
  }

  function Low(s: V6): V4 {
    V4(s.s6 / 0x100, s.s6 % 0x100, s.s7 / 0x100, s.s7 % 0x100)
  }

  function EmbeddedV4(s: V6): Option<V4> {
    if s.s0 == s.s1 == s.s2 == s.s3 == s.s4 == 0 && s.s5 == 0xFFFF then
      Some(Low(s))
    else if s.s0 == 0x64 && s.s1 == 0xFF9B && s.s2 == s.s3 == s.s4 == s.s5 == 0 then
      Some(Low(s))
    else if s.s0 == s.s1 == s.s2 == s.s3 == s.s4 == s.s5 == 0 && !(s.s6 == 0 && s.s7 <= 1) then
      Some(Low(s))
    else
      None
  }

  const LOOPBACK: V6 := V6(0, 0, 0, 0, 0, 0, 0, 1)
  const UNSPECIFIED: V6 := V6(0, 0, 0, 0, 0, 0, 0, 0)

  predicate IsPrivateV6(s: V6) {
    || s == LOOPBACK
    || s == UNSPECIFIED
    || s.s0 / 0x100 == 0xFF
    || s.s0 / 0x200 == 0xFC00 / 0x200
    || s.s0 / 0x40 == 0xFE80 / 0x40
    || (EmbeddedV4(s).Some? && IsBlockedV4(EmbeddedV4(s).value))
  }

  // ---- IPv4 as 32-bit numbers

  function Number(v: V4): nat {
    ((v.a * 0x100 + v.b) * 0x100 + v.c) * 0x100 + v.d
  }

  /** The documented blocks, with multicast written out; each from its first to its last address. */
  const BLOCKS: seq<(nat, nat)> := [
    (0x0A00_0000, 0x0AFF_FFFF),  // 10.0.0.0/8
    (0xAC10_0000, 0xAC1F_FFFF),  // 172.16.0.0/12
    (0xC0A8_0000, 0xC0A8_FFFF),  // 192.168.0.0/16
    (0x7F00_0000, 0x7FFF_FFFF),  // 127.0.0.0/8
    (0xA9FE_0000, 0xA9FE_FFFF),  // 169.254.0.0/16
    (0x6440_0000, 0x647F_FFFF),  // 100.64.0.0/10
    (0x0000_0000, 0x00FF_FFFF),  // 0.0.0.0/8
    (0xF000_0000, 0xFFFF_FFFF),  // 240.0.0.0/4
    (0xE000_0000, 0xEFFF_FFFF)   // 224.0.0.0/4
  ]

  predicate Within(n: nat, block: (nat, nat)) {
    block.0 <= n <= block.1
  }

  predicate InBlocks(n: nat) {
    exists i :: 0 <= i < |BLOCKS| && Within(n, BLOCKS[i])
  }

  lemma InBlocksWritten(n: nat)
    ensures InBlocks(n) <==>
      || 0x0A00_0000 <= n <= 0x0AFF_FFFF || 0xAC10_0000 <= n <= 0xAC1F_FFFF || 0xC0A8_0000 <= n <= 0xC0A8_FFFF
      || 0x7F00_0000 <= n <= 0x7FFF_FFFF || 0xA9FE_0000 <= n <= 0xA9FE_FFFF || 0x6440_0000 <= n <= 0x647F_FFFF
      || n <= 0x00FF_FFFF || 0xF000_0000 <= n <= 0xFFFF_FFFF || 0xE000_0000 <= n <= 0xEFFF_FFFF
  {
    var b := BLOCKS;
    assert |b| == 9;
    assert InBlocks(n) <==>
      || Within(n, b[0]) || Within(n, b[1]) || Within(n, b[2]) || Within(n, b[3]) || Within(n, b[4])
      || Within(n, b[5]) || Within(n, b[6]) || Within(n, b[7]) || Within(n, b[8]);
  }

  /** An IPv4 address is blocked exactly when it lies in a documented block. */
  lemma BlockedIff(v: V4)
    ensures IsBlockedV4(v) <==> InBlocks(Number(v))
  {
    InBlocksWritten(Number(v));
  }

  // ---- IPv4 inside IPv6

  /** `::ffff:a.b.c.d` */
  function Mapped(v: V4): V6 {
    V6(0, 0, 0, 0, 0, 0xFFFF, v.a * 0x100 + v.b, v.c * 0x100 + v.d)
  }

  /** `64:ff9b::a.b.c.d` */
  function Nat64(v: V4): V6 {
    V6(0x64, 0xFF9B, 0, 0, 0, 0, v.a * 0x100 + v.b, v.c * 0x100 + v.d)
  }

  /** `::a.b.c.d`, which at `0.0.0.0` and `0.0.0.1` is the unspecified and the loopback address. */
  function Compatible(v: V4): V6 {
    V6(0, 0, 0, 0, 0, 0, v.a * 0x100 + v.b, v.c * 0x100 + v.d)
  }

  predicate Carries(s: V6, v: V4) {
    s == Mapped(v) || s == Nat64(v) || s == Compatible(v)
  }

  lemma LowOf(v: V4, s: V6)
    ensures s.s6 == v.a * 0x100 + v.b && s.s7 == v.c * 0x100 + v.d <==> Low(s) == v
  {
  }

  /** An address that carries an IPv4 address is private exactly when that one is blocked. */
  lemma CarriedIff(s: V6, v: V4)
    requires Carries(s, v)
    ensures IsPrivateV6(s) <==> IsBlockedV4(v)
  {
    LowOf(v, s);
  }

  predicate InPrivateRange(s: V6) {
    0xFC00 <= s.s0 <= 0xFDFF || 0xFE80 <= s.s0 <= 0xFEBF || 0xFF00 <= s.s0
  }

  ghost predicate CarriesBlocked(s: V6) {
    exists v :: Carries(s, v) && InBlocks(Number(v))
  }

  /** Every IPv6 address: private exactly when unique local, link-local, multicast or carrying a blocked IPv4 address. */
  lemma PrivateIff(s: V6)
    ensures IsPrivateV6(s) <==> InPrivateRange(s) || CarriesBlocked(s)
  {
    if CarriesBlocked(s) {
      var v :| Carries(s, v) && InBlocks(Number(v));
      CarriedIff(s, v);
      BlockedIff(v);
    } else if IsPrivateV6(s) && !InPrivateRange(s) {
      LowOf(Low(s), s);
      BlockedIff(Low(s));
      assert Carries(s, Low(s));
    }
  }
}

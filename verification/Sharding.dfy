/**
 Routing of keys to shards (rszero/src/store/sharding.rs): consistent hashing on a ring of 2^32
 positions, ranges, and a plain remainder. Keys and node names are sequences of bytes.
 */
module Sharding {
  import opened Wrappers
  import opened Decimals

  const RING: nat := 0x1_0000_0000

  const U64_MAX: nat := 0xFFFF_FFFF_FFFF_FFFF

  datatype Strategy = Hash(slots: U32) | Range(ranges: seq<(nat, nat)>) | Modulo

  // ------------------------------------------------------------------- hashing

  type Byte = n: nat | n < 256

  function Pow2(n: nat): nat {
    if n == 0 then 1 else 2 * Pow2(n - 1)
  }

  /** The exclusive or of the lowest `n` bits. */
  function XorBits(a: nat, b: nat, n: nat): (r: nat)
    ensures r < Pow2(n)
  {
    if n == 0 then 0 else 2 * XorBits(a / 2, b / 2, n - 1) + (a + b) % 2
  }

  lemma Halves(y: nat, c: nat)
    requires c < 2
    ensures (2 * y + c) / 2 == y && (2 * y + c) % 2 == c
  {
  }

  lemma Parity(a: nat, b: nat, x: nat)
    requires x % 2 == (a + b) % 2
    ensures (x + b) % 2 == a % 2
  {
  }

  /** Bit number `i`, from the lowest. */
  function Bit(a: nat, i: nat): nat {
    if i == 0 then a % 2 else Bit(a / 2, i - 1)
  }

  lemma BitOfTwice(y: nat, c: nat, i: nat)
    requires c < 2
    ensures Bit(2 * y + c, i) == if i == 0 then c else Bit(y, i - 1)
  {
    Halves(y, c);
  }

  lemma Differs(a: nat, b: nat)
    ensures (a + b) % 2 == if a % 2 != b % 2 then 1 else 0
  {
  }

  /** Of the lowest `n` bits, those are set in which the two numbers differ. */
  lemma {:induction false} XorBitsAt(a: nat, b: nat, n: nat, i: nat)
    requires i < n
    ensures Bit(XorBits(a, b, n), i) == if Bit(a, i) != Bit(b, i) then 1 else 0
    decreases n
  {
    BitOfTwice(XorBits(a / 2, b / 2, n - 1), (a + b) % 2, i);
    if i > 0 {
      XorBitsAt(a / 2, b / 2, n - 1, i - 1);
    } else {
      Differs(a, b);
    }
  }

  lemma {:induction false} XorBitsTwice(a: nat, b: nat, n: nat)
    requires a < Pow2(n)
    ensures XorBits(XorBits(a, b, n), b, n) == a
    decreases n
  {
    if n > 0 {
      var x := XorBits(a, b, n);
      XorBitsTwice(a / 2, b / 2, n - 1);
      Halves(XorBits(a / 2, b / 2, n - 1), (a + b) % 2);
      Parity(a, b, x);
    }
  }

  lemma {:induction false} XorBitsSwap(a: nat, b: nat, n: nat)
    ensures XorBits(a, b, n) == XorBits(b, a, n)
    decreases n
  {
    if n > 0 {
      XorBitsSwap(a / 2, b / 2, n - 1);
    }
  }

  function XorByte(a: Byte, b: Byte): Byte {
    assert Pow2(4) == 16 && Pow2(8) == 16 * Pow2(4);
    XorBits(a, b, 8)
  }

  /** The exclusive or of a 32-bit number with a byte changes the lowest eight bits only. */
  function Xor(hash: U32, byte: Byte): U32 {
    hash / 256 * 256 + XorByte(hash % 256, byte)
  }

  /** The multiplication wraps at 2^32. */
  function Mix(hash: U32, byte: Byte): U32 {
    Xor(hash, byte) * 0x0100_0193 % RING
  }

  /** The position of some bytes on the ring: their 32-bit FNV-1a hash. */
  function Position(data: seq<Byte>): U32 {
    if data == [] then 0x811c_9dc5 else Mix(Position(data[..|data| - 1]), data[|data| - 1])
  }

  method Fnv1a32(data: seq<Byte>) returns (hash: U32)
    ensures hash == Position(data)
  {
    hash := 0x811c_9dc5;
    for i := 0 to |data|
      invariant hash == Position(data[..i])
    {
      assert data[..i + 1][..i] == data[..i];
      hash := Xor(hash, data[i]);
      hash := hash * 0x0100_0193 % RING;
    }
    assert data[..|data|] == data;
  }

  /** ASCII text as bytes. */
  function Bytes(s: string): (b: seq<Byte>)
    requires forall i :: 0 <= i < |s| ==> s[i] < 128 as char
    ensures |b| == |s| && forall i :: 0 <= i < |s| ==> b[i] == s[i] as int
  {
    seq(|s|, i requires 0 <= i < |s| => s[i] as int)
  }

  /** The name of a virtual node: two decimal numbers and a colon between them. */
  function NodeName(shard: nat, v: nat): string {
    Digits(shard) + [':'] + Digits(v)
  }

  function NodePosition(shard: nat, v: nat): U32 {
    Position(Bytes(NodeName(shard, v)))
  }

  // -------------------------------------------------- keys that never collide

  lemma XorParts(hash: U32, byte: Byte)
    ensures Xor(hash, byte) / 256 == hash / 256 && Xor(hash, byte) % 256 == XorByte(hash % 256, byte)
  {
  }

  lemma {:induction false} LowBits(h: nat, r: nat, n: nat, i: nat)
    requires i < n
    ensures Bit(h * Pow2(n) + r, i) == Bit(r, i)
    decreases n
  {
    var k := h * Pow2(n - 1);
    assert h * Pow2(n) == 2 * k;
    assert (2 * k + r) / 2 == k + r / 2 && (2 * k + r) % 2 == r % 2;
    if i > 0 {
      LowBits(h, r / 2, n - 1, i - 1);
    }
  }

  /** The lowest eight bits are those in which hash and byte differ, and the others are those of the hash. */
  lemma XorIs(hash: U32, byte: Byte, i: nat)
    requires i < 8
    ensures Bit(Xor(hash, byte), i) == if Bit(hash, i) != Bit(byte, i) then 1 else 0
    ensures Xor(hash, byte) / 256 == hash / 256
  {
    XorParts(hash, byte);
    XorBitsAt(hash % 256, byte, 8, i);
    assert Pow2(4) == 16 && Pow2(8) == 16 * Pow2(4);
    LowBits(hash / 256, hash % 256, 8, i);
    LowBits(hash / 256, XorByte(hash % 256, byte), 8, i);
  }

  lemma {:induction false} XorZero(a: nat, n: nat)
    requires a < Pow2(n)
    ensures XorBits(a, 0, n) == a
    decreases n
  {
    if n > 0 {
      XorZero(a / 2, n - 1);
    }
  }

  lemma FlipLowest(q: nat, r: nat, c: nat)
    requires c < 2
    ensures var h := 256 * q + (2 * r + c);
            256 * q + (2 * r + (2 * r + c + 1) % 2) == if h % 2 == 0 then h + 1 else h - 1
  {
    Halves(128 * q + r, c);
    Halves(if c == 0 then r else r + 1, 1 - c);
  }

  lemma XorWithZero(h: U32, zero: Byte)
    requires zero == 0
    ensures Xor(h, zero) == h
  {
    assert Pow2(4) == 16 && Pow2(8) == 16 * Pow2(4);
    XorZero(h % 256, 8);
  }

  lemma XorWithOne(h: U32, one: Byte)
    requires one == 1
    ensures Xor(h, one) == if h % 2 == 0 then h + 1 else h - 1
  {
    var low := h % 256;
    assert Pow2(3) == 8 && Pow2(7) == 16 * Pow2(3);
    XorZero(low / 2, 7);
    assert XorBits(low, one, 8) == 2 * XorBits(low / 2, one / 2, 7) + (low + one) % 2;
    FlipLowest(h / 256, low / 2, low % 2);
  }

  lemma OneMore(data: seq<Byte>, b: Byte)
    ensures Position(data + [b]) == Xor(Position(data), b) * 0x0100_0193 % 0x1_0000_0000
  {
    assert (data + [b])[..|data|] == data;
  }

  /**
   The published constants of the 32-bit FNV-1a hash: its basis is the hash of nothing, and a byte is
   put in before the multiplication, as a byte 0 and a byte 1 show.
   */
  lemma KnownRounds(data: seq<Byte>, zero: Byte, one: Byte)
    requires zero == 0 && one == 1
    ensures Position([]) == 0x811c_9dc5
    ensures Position(data + [zero]) == Position(data) * 0x0100_0193 % 0x1_0000_0000
    ensures var h := Position(data);
            Position(data + [one]) == (if h % 2 == 0 then h + 1 else h - 1) * 0x0100_0193 % 0x1_0000_0000
  {
    XorWithZero(Position(data), zero);
    XorWithOne(Position(data), one);
    OneMore(data, zero);
    OneMore(data, one);
  }

  lemma Product(h: nat)
    requires h == 0x811c_9dc5
    ensures h * 0x0100_0193 % 0x1_0000_0000 == 0x050c_5d1f && (h - 1) * 0x0100_0193 % 0x1_0000_0000 == 0x040c_5b8c
  {
  }

  /** The published hashes of one byte 0 and of one byte 1. */
  lemma KnownHashes(nothing: seq<Byte>, h: nat, zero: Byte, one: Byte)
    requires nothing == [] && h == Position(nothing) && zero == 0 && one == 1
    ensures Position(nothing + [zero]) == 0x050c_5d1f && Position(nothing + [one]) == 0x040c_5b8c
  {
    KnownRounds(nothing, zero, one);
    Product(h);
  }

  /** Exclusive or with the same byte undoes itself. */
  lemma XorTwice(hash: U32, byte: Byte)
    ensures Xor(Xor(hash, byte), byte) == hash
  {
    XorParts(hash, byte);
    assert Pow2(4) == 16 && Pow2(8) == 16 * Pow2(4);
    XorBitsTwice(hash % 256, byte, 8);
  }

  lemma XorSameHash(hash: U32, a: Byte, b: Byte)
    requires Xor(hash, a) == Xor(hash, b)
    ensures a == b
  {
    XorParts(hash, a);
    XorParts(hash, b);
    assert Pow2(4) == 16 && Pow2(8) == 16 * Pow2(4);
    XorBitsSwap(hash % 256, a, 8);
    XorBitsSwap(hash % 256, b, 8);
    XorBitsTwice(a, hash % 256, 8);
    XorBitsTwice(b, hash % 256, 8);
  }

  lemma Remainder(x: nat, k: int, y: int)
    requires x < RING && y == x + RING * k
    ensures y % RING == x
  {
  }

  /** The multiplier of the hash is odd and so can be divided by again, modulo 2^32. */
  lemma MultiplierInverts(x: U32)
    ensures x * 0x0100_0193 % RING * 0x359c_449b % RING == x
  {
    var m, k := x * 0x0100_0193 % RING, x * 0x0100_0193 / RING;
    assert m * 0x359c_449b == x + RING * (3513497 * x - k * 0x359c_449b);
    Remainder(x, 3513497 * x - k * 0x359c_449b, m * 0x359c_449b);
  }

  /** One step of the hash loses nothing: the byte and the result give the hash before it, and so on the other side. */
  lemma MixLosesNothing(g: U32, a: Byte, h: U32, b: Byte)
    requires Mix(g, a) == Mix(h, b) && (a == b || g == h)
    ensures a == b && g == h
  {
    MultiplierInverts(Xor(g, a));
    MultiplierInverts(Xor(h, b));
    if a == b {
      XorTwice(g, a);
      XorTwice(h, a);
    } else {
      XorSameHash(g, a, b);
    }
  }

  predicate OneByteApart(a: seq<Byte>, b: seq<Byte>, i: nat) {
    |a| == |b| && i < |a| && a[i] != b[i] && a[..i] == b[..i] && a[i + 1..] == b[i + 1..]
  }

  lemma ApartBefore(a: seq<Byte>, b: seq<Byte>, i: nat)
    requires OneByteApart(a, b, i) && i < |a| - 1
    ensures OneByteApart(a[..|a| - 1], b[..|a| - 1], i) && a[|a| - 1] == b[|a| - 1]
  {
    var n := |a| - 1;
    assert a[..n][..i] == a[..i] && b[..n][..i] == b[..i];
    assert a[..n][i + 1..] == a[i + 1..][..n - i - 1] && b[..n][i + 1..] == b[i + 1..][..n - i - 1];
    assert a[n] == a[i + 1..][n - i - 1] && b[n] == b[i + 1..][n - i - 1];
  }

  lemma LastRound(a: seq<Byte>)
    requires a != []
    ensures Position(a) == Mix(Position(a[..|a| - 1]), a[|a| - 1])
  {
  }

  /** Keys of the same length that differ in one byte only have different positions on the ring. */
  lemma {:induction false} OneByteMoves(a: seq<Byte>, b: seq<Byte>, i: nat)
    requires OneByteApart(a, b, i)
    ensures Position(a) != Position(b)
    decreases |a|
  {
    var n := |a| - 1;
    var g, h := Position(a[..n]), Position(b[..n]);
    if i < n {
      ApartBefore(a, b, i);
      OneByteMoves(a[..n], b[..n], i);
    }
    LastRound(a);
    LastRound(b);
    if Mix(g, a[n]) == Mix(h, b[n]) {
      MixLosesNothing(g, a[n], h, b[n]);
    }
  }

  /** The digits before the last one. */
  function Before(v: nat): string {
    if v < 10 then "" else Digits(v / 10)
  }

  lemma DigitsAre(v: nat)
    ensures Digits(v) == Before(v) + [Digit(v % 10)]
  {
  }

  lemma OtherRemainder(v: nat, w: nat)
    requires v / 10 == w / 10 && v != w
    ensures v % 10 != w % 10 && (v < 10 <==> w < 10)
  {
    assert v == 10 * (v / 10) + v % 10 && w == 10 * (w / 10) + w % 10;
  }

  lemma LastDigit(v: nat, w: nat) returns (before: string, c: char, d: char)
    requires v / 10 == w / 10 && v != w
    ensures Digits(v) == before + [c] && Digits(w) == before + [d] && c != d
  {
    DigitsAre(v);
    DigitsAre(w);
    OtherRemainder(v, w);
    before, c, d := Before(v), Digit(v % 10), Digit(w % 10);
  }

  lemma LastDigitApart(before: string, v: nat, w: nat, after: string) returns (i: nat)
    requires forall k :: 0 <= k < |before| ==> before[k] < 128 as char
    requires forall k :: 0 <= k < |after| ==> after[k] < 128 as char
    requires v / 10 == w / 10 && v != w
    ensures OneByteApart(Bytes(before + Digits(v) + after), Bytes(before + Digits(w) + after), i)
  {
    var shared, c, d := LastDigit(v, w);
    i := |before| + |shared|;
  }

  /**
   Virtual nodes whose names differ in one digit never share a position: in particular the nodes
   numbered 10 k to 10 k + 9 of a shard, and node v of the shards 10 k to 10 k + 9.
   */
  lemma NodesApart(s: nat, v: nat, t: nat, w: nat)
    requires (s == t && v / 10 == w / 10 && v != w) || (v == w && s / 10 == t / 10 && s != t)
    ensures NodePosition(s, v) != NodePosition(t, w)
  {
    if s == t {
      var before := Digits(s) + [':'];
      assert before + Digits(v) + "" == NodeName(s, v) && before + Digits(w) + "" == NodeName(t, w);
      var i := LastDigitApart(before, v, w, "");
      OneByteMoves(Bytes(NodeName(s, v)), Bytes(NodeName(t, w)), i);
    } else {
      var after := [':'] + Digits(v);
      assert "" + Digits(s) + after == NodeName(s, v) && "" + Digits(t) + after == NodeName(t, w);
      var i := LastDigitApart("", s, t, after);
      OneByteMoves(Bytes(NodeName(s, v)), Bytes(NodeName(t, w)), i);
    }
  }

  // ------------------------------------------------------------------ the ring

  /** How far to go clockwise, on the ring of 2^32 positions, from one position to another. */
  function Clockwise(from: nat, to: nat): nat {
    (to - from) % RING
  }

  /** The subtraction of the loop, which wraps at 2^64. */
  function WrappingSub(a: nat, b: nat): (d: nat)
    requires a <= U64_MAX && b <= U64_MAX
    ensures d <= U64_MAX
  {
    (a - b) % (U64_MAX + 1)
  }

  /** Wrapping at 2^64 instead of 2^32 changes the distances but not their order. */
  lemma SameOrder(key: nat, a: nat, b: nat)
    requires key < RING && a < RING && b < RING
    ensures WrappingSub(a, key) < WrappingSub(b, key) <==> Clockwise(key, a) < Clockwise(key, b)
  {
    Wraps(key, a);
    Wraps(key, b);
  }

  lemma Wraps(key: nat, a: nat)
    requires key < RING && a < RING
    ensures Clockwise(key, a) == if a >= key then a - key else a - key + RING
    ensures WrappingSub(a, key) == if a >= key then a - key else a - key + U64_MAX + 1
  {
  }

  function Distance(key: seq<Byte>, shard: nat, v: nat): nat {
    Clockwise(Position(key), NodePosition(shard, v))
  }

  function Nodes(slots: U32): (n: nat)
    ensures n >= 1
  {
    if slots == 0 then 1 else slots
  }

  /** No virtual node of shards `0..n` comes before node `v` of `shard`, clockwise from the key. */
  predicate Nearest(key: seq<Byte>, nodes: nat, n: nat, shard: nat, v: nat) {
    forall s, w :: 0 <= s < n && 0 <= w < nodes ==> Distance(key, shard, v) <= Distance(key, s, w)
  }

  /** No node of a lower-numbered shard is as near. */
  predicate LowestAt(key: seq<Byte>, nodes: nat, shard: nat, v: nat) {
    forall s, w :: 0 <= s < shard && 0 <= w < nodes ==> Distance(key, shard, v) < Distance(key, s, w)
  }

  /** `shard` is the lowest-numbered of `n` shards that own the first virtual node clockwise from the key. */
  predicate Owns(key: seq<Byte>, nodes: nat, n: nat, shard: nat) {
    shard < n && exists v :: 0 <= v < nodes && Nearest(key, nodes, n, shard, v) && LowestAt(key, nodes, shard, v)
  }

  lemma {:induction false} NearestOfShard(key: seq<Byte>, nodes: nat, shard: nat) returns (v: nat)
    requires nodes >= 1
    ensures v < nodes && forall w :: 0 <= w < nodes ==> Distance(key, shard, v) <= Distance(key, shard, w)
    decreases nodes
  {
    v := nodes - 1;
    if nodes > 1 {
      var u := NearestOfShard(key, nodes - 1, shard);
      if Distance(key, shard, u) < Distance(key, shard, v) {
        v := u;
      }
    }
  }

  predicate OwnsWith(key: seq<Byte>, nodes: nat, n: nat, shard: nat, v: nat) {
    shard < n && v < nodes && Nearest(key, nodes, n, shard, v) && LowestAt(key, nodes, shard, v)
  }

  lemma ClockwiseIs(from: U32, to: U32)
    ensures Clockwise(from, to) == if from <= to then to - from else to - from + RING
  {
  }

  /**
   The owner's node is the first at or above the key's position; if there is none that high, it is
   the lowest of all.
   */
  lemma OwnerIsNextUp(key: seq<Byte>, nodes: nat, n: nat, a: nat, v: nat, s: nat, w: nat)
    requires OwnsWith(key, nodes, n, a, v) && s < n && w < nodes
    ensures var at, own, other := Position(key), NodePosition(a, v), NodePosition(s, w);
            if at <= own then !(at <= other < own) else own <= other < at
  {
    ClockwiseIs(Position(key), NodePosition(a, v));
    ClockwiseIs(Position(key), NodePosition(s, w));
    assert Distance(key, a, v) <= Distance(key, s, w);
  }

  /** The owner among one shard less, or the new shard, whichever is nearer. */
  lemma OwnerNext(key: seq<Byte>, nodes: nat, n: nat, b: nat, w: nat, v: nat)
    requires OwnsWith(key, nodes, n, b, w) && v < nodes
    requires forall u :: 0 <= u < nodes ==> Distance(key, n, v) <= Distance(key, n, u)
    ensures if Distance(key, b, w) <= Distance(key, n, v) then OwnsWith(key, nodes, n + 1, b, w)
            else OwnsWith(key, nodes, n + 1, n, v)
  {
    forall s, u | 0 <= s < n && 0 <= u < nodes ensures Distance(key, b, w) <= Distance(key, s, u) {
    }
  }

  lemma {:induction false} HasOwner(key: seq<Byte>, nodes: nat, n: nat) returns (a: nat, v: nat)
    requires nodes >= 1 && n >= 1
    ensures OwnsWith(key, nodes, n, a, v)
    decreases n
  {
    a := n - 1;
    v := NearestOfShard(key, nodes, a);
    if n > 1 {
      var b, w := HasOwner(key, nodes, n - 1);
      OwnerNext(key, nodes, n - 1, b, w, v);
      if Distance(key, b, w) <= Distance(key, a, v) {
        a, v := b, w;
      }
    }
  }

  /** A key has one owner, and only one. */
  lemma OneOwner(key: seq<Byte>, nodes: nat, n: nat)
    requires nodes >= 1 && n >= 1
    ensures exists a :: Owns(key, nodes, n, a) && forall b :: Owns(key, nodes, n, b) ==> b == a
  {
    var a, v := HasOwner(key, nodes, n);
    assert Owns(key, nodes, n, a);
    forall b | Owns(key, nodes, n, b) ensures b == a {
      GrowthMovesToNew(key, nodes, n, n, a, b);
    }
  }

  /**
   Going from `n` to `m >= n` shards with the same slots, a key stays or moves to a new shard.
   Read from `m` to `n`: only keys of removed shards move.
   */
  lemma GrowthMovesToNew(key: seq<Byte>, nodes: nat, n: nat, m: nat, a: nat, b: nat)
    requires n <= m && Owns(key, nodes, n, a) && Owns(key, nodes, m, b)
    ensures b == a || n <= b < m
  {
    var v :| 0 <= v < nodes && Nearest(key, nodes, n, a, v) && LowestAt(key, nodes, a, v);
    var w :| 0 <= w < nodes && Nearest(key, nodes, m, b, w) && LowestAt(key, nodes, b, w);
    assert Distance(key, b, w) <= Distance(key, a, v);
    if b < n {
      assert Distance(key, a, v) <= Distance(key, b, w);
    }
  }

  // ------------------------------------------------------------------- routing

  /** The number that the loop compares. */
  function Gap(key: seq<Byte>, shard: nat, v: nat): (d: nat)
    ensures d <= U64_MAX
  {
    WrappingSub(NodePosition(shard, v), Position(key))
  }

  ghost function GapOf(key: seq<Byte>): (nat, nat) -> nat {
    (s: nat, v: nat) => Gap(key, s, v)
  }

  lemma GapOrder(key: seq<Byte>, s: nat, v: nat, t: nat, w: nat)
    ensures Gap(key, s, v) < Gap(key, t, w) <==> Distance(key, s, v) < Distance(key, t, w)
  {
    SameOrder(Position(key), NodePosition(s, v), NodePosition(t, w));
  }

  /** Shards before `s` have been searched, and the first `v` nodes of shard `s`. */
  predicate Searched(s: nat, v: nat, t: nat, w: nat, nodes: nat) {
    w < nodes && (t < s || (t == s && w < v))
  }

  /** What the loop knows: `min` is the least gap so far, found first at node `bestV` of `best`. */
  ghost predicate Best(gap: (nat, nat) -> nat, nodes: nat, s: nat, v: nat, min: nat, best: nat, bestV: nat) {
    && (forall t: nat, w: nat :: Searched(s, v, t, w, nodes) ==> min <= gap(t, w))
    && (forall t: nat, w: nat :: Searched(s, v, t, w, nodes) && t < best ==> min < gap(t, w))
    && ((min == U64_MAX && best == 0 && bestV == 0) || (Searched(s, v, best, bestV, nodes) && gap(best, bestV) == min))
  }

  lemma SearchStep(gap: (nat, nat) -> nat, nodes: nat, s: nat, v: nat, min: nat, best: nat, bestV: nat)
    requires v < nodes && best <= s && Best(gap, nodes, s, v, min, best, bestV)
    ensures if gap(s, v) < min then Best(gap, nodes, s, v + 1, gap(s, v), s, v)
            else Best(gap, nodes, s, v + 1, min, best, bestV)
  {
    forall t: nat, w: nat | Searched(s, v + 1, t, w, nodes) ensures Searched(s, v, t, w, nodes) || (t == s && w == v) {
    }
  }

  lemma SearchDone(key: seq<Byte>, nodes: nat, n: nat, min: nat, best: nat, bestV: nat)
    requires n >= 1 && nodes >= 1 && best < n && Best(GapOf(key), nodes, n, 0, min, best, bestV)
    ensures Owns(key, nodes, n, best)
  {
    assert Searched(n, 0, 0, 0, nodes) && Gap(key, best, bestV) <= U64_MAX;
    assert Gap(key, 0, 0) >= min;
    assert Gap(key, best, bestV) == min;
    forall s, w | 0 <= s < n && 0 <= w < nodes ensures Distance(key, best, bestV) <= Distance(key, s, w) {
      assert Searched(n, 0, s, w, nodes);
      GapOrder(key, s, w, best, bestV);
    }
    forall s, w | 0 <= s < best && 0 <= w < nodes ensures Distance(key, best, bestV) < Distance(key, s, w) {
      assert Searched(n, 0, s, w, nodes);
      GapOrder(key, best, bestV, s, w);
    }
    assert Nearest(key, nodes, n, best, bestV) && LowestAt(key, nodes, best, bestV);
  }

  method DistanceTo(ghost key: seq<Byte>, hash: U32, shard: nat, v: nat) returns (distance: nat)
    requires hash == Position(key)
    ensures distance == GapOf(key)(shard, v)
  {
    var node := Fnv1a32(Bytes(NodeName(shard, v)));
    distance := WrappingSub(node, hash);
  }

  /** The inner loop, over the virtual nodes of one shard. */
  method SearchShard(key: seq<Byte>, hash: U32, nodes: nat, shard: nat, min0: nat, best0: nat, ghost bestV0: nat)
    returns (min: nat, best: nat, ghost bestV: nat)
    requires hash == Position(key) && best0 <= shard && Best(GapOf(key), nodes, shard, 0, min0, best0, bestV0)
    ensures best <= shard && Best(GapOf(key), nodes, shard + 1, 0, min, best, bestV)
  {
    min, best, bestV := min0, best0, bestV0;
    var v := 0;
    while v < nodes
      invariant v <= nodes && best <= shard
      invariant Best(GapOf(key), nodes, shard, v, min, best, bestV)
    {
      var distance := DistanceTo(key, hash, shard, v);
      SearchStep(GapOf(key), nodes, shard, v, min, best, bestV);
      if distance < min {
        min, best, bestV := distance, shard, v;
      }
      v := v + 1;
    }
    NextShard(GapOf(key), nodes, shard, min, best, bestV);
  }

  method HashIndex(slots: U32, key: seq<Byte>, n: nat) returns (best: nat)
    ensures n >= 1 ==> Owns(key, Nodes(slots), n, best)
    ensures n == 0 ==> best == 0
  {
    var hash := Fnv1a32(key);
    var nodes := Nodes(slots);
    var min := U64_MAX;
    best := 0;
    ghost var bestV := 0;
    var shard := 0;
    while shard < n
      invariant shard <= n && best <= shard && (best == shard ==> shard == 0)
      invariant Best(GapOf(key), nodes, shard, 0, min, best, bestV)
    {
      min, best, bestV := SearchShard(key, hash, nodes, shard, min, best, bestV);
      shard := shard + 1;
    }
    if n >= 1 {
      SearchDone(key, nodes, n, min, best, bestV);
    }
  }

  lemma NextShard(gap: (nat, nat) -> nat, nodes: nat, s: nat, min: nat, best: nat, bestV: nat)
    requires Best(gap, nodes, s, nodes, min, best, bestV)
    ensures Best(gap, nodes, s + 1, 0, min, best, bestV)
  {
    assert forall t: nat, w: nat :: Searched(s + 1, 0, t, w, nodes) <==> Searched(s, nodes, t, w, nodes);
  }

  /** The number that a key is, as an unsigned 64-bit integer; 0 when it is none. */
  function KeyNumber(key: seq<Byte>): nat {
    var parsed := Parse(seq(|key|, i requires 0 <= i < |key| => key[i] as char), U64_MAX);
    if parsed.Some? then parsed.value else 0
  }

  /** A number written out as a key is routed as that number. */
  lemma PrintedKeyNumber(n: nat)
    ensures KeyNumber(Bytes(Digits(n))) == if n <= 0xFFFF_FFFF_FFFF_FFFF then n else 0
  {
    var key := Bytes(Digits(n));
    assert seq(|key|, i requires 0 <= i < |key| => key[i] as char) == Digits(n);
    ParseUndoesPrint(n, U64_MAX);
  }

  predicate Contains(range: (nat, nat), num: nat) {
    range.0 <= num <= range.1
  }

  /** `r` is the first range that holds the number, cut to the last shard; 0 if there is none. */
  predicate RangeChoice(ranges: seq<(nat, nat)>, num: nat, n: nat, r: nat) {
    if exists i :: 0 <= i < |ranges| && Contains(ranges[i], num)
    then exists i :: 0 <= i < |ranges| && Contains(ranges[i], num)
                     && (forall j :: 0 <= j < i ==> !Contains(ranges[j], num)) && r == (if i < n then i else n - 1)
    else r == 0
  }

  method RangeIndex(ranges: seq<(nat, nat)>, key: seq<Byte>, n: nat) returns (r: nat)
    requires n >= 1
    ensures RangeChoice(ranges, KeyNumber(key), n, r) && r < n
  {
    var num := KeyNumber(key);
    for i := 0 to |ranges|
      invariant forall j :: 0 <= j < i ==> !Contains(ranges[j], num)
    {
      if Contains(ranges[i], num) {
        return if i < n then i else n - 1;
      }
    }
    return 0;
  }

  /** `r` is the shard that the strategy assigns to the key. */
  predicate IsRoute(strategy: Strategy, key: seq<Byte>, n: nat, r: nat)
    requires n >= 1
  {
    match strategy
    case Hash(slots) => Owns(key, Nodes(slots), n, r)
    case Range(ranges) => RangeChoice(ranges, KeyNumber(key), n, r)
    case Modulo => r == Position(key) % n
  }

  /** `shard_index`, as `route` calls it: there is at least one shard, and the index is that of a shard. */
  method ShardIndex(strategy: Strategy, key: seq<Byte>, n: nat) returns (r: nat)
    requires n >= 1
    ensures r < n && IsRoute(strategy, key, n, r)
  {
    match strategy
    case Hash(slots) => r := HashIndex(slots, key, n);
    case Range(ranges) => r := RangeIndex(ranges, key, n);
    case Modulo =>
      var hash := Fnv1a32(key);
      r := hash % n;
  }
}

/**
 IPv4 block lists by bit arithmetic: dotted addresses as 32-bit numbers, the masked
 prefix comparison, and the IPv4-mapped IPv6 forms of section 2.5.5.2 of RFC 4291.
 Numbers are the unsigned values of 32-bit words; `And` is bitwise conjunction,
 defined bit by bit.
 */
module Ipv4 {
  import opened Prelude

  const WORD: nat := 0x1_0000_0000

  /** Bitwise conjunction. */
  function And(x: nat, y: nat): nat {
    if x == 0 || y == 0 then 0 else 2 * And(x / 2, y / 2) + (x % 2) * (y % 2)
  }

  /** `x << k` read as an unsigned 32-bit word. */
  function ShiftLeft(x: nat, k: nat): nat { (x * Pow2(k)) % WORD }

  datatype Dotted = Dotted(a: nat, b: nat, c: nat, d: nat)

  predicate IsAddress(x: Dotted) { x.a <= 255 && x.b <= 255 && x.c <= 255 && x.d <= 255 }

  /** None where a part is out of range. */
  function Ipv4Number(x: Dotted): Option<nat> {
    if IsAddress(x) then Some(ShiftLeft(x.a, 24) + ShiftLeft(x.b, 16) + ShiftLeft(x.c, 8) + x.d) else None
  }

  function Mask(prefix: nat): nat
    requires prefix <= 32
  {
    if prefix == 0 then 0 else ShiftLeft(0xffff_ffff, 32 - prefix)
  }

  predicate InCidr(address: Dotted, network: Dotted, prefix: nat)
    requires prefix <= 32
  {
    var value, base := Ipv4Number(address), Ipv4Number(network);
    value.Some? && base.Some? && And(value.value, Mask(prefix)) == And(base.value, Mask(prefix))
  }

  // -------------------------------------------------------------- round trip

  lemma Powers()
    ensures Pow2(8) == 0x100 && Pow2(16) == 0x1_0000 && Pow2(24) == 0x100_0000 && Pow2(32) == WORD
  {
    assert Pow2(4) == 16;
    assert Pow2(8) == 0x100;
    PowAdds(8, 8);
    PowAdds(16, 8);
    PowAdds(16, 16);
  }

  lemma {:induction false} PowAdds(m: nat, n: nat)
    ensures Pow2(m + n) == Pow2(m) * Pow2(n)
  {
    if n > 0 {
      PowAdds(m, n - 1);
      assert Pow2(m + n) == 2 * Pow2(m + n - 1);
    }
  }

  function Value(x: Dotted): nat { x.a * 0x100_0000 + x.b * 0x1_0000 + x.c * 0x100 + x.d }

  function DottedOf(n: nat): Dotted { Dotted(n / 0x100_0000, n / 0x1_0000 % 0x100, n / 0x100 % 0x100, n % 0x100) }

  lemma NumberIsValue(x: Dotted)
    requires IsAddress(x)
    ensures Ipv4Number(x) == Some(Value(x)) && Value(x) < WORD
  {
    Powers();
  }

  lemma OctetsOfValue(a: nat, b: nat, c: nat, d: nat)
    requires a <= 255 && b <= 255 && c <= 255 && d <= 255
    ensures DottedOf(a * 0x100_0000 + b * 0x1_0000 + c * 0x100 + d) == Dotted(a, b, c, d)
  {
    var n := a * 0x100_0000 + b * 0x1_0000 + c * 0x100 + d;
    assert n / 0x100 == a * 0x1_0000 + b * 0x100 + c;
    assert n / 0x1_0000 == a * 0x100 + b;
  }

  lemma ValueOfOctets(n: nat)
    requires n < WORD
    ensures IsAddress(DottedOf(n)) && Value(DottedOf(n)) == n
  {
    assert n / 0x100_0000 == n / 0x1_0000 / 0x100 && n / 0x1_0000 == n / 0x100 / 0x100;
  }

  /** Dotted form and number determine each other on all 2^32 addresses. */
  lemma NumberRoundTrip(x: Dotted, n: nat)
    requires IsAddress(x) && n < WORD
    ensures Ipv4Number(x).Some? && DottedOf(Ipv4Number(x).value) == x
    ensures IsAddress(DottedOf(n)) && Ipv4Number(DottedOf(n)) == Some(n)
  {
    hide Ipv4Number;
    NumberIsValue(x);
    OctetsOfValue(x.a, x.b, x.c, x.d);
    ValueOfOctets(n);
    NumberIsValue(DottedOf(n));
  }

  // ---------------------------------------------------------------- intervals

  lemma Halve(x: nat)
    ensures x == 2 * (x / 2) + x % 2 && x % 2 < 2
  {
  }

  lemma {:induction false} AndStep(x: nat, y: nat)
    ensures And(x, y) == 2 * And(x / 2, y / 2) + (x % 2) * (y % 2)
  {
    if x == 0 || y == 0 { assert And(x / 2, y / 2) == 0; }
  }

  lemma ModHalves(x: nat, m: nat)
    requires m > 0
    ensures x % (2 * m) == 2 * (x / 2 % m) + x % 2
  {
    var q, r := x / 2, x % 2;
    var d, e := q / m, q % m;
    assert q == d * m + e;
    assert x == (2 * m) * d + (2 * e + r);
    ModUnique(x, 2 * m, d, 2 * e + r);
  }

  lemma MulStep(m: nat, d: nat, e: nat)
    requires d < e
    ensures m * e >= m * d + m
  {
    assert m * e == m * d + m * (e - d);
    MulAtLeast(m, e - d);
  }

  lemma ModUnique(x: nat, m: nat, d: nat, e: nat)
    requires m > 0 && e < m && x == m * d + e
    ensures x % m == e && x / m == d
  {
    var q := x / m;
    assert x == m * q + x % m;
    if d < q { MulStep(m, d, q); }
    if q < d { MulStep(m, q, d); }
  }

  /** A mask of `k` low ones keeps the low `k` bits. */
  lemma {:induction false} AndLowBits(x: nat, k: nat)
    ensures And(x, Pow2(k) - 1) == x % Pow2(k)
  {
    if k > 0 {
      var m := Pow2(k - 1);
      assert Pow2(k) == 2 * m;
      hide Pow2, And;
      AndLowBits(x / 2, k - 1);
      AndStep(x, 2 * m - 1);
      assert (2 * m - 1) / 2 == m - 1 && (2 * m - 1) % 2 == 1;
      ModHalves(x, m);
    }
  }

  /** A mask of `n - k` leading ones clears the low `k` bits. */
  lemma {:induction false} AndMask(x: nat, n: nat, k: nat)
    requires k <= n && x < Pow2(n)
    ensures Pow2(k) <= Pow2(n)
    ensures And(x, Pow2(n) - Pow2(k)) == x - x % Pow2(k)
  {
    if k == 0 {
      AndLowBits(x, n);
      ModUnique(x, Pow2(n), 0, x);
    } else {
      var m, top := Pow2(k - 1), Pow2(n - 1);
      assert Pow2(k) == 2 * m && Pow2(n) == 2 * top;
      hide Pow2, And;
      AndMask(x / 2, n - 1, k - 1);
      assert (2 * top - 2 * m) / 2 == top - m && (2 * top - 2 * m) % 2 == 0;
      AndStep(x, 2 * top - 2 * m);
      ModHalves(x, m);
      Halve(x);
    }
  }

  /** Block size: 2^(32 - prefix). */
  function Size(prefix: nat): nat
    requires prefix <= 32
  {
    Pow2(32 - prefix)
  }

  lemma MaskValue(prefix: nat)
    requires prefix <= 32
    ensures Size(prefix) <= WORD && Mask(prefix) == WORD - Size(prefix)
  {
    hide Pow2;
    Powers();
    if prefix > 0 {
      var s := Size(prefix);
      PowAdds(prefix, 32 - prefix);
      assert s * Pow2(prefix) == WORD;
      assert s <= WORD by { MulAtLeast(s, Pow2(prefix)); }
      assert 0xffff_ffff * s == WORD * (s - 1) + (WORD - s);
      ModUnique(0xffff_ffff * s, WORD, s - 1, WORD - s);
    }
  }

  lemma MulAtLeast(a: nat, b: nat)
    requires b >= 1
    ensures a * b >= a
  {
  }

  lemma SameMultiple(v: nat, b: nat, m: nat)
    requires m > 0
    ensures v - v % m == b - b % m <==> b - b % m <= v < b - b % m + m
  {
    var low := b - b % m;
    assert low == m * (b / m);
    if low <= v < low + m { ModUnique(v, m, b / m, v - low); }
  }

  /** First address of the block. */
  function First(network: Dotted, prefix: nat): int
    requires prefix <= 32
  {
    Value(network) - Value(network) % Size(prefix)
  }

  /** For every address, network and prefix the masked comparison is membership in an interval of 2^(32 - prefix) addresses. */
  lemma CidrIsInterval(address: Dotted, network: Dotted, prefix: nat)
    requires prefix <= 32 && IsAddress(address) && IsAddress(network)
    ensures InCidr(address, network, prefix) <==> First(network, prefix) <= Value(address) < First(network, prefix) + Size(prefix)
  {
    hide Ipv4Number, Value, And, Pow2, Mask;
    NumberIsValue(address);
    NumberIsValue(network);
    Powers();
    MaskValue(prefix);
    AndMask(Value(address), 32, 32 - prefix);
    AndMask(Value(network), 32, 32 - prefix);
    SameMultiple(Value(address), Value(network), Size(prefix));
  }

  // ------------------------------------------------------------- block list

  datatype Block = Block(network: Dotted, prefix: nat)

  const BLOCKED: seq<Block> := [
    Block(Dotted(0, 0, 0, 0), 8), Block(Dotted(10, 0, 0, 0), 8), Block(Dotted(100, 64, 0, 0), 10),
    Block(Dotted(127, 0, 0, 0), 8), Block(Dotted(169, 254, 0, 0), 16), Block(Dotted(172, 16, 0, 0), 12),
    Block(Dotted(192, 0, 0, 0), 24), Block(Dotted(192, 0, 2, 0), 24), Block(Dotted(192, 168, 0, 0), 16),
    Block(Dotted(198, 18, 0, 0), 15), Block(Dotted(198, 51, 100, 0), 24), Block(Dotted(203, 0, 113, 0), 24),
    Block(Dotted(224, 0, 0, 0), 4), Block(Dotted(240, 0, 0, 0), 4)]

  predicate Matches(x: Dotted, block: Block) { block.prefix <= 32 && InCidr(x, block.network, block.prefix) }

  /** What is no address at all is not public. */
  predicate IsPublic(x: Dotted) { IsAddress(x) && !exists i | 0 <= i < |BLOCKED| :: Matches(x, BLOCKED[i]) }

  /** The blocked addresses by their octets. */
  predicate Reserved(x: Dotted) {
    || x.a == 0 || x.a == 10 || x.a == 127 || x.a >= 224
    || (x.a == 100 && 64 <= x.b <= 127)
    || (x.a == 169 && x.b == 254)
    || (x.a == 172 && 16 <= x.b <= 31)
    || (x.a == 192 && x.b == 0 && (x.c == 0 || x.c == 2))
    || (x.a == 192 && x.b == 168)
    || (x.a == 198 && (x.b == 18 || x.b == 19))
    || (x.a == 198 && x.b == 51 && x.c == 100)
    || (x.a == 203 && x.b == 0 && x.c == 113)
  }

  lemma SmallPowers()
    ensures Pow2(17) == 0x2_0000 && Pow2(20) == 0x10_0000 && Pow2(22) == 0x40_0000 && Pow2(28) == 0x1000_0000
    ensures Pow2(8) == 0x100 && Pow2(16) == 0x1_0000 && Pow2(24) == 0x100_0000
  {
    Powers();
    PowAdds(16, 4);
    PowAdds(24, 4);
    assert Pow2(17) == 2 * Pow2(16);
    assert Pow2(4) == 16;
    assert Pow2(22) == 2 * Pow2(21) && Pow2(21) == 2 * Pow2(20);
  }

  /** One entry of the list: the addresses whose number lies between the block's ends. */
  lemma BlockBounds(x: Dotted, block: Block, size: nat)
    requires IsAddress(x) && block.prefix <= 32 && IsAddress(block.network)
    requires size == Size(block.prefix) && size > 0 && Value(block.network) % size == 0
    ensures Matches(x, block) <==> Value(block.network) <= Value(x) < Value(block.network) + size
  {
    CidrIsInterval(x, block.network, block.prefix);
  }

  lemma LeadingZero(x: Dotted)
    requires IsAddress(x)
    ensures Value(x) < 0x100_0000 <==> x.a == 0
    ensures x == BLOCKED[0].network ==> Value(x) == 0
  {
    var rest := x.b * 0x1_0000 + x.c * 0x100 + x.d;
    assert rest < 0x100_0000;
    assert Value(x) == x.a * 0x100_0000 + rest;
  }

  lemma ZeroBlock(x: Dotted)
    requires IsAddress(x)
    ensures Matches(x, BLOCKED[0]) <==> x.a == 0
  {
    hide Matches, Pow2, Value;
    SmallPowers();
    LeadingZero(x);
    LeadingZero(BLOCKED[0].network);
    BlockBounds(x, BLOCKED[0], 0x100_0000);
  }

  lemma LowBlocks(x: Dotted)
    requires IsAddress(x)
    ensures Matches(x, BLOCKED[0]) <==> x.a == 0
    ensures Matches(x, BLOCKED[1]) <==> x.a == 10
    ensures Matches(x, BLOCKED[2]) <==> x.a == 100 && 64 <= x.b <= 127
    ensures Matches(x, BLOCKED[3]) <==> x.a == 127
  {
    hide Matches, Pow2;
    SmallPowers();
    ZeroBlock(x);
    BlockBounds(x, BLOCKED[1], 0x100_0000);
    BlockBounds(x, BLOCKED[2], 0x40_0000);
    BlockBounds(x, BLOCKED[3], 0x100_0000);
  }

  lemma MiddleBlocks(x: Dotted)
    requires IsAddress(x)
    ensures Matches(x, BLOCKED[4]) <==> x.a == 169 && x.b == 254
    ensures Matches(x, BLOCKED[5]) <==> x.a == 172 && 16 <= x.b <= 31
    ensures Matches(x, BLOCKED[6]) <==> x.a == 192 && x.b == 0 && x.c == 0
  {
    hide Matches, Pow2;
    SmallPowers();
    BlockBounds(x, BLOCKED[4], 0x1_0000);
    BlockBounds(x, BLOCKED[5], 0x10_0000);
    BlockBounds(x, BLOCKED[6], 0x100);
  }

  lemma HighBlocks(x: Dotted)
    requires IsAddress(x)
    ensures Matches(x, BLOCKED[7]) <==> x.a == 192 && x.b == 0 && x.c == 2
    ensures Matches(x, BLOCKED[8]) <==> x.a == 192 && x.b == 168
    ensures Matches(x, BLOCKED[9]) <==> x.a == 198 && (x.b == 18 || x.b == 19)
    ensures Matches(x, BLOCKED[10]) <==> x.a == 198 && x.b == 51 && x.c == 100
    ensures Matches(x, BLOCKED[11]) <==> x.a == 203 && x.b == 0 && x.c == 113
    ensures Matches(x, BLOCKED[12]) <==> 224 <= x.a <= 239
    ensures Matches(x, BLOCKED[13]) <==> 240 <= x.a
  {
    hide Matches, Pow2;
    SmallPowers();
    BlockBounds(x, BLOCKED[7], 0x100);
    BlockBounds(x, BLOCKED[8], 0x1_0000);
    BlockBounds(x, BLOCKED[9], 0x2_0000);
    BlockBounds(x, BLOCKED[10], 0x100);
    BlockBounds(x, BLOCKED[11], 0x100);
    BlockBounds(x, BLOCKED[12], 0x1000_0000);
    BlockBounds(x, BLOCKED[13], 0x1000_0000);
  }

  /** An address is public exactly when its octets are in none of the reserved ranges. */
  lemma PublicMeansUnreserved(x: Dotted)
    requires IsAddress(x)
    ensures IsPublic(x) <==> !Reserved(x)
  {
    hide Matches;
    LowBlocks(x);
    MiddleBlocks(x);
    HighBlocks(x);
    assert |BLOCKED| == 14;
    if Reserved(x) {
      assert Matches(x, BLOCKED[0]) || Matches(x, BLOCKED[1]) || Matches(x, BLOCKED[2]) || Matches(x, BLOCKED[3])
          || Matches(x, BLOCKED[4]) || Matches(x, BLOCKED[5]) || Matches(x, BLOCKED[6]) || Matches(x, BLOCKED[7])
          || Matches(x, BLOCKED[8]) || Matches(x, BLOCKED[9]) || Matches(x, BLOCKED[10]) || Matches(x, BLOCKED[11])
          || Matches(x, BLOCKED[12]) || Matches(x, BLOCKED[13]);
    }
  }

  // ------------------------------------------------------------ mapped forms

  datatype Mapped = MappedDotted(address: Dotted) | MappedHex(high: nat, low: nat)

  function Embedded(high: nat, low: nat): Dotted { Dotted(high / 0x100, And(high, 255), low / 0x100, And(low, 255)) }

  /** isPublicIp on the two spellings of an IPv4-mapped IPv6 address. */
  predicate IsPublicMapped(m: Mapped) {
    match m
    case MappedDotted(x) => IsPublic(x)
    case MappedHex(high, low) => IsPublic(Embedded(high, low))
  }

  /** The two groups of the hexadecimal spelling are the upper and lower half of the number. */
  function HexOf(x: Dotted): Mapped { MappedHex(Value(x) / 0x1_0000, Value(x) % 0x1_0000) }

  /** The hexadecimal spelling embeds the same dotted address, so both spellings are classified alike. */
  lemma MappedFormsAgree(x: Dotted)
    requires IsAddress(x)
    ensures Embedded(HexOf(x).high, HexOf(x).low) == x
    ensures IsPublicMapped(HexOf(x)) == IsPublicMapped(MappedDotted(x))
  {
    var high, low := HexOf(x).high, HexOf(x).low;
    SmallPowers();
    AndLowBits(high, 8);
    AndLowBits(low, 8);
    assert high == x.a * 0x100 + x.b && low == x.c * 0x100 + x.d;
  }

  /** Conversely every pair of 16-bit groups embeds an address that is spelled by that pair. */
  lemma EveryHexFormEmbeds(high: nat, low: nat)
    requires high <= 0xffff && low <= 0xffff
    ensures IsAddress(Embedded(high, low)) && HexOf(Embedded(high, low)) == MappedHex(high, low)
  {
    hide And, Pow2;
    SmallPowers();
    AndLowBits(high, 8);
    AndLowBits(low, 8);
    assert Value(Embedded(high, low)) == high * 0x1_0000 + low;
  }
}

/** The frame checksum: the reflected CRC-32 of RFC 1952, section 8, as a
    bit-serial register and as the 256-entry table that the code runs. */
module Crc32 {
  import opened Words

  type Reg = bv32

  const POLY: Reg := 0xEDB8_8320
  const ONES: Reg := 0xFFFF_FFFF

  // ---- The reference: one register, fed one message bit at a time ----

  function FeedBit(c: Reg, bit: Reg): Reg {
    if (c ^ bit) & 1 == 1 then POLY ^ (c >> 1) else c >> 1
  }

  /** Feeds the low n bits of b, least significant first. */
  function FeedBits(c: Reg, b: Reg, n: nat): Reg
    decreases n
  {
    if n == 0 then c else FeedBits(FeedBit(c, b & 1), b >> 1, n - 1)
  }

  function Bits(b: int): (r: bv8)
    requires 0 <= b < 256
    ensures r as int == b
  {
    if b == 0 then 0 else Bits(b - 1) + 1
  }

  /** The byte b at the low end of a register. */
  function Low(b: u8): Reg { Bits(b) as Reg }

  function FeedByte(c: Reg, b: u8): Reg { FeedBits(c, Low(b), 8) }

  function Feed(c: Reg, data: seq<u8>): Reg {
    if data == [] then c else FeedByte(Feed(c, data[..|data| - 1]), data[|data| - 1])
  }

  function Invert(c: Reg): Reg { c ^ ONES }

  function Crc(data: seq<u8>, seed: Reg): Reg { Invert(Feed(Invert(seed), data)) }

  // ---- Iterating a map that keeps a structure ----

  function Iterate<T>(f: T -> T, x: T, n: nat): T
    decreases n
  {
    if n == 0 then x else Iterate(f, f(x), n - 1)
  }

  lemma {:induction false} IterateAdd<T>(f: T -> T, x: T, m: nat, n: nat)
    ensures Iterate(f, x, m + n) == Iterate(f, Iterate(f, x, m), n)
    decreases m
  {
    if m > 0 {
      IterateAdd(f, f(x), m - 1, n);
    }
  }

  lemma {:induction false} IterateInjective<T(!new)>(f: T -> T, x: T, y: T, n: nat)
    requires forall a, b :: f(a) == f(b) ==> a == b
    requires Iterate(f, x, n) == Iterate(f, y, n)
    ensures x == y
    decreases n
  {
    if n > 0 {
      IterateInjective(f, f(x), f(y), n - 1);
    }
  }

  lemma {:induction false} IterateHomomorphic<T(!new)>(f: T -> T, op: (T, T) -> T, x: T, y: T, n: nat)
    requires forall a, b :: f(op(a, b)) == op(f(a), f(b))
    ensures Iterate(f, op(x, y), n) == op(Iterate(f, x, n), Iterate(f, y, n))
    decreases n
  {
    if n > 0 {
      IterateHomomorphic(f, op, f(x), f(y), n - 1);
    }
  }

  // ---- The register without input: a linear, injective map ----

  function Xor(x: Reg, y: Reg): Reg { x ^ y }

  function Half(x: Reg): Reg { x >> 1 }

  /** One round of the loop that fills the table. */
  function Shift(c: Reg): Reg {
    if c & 1 == 1 then POLY ^ (c >> 1) else c >> 1
  }

  function Shifts(c: Reg, n: nat): Reg { Iterate(Shift, c, n) }

  function Halves(c: Reg, n: nat): Reg { Iterate(Half, c, n) }

  function Mask(c: Reg): Reg { if c & 1 == 1 then POLY else 0 }

  lemma {:induction false} XorAssoc(a: Reg, b: Reg, c: Reg)
    ensures Xor(Xor(a, b), c) == Xor(a, Xor(b, c))
  {
    assert (a ^ b) ^ c == a ^ (b ^ c);
  }

  lemma {:induction false} XorIs(a: Reg, b: Reg)
    ensures Xor(a, b) == a ^ b
  {}

  lemma {:induction false} XorComm(a: Reg, b: Reg)
    ensures Xor(a, b) == Xor(b, a)
  {}

  lemma {:induction false} XorTwice(a: Reg, b: Reg)
    ensures Xor(Xor(a, b), b) == a
  {}

  lemma {:induction false} XorZero(a: Reg)
    ensures Xor(a, 0) == a && Xor(0, a) == a
  {}

  lemma {:induction false} ShiftMask(c: Reg)
    ensures Shift(c) == Xor(Mask(c), Half(c))
  {
    XorZero(Half(c));
    XorIs(POLY, Half(c));
    hide Xor;
  }

  lemma {:induction false} HalfXor(x: Reg, y: Reg)
    ensures Half(Xor(x, y)) == Xor(Half(x), Half(y))
  {}

  lemma {:induction false} MaskXor(x: Reg, y: Reg)
    ensures Mask(Xor(x, y)) == Xor(Mask(x), Mask(y))
  {
    assert (x ^ y) & 1 == (x & 1) ^ (y & 1);
  }

  lemma {:induction false} XorFour(a: Reg, b: Reg, c: Reg, d: Reg)
    ensures Xor(Xor(a, b), Xor(c, d)) == Xor(Xor(a, c), Xor(b, d))
  {
    hide *;
    XorAssoc(a, b, Xor(c, d));
    XorAssoc(b, c, d);
    XorComm(b, c);
    XorAssoc(c, b, d);
    XorAssoc(a, c, Xor(b, d));
  }

  lemma {:induction false} ShiftXor(x: Reg, y: Reg)
    ensures Shift(Xor(x, y)) == Xor(Shift(x), Shift(y))
  {
    hide *;
    ShiftMask(x);
    ShiftMask(y);
    ShiftMask(Xor(x, y));
    MaskXor(x, y);
    HalfXor(x, y);
    XorFour(Mask(x), Mask(y), Half(x), Half(y));
  }

  lemma {:induction false} ShiftsXor(x: Reg, y: Reg, n: nat)
    ensures Shifts(Xor(x, y), n) == Xor(Shifts(x, n), Shifts(y, n))
  {
    forall a, b ensures Shift(Xor(a, b)) == Xor(Shift(a), Shift(b)) { ShiftXor(a, b); }
    IterateHomomorphic(Shift, Xor, x, y, n);
  }

  lemma {:induction false} ShiftInjective(x: Reg, y: Reg)
    requires Shift(x) == Shift(y)
    ensures x == y
  {}

  lemma {:induction false} ShiftsInjective(x: Reg, y: Reg, n: nat)
    requires Shifts(x, n) == Shifts(y, n)
    ensures x == y
  {
    forall a, b | Shift(a) == Shift(b) ensures a == b { ShiftInjective(a, b); }
    IterateInjective(Shift, x, y, n);
  }

  lemma {:induction false} ShiftsAdd(x: Reg, m: nat, n: nat)
    ensures Shifts(x, m + n) == Shifts(Shifts(x, m), n)
  {
    IterateAdd(Shift, x, m, n);
  }

  lemma {:induction false} ShiftsSucc(x: Reg, k: nat)
    ensures Shifts(x, k + 1) == Shift(Shifts(x, k))
  {
    ShiftsAdd(x, k, 1);
    assert Iterate(Shift, Shifts(x, k), 1) == Iterate(Shift, Shift(Shifts(x, k)), 0);
  }

  /** Zeros at the low end leave the register one by one. */
  ghost predicate LowZeros(y: Reg, n: nat)
    decreases n
  {
    n == 0 || (y & 1 == 0 && LowZeros(Half(y), n - 1))
  }

  lemma {:induction false} ShiftsOfZeros(y: Reg, n: nat)
    requires LowZeros(y, n)
    ensures Shifts(y, n) == Halves(y, n)
    decreases n
  {
    if n > 0 {
      assert Shift(y) == Half(y);
      ShiftsOfZeros(Half(y), n - 1);
    }
  }

  lemma {:induction false} LowByteZero(y: Reg)
    requires y & 0xFF == 0
    ensures LowZeros(y, 8)
  {
    var y1 := Half(y);
    var y2 := Half(y1);
    var y3 := Half(y2);
    var y4 := Half(y3);
    var y5 := Half(y4);
    var y6 := Half(y5);
    var y7 := Half(y6);
    assert LowZeros(y7, 1);
    assert LowZeros(y6, 2);
    assert LowZeros(y5, 3);
    assert LowZeros(y4, 4);
    assert LowZeros(y3, 5);
    assert LowZeros(y2, 6);
    assert LowZeros(y1, 7);
  }

  lemma {:induction false} EightHalves(y: Reg)
    ensures Halves(y, 8) == y >> 8
  {
    var y4 := Half(Half(Half(Half(y))));
    assert Iterate(Half, y, 4) == y4;
    assert Iterate(Half, y4, 4) == Half(Half(Half(Half(y4))));
    IterateAdd(Half, y, 4, 4);
  }

  lemma {:induction false} ShiftOutByte(y: Reg)
    requires y & 0xFF == 0
    ensures Shifts(y, 8) == y >> 8
  {
    LowByteZero(y);
    ShiftsOfZeros(y, 8);
    EightHalves(y);
  }

  // ---- The bit-serial register in terms of the free-running one ----

  lemma {:induction false} Parity(c: Reg, b: Reg) ensures (c ^ (b & 1)) & 1 == (c ^ b) & 1 {}

  /** What FeedBit does once the parity p of register and bit is known. */
  function FeedParity(c: Reg, p: Reg): Reg { if p == 1 then POLY ^ (c >> 1) else c >> 1 }

  lemma {:induction false} FeedParityMask(c: Reg, x: Reg)
    ensures FeedParity(c, x & 1) == Xor(Mask(x), Half(c))
  {
    XorZero(Half(c));
    XorIs(POLY, Half(c));
    hide Xor;
  }

  lemma {:induction false} FeedBitMask(c: Reg, b: Reg)
    ensures FeedBit(c, b & 1) == Xor(Mask(Xor(c, b)), Half(c))
  {
    Parity(c, b);
    FeedParityMask(c, c ^ b);
    hide Mask;
    assert FeedBit(c, b & 1) == FeedParity(c, (c ^ (b & 1)) & 1);
  }

  lemma {:induction false} FeedBitShift(c: Reg, b: Reg)
    ensures FeedBit(c, b & 1) == Xor(Shift(Xor(c, b)), Half(b))
  {
    hide *;
    FeedBitMask(c, b);
    ShiftMask(Xor(c, b));
    XorAssoc(Mask(Xor(c, b)), Half(Xor(c, b)), Half(b));
    HalfXor(c, b);
    XorTwice(Half(c), Half(b));
  }

  lemma {:induction false} FeedBitsShifts(c: Reg, b: Reg, n: nat)
    ensures Xor(FeedBits(c, b, n), Halves(b, n)) == Shifts(Xor(c, b), n)
    decreases n
  {
    if n > 0 {
      var c' := FeedBit(c, b & 1);
      FeedBitShift(c, b);
      XorTwice(Shift(Xor(c, b)), Half(b));
      FeedBitsShifts(c', Half(b), n - 1);
    }
  }

  lemma {:induction false} FeedByteShifts(c: Reg, b: u8)
    ensures FeedByte(c, b) == Shifts(Xor(c, Low(b)), 8)
  {
    FeedBitsShifts(c, Low(b), 8);
    EightHalves(Low(b));
    XorZero(FeedByte(c, b));
  }

  // ---- The table ----

  function Entry(i: u8): Reg { Shifts(Low(i), 8) }

  function Index(c: Reg, b: u8): u8 { ((c ^ Low(b)) & 0xFF) as bv8 as int }

  lemma {:induction false} BitsOfByte(x: bv8)
    ensures Bits(x as int) == x
  {
    assert (x as int) as bv8 == x && (Bits(x as int) as int) as bv8 == Bits(x as int);
  }

  lemma {:induction false} LowOfIndex(c: Reg, b: u8)
    ensures Low(Index(c, b)) == Xor(c, Low(b)) & 0xFF
  {
    BitsOfByte(((c ^ Low(b)) & 0xFF) as bv8);
    hide Bits;
  }

  lemma {:induction false} EntryIs(i: u8) ensures Entry(i) == Shifts(Low(i), 8) {}

  lemma {:induction false} ShiftsSplit(low: Reg, high: Reg, rest: Reg)
    requires Shifts(high, 8) == rest
    ensures Shifts(Xor(low, high), 8) == Xor(Shifts(low, 8), rest)
  {
    hide *;
    ShiftsXor(low, high, 8);
  }

  function High(c: Reg): Reg { (c >> 8) << 8 }

  lemma {:induction false} HighZeros(c: Reg) ensures High(c) & 0xFF == 0 && High(c) >> 8 == c >> 8 {}

  lemma {:induction false} HighShifts(c: Reg)
    ensures Shifts(High(c), 8) == c >> 8
  {
    HighZeros(c);
    hide *;
    ShiftOutByte(High(c));
  }

  lemma {:induction false} SplitAt8(x: Reg) ensures x == Xor(x & 0xFF, High(x)) {}

  lemma {:induction false} ShrXor(x: Reg, y: Reg) ensures (x ^ y) >> 8 == (x >> 8) ^ (y >> 8) {}
  lemma {:induction false} ShlXor(x: Reg, y: Reg) ensures (x ^ y) << 8 == (x << 8) ^ (y << 8) {}

  lemma {:induction false} HighXor(x: Reg, y: Reg)
    ensures High(Xor(x, y)) == Xor(High(x), High(y))
  {
    ShrXor(x, y);
    ShlXor(x >> 8, y >> 8);
  }

  lemma {:induction false} HighOfByte(b: bv8) ensures High(b as Reg) == 0 {}

  lemma {:induction false} HighOfXor(c: Reg, b: bv8)
    ensures High(Xor(c, b as Reg)) == High(c)
  {
    hide *;
    HighXor(c, b as Reg);
    HighOfByte(b);
    XorZero(High(c));
  }

  lemma {:induction false} SplitFeed(c: Reg, b: u8)
    ensures Xor(c, Low(b)) == Xor(Low(Index(c, b)), High(c))
  {
    LowOfIndex(c, b);
    HighOfXor(c, Bits(b));
    hide Xor, High;
    SplitAt8(Xor(c, Low(b)));
  }

  /** One table look-up does the work of eight bit-serial rounds. */
  lemma {:induction false} TableStep(c: Reg, b: u8)
    ensures Xor(Entry(Index(c, b)), c >> 8) == FeedByte(c, b)
  {
    hide *;
    SplitFeed(c, b);
    HighShifts(c);
    FeedByteShifts(c, b);
    ShiftsSplit(Low(Index(c, b)), High(c), c >> 8);
    EntryIs(Index(c, b));
  }

  lemma {:induction false} FeedStep(c: Reg, z: seq<u8>, i: nat)
    requires i < |z|
    ensures Feed(c, z[..i + 1]) == FeedByte(Feed(c, z[..i]), z[i])
  {
    hide FeedByte;
    assert z[..i + 1][..i] == z[..i];
  }

  class Crc32Table {
    const entries: seq<Reg>

    ghost predicate Valid() {
      |entries| == 256 && forall i: u8 :: entries[i] == Entry(i)
    }

    constructor ()
      ensures Valid()
    {
      var table := new Reg[256];
      for i := 0 to 256
        invariant forall j: u8 :: j < i ==> table[j] == Entry(j)
      {
        table[i] := EightRounds(Low(i));
      }
      entries := table[..];
    }

    static method EightRounds(x: Reg) returns (c: Reg)
      ensures c == Shifts(x, 8)
    {
      c := x;
      for k := 0 to 8
        invariant c == Shifts(x, k)
      {
        ShiftsSucc(x, k);
        c := if c & 1 == 1 then POLY ^ (c >> 1) else c >> 1;
      }
    }

    /** One step of each checksum loop. */
    method Update(c: Reg, b: u8) returns (r: Reg)
      requires Valid()
      ensures r == FeedByte(c, b)
    {
      TableStep(c, b);
      r := entries[Index(c, b)] ^ (c >> 8);
    }

    method Checksum(data: seq<u8>, seed: Reg) returns (crc: Reg)
      requires Valid()
      ensures crc == Crc(data, seed)
    {
      var c := Invert(seed);
      hide Invert, FeedByte;
      for i := 0 to |data|
        invariant c == Feed(Invert(seed), data[..i])
      {
        FeedStep(Invert(seed), data, i);
        c := Update(c, data[i]);
      }
      assert data[..|data|] == data;
      crc := Invert(c);
    }
  }

  // ---- What a changed message does to the register ----

  lemma {:induction false} FeedByteInjective(c: Reg, d: Reg, b: u8)
    requires FeedByte(c, b) == FeedByte(d, b)
    ensures c == d
  {
    hide *;
    FeedByteShifts(c, b);
    FeedByteShifts(d, b);
    ShiftsInjective(Xor(c, Low(b)), Xor(d, Low(b)), 8);
    XorTwice(c, Low(b));
    XorTwice(d, Low(b));
  }

  lemma {:induction false} FeedInjective(c: Reg, d: Reg, data: seq<u8>)
    requires Feed(c, data) == Feed(d, data)
    ensures c == d
    decreases |data|
  {
    if data != [] {
      var init := data[..|data| - 1];
      FeedByteInjective(Feed(c, init), Feed(d, init), data[|data| - 1]);
      FeedInjective(c, d, init);
    }
  }

  lemma {:induction false} FeedAppend(c: Reg, a: seq<u8>, b: seq<u8>)
    ensures Feed(c, a + b) == Feed(Feed(c, a), b)
    decreases |b|
  {
    if b == [] {
      assert a + b == a;
    } else {
      var init := b[..|b| - 1];
      assert (a + b)[..|a + b| - 1] == a + init;
      FeedAppend(c, a, init);
    }
  }

  lemma {:induction false} FeedLater(x: Reg, y: Reg, n: nat, b: u8)
    requires Shifts(y, n) == Low(b)
    ensures FeedByte(Shifts(x, n), b) == Shifts(Xor(x, y), n + 8)
  {
    hide *;
    FeedByteShifts(Shifts(x, n), b);
    ShiftsXor(x, y, n);
    ShiftsAdd(Xor(x, y), n, 8);
  }

  /** The byte b moved up by i places of eight bits. */
  function At(b: bv8, i: nat): Reg
    requires i < 4
  {
    match i
    case 0 => b as Reg
    case 1 => (b as Reg) << 8
    case 2 => (b as Reg) << 16
    case 3 => (b as Reg) << 24
  }

  lemma {:induction false} AtZeros(b: bv8, i: nat)
    requires 0 < i < 4
    ensures At(b, i) & 0xFF == 0 && At(b, i) >> 8 == At(b, i - 1)
  {}

  lemma {:induction false} AtShifts(r: bv8, i: nat)
    requires i < 4
    ensures Shifts(At(r, i), 8 * i) == At(r, 0)
  {
    hide At, Shift;
    if i > 0 {
      AtZeros(r, i);
      ShiftOutByte(At(r, i));
      ShiftsAdd(At(r, i), 8, 8 * (i - 1));
      AtShifts(r, i - 1);
    }
  }

  /** Four message bytes as they meet the register. */
  function Word(b: seq<u8>): Reg
    requires |b| == 4
  {
    Join(Bits(b[0]), Bits(b[1]), Bits(b[2]), Bits(b[3]))
  }

  function Join(p: bv8, q: bv8, r: bv8, s: bv8): Reg {
    Xor(Xor(Xor(At(p, 0), At(q, 1)), At(r, 2)), At(s, 3))
  }

  function Octet(x: Reg, k: nat): Reg
    requires k < 4
  {
    match k
    case 0 => x & 0xFF
    case 1 => (x >> 8) & 0xFF
    case 2 => (x >> 16) & 0xFF
    case 3 => x >> 24
  }

  lemma {:induction false} XorAnd(x: Reg, y: Reg)
    ensures (x ^ y) & 0xFF == (x & 0xFF) ^ (y & 0xFF)
  {}

  lemma {:induction false} Xor8(x: Reg, y: Reg)
    ensures ((x ^ y) >> 8) & 0xFF == ((x >> 8) & 0xFF) ^ ((y >> 8) & 0xFF)
  {}

  lemma {:induction false} Xor16(x: Reg, y: Reg)
    ensures ((x ^ y) >> 16) & 0xFF == ((x >> 16) & 0xFF) ^ ((y >> 16) & 0xFF)
  {}

  lemma {:induction false} Xor24(x: Reg, y: Reg)
    ensures (x ^ y) >> 24 == (x >> 24) ^ (y >> 24)
  {}

  lemma {:induction false} OctetXor(x: Reg, y: Reg, k: nat)
    requires k < 4
    ensures Octet(Xor(x, y), k) == Xor(Octet(x, k), Octet(y, k))
  {
    match k
    case 0 => XorAnd(x, y);
    case 1 => Xor8(x, y);
    case 2 => Xor16(x, y);
    case 3 => Xor24(x, y);
  }

  lemma {:induction false} OctetAt(b: bv8, i: nat, k: nat)
    requires i < 4 && k < 4
    ensures Octet(At(b, i), k) == if i == k then b as Reg else 0
  {}

  /** The exclusive or of four registers of which only one counts. */
  lemma {:induction false} OneOfFour(v: Reg)
    ensures Xor(Xor(Xor(v, 0), 0), 0) == v && Xor(Xor(Xor(0, v), 0), 0) == v
    ensures Xor(Xor(Xor(0, 0), v), 0) == v && Xor(Xor(Xor(0, 0), 0), v) == v
  {
    XorZero(v);
    XorZero(0);
    hide Xor;
  }

  lemma {:induction false} OctetXors(x: Reg, y: Reg, z: Reg, w: Reg, k: nat)
    requires k < 4
    ensures Octet(Xor(Xor(Xor(x, y), z), w), k) == Xor(Xor(Xor(Octet(x, k), Octet(y, k)), Octet(z, k)), Octet(w, k))
  {
    hide *;
    OctetXor(x, y, k);
    OctetXor(Xor(x, y), z, k);
    OctetXor(Xor(Xor(x, y), z), w, k);
  }

  function Only(b: bv8, here: bool): Reg { if here then b as Reg else 0 }

  lemma {:induction false} JoinOctet(p: bv8, q: bv8, r: bv8, s: bv8, k: nat)
    requires k < 4
    ensures Octet(Join(p, q, r, s), k)
            == Xor(Xor(Xor(Only(p, k == 0), Only(q, k == 1)), Only(r, k == 2)), Only(s, k == 3))
  {
    hide Xor, At, Octet;
    OctetXors(At(p, 0), At(q, 1), At(r, 2), At(s, 3), k);
    OctetAt(p, 0, k);
    OctetAt(q, 1, k);
    OctetAt(r, 2, k);
    OctetAt(s, 3, k);
  }

  lemma {:induction false} JoinOctets(p: bv8, q: bv8, r: bv8, s: bv8)
    ensures Octet(Join(p, q, r, s), 0) == p as Reg && Octet(Join(p, q, r, s), 1) == q as Reg
    ensures Octet(Join(p, q, r, s), 2) == r as Reg && Octet(Join(p, q, r, s), 3) == s as Reg
  {
    hide Xor, At, Octet, Join;
    JoinOctet(p, q, r, s, 0);
    JoinOctet(p, q, r, s, 1);
    JoinOctet(p, q, r, s, 2);
    JoinOctet(p, q, r, s, 3);
    OneOfFour(p as Reg);
    OneOfFour(q as Reg);
    OneOfFour(r as Reg);
    OneOfFour(s as Reg);
  }

  lemma {:induction false} JoinInjective(a: bv8, b: bv8, c: bv8, d: bv8, a': bv8, b': bv8, c': bv8, d': bv8)
    requires Join(a, b, c, d) == Join(a', b', c', d')
    ensures a == a' && b == b' && c == c' && d == d'
  {
    hide *;
    JoinOctets(a, b, c, d);
    JoinOctets(a', b', c', d');
  }

  lemma {:induction false} WordInjective(a: seq<u8>, b: seq<u8>)
    requires |a| == |b| == 4 && Word(a) == Word(b)
    ensures a == b
  {
    hide Join;
    JoinInjective(Bits(a[0]), Bits(a[1]), Bits(a[2]), Bits(a[3]), Bits(b[0]), Bits(b[1]), Bits(b[2]), Bits(b[3]));
    hide *;
    assert forall i | 0 <= i < 4 :: Bits(a[i]) as int == Bits(b[i]) as int;
  }

  lemma {:induction false} WordIs(b: seq<u8>)
    requires |b| == 4
    ensures Word(b) == Xor(Xor(Xor(Low(b[0]), At(Bits(b[1]), 1)), At(Bits(b[2]), 2)), At(Bits(b[3]), 3))
  {
    assert At(Bits(b[0]), 0) == Low(b[0]);
    hide Xor, At, Bits;
  }

  lemma {:induction false} LowIs(b: u8) ensures Low(b) == At(Bits(b), 0) {}

  lemma {:induction false} FeedUnrolled(c: Reg, b: seq<u8>)
    requires |b| == 4
    ensures Feed(c, b) == FeedByte(FeedByte(FeedByte(FeedByte(c, b[0]), b[1]), b[2]), b[3])
  {
    hide FeedByte;
    assert b[..3][..2] == b[..2] && b[..2][..1] == b[..1] && b[..1][..0] == [];
    assert Feed(c, b[..1]) == FeedByte(Feed(c, []), b[0]);
    assert Feed(c, b[..2]) == FeedByte(Feed(c, b[..1]), b[1]);
    assert Feed(c, b[..3]) == FeedByte(Feed(c, b[..2]), b[2]);
  }

  lemma {:induction false} FeedFour(c: Reg, b: seq<u8>)
    requires |b| == 4
    ensures Feed(c, b) == Shifts(Xor(c, Word(b)), 32)
  {
    hide *;
    var x0, x1, x2, x3 := Low(b[0]), At(Bits(b[1]), 1), At(Bits(b[2]), 2), At(Bits(b[3]), 3);
    WordIs(b);
    FeedUnrolled(c, b);
    FeedByteShifts(c, b[0]);
    LowIs(b[1]);
    LowIs(b[2]);
    LowIs(b[3]);
    AtShifts(Bits(b[1]), 1);
    AtShifts(Bits(b[2]), 2);
    AtShifts(Bits(b[3]), 3);
    FeedLater(Xor(c, x0), x1, 8, b[1]);
    FeedLater(Xor(Xor(c, x0), x1), x2, 16, b[2]);
    FeedLater(Xor(Xor(Xor(c, x0), x1), x2), x3, 24, b[3]);
    XorAssoc(c, x0, x1);
    XorAssoc(c, Xor(x0, x1), x2);
    XorAssoc(c, Xor(Xor(x0, x1), x2), x3);
  }

  /** A register tells any two runs of four bytes apart. */
  lemma {:induction false} FeedFourInjective(c: Reg, a: seq<u8>, b: seq<u8>)
    requires |a| == |b| == 4 && Feed(c, a) == Feed(c, b)
    ensures a == b
  {
    hide *;
    FeedFour(c, a);
    FeedFour(c, b);
    ShiftsInjective(Xor(c, Word(a)), Xor(c, Word(b)), 32);
    XorComm(c, Word(a));
    XorComm(c, Word(b));
    XorTwice(Word(a), c);
    XorTwice(Word(b), c);
    WordInjective(a, b);
  }

  /** In particular the one-byte step is injective in the byte. */
  lemma {:induction false} FeedByteInjectiveInByte(c: Reg, a: u8, b: u8)
    requires FeedByte(c, a) == FeedByte(c, b)
    ensures a == b
  {
    hide FeedByte, Feed;
    FeedUnrolled(c, [a, 0, 0, 0]);
    FeedUnrolled(c, [b, 0, 0, 0]);
    FeedFourInjective(c, [a, 0, 0, 0], [b, 0, 0, 0]);
    assert [a, 0, 0, 0][0] == [b, 0, 0, 0][0];
  }

  lemma {:induction false} InvertInjective(a: Reg, b: Reg)
    requires Invert(a) == Invert(b)
    ensures a == b
  {}

  /** Two messages of one length that differ, but only inside four consecutive
      bytes, have different checksums. */
  lemma {:induction false} BurstChangesCrc(a: seq<u8>, b: seq<u8>, i: nat, seed: Reg)
    requires |a| == |b| && i + 4 <= |a| && a != b
    requires a[..i] == b[..i] && a[i + 4..] == b[i + 4..]
    ensures Crc(a, seed) != Crc(b, seed)
  {
    var c := Invert(seed);
    hide Invert, FeedByte;
    assert a == a[..i] + a[i..i + 4] + a[i + 4..] && b == b[..i] + b[i..i + 4] + b[i + 4..];
    FeedAppend(c, a[..i] + a[i..i + 4], a[i + 4..]);
    FeedAppend(c, b[..i] + b[i..i + 4], b[i + 4..]);
    FeedAppend(c, a[..i], a[i..i + 4]);
    FeedAppend(c, b[..i], b[i..i + 4]);
    if Crc(a, seed) == Crc(b, seed) {
      InvertInjective(Feed(c, a), Feed(c, b));
      FeedInjective(Feed(c, a[..i] + a[i..i + 4]), Feed(c, b[..i] + b[i..i + 4]), a[i + 4..]);
      FeedFourInjective(Feed(c, a[..i]), a[i..i + 4], b[i..i + 4]);
      assert false;
    }
  }

  // ---- The check value ----

  /** Eight rounds, written out. */
  function Rounds(c: Reg, b: Reg): Reg {
    var b1 := b >> 1;
    var b2 := b1 >> 1;
    var b3 := b2 >> 1;
    var b4 := b3 >> 1;
    var b5 := b4 >> 1;
    var b6 := b5 >> 1;
    var b7 := b6 >> 1;
    FeedBit(FeedBit(FeedBit(FeedBit(FeedBit(FeedBit(FeedBit(FeedBit(c,
      b & 1), b1 & 1), b2 & 1), b3 & 1), b4 & 1), b5 & 1), b6 & 1), b7 & 1)
  }

  lemma {:induction false} FeedOne(c: Reg, b: Reg, n: nat)
    requires n > 0
    ensures FeedBits(c, b, n) == FeedBits(FeedBit(c, b & 1), b >> 1, n - 1)
  {}

  lemma {:induction false} FeedNone(c: Reg, b: Reg)
    ensures FeedBits(c, b, 0) == c
  {}

  lemma {:induction false} RoundsFeed(c: Reg, b: Reg)
    ensures FeedBits(c, b, 8) == Rounds(c, b)
  {
    hide FeedBit, FeedBits;
    var b1 := b >> 1;
    var b2 := b1 >> 1;
    var b3 := b2 >> 1;
    var b4 := b3 >> 1;
    var b5 := b4 >> 1;
    var b6 := b5 >> 1;
    var b7 := b6 >> 1;
    var c1 := FeedBit(c, b & 1);
    var c2 := FeedBit(c1, b1 & 1);
    var c3 := FeedBit(c2, b2 & 1);
    var c4 := FeedBit(c3, b3 & 1);
    var c5 := FeedBit(c4, b4 & 1);
    var c6 := FeedBit(c5, b5 & 1);
    var c7 := FeedBit(c6, b6 & 1);
    FeedOne(c, b, 8);
    FeedOne(c1, b1, 7);
    FeedOne(c2, b2, 6);
    FeedOne(c3, b3, 5);
    FeedOne(c4, b4, 4);
    FeedOne(c5, b5, 3);
    FeedOne(c6, b6, 2);
    FeedOne(c7, b7, 1);
    FeedNone(FeedBit(c7, b7 & 1), b7 >> 1);
  }

  lemma {:induction false} NineRounds()
    ensures Rounds(0xFFFF_FFFF, 0x31) == 0x7C23_1048
    ensures Rounds(0x7C23_1048, 0x32) == 0xB0AC_BB32
    ensures Rounds(0xB0AC_BB32, 0x33) == 0x77B7_9C2D
    ensures Rounds(0x77B7_9C2D, 0x34) == 0x641C_1F5C
    ensures Rounds(0x641C_1F5C, 0x35) == 0x340A_C5E3
    ensures Rounds(0x340A_C5E3, 0x36) == 0xF68D_2C9E
    ensures Rounds(0xF68D_2C9E, 0x37) == 0xAFFC_9660
    ensures Rounds(0xAFFC_9660, 0x38) == 0x651F_2550
    ensures Rounds(0x651F_2550, 0x39) == 0x340B_C6D9
  {}

  lemma {:induction false} Digit(data: seq<u8>, c: Reg, b: bv8, n: u8, d: Reg, next: seq<u8>)
    requires Feed(ONES, data) == c && Rounds(c, b as Reg) == d && b as int == n && next == data + [n]
    ensures Feed(ONES, next) == d
  {
    BitsOfByte(b);
    RoundsFeed(c, b as Reg);
    hide Rounds, FeedBits, Bits;
    assert next[..|data|] == data;
  }

  lemma {:induction false} FourDigits()
    ensures Feed(ONES, [0x31, 0x32, 0x33, 0x34]) == 0x641C_1F5C
  {
    assert Feed(ONES, []) == ONES;
    NineRounds();
    hide Feed, Rounds;
    var d0: seq<u8> := [];
    var d1 := d0 + [0x31];
    var d2 := d1 + [0x32];
    var d3 := d2 + [0x33];
    var d4 := d3 + [0x34];
    Digit(d0, ONES, 0x31, 0x31, 0x7C23_1048, d1);
    Digit(d1, 0x7C23_1048, 0x32, 0x32, 0xB0AC_BB32, d2);
    Digit(d2, 0xB0AC_BB32, 0x33, 0x33, 0x77B7_9C2D, d3);
    Digit(d3, 0x77B7_9C2D, 0x34, 0x34, 0x641C_1F5C, d4);
    assert d4 == [0x31, 0x32, 0x33, 0x34];
  }

  lemma {:induction false} SevenDigits()
    ensures Feed(ONES, [0x31, 0x32, 0x33, 0x34, 0x35, 0x36, 0x37]) == 0xAFFC_9660
  {
    NineRounds();
    hide Feed, Rounds;
    FourDigits();
    var d4: seq<u8> := [0x31, 0x32, 0x33, 0x34];
    var d5 := d4 + [0x35];
    var d6 := d5 + [0x36];
    var d7 := d6 + [0x37];
    Digit(d4, 0x641C_1F5C, 0x35, 0x35, 0x340A_C5E3, d5);
    Digit(d5, 0x340A_C5E3, 0x36, 0x36, 0xF68D_2C9E, d6);
    Digit(d6, 0xF68D_2C9E, 0x37, 0x37, 0xAFFC_9660, d7);
    assert d7 == [0x31, 0x32, 0x33, 0x34, 0x35, 0x36, 0x37];
  }

  /** The check value of CRC-32: the checksum of the nine digits "123456789". */
  lemma {:induction false} CheckValue()
    ensures Crc([0x31, 0x32, 0x33, 0x34, 0x35, 0x36, 0x37, 0x38, 0x39], 0) == 0xCBF4_3926
  {
    NineRounds();
    hide Feed, Rounds;
    SevenDigits();
    var d7: seq<u8> := [0x31, 0x32, 0x33, 0x34, 0x35, 0x36, 0x37];
    var d8 := d7 + [0x38];
    var d9 := d8 + [0x39];
    Digit(d7, 0xAFFC_9660, 0x38, 0x38, 0x651F_2550, d8);
    Digit(d8, 0x651F_2550, 0x39, 0x39, 0x340B_C6D9, d9);
    assert d9 == [0x31, 0x32, 0x33, 0x34, 0x35, 0x36, 0x37, 0x38, 0x39];
  }
}

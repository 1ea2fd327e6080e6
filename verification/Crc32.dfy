/** CRC-32 over the reflected IEEE polynomial, by table, and what it detects. */
module Crc32 {
  type Octet = bv8
  type Octets = seq<Octet>

  const POLYNOMIAL: bv32 := 0xEDB88320

  // ----- the reference: one bit at a time -----

  function Xor(a: bv32, b: bv32): bv32 { a ^ b }

  function Wide(b: Octet): bv32 { b as bv32 }

  function LowByte(c: bv32): Octet { (c & 0xFF) as Octet }

  function HighBytes(c: bv32): bv32 { c & 0xFFFFFF00 }

  function DropByte(c: bv32): bv32 { c >> 8 }

  /** Shift one bit out; a set bit brings the polynomial in. */
  function BitStep(c: bv32): bv32 {
    if c & 1 != 0 then POLYNOMIAL ^ (c >> 1) else c >> 1
  }

  function Bits(c: bv32, n: nat): bv32
    decreases n
  {
    if n == 0 then c else Bits(BitStep(c), n - 1)
  }

  function ByteStep(crc: bv32, b: Octet): bv32 {
    Bits(Xor(crc, Wide(b)), 8)
  }

  function Update(crc: bv32, bytes: Octets): bv32
    decreases |bytes|
  {
    if bytes == [] then crc else Update(ByteStep(crc, bytes[0]), bytes[1..])
  }

  function Crc(bytes: Octets): bv32 {
    Xor(Update(0xFFFFFFFF, bytes), 0xFFFFFFFF)
  }

  // ----- the table form equals the reference -----

  /** The table entry of a byte. */
  function Entry(b: Octet): bv32 {
    Bits(Wide(b), 8)
  }

  function TableStep(crc: bv32, b: Octet): bv32 {
    Xor(Entry(LowByte(Xor(crc, Wide(b)))), DropByte(crc))
  }

  lemma XorShift(a: bv32, b: bv32)
    ensures (a ^ b) & 1 == (a & 1) ^ (b & 1) && (a ^ b) >> 1 == (a >> 1) ^ (b >> 1)
    ensures a & 1 == 0 || a & 1 == 1
    ensures b & 1 == 0 || b & 1 == 1
  {
  }

  lemma XorAssoc(p: bv32, a: bv32, b: bv32)
    ensures p ^ (a ^ b) == (p ^ a) ^ b && p ^ (a ^ b) == a ^ (p ^ b) && (p ^ a) ^ (p ^ b) == a ^ b
  {
  }

  lemma BitStepLinear(a: bv32, b: bv32)
    ensures BitStep(Xor(a, b)) == Xor(BitStep(a), BitStep(b))
  {
    XorShift(a, b);
    XorAssoc(POLYNOMIAL, a >> 1, b >> 1);
  }

  lemma {:induction false} BitsLinear(a: bv32, b: bv32, n: nat)
    ensures Bits(Xor(a, b), n) == Xor(Bits(a, n), Bits(b, n))
    decreases n
  {
    hide BitStep, Xor;
    if n > 0 {
      BitStepLinear(a, b);
      BitsLinear(BitStep(a), BitStep(b), n - 1);
    }
  }

  function DropPair(c: bv32): bv32 { c >> 2 }

  predicate EndsInPair(c: bv32) { c & 3 == 0 }

  predicate EndsInByte(c: bv32) { c & 0xFF == 0 }

  /** Two steps shift out two zero bits. */
  lemma TwoSteps(c: bv32)
    requires EndsInPair(c)
    ensures BitStep(BitStep(c)) == DropPair(c)
  {
    assert BitStep(c) == c >> 1;
    assert (c >> 1) & 1 == 0 && (c >> 1) >> 1 == c >> 2;
  }

  lemma FourPairs(c: bv32)
    requires EndsInByte(c)
    ensures EndsInPair(c) && EndsInPair(DropPair(c)) && EndsInPair(DropPair(DropPair(c)))
    ensures EndsInPair(DropPair(DropPair(DropPair(c)))) && DropPair(DropPair(DropPair(DropPair(c)))) == DropByte(c)
  {
  }

  lemma {:induction false} BitsPair(c: bv32, n: nat)
    ensures Bits(c, n + 2) == Bits(BitStep(BitStep(c)), n)
  {
    hide BitStep;
  }

  /** Eight steps merely shift out a zero byte. */
  lemma {:induction false} ShiftOut(c: bv32)
    requires EndsInByte(c)
    ensures Bits(c, 8) == DropByte(c)
  {
    hide BitStep, Bits, DropPair, EndsInPair, EndsInByte, DropByte;
    FourPairs(c);
    var d := DropPair(c);
    var e := DropPair(d);
    var f := DropPair(e);
    TwoSteps(c);
    TwoSteps(d);
    TwoSteps(e);
    TwoSteps(f);
    BitsPair(c, 6);
    BitsPair(d, 4);
    BitsPair(e, 2);
    BitsPair(f, 0);
    BitsNone(DropPair(f));
  }

  lemma BitsNone(c: bv32)
    ensures Bits(c, 0) == c
  {
  }

  lemma SplitLowByte(x: bv32)
    ensures x == Xor(Wide(LowByte(x)), HighBytes(x)) && EndsInByte(HighBytes(x))
  {
  }

  lemma HighUntouched(crc: bv32, b: Octet)
    ensures DropByte(HighBytes(Xor(crc, Wide(b)))) == DropByte(crc)
  {
  }

  lemma {:induction false} TableIsBitwise(crc: bv32, b: Octet)
    ensures TableStep(crc, b) == ByteStep(crc, b)
  {
    hide Bits, Xor, Wide, LowByte, HighBytes, DropByte, EndsInByte;
    var x := Xor(crc, Wide(b));
    SplitLowByte(x);
    HighUntouched(crc, b);
    BitsLinear(Wide(LowByte(x)), HighBytes(x), 8);
    ShiftOut(HighBytes(x));
  }

  // ----- what it detects -----

  lemma {:induction false} BitsInjective(a: bv32, b: bv32, n: nat)
    requires Bits(a, n) == Bits(b, n)
    ensures a == b
    decreases n
  {
    hide BitStep;
    if n > 0 {
      BitsInjective(BitStep(a), BitStep(b), n - 1);
      BitStepInjective(a, b);
    }
  }

  lemma BitStepInjective(a: bv32, b: bv32)
    requires BitStep(a) == BitStep(b)
    ensures a == b
  {
  }

  lemma XorCancel(a: bv32, b: bv32, x: Octet, y: Octet)
    ensures Xor(a, Wide(x)) == Xor(a, Wide(y)) ==> x == y
    ensures Xor(a, Wide(x)) == Xor(b, Wide(x)) ==> a == b
  {
  }

  /** The same bytes keep different states apart. */
  lemma {:induction false} UpdateInjective(a: bv32, b: bv32, bytes: Octets)
    requires Update(a, bytes) == Update(b, bytes)
    ensures a == b
    decreases |bytes|
  {
    hide Xor, Wide;
    if bytes != [] {
      UpdateInjective(ByteStep(a, bytes[0]), ByteStep(b, bytes[0]), bytes[1..]);
      BitsInjective(Xor(a, Wide(bytes[0])), Xor(b, Wide(bytes[0])), 8);
      XorCancel(a, b, bytes[0], bytes[0]);
    }
  }

  lemma {:induction false} UpdateDetects(crc: bv32, bytes: Octets, i: nat, b: Octet)
    requires i < |bytes| && bytes[i] != b
    ensures Update(crc, bytes) != Update(crc, bytes[i := b])
    decreases |bytes|
  {
    hide ByteStep;
    var changed := bytes[i := b];
    if i == 0 {
      assert changed[1..] == bytes[1..];
      if Update(crc, bytes) == Update(crc, changed) {
        UpdateInjective(ByteStep(crc, bytes[0]), ByteStep(crc, b), bytes[1..]);
        ByteStepDetects(crc, bytes[0], b);
      }
    } else {
      assert changed[1..] == bytes[1..][i - 1 := b];
      UpdateDetects(ByteStep(crc, bytes[0]), bytes[1..], i - 1, b);
    }
  }

  lemma ByteStepDetects(crc: bv32, x: Octet, y: Octet)
    requires ByteStep(crc, x) == ByteStep(crc, y)
    ensures x == y
  {
    hide Bits, Xor, Wide;
    BitsInjective(Xor(crc, Wide(x)), Xor(crc, Wide(y)), 8);
    XorCancel(crc, crc, x, y);
  }

  /** Changing any one byte changes the checksum. */
  lemma {:induction false} CrcDetects(bytes: Octets, i: nat, b: Octet)
    requires i < |bytes| && bytes[i] != b
    ensures Crc(bytes) != Crc(bytes[i := b])
  {
    hide Update, Xor;
    UpdateDetects(0xFFFFFFFF, bytes, i, b);
    XorAll(Update(0xFFFFFFFF, bytes), Update(0xFFFFFFFF, bytes[i := b]));
  }

  lemma XorAll(a: bv32, b: bv32)
    ensures Xor(a, 0xFFFFFFFF) == Xor(b, 0xFFFFFFFF) ==> a == b
  {
  }

  lemma {:induction false} UpdateSnoc(crc: bv32, bytes: Octets, b: Octet)
    ensures Update(crc, bytes + [b]) == ByteStep(Update(crc, bytes), b)
    decreases |bytes|
  {
    hide ByteStep;
    if bytes == [] {
      assert [] + [b] == [b] && [b][1..] == [];
    } else {
      assert (bytes + [b])[1..] == bytes[1..] + [b];
      UpdateSnoc(ByteStep(crc, bytes[0]), bytes[1..], b);
    }
  }

  // ----- the code -----

  lemma OctetIndex(b: Octet)
    ensures 0 <= b as int < 256 && (b as int) as Octet == b
  {
  }

  ghost predicate IsTable(table: seq<bv32>) {
    |table| == 256 && forall k | 0 <= k < 256 :: table[k] == Entry(k as Octet)
  }

  method BuildTable() returns (table: array<bv32>)
    ensures fresh(table) && IsTable(table[..])
  {
    hide Entry;
    table := new bv32[256];
    for i := 0 to 256
      invariant forall k | 0 <= k < i :: table[k] == Entry(k as Octet)
    {
      table[i] := TableEntry(i as Octet);
    }
  }

  /** The inner loop of the table. */
  method TableEntry(i: Octet) returns (c: bv32)
    ensures c == Entry(i)
  {
    hide BitStep;
    c := i as bv32;
    for bit := 0 to 8
      invariant Bits(c, 8 - bit) == Entry(i)
    {
      c := BitStep(c);
    }
  }

  /** `Crc32`: the table-driven loop computes the bitwise reference. */
  method Checksum(bytes: Octets) returns (crc: bv32)
    ensures crc == Crc(bytes)
  {
    hide Update, Xor, Wide, LowByte, DropByte, Entry, ByteStep;
    var table := BuildTable();
    crc := 0xFFFFFFFF;
    assert bytes[..0] == [];
    UpdateNothing(crc);
    for i := 0 to |bytes|
      invariant crc == Update(0xFFFFFFFF, bytes[..i]) && IsTable(table[..])
    {
      var index := LowByte(Xor(crc, Wide(bytes[i])));
      TableIsBitwise(crc, bytes[i]);
      UpdateSnoc(0xFFFFFFFF, bytes[..i], bytes[i]);
      assert bytes[..i + 1] == bytes[..i] + [bytes[i]];
      OctetIndex(index);
      assert table[..][index as int] == Entry((index as int) as Octet);
      crc := Xor(table[index as int], DropByte(crc));
    }
    assert bytes[..|bytes|] == bytes;
    crc := Xor(crc, 0xFFFFFFFF);
  }

  lemma UpdateNothing(crc: bv32)
    ensures Update(crc, []) == crc
  {
  }
}

/** Integers on the wire: octets, big-endian fields, two's complement. */
module WireInts {
  import opened Common
  import opened Crc32

  type Int8 = x: int | -0x80 <= x < 0x80
  type Int16 = x: int | -0x8000 <= x < 0x8000
  type Int32 = x: int | -0x8000_0000 <= x < 0x8000_0000
  type Int64 = x: int | -0x8000_0000_0000_0000 <= x < 0x8000_0000_0000_0000

  // ----- big-endian integers -----

  function Pow256(n: nat): nat {
    if n == 0 then 1 else 256 * Pow256(n - 1)
  }

  function ToOctet(x: nat): Octet
    requires x < 256
  {
    x as Octet
  }

  function FromOctet(b: Octet): (x: nat)
    ensures x < 256
  {
    b as int
  }

  /** The low n bytes of value, most significant first. */
  function BigEndian(value: nat, n: nat): (r: Octets)
    ensures |r| == n
  {
    if n == 0 then [] else BigEndian(value / 256, n - 1) + [ToOctet(value % 256)]
  }

  function FromBigEndian(s: Octets): nat {
    if s == [] then 0 else FromBigEndian(s[..|s| - 1]) * 256 + FromOctet(s[|s| - 1])
  }

  lemma OctetOfInt(x: nat)
    requires x < 256
    ensures FromOctet(ToOctet(x)) == x
  {
    var y := x % 256;
    assert y == x;
    var b := x as Octet;
  }

  lemma IntOfOctet(b: Octet)
    ensures ToOctet(FromOctet(b)) == b
  {
  }

  lemma {:induction false} ReadWritten(value: nat, n: nat)
    requires value < Pow256(n)
    ensures FromBigEndian(BigEndian(value, n)) == value
    decreases n
  {
    hide ToOctet, FromOctet;
    if n > 0 {
      var s := BigEndian(value, n);
      assert s[..|s| - 1] == BigEndian(value / 256, n - 1);
      ReadWritten(value / 256, n - 1);
      OctetOfInt(value % 256);
    }
  }

  lemma {:induction false} WriteRead(s: Octets)
    ensures FromBigEndian(s) < Pow256(|s|) && BigEndian(FromBigEndian(s), |s|) == s
    decreases |s|
  {
    hide ToOctet, FromOctet;
    if s != [] {
      var hi, lo := s[..|s| - 1], s[|s| - 1];
      WriteRead(hi);
      IntOfOctet(lo);
      BigEndianStep(FromBigEndian(hi), FromOctet(lo), |hi|);
      assert s == hi + [lo];
    }
  }

  lemma BigEndianStep(hi: nat, lo: nat, n: nat)
    requires lo < 256 && hi < Pow256(n)
    ensures hi * 256 + lo < Pow256(n + 1)
    ensures BigEndian(hi * 256 + lo, n + 1) == BigEndian(hi, n) + [ToOctet(lo)]
  {
    hide ToOctet;
    assert (hi * 256 + lo) / 256 == hi && (hi * 256 + lo) % 256 == lo;
  }

  /** A value of n bytes as two's complement, and back. */
  function Unsigned(v: int, n: nat): nat
    requires 0 < n && -(Pow256(n) / 2) <= v < Pow256(n) / 2
  {
    if v < 0 then v + Pow256(n) else v
  }

  function Signed(u: nat, n: nat): (v: int)
    requires 0 < n && u < Pow256(n)
    ensures -(Pow256(n) / 2) <= v < Pow256(n) / 2
  {
    if u >= Pow256(n) / 2 then u - Pow256(n) else u
  }

  lemma Powers()
    ensures Pow256(1) == 0x100 && Pow256(2) == 0x1_0000 && Pow256(4) == 0x1_0000_0000
    ensures Pow256(8) == 0x1_0000_0000_0000_0000
  {
    assert Pow256(3) == 0x100_0000;
    assert Pow256(5) == 0x100_0000_0000;
    assert Pow256(6) == 0x1_0000_0000_0000;
    assert Pow256(7) == 0x100_0000_0000_0000;
  }

  function WriteSigned(v: int, n: nat): (r: Octets)
    requires 0 < n && -(Pow256(n) / 2) <= v < Pow256(n) / 2
    ensures |r| == n
  {
    BigEndian(Unsigned(v, n), n)
  }

  function ReadSigned(s: Octets): (v: int)
    requires s != []
    ensures -(Pow256(|s|) / 2) <= v < Pow256(|s|) / 2
  {
    WriteRead(s);
    Signed(FromBigEndian(s), |s|)
  }

  lemma PowEven(n: nat)
    requires n > 0
    ensures Pow256(n) % 2 == 0 && Pow256(n) > 0
  {
    assert Pow256(n) == 2 * (128 * Pow256(n - 1));
    if n > 1 {
      PowEven(n - 1);
    }
  }

  lemma SignedRoundTrip(v: int, n: nat)
    requires 0 < n && -(Pow256(n) / 2) <= v < Pow256(n) / 2
    ensures ReadSigned(WriteSigned(v, n)) == v
  {
    PowEven(n);
    ReadWritten(Unsigned(v, n), n);
  }

  lemma UnsignedRoundTrip(s: Octets)
    requires s != []
    ensures WriteSigned(ReadSigned(s), |s|) == s
  {
    PowEven(|s|);
    WriteRead(s);
  }

  /** The first n bytes and the rest, when there are n bytes. */
  function Fixed(s: Octets, n: nat): (r: Option<(Octets, Octets)>)
    ensures r.Some? ==> |r.value.0| == n && s == r.value.0 + r.value.1
  {
    if |s| < n then None else Some((s[..n], s[n..]))
  }

  lemma FixedOf(s: Octets, rest: Octets)
    ensures Fixed(s + rest, |s|) == Some((s, rest))
  {
    assert (s + rest)[..|s|] == s && (s + rest)[|s|..] == rest;
  }

  // ----- the loops that write and read a big-endian field -----

  lemma MulMono(a: nat, b: nat, d: nat)
    requires a <= b
    ensures a * d <= b * d
  {
  }

  lemma AtMost(a: nat, b: nat, d: nat, v: nat)
    requires b * d <= v < (a + 1) * d
    ensures b <= a
  {
    if a + 1 <= b {
      MulMono(a + 1, b, d);
    }
  }

  function Quotient(v: nat, d: nat): nat
    requires d > 0
  {
    v / d
  }

  lemma Division(v: nat, d: nat)
    requires d > 0
    ensures Quotient(v, d) * d <= v < (Quotient(v, d) + 1) * d
  {
  }

  lemma Bracket(v: nat, p: nat, q: nat, a: nat, w: nat)
    requires q * p <= v < (q + 1) * p && a * 256 <= q < (a + 1) * 256 && w == 256 * p
    ensures a * w <= v < (a + 1) * w
  {
    MulMono(a * 256, q, p);
    MulMono(q + 1, (a + 1) * 256, p);
    MulRegroup(a, p);
    MulRegroup(a + 1, p);
  }

  lemma MulRegroup(a: nat, p: nat)
    ensures a * 256 * p == a * (256 * p)
  {
  }

  lemma SameQuotient(v: nat, d: nat, a: nat, b: nat)
    requires a * d <= v < (a + 1) * d && b * d <= v < (b + 1) * d
    ensures a == b
  {
    AtMost(a, b, d, v);
    AtMost(b, a, d, v);
  }

  lemma DivDiv(v: nat, p: nat, w: nat)
    requires p > 0 && w == 256 * p
    ensures Quotient(Quotient(v, p), 256) == Quotient(v, w)
  {
    hide Quotient;
    var q := Quotient(v, p);
    Division(v, p);
    Division(v, w);
    Division(q, 256);
    Bracket(v, p, q, Quotient(q, 256), w);
    SameQuotient(v, w, Quotient(q, 256), Quotient(v, w));
  }

  lemma PowPositive(n: nat)
    ensures Pow256(n) > 0
  {
  }

  lemma NoBytes(value: nat)
    ensures BigEndian(value, 0) == []
  {
  }

  method AppendBigEndian(out: Octets, value: nat, bytes: nat) returns (out': Octets)
    ensures out' == out + BigEndian(value, bytes)
  {
    hide ToOctet, BigEndian, Pow256, Quotient;
    out' := out;
    var k := bytes;
    PowPositive(bytes);
    NoBytes(Quotient(value, Pow256(bytes)));
    while k > 0
      invariant 0 <= k <= bytes && Pow256(k) > 0
      invariant out' == out + BigEndian(Quotient(value, Pow256(k)), bytes - k)
    {
      PowPositive(k - 1);
      NextByte(value, k, bytes - k);
      out' := out' + [ToOctet(Quotient(value, Pow256(k - 1)) % 256)];
      k := k - 1;
    }
    AllBytes(value);
  }

  lemma AllBytes(value: nat)
    ensures Pow256(0) == 1 && Quotient(value, 1) == value
  {
  }

  lemma NextByte(value: nat, k: nat, n: nat)
    requires k > 0 && Pow256(k) > 0 && Pow256(k - 1) > 0
    ensures BigEndian(Quotient(value, Pow256(k - 1)), n + 1) ==
            BigEndian(Quotient(value, Pow256(k)), n) + [ToOctet(Quotient(value, Pow256(k - 1)) % 256)]
  {
    DivDiv(value, Pow256(k - 1), Pow256(k));
    TopBytes(Quotient(value, Pow256(k - 1)), n);
    hide ToOctet, BigEndian, Quotient;
  }

  lemma TopBytes(v: nat, n: nat)
    ensures BigEndian(v, n + 1) == BigEndian(Quotient(v, 256), n) + [ToOctet(v % 256)]
  {
    hide ToOctet;
  }

  method ReadBigEndian(bytes: Octets) returns (value: nat)
    ensures value == FromBigEndian(bytes)
  {
    value := 0;
    for i := 0 to |bytes|
      invariant value == FromBigEndian(bytes[..i])
    {
      assert bytes[..i + 1][..i] == bytes[..i];
      value := value * 256 + FromOctet(bytes[i]);
    }
    assert bytes[..|bytes|] == bytes;
  }
}

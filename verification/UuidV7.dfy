/** Version 7 identifiers: a 48-bit big-endian millisecond count, then random bits with the
    version and variant fields of section 5.7 of RFC 9562 laid over them. */
module UuidV7 {
  import opened Bytes

  const TWO_16 := 0x1_0000
  const TWO_32 := 0x1_0000_0000
  const TWO_48 := 0x1_0000_0000_0000
  const TWO_64 := 0x1_0000_0000_0000_0000

  /** The last n bytes of v, most significant first. */
  function BigEndian(v: nat, n: nat): (s: seq<Byte>)
    ensures |s| == n
  {
    if n == 0 then [] else BigEndian(v / 256, n - 1) + [v % 256]
  }

  function FromBigEndian(s: seq<Byte>): nat {
    if s == [] then 0 else 256 * FromBigEndian(s[..|s| - 1]) + s[|s| - 1]
  }

  function Pow256(n: nat): (p: nat)
    ensures p > 0
  {
    if n == 0 then 1 else 256 * Pow256(n - 1)
  }

  lemma {:induction false} BigEndianRoundTrip(v: nat, n: nat)
    requires v < Pow256(n)
    ensures FromBigEndian(BigEndian(v, n)) == v
  {
    if n > 0 {
      BigEndianRoundTrip(v / 256, n - 1);
      assert BigEndian(v, n)[..n - 1] == BigEndian(v / 256, n - 1);
    }
  }

  /** Bytewise order: smaller at the first position where the two differ. */
  predicate BytesLess(a: seq<Byte>, b: seq<Byte>) {
    b != [] && (a == [] || a[0] < b[0] || (a[0] == b[0] && BytesLess(a[1..], b[1..])))
  }

  lemma {:induction false} CommonPrefix(p: seq<Byte>, a: seq<Byte>, b: seq<Byte>)
    requires BytesLess(a, b)
    ensures BytesLess(p + a, p + b)
  {
    if p == [] {
      assert p + a == a && p + b == b;
    } else {
      CommonPrefix(p[1..], a, b);
      assert (p + a)[1..] == p[1..] + a && (p + b)[1..] == p[1..] + b;
    }
  }

  lemma {:induction false} BigEndianOrder(v: nat, w: nat, n: nat, x: seq<Byte>, y: seq<Byte>)
    requires v < w < Pow256(n)
    ensures BytesLess(BigEndian(v, n) + x, BigEndian(w, n) + y)
  {
    var p, q := BigEndian(v / 256, n - 1), BigEndian(w / 256, n - 1);
    assert BigEndian(v, n) + x == p + ([v % 256] + x);
    assert BigEndian(w, n) + y == q + ([w % 256] + y);
    if v / 256 == w / 256 {
      CommonPrefix(p, [v % 256] + x, [w % 256] + y);
    } else {
      BigEndianOrder(v / 256, w / 256, n - 1, [v % 256] + x, [w % 256] + y);
    }
  }

  lemma PowSix()
    ensures Pow256(6) == TWO_48
  {
    assert Pow256(3) == 0x100_0000;
  }

  // ---------------------------------------------------------------- the layout

  /** Conversion of a signed millisecond count to 64 unsigned bits. */
  function Unsigned(ms: int): nat {
    ms % TWO_64
  }

  /** Bitwise and and or of naturals. */
  function And(a: nat, b: nat): (r: nat)
    ensures r <= a && r <= b
  {
    if a == 0 || b == 0 then 0 else 2 * And(a / 2, b / 2) + a % 2 * (b % 2)
  }

  function Or(a: nat, b: nat): (r: nat)
    ensures r <= a + b
  {
    if a == 0 then b else if b == 0 then a
    else 2 * Or(a / 2, b / 2) + if a % 2 == 1 || b % 2 == 1 then 1 else 0
  }

  /** And with an all-ones mask of one more bit. */
  lemma AndMore(a: nat, ones: nat)
    ensures And(a, 2 * ones + 1) == 2 * And(a / 2, ones) + a % 2
  {
    assert (2 * ones + 1) / 2 == ones && (2 * ones + 1) % 2 == 1;
  }

  /** Or with a mask whose last bit is clear. */
  lemma OrMore(a: nat, mask: nat)
    ensures Or(a, 2 * mask) == 2 * Or(a / 2, mask) + a % 2
  {
    assert 2 * mask / 2 == mask && 2 * mask % 2 == 0;
  }

  lemma Mod4(x: nat)
    ensures 2 * (x / 2 % 2) + x % 2 == x % 4
  {
  }

  lemma Mod8(x: nat)
    ensures 2 * (x / 2 % 4) + x % 2 == x % 8
  {
  }

  lemma Mod16(x: nat)
    ensures 2 * (x / 2 % 8) + x % 2 == x % 16
  {
  }

  lemma Mod32(x: nat)
    ensures 2 * (x / 2 % 16) + x % 2 == x % 32
  {
  }

  lemma Mod64(x: nat)
    ensures 2 * (x / 2 % 32) + x % 2 == x % 64
  {
  }

  lemma AndThree(b: nat)
    ensures And(b, 3) == b % 4
  {
    hide And;
    AndMore(b, 1);
    AndMore(b / 2, 0);
    assert And(b / 2 / 2, 0) == 0;
    Mod4(b);
  }

  lemma AndVersion(b: nat)
    ensures And(b, 0x0f) == b % 16
  {
    hide And;
    AndThree(b / 2 / 2);
    AndMore(b / 2, 3);
    Mod8(b / 2);
    AndMore(b, 7);
    Mod16(b);
  }

  lemma AndVariant(b: nat)
    ensures And(b, 0x3f) == b % 64
  {
    hide And;
    AndVersion(b / 2 / 2);
    AndMore(b / 2, 15);
    Mod32(b / 2);
    AndMore(b, 31);
    Mod64(b);
  }

  lemma OrVersion(a: nat)
    requires a < 16
    ensures Or(a, 0x70) == 0x70 + a
  {
    hide Or;
    OrMore(a, 56);
    OrMore(a / 2, 28);
    OrMore(a / 2 / 2, 14);
    OrMore(a / 2 / 2 / 2, 7);
    OrZero(7);
  }

  lemma OrZero(mask: nat)
    ensures Or(0, mask) == mask
  {
  }

  lemma OrVariant(a: nat)
    requires a < 64
    ensures Or(a, 0x80) == 0x80 + a
  {
    hide Or;
    OrMore(a, 64);
    OrMore(a / 2, 32);
    OrQuarter(a / 2 / 2);
  }

  lemma OrQuarter(a: nat)
    requires a < 16
    ensures Or(a, 0x20) == 0x20 + a
  {
    hide Or;
    OrMore(a, 16);
    OrMore(a / 2, 8);
    OrMore(a / 2 / 2, 4);
    OrMore(a / 2 / 2 / 2, 2);
    OrZero(2);
  }

  function VersionByte(b: Byte): Byte {
    AndVersion(b);
    OrVersion(b % 16);
    Or(And(b, 0x0f), 0x70)
  }

  function VariantByte(b: Byte): Byte {
    AndVariant(b);
    OrVariant(b % 64);
    Or(And(b, 0x3f), 0x80)
  }

  lemma MaskedBytes(b: Byte)
    ensures VersionByte(b) == 0x70 + b % 16
    ensures VariantByte(b) == 0x80 + b % 64
  {
    AndVersion(b);
    OrVersion(b % 16);
    AndVariant(b);
    OrVariant(b % 64);
  }

  /** The ten bytes after the time. */
  function Tail(random: seq<Byte>): seq<Byte>
    requires |random| == 10
  {
    [VersionByte(random[0]), random[1], VariantByte(random[2])] + random[3..]
  }

  function Layout(ms: int, random: seq<Byte>): seq<Byte>
    requires |random| == 10
  {
    BigEndian(Unsigned(ms) % TWO_48, 6) + Tail(random)
  }

  method PutBigEndian(u: array<Byte>, from: nat, n: nat, v: nat)
    requires from + n <= u.Length
    modifies u
    ensures u[..] == old(u[..from]) + BigEndian(v, n) + old(u[from + n..])
  {
    ghost var before := u[..];
    var rest, i := v, n;
    while i > 0
      invariant 0 <= i <= n
      invariant BigEndian(v, n) == BigEndian(rest, i) + u[from + i..from + n]
      invariant u[..from + i] == before[..from + i] && u[from + n..] == before[from + n..]
    {
      i := i - 1;
      u[from + i] := rest % 256;
      assert u[from + i..from + n] == [rest % 256] + u[from + i + 1..from + n];
      rest := rest / 256;
    }
    assert u[..] == u[..from] + u[from..from + n] + u[from + n..];
  }

  lemma SplitSix(ms: int)
    ensures BigEndian(Unsigned(ms) / TWO_16 % TWO_32, 4) + BigEndian(Unsigned(ms) % TWO_16, 2)
            == BigEndian(Unsigned(ms) % TWO_48, 6)
  {
    var v := Unsigned(ms) % TWO_48;
    assert v / TWO_16 == Unsigned(ms) / TWO_16 % TWO_32;
    assert v % TWO_16 == Unsigned(ms) % TWO_16;
    var low := v % TWO_16;
    assert v / 256 / 256 == v / TWO_16;
    assert v / 256 % 256 == low / 256 % 256 && v % 256 == low % 256;
    assert BigEndian(low / 256, 1) == BigEndian(low / 256 / 256, 0) + [low / 256 % 256];
  }

  /** Fills the sixteen bytes in place: time, random tail, then the two masks. */
  method NewWithTime(ms: int, random: seq<Byte>) returns (u: array<Byte>)
    requires |random| == 10
    ensures fresh(u) && u[..] == Layout(ms, random)
  {
    hide VersionByte, VariantByte, BigEndian, Unsigned;
    u := new Byte[16](_ => 0);
    PutBigEndian(u, 0, 4, Unsigned(ms) / TWO_16 % TWO_32);
    PutBigEndian(u, 4, 2, Unsigned(ms) % TWO_16);
    SplitSix(ms);
    assert u[..6] == BigEndian(Unsigned(ms) % TWO_48, 6);
    forall i | 6 <= i < 16 {
      u[i] := random[i - 6];
    }
    u[6] := VersionByte(u[6]);
    u[8] := VariantByte(u[8]);
  }

  lemma TailFields(random: seq<Byte>)
    requires |random| == 10
    ensures var t := Tail(random);
            && |t| == 10
            && t[0] / 16 == 7 && t[2] / 64 == 2
            && t[0] % 16 == random[0] % 16 && t[1] == random[1]
            && t[2] % 64 == random[2] % 64 && t[3..] == random[3..]
  {
    hide VersionByte, VariantByte;
    MaskedBytes(random[0]);
    MaskedBytes(random[2]);
  }

  /** The fields read back: the time, version 7, variant 10, and every random bit outside them. */
  lemma LayoutFields(ms: int, random: seq<Byte>)
    requires |random| == 10
    ensures var u := Layout(ms, random);
            && |u| == 16
            && FromBigEndian(u[..6]) == Unsigned(ms) % TWO_48
            && (0 <= ms < TWO_48 ==> FromBigEndian(u[..6]) == ms)
            && u[6] / 16 == 7 && u[8] / 64 == 2
            && u[6] % 16 == random[0] % 16 && u[7] == random[1]
            && u[8] % 64 == random[2] % 64 && u[9..] == random[3..]
  {
    hide Tail, BigEndian, FromBigEndian, Unsigned;
    var v := Unsigned(ms) % TWO_48;
    PowSix();
    BigEndianRoundTrip(v, 6);
    TailFields(random);
    assert Layout(ms, random)[..6] == BigEndian(v, 6);
    assert Layout(ms, random)[9..] == Tail(random)[3..];
    if 0 <= ms < TWO_48 {
      InRange(ms);
    }
  }

  /** An earlier millisecond gives a bytewise smaller identifier, whatever the random bytes. */
  lemma EarlierIsSmaller(ms: int, ms': int, random: seq<Byte>, random': seq<Byte>)
    requires 0 <= ms < ms' < TWO_48 && |random| == |random'| == 10
    ensures BytesLess(Layout(ms, random), Layout(ms', random'))
  {
    hide Tail, BigEndian, BytesLess, Unsigned;
    PowSix();
    InRange(ms);
    InRange(ms');
    BigEndianOrder(ms, ms', 6, Tail(random), Tail(random'));
  }

  lemma InRange(ms: int)
    requires 0 <= ms < TWO_48
    ensures Unsigned(ms) % TWO_48 == ms
  {
  }
}

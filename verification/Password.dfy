/** Unpadded base64 (sections 3.2 and 4 of RFC 4648) and the printed password record. */
module Base64 {
  import opened Bytes
  import opened Entity

  type Sextet = x: int | 0 <= x < 64

  function CharOf(i: Sextet): char {
    if i < 26 then (i + 'A' as int) as char
    else if i < 52 then (i - 26 + 'a' as int) as char
    else if i < 62 then (i - 52 + '0' as int) as char
    else if i == 62 then '+'
    else '/'
  }

  function SextetOf(c: char): Option<Sextet> {
    if 'A' <= c <= 'Z' then Some(c as int - 'A' as int)
    else if 'a' <= c <= 'z' then Some(c as int - 'a' as int + 26)
    else if '0' <= c <= '9' then Some(c as int - '0' as int + 52)
    else if c == '+' then Some(62)
    else if c == '/' then Some(63)
    else None
  }

  function Encode(b: seq<Byte>): string {
    if b == [] then []
    else if |b| == 1 then [CharOf(b[0] / 4), CharOf(b[0] % 4 * 16)]
    else if |b| == 2 then
      [CharOf(b[0] / 4), CharOf(b[0] % 4 * 16 + b[1] / 16), CharOf(b[1] % 16 * 4)]
    else
      [CharOf(b[0] / 4), CharOf(b[0] % 4 * 16 + b[1] / 16), CharOf(b[1] % 16 * 4 + b[2] / 64), CharOf(b[2] % 64)]
      + Encode(b[3..])
  }

  /** The decoder skips line breaks wherever they stand. */
  function StripBreaks(s: string): string {
    if s == [] then []
    else if s[0] in {'\r', '\n'} then StripBreaks(s[1..])
    else [s[0]] + StripBreaks(s[1..])
  }

  /** A lone last character and any character outside the alphabet are errors; left-over bits of
      the last character are ignored. */
  function DecodeClean(s: string): Option<seq<Byte>> {
    if s == [] then Some([])
    else if |s| == 1 then None
    else
      var a, b := SextetOf(s[0]), SextetOf(s[1]);
      if a.None? || b.None? then None
      else
        var x: Byte := a.value * 4 + b.value / 16;
        if |s| == 2 then Some([x])
        else
          var c := SextetOf(s[2]);
          if c.None? then None
          else
            var y: Byte := b.value % 16 * 16 + c.value / 4;
            if |s| == 3 then Some([x, y])
            else
              var d := SextetOf(s[3]);
              var rest := DecodeClean(s[4..]);
              if d.None? || rest.None? then None
              else Some([x, y, c.value % 4 * 64 + d.value] + rest.value)
  }

  function Decode(s: string): Option<seq<Byte>> {
    DecodeClean(StripBreaks(s))
  }

  lemma SextetOfCharOf(i: Sextet)
    ensures SextetOf(CharOf(i)) == Some(i)
    ensures CharOf(i) !in {'\r', '\n', '$'}
  {
  }

  predicate InAlphabet(s: string) {
    forall i :: 0 <= i < |s| ==> SextetOf(s[i]).Some?
  }

  lemma {:induction false} EncodeInAlphabet(b: seq<Byte>)
    ensures InAlphabet(Encode(b))
  {
    if |b| >= 3 {
      EncodeInAlphabet(b[3..]);
      var head := Encode(b)[..4];
      assert Encode(b) == head + Encode(b[3..]);
      SextetOfCharOf(b[0] / 4);
      SextetOfCharOf(b[0] % 4 * 16 + b[1] / 16);
      SextetOfCharOf(b[1] % 16 * 4 + b[2] / 64);
      SextetOfCharOf(b[2] % 64);
    }
  }

  lemma {:induction false} NothingToStrip(s: string)
    requires InAlphabet(s)
    ensures StripBreaks(s) == s
  {
    if s != [] {
      assert SextetOf(s[0]).Some?;
      NothingToStrip(s[1..]);
    }
  }

  lemma TripleRoundTrip(x: Byte, y: Byte, z: Byte, rest: string)
    ensures var s := [CharOf(x / 4), CharOf(x % 4 * 16 + y / 16), CharOf(y % 16 * 4 + z / 64), CharOf(z % 64)] + rest;
            DecodeClean(s) == if DecodeClean(rest).None? then None
                              else Some([x, y, z] + DecodeClean(rest).value)
  {
    var a, b, c, d: Sextet := x / 4, x % 4 * 16 + y / 16, y % 16 * 4 + z / 64, z % 64;
    SextetOfCharOf(a);
    SextetOfCharOf(b);
    SextetOfCharOf(c);
    SextetOfCharOf(d);
    var s := [CharOf(a), CharOf(b), CharOf(c), CharOf(d)] + rest;
    assert s[4..] == rest;
    assert a * 4 + b / 16 == x;
    assert b % 16 == y / 16 && c / 4 == y % 16;
    assert b % 16 * 16 + c / 4 == y;
    assert c % 4 == z / 64;
    assert c % 4 * 64 + d == z;
  }

  lemma PairRoundTrip(x: Byte, y: Byte)
    ensures DecodeClean([CharOf(x / 4), CharOf(x % 4 * 16 + y / 16), CharOf(y % 16 * 4)]) == Some([x, y])
  {
    var a, b, c: Sextet := x / 4, x % 4 * 16 + y / 16, y % 16 * 4;
    SextetOfCharOf(a);
    SextetOfCharOf(b);
    SextetOfCharOf(c);
    assert a * 4 + b / 16 == x;
    assert b % 16 == y / 16 && c / 4 == y % 16;
    assert b % 16 * 16 + c / 4 == y;
  }

  lemma NothingDecoded()
    ensures DecodeClean([]) == Some([])
  {
  }

  lemma SingleRoundTrip(x: Byte)
    ensures DecodeClean([CharOf(x / 4), CharOf(x % 4 * 16)]) == Some([x])
  {
    SextetOfCharOf(x / 4);
    SextetOfCharOf(x % 4 * 16);
  }

  lemma {:induction false} CleanRoundTrip(b: seq<Byte>)
    ensures DecodeClean(Encode(b)) == Some(b)
  {
    hide DecodeClean, CharOf, SextetOf;
    if |b| == 0 {
      NothingDecoded();
    } else if |b| == 1 {
      SingleRoundTrip(b[0]);
      assert b == [b[0]];
    } else if |b| == 2 {
      PairRoundTrip(b[0], b[1]);
      assert b == [b[0], b[1]];
    } else {
      CleanRoundTrip(b[3..]);
      TripleRoundTrip(b[0], b[1], b[2], Encode(b[3..]));
      assert b == [b[0], b[1], b[2]] + b[3..];
    }
  }

  // ---------------------------------------------------------------- the alphabet of RFC 4648

  /** Table 1 of RFC 4648, read in both directions: A to Z, a to z, 0 to 9, plus and slash. */
  lemma AlphabetIs(i: Sextet, c: char)
    ensures CharOf(0) == 'A' && CharOf(25) == 'Z' && CharOf(26) == 'a' && CharOf(51) == 'z'
    ensures CharOf(52) == '0' && CharOf(61) == '9' && CharOf(62) == '+' && CharOf(63) == '/'
    ensures i !in {25, 51, 61, 62, 63} ==> CharOf(i + 1) as int == CharOf(i) as int + 1
    ensures SextetOf(c).Some? <==> 'A' <= c <= 'Z' || 'a' <= c <= 'z' || '0' <= c <= '9' || c == '+' || c == '/'
    ensures SextetOf(c).Some? ==> CharOf(SextetOf(c).value) == c
  {
  }

  lemma EncodeStep(x: Byte, y: Byte, z: Byte, rest: seq<Byte>)
    ensures Encode([x, y, z] + rest)
            == [CharOf(x / 4), CharOf(x % 4 * 16 + y / 16), CharOf(y % 16 * 4 + z / 64), CharOf(z % 64)] + Encode(rest)
  {
    assert ([x, y, z] + rest)[3..] == rest;
  }

  lemma ShortVectors()
    ensures Encode([]) == "" && Encode([102]) == "Zg" && Encode([102, 111]) == "Zm8"
    ensures Encode([98]) == "Yg" && Encode([98, 97]) == "YmE"
  {
  }

  /** The test vectors of section 10 of RFC 4648, without padding. */
  lemma TestVectors()
    ensures Encode([]) == "" && Encode([102]) == "Zg" && Encode([102, 111]) == "Zm8"
    ensures Encode([102, 111, 111] + []) == "Zm9v" && Encode([102, 111, 111] + [98]) == "Zm9vYg"
    ensures Encode([102, 111, 111] + [98, 97]) == "Zm9vYmE"
    ensures Encode([102, 111, 111] + ([98, 97, 114] + [])) == "Zm9vYmFy"
  {
    hide Encode;
    ShortVectors();
    EncodeStep(102, 111, 111, []);
    EncodeStep(102, 111, 111, [98]);
    EncodeStep(102, 111, 111, [98, 97]);
    EncodeStep(98, 97, 114, []);
    EncodeStep(102, 111, 111, [98, 97, 114] + []);
  }

  lemma AlphabetSplits(s: string, k: nat)
    requires k <= |s|
    ensures InAlphabet(s) <==> InAlphabet(s[..k]) && InAlphabet(s[k..])
  {
    hide SextetOf;
    assert s == s[..k] + s[k..];
  }

  lemma FourInAlphabet(s: string)
    requires |s| >= 4
    ensures InAlphabet(s[..4]) <==>
            SextetOf(s[0]).Some? && SextetOf(s[1]).Some? && SextetOf(s[2]).Some? && SextetOf(s[3]).Some?
  {
    hide SextetOf;
    var four := s[..4];
    assert four[0] == s[0] && four[1] == s[1] && four[2] == s[2] && four[3] == s[3];
  }

  lemma DecodesFour(s: string)
    requires |s| >= 4
    ensures DecodeClean(s).Some? <==>
            && SextetOf(s[0]).Some? && SextetOf(s[1]).Some? && SextetOf(s[2]).Some? && SextetOf(s[3]).Some?
            && DecodeClean(s[4..]).Some?
  {
    hide SextetOf;
  }

  lemma DecodesShort(s: string)
    requires |s| < 4
    ensures DecodeClean(s).Some? <==> InAlphabet(s) && |s| != 1
  {
    hide SextetOf;
    if |s| >= 2 {
      var a, b := SextetOf(s[0]), SextetOf(s[1]);
      assert InAlphabet(s) <==> a.Some? && b.Some? && (|s| == 3 ==> SextetOf(s[2]).Some?);
    }
  }

  /** Text decodes if and only if, line breaks aside, it keeps to the alphabet and no character is
      left over alone. */
  lemma {:induction false} CleanDecodesIff(s: string)
    ensures DecodeClean(s).Some? <==> InAlphabet(s) && |s| % 4 != 1
    decreases |s|
  {
    hide SextetOf, DecodeClean, InAlphabet;
    if |s| < 4 {
      DecodesShort(s);
    } else {
      CleanDecodesIff(s[4..]);
      FourInAlphabet(s);
      DecodesFour(s);
      AlphabetSplits(s, 4);
    }
  }

  lemma {:induction false} BreaksAside(a: string, b: string)
    ensures StripBreaks(a + b) == StripBreaks(a) + StripBreaks(b)
  {
    if a == [] {
      assert a + b == b;
    } else {
      assert (a + b)[1..] == a[1..] + b;
      BreaksAside(a[1..], b);
    }
  }

  /** A line break changes nothing wherever it stands. */
  lemma BreakIsSkipped(a: string, b: string, c: char)
    requires c == '\r' || c == '\n'
    ensures Decode(a + [c] + b) == Decode(a + b)
  {
    BreaksAside(a + [c], b);
    BreaksAside(a, [c]);
    BreaksAside(a, b);
    assert [c][1..] == [];
    assert StripBreaks(a + [c]) == StripBreaks(a) + [] == StripBreaks(a);
  }

  /** Decoding undoes encoding, for every byte string. */
  lemma RoundTrip(b: seq<Byte>)
    ensures Decode(Encode(b)) == Some(b)
    ensures '$' !in Encode(b)
  {
    EncodeInAlphabet(b);
    NothingToStrip(Encode(b));
    CleanRoundTrip(b);
    assert SextetOf('$').None?;
  }
}

/** The password record: five fields separated by dollar signs, the last two in base64.  The key
    derivation is a parameter. */
module Password {
  import opened Bytes
  import opened Entity
  import opened Base64

  type Kdf = (seq<Byte>, seq<Byte>, nat) -> seq<Byte>

  const KEY_LENGTH := 32

  function Split(s: string, sep: char): (parts: seq<string>)
    ensures parts != []
  {
    if s == [] then [[]]
    else
      var rest := Split(s[1..], sep);
      if s[0] == sep then [[]] + rest else [[s[0]] + rest[0]] + rest[1..]
  }

  function Join(parts: seq<string>, sep: char): string
    requires parts != []
  {
    if |parts| == 1 then parts[0] else parts[0] + [sep] + Join(parts[1..], sep)
  }

  lemma {:induction false} SplitAfterField(field: string, rest: string, sep: char)
    requires sep !in field
    ensures Split(field + [sep] + rest, sep) == [field] + Split(rest, sep)
  {
    var s := field + [sep] + rest;
    if field == [] {
      assert s[1..] == rest;
    } else {
      assert s[1..] == field[1..] + [sep] + rest;
      SplitAfterField(field[1..], rest, sep);
      assert field == [field[0]] + field[1..];
    }
  }

  lemma {:induction false} SplitField(field: string, sep: char)
    requires sep !in field
    ensures Split(field, sep) == [field]
  {
    if field != [] {
      SplitField(field[1..], sep);
      assert field == [field[0]] + field[1..];
    }
  }

  /** Splitting undoes joining when no part holds the separator. */
  lemma {:induction false} SplitJoin(parts: seq<string>, sep: char)
    requires parts != [] && forall p <- parts :: sep !in p
    ensures Split(Join(parts, sep), sep) == parts
  {
    if |parts| == 1 {
      SplitField(parts[0], sep);
    } else {
      SplitJoin(parts[1..], sep);
      SplitAfterField(parts[0], Join(parts[1..], sep), sep);
    }
  }

  const ALGORITHM := "argon2id"
  const VERSION := "v=19"
  const COST := "m=65536,t=1,p=4"

  /** argon2id$v=19$m=65536,t=1,p=4$salt$key */
  function Record(salt: seq<Byte>, key: seq<Byte>): string {
    Join([ALGORITHM, VERSION, COST, Encode(salt), Encode(key)], '$')
  }

  lemma RecordText(salt: seq<Byte>, key: seq<Byte>)
    ensures Record(salt, key) == "argon2id$v=19$m=65536,t=1,p=4$" + Encode(salt) + "$" + Encode(key)
  {
    var a, b := Encode(salt), Encode(key);
    JoinFive(ALGORITHM, VERSION, COST, a, b, '$');
    assert ALGORITHM + ['$'] + VERSION + ['$'] + COST + ['$'] == "argon2id$v=19$m=65536,t=1,p=4$";
  }

  lemma JoinFive(a: string, b: string, c: string, d: string, e: string, sep: char)
    ensures Join([a, b, c, d, e], sep) == a + [sep] + b + [sep] + c + [sep] + d + [sep] + e
  {
    assert [a, b, c, d, e][1..] == [b, c, d, e] && [b, c, d, e][1..] == [c, d, e];
    assert [c, d, e][1..] == [d, e] && [d, e][1..] == [e];
    assert Join([d, e], sep) == d + [sep] + e;
    assert Join([c, d, e], sep) == c + [sep] + (d + [sep] + e);
    assert Join([b, c, d, e], sep) == b + [sep] + (c + [sep] + (d + [sep] + e));
  }

  function HashPassword(kdf: Kdf, p: seq<Byte>, salt: seq<Byte>): string {
    Record(salt, kdf(p, salt, KEY_LENGTH))
  }

  function VerifyPassword(kdf: Kdf, encoded: string, p: seq<Byte>): bool {
    var parts := Split(encoded, '$');
    if |parts| != 5 then false
    else
      var salt, want := Decode(parts[3]), Decode(parts[4]);
      if salt.None? || want.None? then false
      else kdf(p, salt.value, |want.value|) == want.value
  }

  lemma RecordFields(salt: seq<Byte>, key: seq<Byte>)
    ensures Split(Record(salt, key), '$') == [ALGORITHM, VERSION, COST, Encode(salt), Encode(key)]
  {
    RoundTrip(salt);
    RoundTrip(key);
    assert '$' !in ALGORITHM && '$' !in VERSION && '$' !in COST;
    SplitJoin([ALGORITHM, VERSION, COST, Encode(salt), Encode(key)], '$');
  }

  /** Any text of five fields is accepted exactly when its last two decode and the key derived
      from the fourth has the bytes of the fifth; any other number of fields is refused. */
  lemma AcceptsFields(kdf: Kdf, fields: seq<string>, q: seq<Byte>)
    requires fields != [] && forall p <- fields :: '$' !in p
    ensures VerifyPassword(kdf, Join(fields, '$'), q) <==>
            && |fields| == 5
            && Decode(fields[3]).Some? && Decode(fields[4]).Some?
            && kdf(q, Decode(fields[3]).value, |Decode(fields[4]).value|) == Decode(fields[4]).value
  {
    SplitJoin(fields, '$');
  }

  /** The record of password p accepts q exactly when the key derivation agrees on both. */
  lemma AcceptsExactly(kdf: Kdf, p: seq<Byte>, salt: seq<Byte>, q: seq<Byte>)
    requires |kdf(p, salt, 32)| == 32
    ensures HashPassword(kdf, p, salt) == "argon2id$v=19$m=65536,t=1,p=4$" + Encode(salt) + "$" + Encode(kdf(p, salt, 32))
    ensures VerifyPassword(kdf, HashPassword(kdf, p, salt), q) <==> kdf(q, salt, 32) == kdf(p, salt, 32)
    ensures VerifyPassword(kdf, HashPassword(kdf, p, salt), p)
  {
    var key := kdf(p, salt, KEY_LENGTH);
    RecordText(salt, key);
    RecordFields(salt, key);
    RoundTrip(salt);
    RoundTrip(key);
  }

  /** Two records are equal only if both their salts and their keys are. */
  lemma RecordsAreInjective(salt: seq<Byte>, key: seq<Byte>, salt': seq<Byte>, key': seq<Byte>)
    requires Record(salt, key) == Record(salt', key')
    ensures salt == salt' && key == key'
  {
    RecordFields(salt, key);
    RecordFields(salt', key');
    RoundTrip(salt);
    RoundTrip(key);
    RoundTrip(salt');
    RoundTrip(key');
  }
}

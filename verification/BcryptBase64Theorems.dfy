/** The encoding is the one of the bits, and it loses nothing. */
module BcryptBase64Theorems {
  import opened BcryptBase64

  // ---- Shifts and masks ----

  lemma ShiftsAreArithmetic(c: bv8)
    ensures ((c >> 2) & 0x3F) as int == c as int / 4
    ensures ((c & 0x03) << 4) as int == c as int % 4 * 16
    ensures ((c >> 4) & 0x0F) as int == c as int / 16
    ensures ((c & 0x0F) << 2) as int == c as int % 16 * 4
    ensures ((c >> 6) & 0x03) as int == c as int / 64
    ensures (c & 0x3F) as int == c as int % 64 && c & 0xFF == c
  {
  }

  lemma DisjointBitsAdd(c: bv8, d: bv8)
    ensures (((c & 0x03) << 4) | ((d >> 4) & 0x0F)) as int == ((c & 0x03) << 4) as int + ((d >> 4) & 0x0F) as int
    ensures (((c & 0x0F) << 2) | ((d >> 6) & 0x03)) as int == ((c & 0x0F) << 2) as int + ((d >> 6) & 0x03) as int
    ensures ((c & 0x03) << 4) & 0x3F == (c & 0x03) << 4 && ((c & 0x0F) << 2) & 0x3F == (c & 0x0F) << 2
    ensures (((c & 0x03) << 4) | ((d >> 4) & 0x0F)) & 0x3F == ((c & 0x03) << 4) | ((d >> 4) & 0x0F)
    ensures (((c & 0x0F) << 2) | ((d >> 6) & 0x03)) & 0x3F == ((c & 0x0F) << 2) | ((d >> 6) & 0x03)
  {
  }

  /** The numbers the loop picks characters by, in the program's operators and as arithmetic. */
  lemma GroupInShifts(c: bv8, d: bv8, e: bv8)
    ensures ((c >> 2) & 0x3F) as int == c as int / 4
    ensures (((c & 0x03) << 4) & 0x3F) as int == c as int % 4 * 16
    ensures ((((c & 0x03) << 4) | ((d >> 4) & 0x0F)) & 0x3F) as int == c as int % 4 * 16 + d as int / 16
    ensures (((d & 0x0F) << 2) & 0x3F) as int == d as int % 16 * 4
    ensures ((((d & 0x0F) << 2) | ((e >> 6) & 0x03)) & 0x3F) as int == d as int % 16 * 4 + e as int / 64
    ensures (e & 0x3F) as int == e as int % 64
  {
    ShiftsAreArithmetic(c);
    ShiftsAreArithmetic(d);
    ShiftsAreArithmetic(e);
    DisjointBitsAdd(c, d);
    DisjointBitsAdd(d, e);
  }

  lemma BitsMakeTheByte(c: Byte)
    ensures var x := Bits(c); c == 128 * x[0] + 64 * x[1] + 32 * x[2] + 16 * x[3] + 8 * x[4] + 4 * x[5] + 2 * x[6] + x[7]
    ensures forall m | 0 <= m < 8 :: 0 <= Bits(c)[m] <= 1
  {
  }

  lemma BitsOfParts(c: Byte)
    ensures var x := Bits(c);
            && c / 4 == Compose6(x[0], x[1], x[2], x[3], x[4], x[5])
            && c % 4 * 16 == Compose6(x[6], x[7], 0, 0, 0, 0)
            && c / 16 == Compose6(0, 0, x[0], x[1], x[2], x[3])
            && c % 16 * 4 == Compose6(x[4], x[5], x[6], x[7], 0, 0)
            && c / 64 == Compose6(0, 0, 0, 0, x[0], x[1])
            && c % 64 == Compose6(x[2], x[3], x[4], x[5], x[6], x[7])
  {
    BitsMakeTheByte(c);
  }

  // ---- The groups are the bits ----

  /** The bits from `k` on are those of `x`. */
  ghost predicate Holds(s: seq<int>, k: nat, x: seq<int>) {
    |x| == 8 && forall m | 0 <= m < 8 :: At(s, k + m) == x[m]
  }

  /** Three bytes make four sextets, bit by bit. */
  lemma ThreeMakeFour(s: seq<int>, x: seq<int>, y: seq<int>, z: seq<int>)
    requires Holds(s, 0, x) && Holds(s, 8, y) && Holds(s, 16, z)
    ensures Sextet(s, 0) == Compose6(x[0], x[1], x[2], x[3], x[4], x[5])
    ensures Sextet(s, 1) == Compose6(x[6], x[7], y[0], y[1], y[2], y[3])
    ensures Sextet(s, 2) == Compose6(y[4], y[5], y[6], y[7], z[0], z[1])
    ensures Sextet(s, 3) == Compose6(z[2], z[3], z[4], z[5], z[6], z[7])
  {
    assert At(s, 0 + 0) == x[0] && At(s, 0 + 1) == x[1] && At(s, 0 + 2) == x[2] && At(s, 0 + 3) == x[3];
    assert At(s, 0 + 4) == x[4] && At(s, 0 + 5) == x[5] && At(s, 0 + 6) == x[6] && At(s, 0 + 7) == x[7];
    assert At(s, 8 + 0) == y[0] && At(s, 8 + 1) == y[1] && At(s, 8 + 2) == y[2] && At(s, 8 + 3) == y[3];
    assert At(s, 8 + 4) == y[4] && At(s, 8 + 5) == y[5] && At(s, 8 + 6) == y[6] && At(s, 8 + 7) == y[7];
    assert At(s, 16 + 0) == z[0] && At(s, 16 + 1) == z[1] && At(s, 16 + 2) == z[2] && At(s, 16 + 3) == z[3];
    assert At(s, 16 + 4) == z[4] && At(s, 16 + 5) == z[5] && At(s, 16 + 6) == z[6] && At(s, 16 + 7) == z[7];
  }

  /** The first group of a stream; bytes that are missing read as zero. */
  lemma GroupSextets(s: seq<int>, c: Byte, d: Byte, e: Byte)
    requires Holds(s, 0, Bits(c)) && Holds(s, 8, Bits(d)) && Holds(s, 16, Bits(e))
    ensures Sextet(s, 0) == c / 4
    ensures Sextet(s, 1) == c % 4 * 16 + d / 16
    ensures Sextet(s, 2) == d % 16 * 4 + e / 64
    ensures Sextet(s, 3) == e % 64
  {
    ThreeMakeFour(s, Bits(c), Bits(d), Bits(e));
    BitsOfParts(c);
    BitsOfParts(d);
    BitsOfParts(e);
  }

  /** Byte `i`, with zeros behind the last. */
  function ByteAt(b: seq<Byte>, i: nat): Byte { if i < |b| then b[i] else 0 }

  lemma {:induction false} StreamBit(b: seq<Byte>, i: nat, m: nat)
    requires m < 8
    ensures At(Stream(b), 8 * i + m) == Bits(ByteAt(b, i))[m]
  {
    if b == [] {
    } else if i == 0 {
    } else {
      StreamBit(b[1..], i - 1, m);
      assert At(Stream(b), 8 * i + m) == At(Stream(b[1..]), 8 * (i - 1) + m);
    }
  }

  lemma StreamHolds(b: seq<Byte>, i: nat)
    ensures Holds(Stream(b), 8 * i, Bits(ByteAt(b, i)))
  {
    forall m | 0 <= m < 8 ensures At(Stream(b), 8 * i + m) == Bits(ByteAt(b, i))[m] {
      StreamBit(b, i, m);
    }
  }

  lemma OneByte(code: string, s: seq<int>, b: seq<Byte>)
    requires |code| == 64 && |b| == 1
    requires Holds(s, 0, Bits(b[0])) && Holds(s, 8, Bits(0)) && Holds(s, 16, Bits(0))
    ensures Group(code, b) == [Letter(code, Sextet(s, 0)), Letter(code, Sextet(s, 1))]
  {
    GroupSextets(s, b[0], 0, 0);
  }

  lemma TwoBytes(code: string, s: seq<int>, b: seq<Byte>)
    requires |code| == 64 && |b| == 2
    requires Holds(s, 0, Bits(b[0])) && Holds(s, 8, Bits(b[1])) && Holds(s, 16, Bits(0))
    ensures Group(code, b) == [Letter(code, Sextet(s, 0)), Letter(code, Sextet(s, 1)), Letter(code, Sextet(s, 2))]
  {
    GroupSextets(s, b[0], b[1], 0);
  }

  lemma ThreeBytes(code: string, s: seq<int>, b: seq<Byte>)
    requires |code| == 64 && |b| >= 3
    requires Holds(s, 0, Bits(b[0])) && Holds(s, 8, Bits(b[1])) && Holds(s, 16, Bits(b[2]))
    ensures Group(code, b) == [Letter(code, Sextet(s, 0)), Letter(code, Sextet(s, 1)),
                               Letter(code, Sextet(s, 2)), Letter(code, Sextet(s, 3))]
  {
    GroupSextets(s, b[0], b[1], b[2]);
  }

  lemma FirstBytesHold(b: seq<Byte>)
    ensures Holds(Stream(b), 0, Bits(ByteAt(b, 0)))
    ensures Holds(Stream(b), 8, Bits(ByteAt(b, 1)))
    ensures Holds(Stream(b), 16, Bits(ByteAt(b, 2)))
  {
    StreamHolds(b, 0);
    StreamHolds(b, 1);
    StreamHolds(b, 2);
  }

  lemma ListSpells(code: string, s: seq<int>)
    requires |code| == 64
    ensures var w, x := Letter(code, Sextet(s, 0)), Letter(code, Sextet(s, 1));
            var y, z := Letter(code, Sextet(s, 2)), Letter(code, Sextet(s, 3));
            Spells(code, [w, x], s, 2) && Spells(code, [w, x, y], s, 3) && Spells(code, [w, x, y, z], s, 4)
  {
  }

  /** The characters of the first group are its sextets. */
  lemma GroupEncodes(code: string, b: seq<Byte>)
    requires |code| == 64 && b != []
    ensures Spells(code, Group(code, b), Stream(b), if |b| > 3 then 4 else Chars(|b|))
  {
    FirstBytesHold(b);
    ListSpells(code, Stream(b));
    if |b| == 1 {
      OneByte(code, Stream(b), b);
    } else if |b| == 2 {
      TwoBytes(code, Stream(b), b);
    } else {
      ThreeBytes(code, Stream(b), b);
    }
  }

  lemma ByteBefore(b: seq<Byte>, k: nat)
    requires b != [] && k >= 8
    ensures At(Stream(b), k) == At(Stream(b[1..]), k - 8)
  {
  }

  lemma StreamSkips(b: seq<Byte>, k: nat)
    requires |b| > 3 && k >= 24
    ensures At(Stream(b), k) == At(Stream(b[3..]), k - 24)
  {
    var b1, b2 := b[1..], b[2..];
    assert b1[1..] == b2 && b2[1..] == b[3..];
    ByteBefore(b, k);
    ByteBefore(b1, k - 8);
    ByteBefore(b2, k - 16);
  }

  /** The stream goes on as the other, after a group. */
  ghost predicate GoesOnAs(s: seq<int>, t: seq<int>) {
    forall k: nat | k >= 24 :: At(s, k) == At(t, k - 24)
  }

  lemma StreamGoesOn(b: seq<Byte>)
    requires |b| > 3
    ensures GoesOnAs(Stream(b), Stream(b[3..]))
  {
    forall k: nat | k >= 24 ensures At(Stream(b), k) == At(Stream(b[3..]), k - 24) {
      StreamSkips(b, k);
    }
  }

  lemma NextGroup(s: seq<int>, t: seq<int>, j: nat)
    requires GoesOnAs(s, t) && j >= 4
    ensures Sextet(s, j) == Sextet(t, j - 4)
  {
    assert At(s, 6 * j) == At(t, 6 * j - 24) && At(s, 6 * j + 1) == At(t, 6 * j + 1 - 24);
    assert At(s, 6 * j + 2) == At(t, 6 * j + 2 - 24) && At(s, 6 * j + 3) == At(t, 6 * j + 3 - 24);
    assert At(s, 6 * j + 4) == At(t, 6 * j + 4 - 24) && At(s, 6 * j + 5) == At(t, 6 * j + 5 - 24);
  }

  /** A text of four characters before another one. */
  lemma FourBefore(four: string, rest: string, j: nat)
    requires |four| == 4 && j < 4 + |rest|
    ensures (four + rest)[j] == if j < 4 then four[j] else rest[j - 4]
  {
  }

  lemma GroupJoins(code: string, group: string, rest: string, s: seq<int>, t: seq<int>, n: nat)
    requires |code| == 64 && Spells(code, group, s, 4) && Spells(code, rest, t, n) && GoesOnAs(s, t)
    ensures Spells(code, group + rest, s, 4 + n)
  {
    forall j: nat | j < 4 + n ensures (group + rest)[j] == Letter(code, Sextet(s, j)) {
      FourBefore(group, rest, j);
      if j >= 4 { NextGroup(s, t, j); }
    }
  }

  /**
   For every byte string, the loop's three-byte groups are the bits of the whole string cut into
   sixes, with zeros behind the last: as many characters as that takes, each its six bits.
   */
  lemma {:induction false} GroupedEncodes(code: string, b: seq<Byte>)
    requires |code| == 64
    ensures Encodes(code, Grouped(code, b), b)
    decreases |b|
  {
    if b != [] {
      GroupEncodes(code, b);
      if |b| > 3 {
        GroupedEncodes(code, b[3..]);
        StreamGoesOn(b);
        GroupJoins(code, Group(code, b), Grouped(code, b[3..]), Stream(b), Stream(b[3..]), Chars(|b| - 3));
      }
    }
  }

  // ---- Decoding ----

  ghost predicate Distinct(code: string) {
    |code| == 64 && forall i, j | 0 <= i < j < 64 :: code[i] != code[j]
  }

  /** The number a character stands for. */
  ghost function CodeOf(code: string, ch: char): int
    requires |code| == 64
  {
    if x :| 0 <= x < 64 && code[x] == ch then x else 0
  }

  /** The bits of a number below 64. */
  function Bits6(x: int): (s: seq<int>)
    ensures |s| == 6
  {
    [x / 2 / 2 / 2 / 2 / 2 % 2, x / 2 / 2 / 2 / 2 % 2, x / 2 / 2 / 2 % 2, x / 2 / 2 % 2, x / 2 % 2, x % 2]
  }

  /** Bit `k` of the text, six to a character. */
  ghost function TextBit(code: string, text: string, k: nat): int
    requires |code| == 64
  {
    if k / 6 < |text| then Bits6(CodeOf(code, text[k / 6]))[k % 6] else 0
  }

  function Compose8(b0: int, b1: int, b2: int, b3: int, b4: int, b5: int, b6: int, b7: int): int {
    128 * b0 + 64 * b1 + 32 * b2 + 16 * b3 + 8 * b4 + 4 * b5 + 2 * b6 + b7
  }

  ghost function DecodedByte(code: string, text: string, i: nat): int
    requires |code| == 64
  {
    Compose8(TextBit(code, text, 8 * i), TextBit(code, text, 8 * i + 1),
             TextBit(code, text, 8 * i + 2), TextBit(code, text, 8 * i + 3),
             TextBit(code, text, 8 * i + 4), TextBit(code, text, 8 * i + 5),
             TextBit(code, text, 8 * i + 6), TextBit(code, text, 8 * i + 7))
  }

  /** The first `n` bytes of what a text stands for. */
  ghost function Decode(code: string, text: string, n: nat): seq<int>
    requires |code| == 64
  {
    seq(n, i requires 0 <= i < n => DecodedByte(code, text, i))
  }

  lemma CodeOfLetter(code: string, x: int)
    requires Distinct(code) && 0 <= x < 64
    ensures CodeOf(code, Letter(code, x)) == x
  {
    assert code[x] == Letter(code, x);
  }

  predicate IsBit(x: int) { 0 <= x <= 1 }

  lemma SixBitsBack(b0: int, b1: int, b2: int, b3: int, b4: int, b5: int)
    requires IsBit(b0) && IsBit(b1) && IsBit(b2) && IsBit(b3) && IsBit(b4) && IsBit(b5)
    ensures 0 <= Compose6(b0, b1, b2, b3, b4, b5) < 64
    ensures Bits6(Compose6(b0, b1, b2, b3, b4, b5)) == [b0, b1, b2, b3, b4, b5]
  {
    var x := Compose6(b0, b1, b2, b3, b4, b5);
    assert x % 2 == b5 && x / 2 == 16 * b0 + 8 * b1 + 4 * b2 + 2 * b3 + b4;
    assert x / 2 % 2 == b4 && x / 2 / 2 == 8 * b0 + 4 * b1 + 2 * b2 + b3;
    assert x / 2 / 2 % 2 == b3 && x / 2 / 2 / 2 == 4 * b0 + 2 * b1 + b2;
    assert x / 2 / 2 / 2 % 2 == b2 && x / 2 / 2 / 2 / 2 == 2 * b0 + b1;
    assert x / 2 / 2 / 2 / 2 % 2 == b1 && x / 2 / 2 / 2 / 2 / 2 == b0;
  }

  ghost predicate AllBits(s: seq<int>) { forall k: nat :: IsBit(At(s, k)) }

  lemma {:induction false} StreamIsBits(b: seq<Byte>, k: nat)
    ensures IsBit(At(Stream(b), k))
  {
    if b != [] {
      if k < 8 {
        BitsMakeTheByte(b[0]);
      } else {
        StreamIsBits(b[1..], k - 8);
      }
    }
  }

  /** Decoding reads the very bits that were encoded. */
  lemma SextetBits(code: string, s: seq<int>, j: nat, m: nat)
    requires Distinct(code) && AllBits(s) && m < 6
    ensures Bits6(CodeOf(code, Letter(code, Sextet(s, j))))[m] == At(s, 6 * j + m)
  {
    assert IsBit(At(s, 6 * j)) && IsBit(At(s, 6 * j + 1)) && IsBit(At(s, 6 * j + 2));
    assert IsBit(At(s, 6 * j + 3)) && IsBit(At(s, 6 * j + 4)) && IsBit(At(s, 6 * j + 5));
    SixBitsBack(At(s, 6 * j), At(s, 6 * j + 1), At(s, 6 * j + 2), At(s, 6 * j + 3), At(s, 6 * j + 4), At(s, 6 * j + 5));
    CodeOfLetter(code, Sextet(s, j));
  }

  lemma TextHoldsStream(code: string, text: string, s: seq<int>, n: nat, k: nat)
    requires Distinct(code) && AllBits(s) && Spells(code, text, s, n) && k < 6 * n
    ensures TextBit(code, text, k) == At(s, k)
  {
    var j, m := k / 6, k % 6;
    assert k == 6 * j + m;
    SextetBits(code, s, j, m);
  }

  lemma DecodesByte(code: string, text: string, s: seq<int>, n: nat, i: nat, c: Byte)
    requires Distinct(code) && AllBits(s) && Spells(code, text, s, n)
    requires 8 * i + 8 <= 6 * n && Holds(s, 8 * i, Bits(c))
    ensures DecodedByte(code, text, i) == c
  {
    var x, k := Bits(c), 8 * i;
    forall m: nat | m < 8 ensures TextBit(code, text, k + m) == x[m] {
      TextHoldsStream(code, text, s, n, k + m);
    }
    ReadsByte(code, text, i, x);
    BitsMakeTheByte(c);
  }

  lemma ReadsByte(code: string, text: string, i: nat, x: seq<int>)
    requires |code| == 64 && |x| == 8
    requires forall m: nat | m < 8 :: TextBit(code, text, 8 * i + m) == x[m]
    ensures DecodedByte(code, text, i) == Compose8(x[0], x[1], x[2], x[3], x[4], x[5], x[6], x[7])
  {
    assert TextBit(code, text, 8 * i + 0) == x[0] && TextBit(code, text, 8 * i + 1) == x[1];
    assert TextBit(code, text, 8 * i + 2) == x[2] && TextBit(code, text, 8 * i + 3) == x[3];
    assert TextBit(code, text, 8 * i + 4) == x[4] && TextBit(code, text, 8 * i + 5) == x[5];
    assert TextBit(code, text, 8 * i + 6) == x[6] && TextBit(code, text, 8 * i + 7) == x[7];
  }

  /** The encoding loses nothing: decoding gives back exactly the bytes encoded. */
  lemma DecodeRestores(code: string, b: seq<Byte>)
    requires Distinct(code)
    ensures Decode(code, Grouped(code, b), |b|) == b
  {
    GroupedEncodes(code, b);
    forall k: nat ensures IsBit(At(Stream(b), k)) {
      StreamIsBits(b, k);
    }
    forall i | 0 <= i < |b| ensures DecodedByte(code, Grouped(code, b), i) == b[i] {
      StreamHolds(b, i);
      DecodesByte(code, Grouped(code, b), Stream(b), Chars(|b|), i, b[i]);
    }
  }
}

/**
 The hand-written base64 of the bcrypt salt: the bit grouping of section 4 of RFC 4648, with
 another alphabet and no padding, and the salt it makes of a serial. The alphabet is a parameter.
 Bytes are the numbers they are in the program; its shifts and masks of a byte are written as the
 quotients and remainders they stand for, and its "or" of disjoint bits as a sum; that these are
 the same numbers is GroupInShifts.
 */
module BcryptBase64 {
  import opened Wrappers

  type Byte = c: int | 0 <= c < 256

  // ---- The bits ----

  /** The bits of a byte, the highest first. */
  function Bits(c: Byte): (s: seq<int>)
    ensures |s| == 8
  {
    [c / 2 / 2 / 2 / 2 / 2 / 2 / 2 % 2, c / 2 / 2 / 2 / 2 / 2 / 2 % 2, c / 2 / 2 / 2 / 2 / 2 % 2, c / 2 / 2 / 2 / 2 % 2,
     c / 2 / 2 / 2 % 2, c / 2 / 2 % 2, c / 2 % 2, c % 2]
  }

  /** The bits of all bytes, one byte after the other. */
  function Stream(b: seq<Byte>): (s: seq<int>)
    ensures |s| == 8 * |b|
  {
    if b == [] then [] else Bits(b[0]) + Stream(b[1..])
  }

  /** Bit `k`, with zeros behind the last. */
  function At(s: seq<int>, k: nat): int { if k < |s| then s[k] else 0 }

  function Compose6(b0: int, b1: int, b2: int, b3: int, b4: int, b5: int): int {
    32 * b0 + 16 * b1 + 8 * b2 + 4 * b3 + 2 * b4 + b5
  }

  /** Six bits of the stream as a number. */
  function Sextet(s: seq<int>, j: nat): int {
    Compose6(At(s, 6 * j), At(s, 6 * j + 1), At(s, 6 * j + 2), At(s, 6 * j + 3), At(s, 6 * j + 4), At(s, 6 * j + 5))
  }

  /** The alphabet at work: the character for a number below 64. */
  function Letter(code: string, x: int): char
    requires |code| == 64
  {
    if 0 <= x < 64 then code[x] else '?'
  }

  /** As many characters as it takes to hold every bit: four thirds of the bytes, rounded up. */
  function Chars(bytes: nat): nat { (4 * bytes + 2) / 3 }

  /** A text of `n` characters, one for every six bits of the stream. */
  ghost predicate Spells(code: string, text: string, s: seq<int>, n: nat)
    requires |code| == 64
  {
    |text| == n && forall j | 0 <= j < n :: text[j] == Letter(code, Sextet(s, j))
  }

  /** The encoding, bit by bit. */
  ghost predicate Encodes(code: string, text: string, b: seq<Byte>)
    requires |code| == 64
  {
    Spells(code, text, Stream(b), Chars(|b|))
  }

  // ---- The loop ----

  /** The characters of the first group: two to four, as bytes are left. */
  function Group(code: string, b: seq<Byte>): string
    requires |code| == 64 && b != []
  {
    if |b| == 1 then [Letter(code, b[0] / 4), Letter(code, b[0] % 4 * 16)]
    else if |b| == 2 then
      [Letter(code, b[0] / 4), Letter(code, b[0] % 4 * 16 + b[1] / 16), Letter(code, b[1] % 16 * 4)]
    else
      [Letter(code, b[0] / 4), Letter(code, b[0] % 4 * 16 + b[1] / 16),
       Letter(code, b[1] % 16 * 4 + b[2] / 64), Letter(code, b[2] % 64)]
  }

  /** Three bytes at a time, as the program computes it. */
  function Grouped(code: string, b: seq<Byte>): string
    requires |code| == 64
  {
    if b == [] then ""
    else if |b| <= 3 then Group(code, b)
    else Group(code, b) + Grouped(code, b[3..])
  }

  /** Appending a group takes the loop on to the rest. */
  lemma MoreGroups(code: string, rs: string, b: seq<Byte>)
    requires |code| == 64 && |b| > 3
    ensures rs + Grouped(code, b) == (rs + Group(code, b)) + Grouped(code, b[3..])
  {
  }

  /** Characters appended one by one. */
  lemma Appended(rs: string, w: char, x: char, y: char, z: char)
    ensures (rs + [w]) + [x] == rs + [w, x]
    ensures (rs + [w, x]) + [y] == rs + [w, x, y]
    ensures (rs + [w, x, y]) + [z] == rs + [w, x, y, z]
  {
  }

  datatype Error = IllegalLength(length: int) | NotDigits

  method Base64Encode(code: string, b: seq<Byte>, length: int) returns (r: Result<string, Error>)
    requires |code| == 64
    ensures r == if 0 < length <= |b| then Ok(Grouped(code, b[..length])) else Err(IllegalLength(length))
  {
    if length <= 0 || length > |b| {
      return Err(IllegalLength(length));
    }
    var off, rs := 0, "";
    while off < length
      invariant 0 <= off <= length
      invariant if off < length then rs + Grouped(code, b[off..length]) == Grouped(code, b[..length])
                else rs == Grouped(code, b[..length])
    {
      ghost var rest, was := b[off..length], rs;
      assert rest[0] == b[off];
      if |rest| > 3 {
        MoreGroups(code, rs, rest);
        assert rest[3..] == b[off + 3..length];
      }
      var c1: int := b[off];
      off := off + 1;
      rs := rs + [Letter(code, c1 / 4)];
      ghost var w := Letter(code, c1 / 4);
      c1 := c1 % 4 * 16;
      if off >= length {
        rs := rs + [Letter(code, c1)];
        assert rs == was + Group(code, rest) by {
          Appended(was, w, Letter(code, c1), ' ', ' ');
          assert Group(code, rest) == [w, Letter(code, c1)];
        }
        break;
      }
      var c2 := b[off];
      off := off + 1;
      c1 := c1 + c2 / 16;
      rs := rs + [Letter(code, c1)];
      ghost var x := Letter(code, c1);
      c1 := c2 % 16 * 4;
      if off >= length {
        rs := rs + [Letter(code, c1)];
        assert rs == was + Group(code, rest) by {
          Appended(was, w, x, Letter(code, c1), ' ');
          assert Group(code, rest) == [w, x, Letter(code, c1)];
        }
        break;
      }
      c2 := b[off];
      off := off + 1;
      c1 := c1 + c2 / 64;
      rs := rs + [Letter(code, c1)];
      rs := rs + [Letter(code, c2 % 64)];
      assert rs == was + Group(code, rest) by {
        Appended(was, w, x, Letter(code, c1), Letter(code, c2 % 64));
        assert Group(code, rest) == [w, x, Letter(code, c1), Letter(code, c2 % 64)];
      }
    }
    r := Ok(rs);
  }
}

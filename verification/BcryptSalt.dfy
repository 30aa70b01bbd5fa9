/** The salt of a serial: which bytes it is made of, and which serials share one. */
module BcryptSalt {
  import opened Wrappers
  import opened BcryptBase64
  import opened BcryptBase64Theorems

  // ---- A serial's bytes ----

  predicate IsDigit(ch: char) { '0' <= ch <= '9' }

  predicate IsDigits(s: string) { s != "" && forall i | 0 <= i < |s| :: IsDigit(s[i]) }

  function Value(ch: char): Byte
    requires IsDigit(ch)
  {
    ch as int - '0' as int
  }

  function Values(s: string): (v: seq<Byte>)
    requires forall i | 0 <= i < |s| :: IsDigit(s[i])
    ensures |v| == |s|
  {
    if s == "" then [] else [Value(s[0])] + Values(s[1..])
  }

  function Zeros(n: int): (z: seq<Byte>)
    ensures |z| == if n > 0 then n else 0
  {
    if n <= 0 then [] else [0] + Zeros(n - 1)
  }

  /** The digits as bytes, with zeros before them up to `length`. */
  function Padded(s: string, length: int): (b: seq<Byte>)
    requires IsDigits(s)
    ensures |b| >= length
  {
    Zeros(length - |s|) + Values(s)
  }

  /** What byte `i` of `length` is to be: a zero before the serial, or the number of a digit. */
  function SerialByte(s: string, length: int, i: nat): int
    requires s != "" && i < length
  {
    if i < length - |s| then 0
    else if length > |s| then s[i - (length - |s|)] as int - '0' as int
    else s[i] as int - '0' as int
  }

  lemma {:induction false} ZerosAreZero(n: int, i: nat)
    requires i < |Zeros(n)|
    ensures Zeros(n)[i] == 0
  {
    if i > 0 { ZerosAreZero(n - 1, i - 1); }
  }

  lemma {:induction false} ValuesAre(s: string, i: nat)
    requires i < |s| && forall j | 0 <= j < |s| :: IsDigit(s[j])
    ensures Values(s)[i] as int == s[i] as int - '0' as int
  {
    if i > 0 { ValuesAre(s[1..], i - 1); }
  }

  /** The bytes encoded are those. */
  lemma PaddedIs(s: string, length: int, i: nat)
    requires IsDigits(s) && i < length
    ensures Padded(s, length)[i] as int == SerialByte(s, length, i)
  {
    var zeros := Zeros(length - |s|);
    if i < |zeros| {
      ZerosAreZero(length - |s|, i);
    } else {
      ValuesAre(s, i - |zeros|);
    }
  }

  lemma EncodedSerialDecodes(code: string, s: string, length: int)
    requires Distinct(code) && IsDigits(s) && length > 0
    ensures var text := Grouped(code, Padded(s, length)[..length]);
            && |text| == Chars(length)
            && forall i: nat | i < length :: Decode(code, text, length)[i] == SerialByte(s, length, i)
  {
    var b := Padded(s, length)[..length];
    GroupedEncodes(code, b);
    DecodeRestores(code, b);
    forall i: nat | i < length ensures Decode(code, Grouped(code, b), length)[i] == SerialByte(s, length, i) {
      PaddedIs(s, length, i);
    }
  }

  /** Digits only; the salt stands for the serial's digits, with zeros before them, cut after `length` bytes. */
  method EncodeSerial(code: string, s: string, length: int) returns (r: Result<string, Error>)
    requires |code| == 64
    ensures r == Err(NotDigits) <==> s == "" || exists i | 0 <= i < |s| :: !('0' <= s[i] <= '9')
    ensures r.Err? && r != Err(NotDigits) <==> length <= 0 && IsDigits(s)
    ensures r.Err? ==> r == Err(NotDigits) || r == Err(IllegalLength(length))
    ensures r.Ok? ==> r.value == Grouped(code, Padded(s, length)[..length])
    ensures r.Ok? && Distinct(code) ==>
              && |r.value| == Chars(length)
              && forall i: nat | i < length :: Decode(code, r.value, length)[i] == SerialByte(s, length, i)
  {
    if !IsDigits(s) {
      return Err(NotDigits);
    }
    r := Base64Encode(code, Padded(s, length), length);
    if r.Ok? && Distinct(code) { EncodedSerialDecodes(code, s, length); }
  }

  // ---- Salts ----

  /** A serial's salt, made of its first 16 bytes after padding. */
  function Salted(s: string): seq<Byte>
    requires IsDigits(s)
  {
    Padded(s, 16)[..16]
  }

  function Salt(code: string, s: string): string
    requires |code| == 64 && IsDigits(s)
  {
    Grouped(code, Salted(s))
  }

  /** Two serials have the same salt exactly if they agree on the sixteen bytes it is made of. */
  lemma SaltsEqualExactly(code: string, s: string, t: string)
    requires Distinct(code) && IsDigits(s) && IsDigits(t)
    ensures Salt(code, s) == Salt(code, t) <==> Salted(s) == Salted(t)
  {
    DecodeRestores(code, Salted(s));
    DecodeRestores(code, Salted(t));
  }

  /** A serial without its leading zeros. */
  function Stripped(s: string): (t: string)
    ensures |t| <= |s|
  {
    if s == "" || s[0] != '0' then s else Stripped(s[1..])
  }

  lemma {:induction false} ZerosAdd(m: int, n: int)
    requires m >= 0 && n >= 0
    ensures Zeros(m) + Zeros(n) == Zeros(m + n)
  {
    if m > 0 {
      ZerosAdd(m - 1, n);
    }
  }

  lemma {:induction false} StrippedValues(s: string)
    requires forall i | 0 <= i < |s| :: IsDigit(s[i])
    ensures forall i | 0 <= i < |Stripped(s)| :: IsDigit(Stripped(s)[i])
    ensures Values(s) == Zeros(|s| - |Stripped(s)|) + Values(Stripped(s))
  {
    if s != "" && s[0] == '0' {
      StrippedValues(s[1..]);
      var n := |s[1..]| - |Stripped(s[1..])|;
      ValueIsZero(s[0]);
      OneMoreZero(n, Values(Stripped(s)));
    }
  }

  lemma OneMoreZero(n: nat, v: seq<Byte>)
    ensures Zeros(n + 1) + v == [0] + (Zeros(n) + v)
  {
  }

  /** The sixteen bytes of a serial without leading zeros. */
  function Canonical(x: string): seq<Byte>
    requires |x| <= 16 && forall i | 0 <= i < |x| :: IsDigit(x[i])
  {
    Zeros(16 - |x|) + Values(x)
  }

  /** Padding makes leading zeros equal. */
  lemma PaddedIsStripped(s: string)
    requires IsDigits(s) && |s| <= 16
    ensures forall i | 0 <= i < |Stripped(s)| :: IsDigit(Stripped(s)[i])
    ensures Salted(s) == Canonical(Stripped(s))
  {
    StrippedValues(s);
    ZerosAdd(16 - |s|, |s| - |Stripped(s)|);
  }

  lemma {:induction false} ValuesDetermine(s: string, t: string)
    requires |s| == |t|
    requires forall i | 0 <= i < |s| :: IsDigit(s[i])
    requires forall i | 0 <= i < |t| :: IsDigit(t[i])
    requires Values(s) == Values(t)
    ensures s == t
  {
    if s != "" {
      assert Values(s)[0] == Values(t)[0] && Values(s)[1..] == Values(t)[1..];
      ValuesAre(s, 0);
      ValuesAre(t, 0);
      ValuesDetermine(s[1..], t[1..]);
      assert s == [s[0]] + s[1..] && t == [t[0]] + t[1..];
    }
  }

  /** A stripped serial begins with no zero. */
  lemma {:induction false} StrippedStarts(s: string)
    ensures Stripped(s) != "" ==> Stripped(s)[0] != '0'
  {
    if s != "" && s[0] == '0' { StrippedStarts(s[1..]); }
  }

  lemma LongerDiffers(x: string, y: string)
    requires |x| < |y| <= 16 && y[0] != '0'
    requires forall i | 0 <= i < |x| :: IsDigit(x[i])
    requires forall i | 0 <= i < |y| :: IsDigit(y[i])
    ensures Canonical(x) != Canonical(y)
  {
    var n := 16 - |y|;
    ZerosAreZero(16 - |x|, n);
    assert Canonical(x)[n] == 0;
    assert IsDigit(y[0]) && Canonical(y)[n] == Value(y[0]);
    ValueIsZero(y[0]);
  }

  lemma ValueIsZero(ch: char)
    requires IsDigit(ch)
    ensures Value(ch) == 0 <==> ch == '0'
  {
  }

  lemma StrippedDiffers(s: string, t: string)
    requires IsDigits(s) && IsDigits(t) && |s| <= 16 && |t| <= 16 && |Stripped(s)| < |Stripped(t)|
    ensures Salted(s) != Salted(t)
  {
    PaddedIsStripped(s);
    PaddedIsStripped(t);
    StrippedStarts(t);
    LongerDiffers(Stripped(s), Stripped(t));
  }

  lemma CanonicalDetermines(x: string, y: string)
    requires |x| == |y| <= 16
    requires forall i | 0 <= i < |x| :: IsDigit(x[i])
    requires forall i | 0 <= i < |y| :: IsDigit(y[i])
    requires Canonical(x) == Canonical(y)
    ensures x == y
  {
    BehindZeros(Zeros(16 - |x|), Values(x), Values(y));
    ValuesDetermine(x, y);
  }

  /** Equal paddings of serials without leading zeros come from equal serials. */
  lemma SameLengthDetermines(s: string, t: string)
    requires IsDigits(s) && IsDigits(t) && |s| <= 16 && |t| <= 16
    requires |Stripped(s)| == |Stripped(t)| && Salted(s) == Salted(t)
    ensures Stripped(s) == Stripped(t)
  {
    PaddedIsStripped(s);
    PaddedIsStripped(t);
    CanonicalDetermines(Stripped(s), Stripped(t));
  }

  lemma BehindZeros(zeros: seq<Byte>, v: seq<Byte>, w: seq<Byte>)
    requires zeros + v == zeros + w
    ensures v == w
  {
    assert v == (zeros + v)[|zeros|..] && w == (zeros + w)[|zeros|..];
  }

  lemma SameStrippedSameSalted(s: string, t: string)
    requires IsDigits(s) && IsDigits(t) && |s| <= 16 && |t| <= 16 && Stripped(s) == Stripped(t)
    ensures Salted(s) == Salted(t)
  {
    PaddedIsStripped(s);
    PaddedIsStripped(t);
  }

  /**
   For serials of up to sixteen digits, two salts are equal exactly when the serials are equal up
   to leading zeros.
   */
  lemma SaltsTellSerialsApart(code: string, s: string, t: string)
    requires Distinct(code) && IsDigits(s) && IsDigits(t) && |s| <= 16 && |t| <= 16
    ensures Salt(code, s) == Salt(code, t) <==> Stripped(s) == Stripped(t)
  {
    SaltsEqualExactly(code, s, t);
    if Stripped(s) == Stripped(t) {
      SameStrippedSameSalted(s, t);
    } else if |Stripped(s)| < |Stripped(t)| {
      StrippedDiffers(s, t);
    } else if |Stripped(t)| < |Stripped(s)| {
      StrippedDiffers(t, s);
    } else if Salted(s) == Salted(t) {
      SameLengthDetermines(s, t);
    }
  }

  /** A longer serial's salt is made of its first sixteen digits only. */
  lemma LongSerialsAreCut(code: string, s: string, t: string)
    requires Distinct(code) && IsDigits(s) && IsDigits(t) && |s| >= 16 && |t| >= 16
    ensures Salt(code, s) == Salt(code, t) <==> s[..16] == t[..16]
  {
    SaltsEqualExactly(code, s, t);
    SaltedIsPrefix(s);
    SaltedIsPrefix(t);
    if Salted(s) == Salted(t) { ValuesDetermine(s[..16], t[..16]); }
  }

  lemma SaltedIsPrefix(s: string)
    requires IsDigits(s) && |s| >= 16
    ensures (forall i | 0 <= i < 16 :: IsDigit(s[..16][i])) && Salted(s) == Values(s[..16])
  {
    ValuesOfPrefix(s, 16);
    assert Zeros(16 - |s|) == [];
    assert Padded(s, 16) == Values(s);
  }

  lemma {:induction false} ValuesOfPrefix(s: string, n: nat)
    requires n <= |s| && forall i | 0 <= i < |s| :: IsDigit(s[i])
    ensures Values(s[..n]) == Values(s)[..n]
  {
    if n > 0 {
      ValuesOfPrefix(s[1..], n - 1);
      assert s[..n][1..] == s[1..][..n - 1];
    }
  }
}

/** bcrypt's own alphabet serves as one: its characters are all different. */
module BcryptAlphabet {
  import opened BcryptBase64Theorems

  const UPPER := "ABCDEFGHIJKLMNOPQRSTUVWXYZ"
  const LOWER := "abcdefghijklmnopqrstuvwxyz"
  const DIGITS := "0123456789"
  const BASE64_CODE := "./" + UPPER + LOWER + DIGITS

  /** Where the alphabet stands in the table of characters. */
  function Ordinal(i: int): int {
    if i < 2 then 46 + i else if i < 28 then 65 + i - 2 else if i < 54 then 97 + i - 28 else 48 + i - 54
  }

  lemma InFourParts(a: string, b: string, c: string, d: string, i: nat)
    requires i < |a| + |b| + |c| + |d|
    ensures |a + b + c + d| == |a| + |b| + |c| + |d|
    ensures (a + b + c + d)[i] ==
              if i < |a| then a[i] else if i < |a| + |b| then b[i - |a|]
              else if i < |a| + |b| + |c| then c[i - |a| - |b|] else d[i - |a| - |b| - |c|]
  {
  }

  lemma AlphabetIs(i: nat)
    requires i < 64
    ensures |BASE64_CODE| == 64 && BASE64_CODE[i] as int == Ordinal(i)
  {
    InFourParts("./", UPPER, LOWER, DIGITS, i);
    if 2 <= i < 28 { UpperIs(i - 2); }
    if 28 <= i < 54 { LowerIs(i - 28); }
    if 54 <= i { DigitIs(i - 54); }
  }

  lemma UpperIs(i: nat)
    requires i < 26
    ensures UPPER[i] as int == 65 + i
  {
  }

  lemma LowerIs(i: nat)
    requires i < 26
    ensures LOWER[i] as int == 97 + i
  {
  }

  lemma DigitIs(i: nat)
    requires i < 10
    ensures DIGITS[i] as int == 48 + i
  {
  }

  lemma AlphabetIsDistinct()
    ensures Distinct(BASE64_CODE)
  {
    AlphabetIs(0);
    forall i, j | 0 <= i < j < 64 ensures BASE64_CODE[i] != BASE64_CODE[j] {
      AlphabetIs(i);
      AlphabetIs(j);
    }
  }
}

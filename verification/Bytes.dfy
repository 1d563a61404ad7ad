/** Octets and the few ASCII codes the media service compares against. */
module Bytes {
  type Byte = b: int | 0 <= b < 256

  const LF: Byte := 10
  const CR: Byte := 13
  const SPACE: Byte := 32
  const HYPHEN: Byte := 45
  const COLON: Byte := 58

  const CRLF: seq<Byte> := [CR, LF]

  /** Letters `A`-`Z` and `a`-`z`, the bytes whose lower case lies between `a` and `z`. */
  predicate IsLetter(c: Byte) {
    65 <= c <= 90 || 97 <= c <= 122
  }

  const UPPER := "ABCDEFGHIJKLMNOPQRSTUVWXYZ"
  const LOWER := "abcdefghijklmnopqrstuvwxyz"

  lemma UpperAt(i: nat)
    requires i < 26
    ensures UPPER[i] as int == 65 + i
  {
  }

  lemma LowerAt(i: nat)
    requires i < 26
    ensures LOWER[i] as int == 97 + i
  {
  }

  lemma Letters(c: Byte)
    ensures IsLetter(c) <==> c as char in UPPER || c as char in LOWER
  {
    forall i | 0 <= i < 26 ensures UPPER[i] as int == 65 + i && LOWER[i] as int == 97 + i {
      UpperAt(i);
      LowerAt(i);
    }
    if 65 <= c <= 90 { Found(UPPER, c - 65, c); }
    if 97 <= c <= 122 { Found(LOWER, c - 97, c); }
  }

  lemma Found(s: string, i: nat, c: Byte)
    requires i < |s| && s[i] == c as char
    ensures c as char in s
  {
  }
}

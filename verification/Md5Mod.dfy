/** `get_md5_mod`: the rotation a put starts from. */
module Md5Mod {

  type Digest = d: seq<nat> | |d| == 16 && forall i | 0 <= i < 16 :: d[i] < 256
    witness seq(16, _ => 0)

  /** The ASCII code "%02x" writes for a nibble. */
  function HexCode(nibble: nat): nat
    requires nibble < 16
  {
    if nibble < 10 then 48 + nibble else 87 + nibble
  }

  /** The unsigned 64-bit little-endian value of eight bytes. */
  function LoadLittleEndian(bytes: seq<nat>): nat {
    if bytes == [] then 0 else bytes[0] + 256 * LoadLittleEndian(bytes[1..])
  }

  function HexText(digest: Digest): seq<nat> {
    seq(32, i requires 0 <= i < 32 =>
      HexCode(if i % 2 == 0 then digest[i / 2] / 16 else digest[i / 2] % 16))
  }

  /** The function as written: 32 hex characters, then the second group of eight read as one
      little-endian number, then mod. The loads of the first group do not reach the result. */
  method GetMd5Mod(digest: Digest, modNum: nat) returns (d: nat)
    requires modNum > 0
    ensures d == LoadLittleEndian(HexText(digest)[16..24]) % modNum
  {
    var arr := new nat[32];
    for i := 0 to 16
      invariant forall j | 0 <= j < 2 * i :: arr[j] == HexText(digest)[j]
    {
      arr[2 * i] := HexCode(digest[i] / 16);
      arr[2 * i + 1] := HexCode(digest[i] % 16);
    }
    assert arr[16..24] == HexText(digest)[16..24];
    d := LoadLittleEndian(arr[16..24]) % modNum;
  }

  function Rotation(digest: Digest): (m: nat)
    ensures m < 4
  {
    LoadLittleEndian(HexText(digest)[16..24]) % 4
  }

  /** The rotation is the ASCII code of one hex digit mod 4: the high nibble of digest byte 8.
      The other 124 bits of the digest do not matter. */
  lemma RotationIsOneNibble(digest: Digest)
    ensures Rotation(digest) == HexCode(digest[8] / 16) % 4
  {
    var bytes := HexText(digest)[16..24];
    LowBits(bytes[0], LoadLittleEndian(bytes[1..]));
  }

  lemma LowBits(low: nat, high: nat)
    ensures (low + 256 * high) % 4 == low % 4
  {
    assert low + 256 * high == low + 4 * (64 * high);
  }

  /** Nibbles below ten give their own value mod 4 and the letters are shifted by three,
      so every rotation occurs: 4, 5, 4 and 3 of the 16 nibbles. */
  lemma RotationByNibble(digest: Digest)
    ensures var h := digest[8] / 16;
            Rotation(digest) == if h < 10 then h % 4 else (h + 3) % 4
  {
    RotationIsOneNibble(digest);
  }

  function NibblesWithRotation(m: nat): set<nat> {
    set h: nat | h < 16 && HexCode(h) % 4 == m
  }

  /** The digits 0 to 9 and a to f, by the rotation that they give. */
  lemma NibblesAre(m: nat)
    requires m < 4
    ensures NibblesWithRotation(m) ==
            if m == 0 then {0, 4, 8, 13} else if m == 1 then {1, 5, 9, 10, 14} else if m == 2 then {2, 6, 11,
                15} else {3, 7, 12}
  {
    forall h: nat | h < 16
      ensures HexCode(h) % 4 == if h < 10 then h % 4 else (h + 3) % 4
    {
    }
  }

  lemma RotationIsUneven()
    ensures |NibblesWithRotation(0)| == 4 && |NibblesWithRotation(1)| == 5
    ensures |NibblesWithRotation(2)| == 4 && |NibblesWithRotation(3)| == 3
  {
    NibblesAre(0);
    NibblesAre(1);
    NibblesAre(2);
    NibblesAre(3);
    hide NibblesWithRotation;
    SizeOfFive(1, 5, 9, 10, 14);
  }

  lemma SizeOfFive(a: nat, b: nat, c: nat, d: nat, e: nat)
    requires a < b < c < d < e
    ensures |{a, b, c, d, e}| == 5
  {
    assert {a, b, c, d, e} == {a, b, c, d} + {e};
  }
}

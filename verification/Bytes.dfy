/** Bytes, and numbers written in them. */
module Bytes {

  type Byte = b: int | 0 <= b < 0x100

  /** One more than the largest number `width` bytes hold. */
  ghost function Power(width: nat): nat {
    if width == 0 then 1 else 0x100 * Power(width - 1)
  }

  /** `n` in `width` bytes, most significant first. */
  function BigEndian(n: nat, width: nat): (s: seq<Byte>)
    ensures |s| == width
  {
    if width == 0 then [] else BigEndian(n / 0x100, width - 1) + [n % 0x100]
  }

  function FromBigEndian(s: seq<Byte>): nat {
    if |s| == 0 then 0 else FromBigEndian(s[..|s| - 1]) * 0x100 + s[|s| - 1]
  }

  lemma {:induction false} BigEndianReads(n: nat, width: nat)
    requires n < Power(width)
    ensures FromBigEndian(BigEndian(n, width)) == n
  {
    if width > 0 {
      BigEndianReads(n / 0x100, width - 1);
      var s := BigEndian(n, width);
      assert s[..|s| - 1] == BigEndian(n / 0x100, width - 1);
    }
  }

  /** `n` in `width` bytes, least significant first. */
  function LittleEndian(n: nat, width: nat): (s: seq<Byte>)
    ensures |s| == width
  {
    if width == 0 then [] else [n % 0x100] + LittleEndian(n / 0x100, width - 1)
  }

  function FromLittleEndian(s: seq<Byte>): nat {
    if |s| == 0 then 0 else s[0] + 0x100 * FromLittleEndian(s[1..])
  }

  lemma {:induction false} LittleEndianReads(n: nat, width: nat)
    requires n < Power(width)
    ensures FromLittleEndian(LittleEndian(n, width)) == n
  {
    if width > 0 {
      LittleEndianReads(n / 0x100, width - 1);
      assert LittleEndian(n, width)[1..] == LittleEndian(n / 0x100, width - 1);
    }
  }

  lemma LowByte(b: Byte, m: nat)
    ensures (b + 0x100 * m) % 0x100 == b && (b + 0x100 * m) / 0x100 == m
  {
  }

  /** Any bytes are those of the number they hold. */
  lemma {:induction false} LittleEndianWrites(s: seq<Byte>)
    ensures LittleEndian(FromLittleEndian(s), |s|) == s && FromLittleEndian(s) < Power(|s|)
  {
    if |s| > 0 {
      LittleEndianWrites(s[1..]);
      LowByte(s[0], FromLittleEndian(s[1..]));
      assert [s[0]] + s[1..] == s;
    }
  }

  lemma PowersOf256()
    ensures Power(1) == 0x100 && Power(2) == 0x1_0000 && Power(4) == 0x1_0000_0000
  {
    assert Power(4) == 0x100 * (0x100 * (0x100 * (0x100 * Power(0))));
  }
}

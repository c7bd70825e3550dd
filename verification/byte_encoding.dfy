/** The primitive writers of internal/config/project_fingerprint.go: varint
    lengths, length-prefixed strings and big-endian words, and that a reader can
    tell where each one ends. Byte strings are strings of characters below 256. */
module ByteEncoding {
  import opened Integers

  function Byte(n: nat): char
    requires n < 256
  {
    n as char
  }

  // binary.PutUvarint: seven bits a byte, low first, the top bit marking that
  // more bytes follow.
  function Uvarint(n: nat): (r: string)
    ensures r != []
  {
    if n < 128 then [Byte(n)] else [Byte(n % 128 + 128)] + Uvarint(n / 128)
  }

  function BigEndian(n: nat, width: nat): (r: string)
    ensures |r| == width
  {
    if width == 0 then [] else BigEndian(n / 256, width - 1) + [Byte(n % 256)]
  }

  function Word(n: uint64): (r: string)
    ensures |r| == 8
  {
    BigEndian(n, 8)
  }

  // Go's conversion of a signed integer to uint64.
  function Unsigned(n: int): uint64 {
    n % TWO_TO_THE_64
  }

  function Flag(b: bool): string {
    [Byte(if b then 1 else 0)]
  }

  function Text(s: string): string {
    Uvarint(|s|) + s
  }

  // Equal concatenations with equal-length heads.
  lemma SplitEqual<T>(a: seq<T>, s: seq<T>, b: seq<T>, t: seq<T>)
    requires |a| == |b| && a + s == b + t
    ensures a == b && s == t
  {
    assert a == (a + s)[..|a|] && b == (b + t)[..|b|];
    assert s == (a + s)[|a|..] && t == (b + t)[|b|..];
  }

  lemma Regroup<T>(a: seq<T>, b: seq<T>, c: seq<T>)
    ensures a + b + c == a + (b + c)
  {
  }

  lemma {:induction false} UvarintDecodes(m: nat, n: nat, s: string, t: string)
    requires Uvarint(m) + s == Uvarint(n) + t
    ensures m == n && s == t
    decreases m
  {
    hide Uvarint;
    UvarintHead(m, s);
    UvarintHead(n, t);
    if m >= 128 {
      UvarintDecodes(m / 128, n / 128, s, t);
      assert m == m / 128 * 128 + m % 128 && n == n / 128 * 128 + n % 128;
    }
  }

  // The first byte of a varint tells whether more follow.
  lemma UvarintHead(n: nat, s: string)
    ensures |Uvarint(n) + s| > 0
    ensures (Uvarint(n) + s)[0] as int == if n < 128 then n else n % 128 + 128
    ensures (Uvarint(n) + s)[1..] == if n < 128 then s else Uvarint(n / 128) + s
  {
    if n >= 128 {
      Regroup([Byte(n % 128 + 128)], Uvarint(n / 128), s);
    }
  }

  function Power256(width: nat): nat {
    if width == 0 then 1 else 256 * Power256(width - 1)
  }

  lemma {:induction false} BigEndianInjective(m: nat, n: nat, width: nat)
    requires m < Power256(width) && n < Power256(width) && BigEndian(m, width) == BigEndian(n, width)
    ensures m == n
  {
    if width > 0 {
      SplitEqual(BigEndian(m / 256, width - 1), [Byte(m % 256)], BigEndian(n / 256, width - 1), [Byte(n % 256)]);
      assert [Byte(m % 256)][0] == [Byte(n % 256)][0];
      BigEndianInjective(m / 256, n / 256, width - 1);
    }
  }

  lemma WordDecodes(m: uint64, n: uint64, s: string, t: string)
    requires Word(m) + s == Word(n) + t
    ensures m == n && s == t
  {
    SplitEqual(Word(m), s, Word(n), t);
    assert Power256(8) == TWO_TO_THE_64 by {
      assert Power256(4) == 0x1_0000_0000;
    }
    BigEndianInjective(m, n, 8);
  }

  // ----- reading them back -----

  // The number bytes stand for, the first the most significant.
  function Number(bytes: string): nat {
    if bytes == [] then 0 else 256 * Number(bytes[..|bytes| - 1]) + bytes[|bytes| - 1] as nat
  }

  /** A word is its number in eight bytes, most significant first. */
  lemma WordReads(n: uint64)
    ensures |Word(n)| == 8 && Number(Word(n)) == n && forall c | c in Word(n) :: c as nat < 256
  {
    assert Power256(8) == TWO_TO_THE_64 by {
      assert Power256(4) == 0x1_0000_0000;
    }
    BigEndianReads(n, 8);
  }

  lemma {:induction false} BigEndianReads(n: nat, width: nat)
    requires n < Power256(width)
    ensures Number(BigEndian(n, width)) == n && forall c | c in BigEndian(n, width) :: c as nat < 256
  {
    if width > 0 {
      BigEndianReads(n / 256, width - 1);
      var b := BigEndian(n, width);
      assert b[..|b| - 1] == BigEndian(n / 256, width - 1) && b[|b| - 1] == Byte(n % 256);
    }
  }

  // The number a varint stands for: seven bits a byte, the first the least
  // significant, the top bit set on all bytes but the last.
  function VarintNumber(bytes: string): nat
    requires bytes != []
  {
    if |bytes| == 1 then bytes[0] as nat % 128 else bytes[0] as nat % 128 + 128 * VarintNumber(bytes[1..])
  }

  /** A varint reads back as its number, and its top bits mark where it ends. */
  lemma {:induction false} UvarintReads(n: nat)
    ensures var bytes := Uvarint(n);
      && VarintNumber(bytes) == n && bytes[|bytes| - 1] as nat < 128
      && forall i | 0 <= i < |bytes| - 1 :: 128 <= bytes[i] as nat < 256
  {
    if n >= 128 {
      UvarintReads(n / 128);
      var bytes := Uvarint(n);
      assert bytes[1..] == Uvarint(n / 128);
      forall i | 0 <= i < |bytes| - 1 ensures 128 <= bytes[i] as nat < 256 {
        assert i > 0 ==> bytes[i] == bytes[1..][i - 1];
      }
    }
  }

  lemma FlagDecodes(a: bool, b: bool, s: string, t: string)
    requires Flag(a) + s == Flag(b) + t
    ensures a == b && s == t
  {
    SplitEqual(Flag(a), s, Flag(b), t);
    assert Flag(a)[0] == Flag(b)[0];
  }

  lemma TextDecodes(a: string, b: string, s: string, t: string)
    requires Text(a) + s == Text(b) + t
    ensures a == b && s == t
  {
    assert Text(a) + s == Uvarint(|a|) + (a + s);
    assert Text(b) + t == Uvarint(|b|) + (b + t);
    UvarintDecodes(|a|, |b|, a + s, b + t);
    SplitEqual(a, s, b, t);
  }

  lemma UnsignedInjective(m: int, n: int)
    requires -0x8000_0000_0000_0000 <= m < 0x8000_0000_0000_0000
    requires -0x8000_0000_0000_0000 <= n < 0x8000_0000_0000_0000
    requires Unsigned(m) == Unsigned(n)
    ensures m == n
  {
  }
}

/** UTF-8 as Go decodes it, against the encoding of section 3 of RFC 3629. */
module Utf8 {
  type byte = n: int | 0 <= n < 256

  type Bytes = seq<byte>

  const RUNE_ERROR := 0xFFFD

  // A Unicode scalar value.
  predicate Scalar(c: int) {
    0 <= c < 0xD800 || 0xE000 <= c < 0x11_0000
  }

  // A rune in groups of six bits, high group first.
  datatype Groups = Groups(w: nat, x: nat, y: nat, z: nat)

  predicate IsGroups(g: Groups) {
    g.w < 8 && g.x < 64 && g.y < 64 && g.z < 64
  }

  function Joined(g: Groups): (c: nat)
    requires IsGroups(g)
    ensures c < 0x80 <==> g.w == 0 && g.x == 0 && g.y < 2
    ensures c < 0x800 <==> g.w == 0 && g.x == 0 && g.y < 32
    ensures c < 0x1_0000 <==> g.w == 0 && g.x < 16
    ensures Scalar(c) <==> (g.w < 4 || (g.w == 4 && g.x < 16)) && !(g.w == 0 && g.x == 13 && g.y >= 32)
  {
    g.w * 262144 + g.x * 4096 + g.y * 64 + g.z
  }

  function Split(c: nat): (g: Groups)
    requires c < 0x20_0000
    ensures IsGroups(g) && Joined(g) == c
  {
    Groups(c / 64 / 64 / 64, c / 64 / 64 % 64, c / 64 % 64, c % 64)
  }

  lemma JoinedInjective(g: Groups, h: Groups)
    requires IsGroups(g) && IsGroups(h) && Joined(g) == Joined(h)
    ensures g == h
  {
    LowGroup(g.w * 4096 + g.x * 64 + g.y, g.z, h.w * 4096 + h.x * 64 + h.y, h.z);
    LowGroup(g.w * 64 + g.x, g.y, h.w * 64 + h.x, h.y);
    LowGroup(g.w, g.x, h.w, h.x);
  }

  lemma LowGroup(a: nat, b: nat, c: nat, d: nat)
    requires b < 64 && d < 64 && a * 64 + b == c * 64 + d
    ensures a == c && b == d
  {
  }

  // Section 3 of RFC 3629.
  function Encode(c: int): (r: Bytes)
    requires Scalar(c)
    ensures 1 <= |r| <= 4
  {
    var g := Split(c);
    if c < 0x80 then [c]
    else if c < 0x800 then [0xC0 + g.y, 0x80 + g.z]
    else if c < 0x1_0000 then [0xE0 + g.x, 0x80 + g.y, 0x80 + g.z]
    else [0xF0 + g.w, 0x80 + g.x, 0x80 + g.y, 0x80 + g.z]
  }

  predicate Tail(b: byte) {
    0x80 <= b < 0xC0
  }

  // The bytes the sequence at the head of `s` takes by the grammar of section 4
  // of RFC 3629; 0 when none begins there.
  function SequenceLength(s: Bytes): (n: nat)
    requires s != []
    ensures n <= 4 && n <= |s|
  {
    var a := s[0];
    var b: byte := if |s| > 1 then s[1] else 0;
    var c: byte := if |s| > 2 then s[2] else 0;
    var d: byte := if |s| > 3 then s[3] else 0;
    if a < 0x80 then 1
    else if 0xC2 <= a < 0xE0 && Tail(b) then 2
    else if a == 0xE0 && 0xA0 <= b < 0xC0 && Tail(c) then 3
    else if (0xE1 <= a < 0xED || 0xEE <= a < 0xF0) && Tail(b) && Tail(c) then 3
    else if a == 0xED && 0x80 <= b < 0xA0 && Tail(c) then 3
    else if a == 0xF0 && 0x90 <= b < 0xC0 && Tail(c) && Tail(d) then 4
    else if 0xF1 <= a < 0xF4 && Tail(b) && Tail(c) && Tail(d) then 4
    else if a == 0xF4 && 0x80 <= b < 0x90 && Tail(c) && Tail(d) then 4
    else 0
  }

  // The payload bits of a sequence of two to four bytes.
  function Payload(s: Bytes): (g: Groups)
    requires s != [] && SequenceLength(s) > 1
    ensures IsGroups(g)
  {
    match SequenceLength(s)
    case 2 => Groups(0, 0, s[0] % 32, s[1] % 64)
    case 3 => Groups(0, s[0] % 16, s[1] % 64, s[2] % 64)
    case _ => Groups(s[0] % 8, s[1] % 64, s[2] % 64, s[3] % 64)
  }

  // utf8.DecodeRuneInString: a rune and the bytes it took, (RUNE_ERROR, 1) for
  // a byte that starts no sequence.
  function DecodeRune(s: Bytes): (r: (int, nat))
    requires s != []
    ensures 1 <= r.1 <= 4 && r.1 <= |s|
    ensures SequenceLength(s) > 0 ==> r.1 == SequenceLength(s)
  {
    var n := SequenceLength(s);
    if n == 0 then (RUNE_ERROR, 1)
    else if n == 1 then (s[0], 1)
    else (Joined(Payload(s)), n)
  }

  /** Decoding undoes encoding, whatever follows. */
  lemma DecodeEncoded(c: int, rest: Bytes)
    requires Scalar(c)
    ensures SequenceLength(Encode(c) + rest) == |Encode(c)|
    ensures DecodeRune(Encode(c) + rest) == (c, |Encode(c)|)
  {
    hide Joined, Split;
    var e, g := Encode(c), Split(c);
    var s := e + rest;
    assert forall i | 0 <= i < |e| :: s[i] == e[i];
    if |e| > 1 {
      assert Payload(s) == g;
    }
  }

  /** Every sequence the grammar accepts is the encoding of the scalar value
      decoded from it: no overlong forms and no surrogates. */
  lemma DecodedIsEncoded(s: Bytes)
    requires s != [] && SequenceLength(s) > 0
    ensures Scalar(DecodeRune(s).0) && Encode(DecodeRune(s).0) == s[..SequenceLength(s)]
  {
    hide Joined, Split;
    var (c, n) := DecodeRune(s);
    if n > 1 {
      JoinedInjective(Split(c), Payload(s));
      GrammarSplits(s);
    }
  }

  // A sequence is its lead and tail markers with the payload groups added.
  lemma GrammarSplits(s: Bytes)
    requires s != [] && SequenceLength(s) > 1
    ensures var g, n := Payload(s), SequenceLength(s);
      s[..n] == if n == 2 then [0xC0 + g.y, 0x80 + g.z]
                else if n == 3 then [0xE0 + g.x, 0x80 + g.y, 0x80 + g.z]
                else [0xF0 + g.w, 0x80 + g.x, 0x80 + g.y, 0x80 + g.z]
  {
  }
}

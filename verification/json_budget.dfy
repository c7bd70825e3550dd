/** The budget check of internal/daemon/operation_event.go: consumeJSONString
    charges what json.Marshal would write for a string. */
module JsonBudget {
  import opened Wrappers
  import opened Utf8

  const QUOTE: byte := 0x22
  const BACKSLASH: byte := 0x5C

  // The letter of a two-byte escape in section 7 of RFC 8259, 0 for none. Go
  // never escapes the solidus.
  function ShortEscape(b: byte): byte {
    if b == QUOTE || b == BACKSLASH then b
    else if b == 0x08 then 0x62
    else if b == 0x0C then 0x66
    else if b == 0x0A then 0x6E
    else if b == 0x0D then 0x72
    else if b == 0x09 then 0x74
    else 0
  }

  function HexDigit(n: nat): byte
    requires n < 16
  {
    if n < 10 then 0x30 + n else 0x61 + (n - 10)
  }

  // \uXXXX
  function LongEscape(c: nat): (r: Bytes)
    requires c < 0x1_0000
    ensures |r| == 6
  {
    [BACKSLASH, 0x75, HexDigit(c / 16 / 16 / 16), HexDigit(c / 16 / 16 % 16), HexDigit(c / 16 % 16), HexDigit(c % 16)]
  }

  predicate EscapedLong(c: int) {
    0 <= c < 0x20 || c == 0x3C || c == 0x3E || c == 0x26 || c == 0x2028 || c == 0x2029
  }

  // What the encoder writes for the rune at the head of `s`.
  function EscapeHead(s: Bytes): Bytes
    requires s != []
  {
    var (c, n) := DecodeRune(s);
    if SequenceLength(s) == 0 then LongEscape(RUNE_ERROR)
    else if c < 0x80 && ShortEscape(c) != 0 then [BACKSLASH, ShortEscape(c)]
    else if EscapedLong(c) then LongEscape(c)
    else s[..n]
  }

  function Escaped(s: Bytes): Bytes {
    if s == [] then [] else EscapeHead(s) + Escaped(s[DecodeRune(s).1..])
  }

  // The string literal json.Marshal writes.
  function Literal(s: Bytes): Bytes {
    [QUOTE] + Escaped(s) + [QUOTE]
  }

  // ----- consumeJSONString -----

  class Budget {
    var left: int

    constructor (remaining: int)
      ensures left == remaining
    {
      left := remaining;
    }

    method ConsumeBytes(count: int) returns (ok: bool)
      modifies this
      ensures ok <==> 0 <= count <= old(left)
      ensures left == if ok then old(left) - count else old(left)
    {
      if count < 0 || count > left {
        return false;
      }
      left := left - count;
      return true;
    }

    /** Succeeds exactly when the literal fits, and then charges its length. */
    method ConsumeString(value: Bytes) returns (ok: bool)
      requires left >= 0
      modifies this
      ensures ok <==> |Literal(value)| <= old(left)
      ensures ok ==> left == old(left) - |Literal(value)|
      ensures 0 <= left <= old(left)
    {
      hide Remaining, DecodeRune, Literal;
      ok := ConsumeBytes(2);
      StartCharging(value);
      if !ok {
        return;
      }
      var index := 0;
      while index < |value|
        invariant 0 <= index <= |value|
        invariant 0 <= left <= old(left)
        invariant left - Remaining(value, index) == old(left) - |Literal(value)|
        decreases |value| - index
      {
        var character := value[index];
        ChargeHead(value, index);
        if character < 0x80 {
          var width := 1;
          if TwoByteEscape(character) {
            width := 2;
          } else if character < 0x20 || character == 0x3C || character == 0x3E || character == 0x26 {
            width := 6;
          }
          ok := ConsumeBytes(width);
          if !ok {
            return;
          }
          index := index + 1;
          continue;
        }
        var (runeValue, runeSize) := DecodeRune(value[index..]);
        var encodedSize := runeSize;
        if runeValue == RUNE_ERROR && runeSize == 1 {
          encodedSize := 6;
        } else if runeValue == 0x2028 || runeValue == 0x2029 {
          encodedSize := 6;
        }
        ok := ConsumeBytes(encodedSize);
        if !ok {
          return;
        }
        index := index + runeSize;
      }
      ok := true;
    }
  }

  predicate TwoByteEscape(b: byte) {
    b == BACKSLASH || b == QUOTE || b == 0x08 || b == 0x0C || b == 0x0A || b == 0x0D || b == 0x09
  }

  // What the escapes from an index on still cost.
  function Remaining(value: Bytes, index: nat): nat
    requires index <= |value|
  {
    |Escaped(value[index..])|
  }

  // What the loop charges for the head of a string, by its first byte, rune and
  // rune size.
  function Charge(b: byte, c: int, n: nat): nat {
    if b < 0x80 then
      if TwoByteEscape(b) then 2 else if b < 0x20 || b == 0x3C || b == 0x3E || b == 0x26 then 6 else 1
    else if (c == RUNE_ERROR && n == 1) || c == 0x2028 || c == 0x2029 then 6
    else n
  }

  lemma StartCharging(value: Bytes)
    ensures |Literal(value)| == 2 + Remaining(value, 0)
    ensures Remaining(value, |value|) == 0
  {
  }

  lemma ChargeHead(value: Bytes, index: nat)
    requires index < |value|
    ensures var (c, n) := DecodeRune(value[index..]);
      && index + n <= |value|
      && Remaining(value, index) == Charge(value[index], c, n) + Remaining(value, index + n)
      && (value[index] < 0x80 ==> n == 1)
  {
    hide EscapeHead, DecodeRune, SequenceLength;
    var s := value[index..];
    var (c, n) := DecodeRune(s);
    assert s[n..] == value[index + n..];
    HeadRune(s);
    HeadLength(s);
  }

  lemma HeadLength(s: Bytes)
    requires s != []
    ensures |EscapeHead(s)| == Charge(s[0], DecodeRune(s).0, DecodeRune(s).1)
  {
    hide DecodeRune, SequenceLength;
    HeadRune(s);
  }

  // A byte below 0x80 is a rune of its own; no other rune is that small.
  lemma HeadRune(s: Bytes)
    requires s != []
    ensures s[0] < 0x80 ==> SequenceLength(s) == 1 && DecodeRune(s) == (s[0], 1)
    ensures s[0] >= 0x80 && SequenceLength(s) > 0 ==> DecodeRune(s).0 >= 0x80 && DecodeRune(s).1 > 1
    ensures SequenceLength(s) == 0 ==> DecodeRune(s) == (RUNE_ERROR, 1)
  {
    if SequenceLength(s) > 1 {
      DecodedIsEncoded(s);
    }
  }

  // ----- the literal means the string -----

  // The string with each byte outside UTF-8 replaced by U+FFFD, which is what a
  // JSON string can carry.
  function Sanitized(s: Bytes): Bytes {
    if s == [] then []
    else
      var n := DecodeRune(s).1;
      (if SequenceLength(s) == 0 then Encode(RUNE_ERROR) else s[..n]) + Sanitized(s[n..])
  }

  function HexValue(b: byte): int {
    if 0x30 <= b < 0x3A then b - 0x30
    else if 0x61 <= b < 0x67 then b - 0x61 + 10
    else if 0x41 <= b < 0x47 then b - 0x41 + 10
    else -1
  }

  function ShortValue(b: byte): int {
    if b == QUOTE || b == BACKSLASH || b == 0x2F then b
    else if b == 0x62 then 0x08
    else if b == 0x66 then 0x0C
    else if b == 0x6E then 0x0A
    else if b == 0x72 then 0x0D
    else if b == 0x74 then 0x09
    else -1
  }

  // A reader of what stands between the quotes: section 7 of RFC 8259, without
  // surrogate pairs. None for anything else.
  function Read(t: Bytes): Option<Bytes> {
    if t == [] then Some([])
    else if t[0] == QUOTE || t[0] < 0x20 then None
    else if t[0] != BACKSLASH then Prefixed([t[0]], Read(t[1..]))
    else if |t| < 2 then None
    else if ShortValue(t[1]) >= 0 then Prefixed([ShortValue(t[1])], Read(t[2..]))
    else if t[1] != 0x75 || |t| < 6 then None
    else
      var h, i, j, k := HexValue(t[2]), HexValue(t[3]), HexValue(t[4]), HexValue(t[5]);
      var c := h * 4096 + i * 256 + j * 16 + k;
      if h < 0 || i < 0 || j < 0 || k < 0 || !Scalar(c) then None else Prefixed(Encode(c), Read(t[6..]))
  }

  function Prefixed(head: Bytes, rest: Option<Bytes>): Option<Bytes> {
    match rest
    case None => None
    case Some(tail) => Some(head + tail)
  }

  lemma PrefixedAssociates(a: Bytes, b: Bytes, rest: Option<Bytes>)
    ensures Prefixed(a, Prefixed(b, rest)) == Prefixed(a + b, rest)
    ensures Prefixed([], rest) == rest
  {
    if rest.Some? {
      assert [] + rest.value == rest.value;
      assert a + (b + rest.value) == a + b + rest.value;
    }
  }

  lemma {:induction false} ReadPlain(head: Bytes, rest: Bytes)
    requires forall b | b in head :: b >= 0x20 && b != QUOTE && b != BACKSLASH
    ensures Read(head + rest) == Prefixed(head, Read(rest))
    decreases |head|
  {
    if head == [] {
      assert head + rest == rest;
      PrefixedAssociates([], [], Read(rest));
    } else {
      PrefixedAssociates([head[0]], head[1..], Read(rest));
      assert (head + rest)[0] == head[0] && (head + rest)[1..] == head[1..] + rest;
      assert head[0] in head && forall b | b in head[1..] :: b in head;
      ReadPlain(head[1..], rest);
      assert head == [head[0]] + head[1..];
    }
  }

  lemma HexRoundTrip(n: nat)
    requires n < 16
    ensures HexValue(HexDigit(n)) == n
  {
  }

  lemma HexDigits(c: nat)
    ensures c / 16 / 16 / 16 * 4096 + c / 16 / 16 % 16 * 256 + c / 16 % 16 * 16 + c % 16 == c
  {
  }

  lemma ReadLong(c: nat, rest: Bytes)
    requires c < 0x1_0000 && Scalar(c)
    ensures Read(LongEscape(c) + rest) == Prefixed(Encode(c), Read(rest))
  {
    hide HexValue, HexDigit, Encode, Prefixed;
    var e := LongEscape(c);
    var t := e + rest;
    assert ShortValue(0x75) < 0;
    assert t[0] == e[0] && t[1] == e[1] && t[2] == e[2] && t[3] == e[3] && t[4] == e[4] && t[5] == e[5];
    assert t[6..] == rest;
    HexRoundTrip(c / 16 / 16 / 16);
    HexRoundTrip(c / 16 / 16 % 16);
    HexRoundTrip(c / 16 % 16);
    HexRoundTrip(c % 16);
    HexDigits(c);
  }

  lemma ReadHead(s: Bytes, rest: Bytes)
    requires s != []
    ensures Read(EscapeHead(s) + rest)
         == Prefixed(if SequenceLength(s) == 0 then Encode(RUNE_ERROR) else s[..DecodeRune(s).1], Read(rest))
  {
    var (c, n) := DecodeRune(s);
    if SequenceLength(s) == 0 {
      ReadLong(RUNE_ERROR, rest);
    } else {
      DecodedIsEncoded(s);
      if c < 0x80 && ShortEscape(c) != 0 {
        var t := [BACKSLASH, ShortEscape(c)] + rest;
        assert t[0] == BACKSLASH && t[1] == ShortEscape(c) && t[2..] == rest;
      } else if EscapedLong(c) {
        ReadLong(c, rest);
      } else {
        ReadPlain(s[..n], rest);
      }
    }
  }

  /** Reading the literal gives the string back, with U+FFFD for every byte that
      is not UTF-8. */
  lemma {:induction false} LiteralRoundTrip(s: Bytes)
    ensures Literal(s)[0] == QUOTE && Literal(s)[|Literal(s)| - 1] == QUOTE
    ensures Literal(s)[1..|Literal(s)| - 1] == Escaped(s)
    ensures Read(Escaped(s)) == Some(Sanitized(s))
    decreases |s|
  {
    if s != [] {
      var rest := s[DecodeRune(s).1..];
      LiteralRoundTrip(rest);
      ReadHead(s, Escaped(rest));
    }
  }

  /** The literal holds no control character and nothing HTML would act on. */
  lemma {:induction false} LiteralIsHtmlSafe(s: Bytes)
    ensures forall b | b in Escaped(s) :: b >= 0x20 && b !in {0x3C, 0x3E, 0x26}
    decreases |s|
  {
    if s != [] {
      LiteralIsHtmlSafe(s[DecodeRune(s).1..]);
      HeadIsHtmlSafe(s);
    }
  }

  lemma HeadIsHtmlSafe(s: Bytes)
    requires s != []
    ensures forall b | b in EscapeHead(s) :: b >= 0x20 && b !in {0x3C, 0x3E, 0x26}
  {
    hide DecodeRune, SequenceLength;
    HeadRune(s);
    var (c, n) := DecodeRune(s);
    if SequenceLength(s) > 1 {
      TailsAreHigh(s);
    }
  }

  lemma TailsAreHigh(s: Bytes)
    requires s != [] && SequenceLength(s) > 1
    ensures forall b | b in s[..DecodeRune(s).1] :: b >= 0x80
  {
  }

  // ----- the literal is the shortest -----

  // The text holds none of the characters json.Marshal never leaves as they are,
  // beyond those no JSON string may hold: <, >, &, U+2028 and U+2029.
  ghost predicate Tame(t: Bytes) {
    && (forall b | b in t :: b !in {0x3C, 0x3E, 0x26})
    && (forall i | 0 <= i <= |t| - 3 :: !(t[i] == 0xE2 && t[i + 1] == 0x80 && t[i + 2] in {0xA8, 0xA9}))
  }

  lemma TameRest(t: Bytes, n: nat)
    requires Tame(t) && n <= |t|
    ensures Tame(t[n..])
  {
    assert forall b | b in t[n..] :: b in t;
    forall i | 0 <= i <= |t[n..]| - 3
      ensures !(t[n..][i] == 0xE2 && t[n..][i + 1] == 0x80 && t[n..][i + 2] in {0xA8, 0xA9})
    {
      assert t[n..][i] == t[n + i] && t[n..][i + 1] == t[n + i + 1] && t[n..][i + 2] == t[n + i + 2];
    }
  }

  // What the head of a text reads as: a byte left as it is, or a character.
  lemma ReadStep(t: Bytes, s: Bytes)
    requires t != [] && Read(t) == Some(s)
    ensures s != []
    ensures t[0] != BACKSLASH ==> t[0] == s[0] && t[0] >= 0x20 && t[0] != QUOTE && Read(t[1..]) == Some(s[1..])
    ensures t[0] == BACKSLASH ==> exists c, n: nat ::
      && Scalar(c) && n <= |t| && (n == 6 || (n == 2 && ShortValue(t[1]) == c))
      && Encode(c) <= s && Read(t[n..]) == Some(s[|Encode(c)|..])
  {
    hide Encode, HexValue, ShortValue;
    if t[0] == BACKSLASH {
      ShortRange(t[1]);
      if ShortValue(t[1]) >= 0 {
        var c := ShortValue(t[1]);
        EncodesSmall(c);
        assert s == [c] + Read(t[2..]).value;
        assert Encode(c) <= s && s[|Encode(c)|..] == Read(t[2..]).value;
        assert Read(t[2..]) == Some(s[|Encode(c)|..]);
      } else {
        var h, i, j, k := HexValue(t[2]), HexValue(t[3]), HexValue(t[4]), HexValue(t[5]);
        var c := h * 4096 + i * 256 + j * 16 + k;
        assert s == Encode(c) + Read(t[6..]).value;
        assert Read(t[6..]) == Some(s[|Encode(c)|..]);
      }
    } else {
      assert s == [t[0]] + Read(t[1..]).value;
    }
  }

  lemma ShortRange(b: byte)
    ensures ShortValue(b) < 0x80
  {
  }

  lemma EncodesSmall(c: int)
    requires 0 <= c < 0x80
    ensures Scalar(c) && Encode(c) == [c]
  {
  }

  lemma EncodeStarts(c: int)
    requires Scalar(c)
    ensures !Tail(Encode(c)[0])
  {
    hide Joined, Split;
  }

  lemma ReadTail(t: Bytes, s: Bytes)
    requires t != [] && s != [] && Read(t) == Some(s) && Tail(s[0])
    ensures t[0] == s[0] && Read(t[1..]) == Some(s[1..])
  {
    ReadStep(t, s);
    hide Encode, Read, Tail;
    if t[0] == BACKSLASH {
      var c, m: nat :| Scalar(c) && m <= |t| && Encode(c) <= s && Read(t[m..]) == Some(s[|Encode(c)|..]);
      EncodeStarts(c);
    }
  }

  // A tail byte was left as it is.
  lemma {:induction false} ReadTails(t: Bytes, s: Bytes, n: nat)
    requires Read(t) == Some(s) && n <= |s| && forall i | 0 <= i < n :: Tail(s[i])
    ensures n <= |t| && t[..n] == s[..n] && Read(t[n..]) == Some(s[n..])
    decreases n
  {
    ReadsNothing();
    hide Encode, Read, Tail;
    if n == 0 {
      assert t[0..] == t && s[0..] == s;
    } else {
      assert t != [];
      ReadTail(t, s);
      ReadTails(t[1..], s[1..], n - 1);
      assert t[1..][n - 1..] == t[n..] && s[1..][n - 1..] == s[n..];
      assert t[..n] == [t[0]] + t[1..][..n - 1] && s[..n] == [s[0]] + s[1..][..n - 1];
    }
  }

  lemma TailBytes(s: Bytes)
    requires s != [] && SequenceLength(s) > 1
    ensures forall i | 1 <= i < SequenceLength(s) :: Tail(s[i])
  {
  }

  lemma EscapeCost(s: Bytes)
    requires s != [] && SequenceLength(s) > 0
    ensures |EscapeHead(s)| <= 6
    ensures DecodeRune(s).0 < 0x80 && ShortEscape(s[0]) != 0 ==> |EscapeHead(s)| == 2
    ensures s[0] < 0x80 && s[0] >= 0x20 && s[0] !in {0x3C, 0x3E, 0x26, QUOTE, BACKSLASH} ==> |EscapeHead(s)| == 1
    ensures s[0] >= 0x80 && DecodeRune(s).0 !in {0x2028, 0x2029} ==> |EscapeHead(s)| == SequenceLength(s)
  {
    hide DecodeRune, SequenceLength;
    HeadRune(s);
  }

  lemma JoinedSeparators()
    ensures Joined(Groups(0, 2, 0, 40)) == 0x2028 && Joined(Groups(0, 2, 0, 41)) == 0x2029
  {
  }

  // The two separators in UTF-8.
  lemma SeparatorBytes(s: Bytes)
    requires s != [] && SequenceLength(s) > 0 && DecodeRune(s).0 in {0x2028, 0x2029}
    ensures SequenceLength(s) == 3 && s[0] == 0xE2 && s[1] == 0x80 && s[2] in {0xA8, 0xA9}
  {
    hide Joined, Split, Scalar;
    JoinedSeparators();
    var n := SequenceLength(s);
    if n > 1 {
      JoinedInjective(Payload(s), Groups(0, 2, 0, if DecodeRune(s).0 == 0x2028 then 40 else 41));
    }
  }

  // How much of a text the head of the string takes, where it was escaped.
  lemma EscapeIsShortest(t: Bytes, s: Bytes) returns (n: nat)
    requires t != [] && t[0] == BACKSLASH && Read(t) == Some(s) && s != [] && SequenceLength(s) > 0
    ensures n <= |t| && |EscapeHead(s)| <= n && Read(t[n..]) == Some(s[DecodeRune(s).1..])
  {
    hide Read, EscapeHead, DecodeRune, SequenceLength, Encode, ShortValue, ShortEscape;
    ReadStep(t, s);
    EscapeCost(s);
    var c, m: nat :| Scalar(c) && m <= |t| && (m == 6 || (m == 2 && ShortValue(t[1]) == c))
                     && Encode(c) <= s && Read(t[m..]) == Some(s[|Encode(c)|..]);
    n := m;
    assert s == Encode(c) + s[|Encode(c)|..];
    DecodeEncoded(c, s[|Encode(c)|..]);
    if m == 2 {
      ShortRange(t[1]);
      EncodesSmall(c);
      ShortIsShort(t[1]);
    }
  }

  // Where it was left as it is.
  lemma PlainIsShortest(t: Bytes, s: Bytes) returns (n: nat)
    requires t != [] && t[0] != BACKSLASH && Read(t) == Some(s) && s != [] && SequenceLength(s) > 0 && Tame(t)
    ensures n <= |t| && |EscapeHead(s)| <= n && Read(t[n..]) == Some(s[DecodeRune(s).1..])
  {
    hide Read, EscapeHead, DecodeRune, SequenceLength, Encode, ShortValue, ShortEscape, Tail;
    ReadStep(t, s);
    EscapeCost(s);
    HeadRune(s);
    if s[0] < 0x80 {
      n := 1;
      assert t[0] in t;
    } else {
      n := SequenceLength(s);
      TailBytes(s);
      ReadTails(t[1..], s[1..], n - 1);
      assert t[1..][n - 1..] == t[n..] && s[1..][n - 1..] == s[n..];
      assert forall i | 1 <= i < n :: t[i] == t[1..][..n - 1][i - 1] == s[1..][..n - 1][i - 1] == s[i];
      NoSeparator(t, s, n);
    }
  }

  lemma NoSeparator(t: Bytes, s: Bytes, n: nat)
    requires Tame(t) && s != [] && SequenceLength(s) == n > 1 && n <= |t|
    requires forall i | 0 <= i < n :: t[i] == s[i]
    ensures DecodeRune(s).0 !in {0x2028, 0x2029}
  {
    hide DecodeRune, SequenceLength;
    if DecodeRune(s).0 in {0x2028, 0x2029} {
      SeparatorBytes(s);
      assert false;
    }
  }

  // A two-byte escape is read only where at most two bytes are written.
  lemma ShortIsShort(b: byte)
    requires ShortValue(b) >= 0
    ensures ShortEscape(ShortValue(b)) != 0 || ShortValue(b) == 0x2F
  {
  }

  lemma ReadsNothing()
    ensures Read([]) == Some([])
  {
  }

  /** For a string in UTF-8 no tame text that reads back as the string is shorter
      than the literal json.Marshal writes. */
  lemma {:induction false} LiteralIsShortest(t: Bytes, s: Bytes)
    requires ValidUtf8(s) && Read(t) == Some(s) && Tame(t)
    ensures |Literal(s)| <= 2 + |t|
    decreases |s|
  {
    hide EscapeHead, DecodeRune, SequenceLength, Read, Tame;
    if s != [] {
      ReadsNothing();
      var n: nat;
      if t[0] == BACKSLASH {
        n := EscapeIsShortest(t, s);
      } else {
        n := PlainIsShortest(t, s);
      }
      TameRest(t, n);
      LiteralIsShortest(t[n..], s[DecodeRune(s).1..]);
    }
  }

  lemma TameHead(s: Bytes, rest: Bytes)
    requires s != [] && Tame(rest)
    ensures Tame(EscapeHead(s) + rest)
  {
    hide EscapeHead, DecodeRune, SequenceLength;
    var head := EscapeHead(s);
    var t := head + rest;
    HeadIsHtmlSafe(s);
    HeadLead(s);
    forall i | 0 <= i <= |t| - 3 ensures !(t[i] == 0xE2 && t[i + 1] == 0x80 && t[i + 2] in {0xA8, 0xA9}) {
      if i >= |head| {
        assert t[i] == rest[i - |head|] && t[i + 1] == rest[i + 1 - |head|] && t[i + 2] == rest[i + 2 - |head|];
      }
    }
  }

  // A lead byte 0xE2 stands only at the head of three bytes that are no separator.
  lemma HeadLead(s: Bytes)
    requires s != []
    ensures var head := EscapeHead(s);
      && (forall i | 1 <= i < |head| :: head[i] != 0xE2)
      && (head != [] && head[0] == 0xE2 ==>
            |head| == 3 && !(head[1] == 0x80 && head[2] in {0xA8, 0xA9}))
  {
    hide Joined, Split;
    if SequenceLength(s) > 1 {
      TailBytes(s);
      DecodedIsEncoded(s);
      if s[0] == 0xE2 && s[1] == 0x80 && s[2] in {0xA8, 0xA9} {
        SeparatorRune(s);
      }
    }
  }

  lemma SeparatorRune(s: Bytes)
    requires |s| >= 3 && s[0] == 0xE2 && s[1] == 0x80 && s[2] in {0xA8, 0xA9}
    ensures SequenceLength(s) == 3 && DecodeRune(s).0 in {0x2028, 0x2029}
  {
  }

  /** The literal is tame itself, so it is a shortest text of its string. */
  lemma {:induction false} LiteralIsTame(s: Bytes)
    ensures Tame(Escaped(s))
    decreases |s|
  {
    hide Tame, EscapeHead;
    if s != [] {
      LiteralIsTame(s[DecodeRune(s).1..]);
      TameHead(s, Escaped(s[DecodeRune(s).1..]));
    } else {
      TameNothing();
    }
  }

  lemma TameNothing()
    ensures Tame([])
  {
  }

  /** A byte that starts no sequence is written as \ufffd, six bytes. */
  lemma StrayByteTakesSix(s: Bytes)
    requires s != [] && SequenceLength(s) == 0
    ensures Escaped(s) == [0x5C, 0x75, 0x66, 0x66, 0x66, 0x64] + Escaped(s[1..])
  {
    assert LongEscape(RUNE_ERROR) == [0x5C, 0x75, 0x66, 0x66, 0x66, 0x64];
  }

  // ----- Sanitized -----

  ghost predicate ValidUtf8(s: Bytes)
    decreases |s|
  {
    s == [] || (SequenceLength(s) > 0 && ValidUtf8(s[DecodeRune(s).1..]))
  }

  /** UTF-8 comes through unchanged, and what comes through is always UTF-8. */
  lemma {:induction false} SanitizedExactly(s: Bytes)
    ensures ValidUtf8(Sanitized(s))
    ensures Sanitized(s) == s <==> ValidUtf8(s)
    decreases |s|
  {
    hide DecodeRune, Encode;
    if s != [] {
      var n := DecodeRune(s).1;
      var head := if SequenceLength(s) == 0 then Encode(RUNE_ERROR) else s[..n];
      var tail := Sanitized(s[n..]);
      SanitizedExactly(s[n..]);
      CleanHead(s, head, tail);
      assert (head + tail)[|head|..] == tail && s == s[..n] + s[n..];
      if Sanitized(s) == s && SequenceLength(s) > 0 {
        assert tail == s[n..];
      }
    }
  }

  lemma CleanHead(s: Bytes, head: Bytes, tail: Bytes)
    requires s != []
    requires head == if SequenceLength(s) == 0 then Encode(RUNE_ERROR) else s[..DecodeRune(s).1]
    ensures head != [] && SequenceLength(head + tail) == |head| == DecodeRune(head + tail).1
  {
    hide DecodeRune, Encode;
    if SequenceLength(s) > 0 {
      DecodedIsEncoded(s);
      DecodeEncoded(DecodeRune(s).0, tail);
    } else {
      DecodeEncoded(RUNE_ERROR, tail);
    }
  }
}

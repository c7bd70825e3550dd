/** projectFingerprintEncoder as internal/config/project_fingerprint.go writes
    it: an embedded buffer that every writer appends to. */
module FingerprintEncoder {
  import opened Integers
  import opened Wrappers
  import opened ByteEncoding
  import opened FingerprintTypes
  import opened FingerprintValues
  import opened FingerprintExact

  class ProjectFingerprintEncoder {
    var buffer: string

    constructor ()
      ensures buffer == []
    {
      buffer := [];
    }

    method WriteByte(c: char)
      modifies this
      ensures buffer == old(buffer) + [c]
    {
      buffer := buffer + [c];
    }

    method WriteBool(value: bool)
      modifies this
      ensures buffer == old(buffer) + Flag(value)
    {
      if value {
        WriteByte(Byte(1));
        return;
      }
      WriteByte(Byte(0));
    }

    method WriteString(value: string)
      requires |value| < TWO_TO_THE_64
      modifies this
      ensures buffer == old(buffer) + Text(value)
    {
      var length := new char[10];
      var written := PutUvarint(length, |value|);
      buffer := buffer + length[..written];
      buffer := buffer + value;
    }

    method WriteUint64(value: uint64)
      modifies this
      ensures buffer == old(buffer) + Word(value)
    {
      var encoded := new char[8];
      PutUint64(encoded, value);
      buffer := buffer + encoded[..];
    }

    method WriteType(t: GoType)
      requires |Package(t)| < TWO_TO_THE_64 && |Name(t)| < TWO_TO_THE_64
      modifies this
      ensures buffer == old(buffer) + Header(t)
    {
      hide Text, Name, Package;
      WriteString(Package(t));
      WriteString(Name(t));
      WriteByte(Byte(Kind(t)));
    }

    method WriteTime(s: Stamp)
      requires |s.zone| < TWO_TO_THE_64
      modifies this
      ensures buffer == old(buffer) + StampBytes(s)
    {
      hide Word, Unsigned, Text;
      ghost var before := buffer;
      WriteUint64(Unsigned(s.year));
      WriteUint64(Unsigned(s.month));
      WriteUint64(Unsigned(s.day));
      WriteUint64(Unsigned(s.hour));
      WriteUint64(Unsigned(s.minute));
      WriteUint64(Unsigned(s.second));
      WriteUint64(Unsigned(s.nanosecond));
      WriteString(s.zone);
      WriteUint64(Unsigned(s.offset));
    }

    method WriteLocalDate(d: Date)
      modifies this
      ensures buffer == old(buffer) + DateBytes(d)
    {
      WriteUint64(Unsigned(d.year));
      WriteUint64(Unsigned(d.month));
      WriteUint64(Unsigned(d.day));
    }

    method WriteLocalTime(t: Time)
      modifies this
      ensures buffer == old(buffer) + TimeBytes(t)
    {
      WriteUint64(Unsigned(t.hour));
      WriteUint64(Unsigned(t.minute));
      WriteUint64(Unsigned(t.second));
      WriteUint64(Unsigned(t.nanosecond));
      WriteUint64(Unsigned(t.precision));
    }

    // Returns whether the value could be encoded; a failure may leave a part of
    // its bytes behind.
    method WriteValue(value: Value) returns (ok: bool)
      requires WellTyped(value)
      modifies this
      ensures ok <==> Encode(value).Some?
      ensures ok ==> buffer == old(buffer) + Encode(value).value
      decreases value, 1, 0
    {
      hide Encode, Body, WellTyped, Header, Name, Encodes;
      var v := value;
      while v.Interface?
        invariant WellTyped(v) && Encode(v) == Encode(value) && buffer == old(buffer)
        invariant v == value || (!v.Interface? && value.Interface? && value.content == Some(v))
        decreases v
      {
        Unwrap(v);
        if v.content.None? {
          return false;
        }
        v := v.content.value;
      }
      NameFits(v);
      WriteType(TypeOf(v));
      EncodesExactly(v);
      if v.Array? || v.Slice? {
        ok := WriteSequence(v);
      } else if v.Map? {
        ok := WriteMap(v);
      } else {
        ok := WriteLeaf(v);
      }
    }

    method WriteLeaf(v: Value) returns (ok: bool)
      requires WellTyped(v) && !(v.Interface? || v.Array? || v.Slice? || v.Map?)
      modifies this
      ensures ok <==> Encodes(v)
      ensures ok ==> buffer == old(buffer) + Body(v)
    {
      hide Header, Name, Word, Text, Flag, DateBytes, TimeBytes, StampBytes;
      match v {
        case Bool(b) =>
          WriteBool(b);
        case Str(s) =>
          WriteString(s);
        case Int(_, n) =>
          WriteUint64(Unsigned(n));
        case Uint(_, u) =>
          WriteUint64(u);
        case Float32(bits) =>
          WriteUint64(bits);
        case Float64(bits) =>
          WriteUint64(bits);
        case Instant(s, _) =>
          WriteTime(s);
        case LocalDate(d) =>
          WriteLocalDate(d);
        case LocalTime(t) =>
          WriteLocalTime(t);
        case LocalDateTime(d, t) =>
          WriteLocalDate(d);
          WriteLocalTime(t);
        case Func(_) =>
          return false;
      }
      return true;
    }

    method WriteSequence(v: Value) returns (ok: bool)
      requires WellTyped(v) && (v.Array? || v.Slice?)
      modifies this
      ensures ok <==> Encodes(v)
      ensures ok ==> buffer == old(buffer) + Body(v)
      decreases v, 0, 1
    {
      hide Encode, Body, WellTyped, EncodeItems, Header, Word, Flag;
      EncodesItems(v);
      if v.Slice? {
        WriteBool(v.isNil);
      }
      WriteUint64(|v.items|);
      ghost var before := buffer;
      ok := WriteItems(v);
      if ok {
        SequenceBody(v);
      }
    }

    method WriteMap(v: Value) returns (ok: bool)
      requires WellTyped(v) && v.Map?
      modifies this
      ensures ok <==> Encodes(v)
      ensures ok ==> buffer == old(buffer) + Body(v)
      decreases v, 0, 1
    {
      hide Encode, Body, WellTyped, EncodeEntries, Header, Word, Flag, SortedKeys, Sorted, Below;
      EncodesEntries(v);
      WriteBool(v.isNil);
      var keys := MapKeys(v.entries);
      var sorted := SortKeys(keys, v.entries.Keys);
      WriteUint64(|sorted|);
      ok := WriteEntries(v, sorted);
      if ok {
        MapBody(v);
      }
    }

    method WriteItems(v: Value) returns (ok: bool)
      requires WellTyped(v) && (v.Array? || v.Slice?)
      modifies this
      ensures ok <==> EncodeItems(v, 0).Some?
      ensures ok ==> buffer == old(buffer) + EncodeItems(v, 0).value
      decreases v, 0, 0
    {
      hide Encode, EncodeItems, WellTyped;
      var index := 0;
      ghost var written := "";
      JoinAssociates([], [], EncodeItems(v, 0));
      while index < |v.items|
        invariant 0 <= index <= |v.items|
        invariant buffer == old(buffer) + written
        invariant EncodeItems(v, 0) == Joined(written, EncodeItems(v, index))
      {
        ItemEncodes(v, index);
        ok := WriteValue(v.items[index]);
        if !ok {
          return;
        }
        JoinAssociates(written, Encode(v.items[index]).value, EncodeItems(v, index + 1));
        written := written + Encode(v.items[index]).value;
        index := index + 1;
      }
      ItemEncodes(v, index);
      JoinAssociates(written, [], None);
      return true;
    }

    method WriteEntries(v: Value, keys: seq<string>) returns (ok: bool)
      requires WellTyped(v) && v.Map? && forall k | k in keys :: k in v.entries
      modifies this
      ensures ok <==> EncodeEntries(v, keys).Some?
      ensures ok ==> buffer == old(buffer) + EncodeEntries(v, keys).value
      decreases v, 0, 0
    {
      hide Encode, EncodeEntries, WellTyped, Text;
      var index := 0;
      ghost var written := "";
      JoinAssociates([], [], EncodeEntries(v, keys));
      assert keys[0..] == keys;
      while index < |keys|
        invariant 0 <= index <= |keys|
        invariant buffer == old(buffer) + written
        invariant EncodeEntries(v, keys) == Joined(written, EncodeEntries(v, keys[index..]))
      {
        var key := keys[index];
        EntryEncodes(v, keys[index..]);
        WriteString(key);
        ok := WriteValue(v.entries[key]);
        if !ok {
          return;
        }
        assert keys[index..][1..] == keys[index + 1..];
        JoinAssociates(written, Text(key) + Encode(v.entries[key]).value, EncodeEntries(v, keys[index + 1..]));
        written := written + (Text(key) + Encode(v.entries[key]).value);
        index := index + 1;
      }
      EntryEncodes(v, keys[index..]);
      JoinAssociates(written, [], None);
      return true;
    }
  }

  // Whether a value that is not an interface can be written.
  ghost predicate Encodes(v: Value)
    requires WellTyped(v) && !v.Interface?
  {
    Encode(v).Some?
  }

  lemma Unwrap(v: Value)
    requires v.Interface? && WellTyped(v)
    ensures v.content.None? ==> Encode(v).None?
    ensures v.content.Some? ==>
      var w := v.content.value;
      !w.Interface? && WellTyped(w) && Encode(v) == Encode(w)
  {
  }

  lemma NameFits(v: Value)
    requires WellTyped(v)
    ensures |Name(TypeOf(v))| < TWO_TO_THE_64
  {
  }

  lemma EncodesExactly(v: Value)
    requires WellTyped(v) && !v.Interface?
    ensures Encodes(v) <==> Encode(v).Some?
    ensures Encodes(v) ==> Encode(v).value == Header(TypeOf(v)) + Body(v)
  {
    hide Encode, Header, Body;
    if Encodes(v) {
      BodyFollowsHeader(v);
    }
  }

  lemma EncodesItems(v: Value)
    requires WellTyped(v) && (v.Array? || v.Slice?)
    ensures Encodes(v) <==> EncodeItems(v, 0).Some?
    ensures |v.items| < TWO_TO_THE_64
  {
  }

  lemma EncodesEntries(v: Value)
    requires WellTyped(v) && v.Map?
    ensures Encodes(v) <==> EncodeEntries(v, SortedKeys(v.entries.Keys)).Some?
    ensures |v.entries| < TWO_TO_THE_64
  {
  }

  lemma ItemEncodes(v: Value, i: nat)
    requires WellTyped(v) && (v.Array? || v.Slice?) && i <= |v.items|
    ensures i == |v.items| ==> EncodeItems(v, i) == Some([])
    ensures i < |v.items| ==>
      var item := v.items[i];
      && WellTyped(item)
      && EncodeItems(v, i) ==
         if Encode(item).None? then None else Joined(Encode(item).value, EncodeItems(v, i + 1))
  {
  }

  lemma EntryEncodes(v: Value, keys: seq<string>)
    requires WellTyped(v) && v.Map? && forall k | k in keys :: k in v.entries
    ensures keys == [] ==> EncodeEntries(v, keys) == Some([])
    ensures keys != [] ==>
      var item := v.entries[keys[0]];
      && WellTyped(item) && |keys[0]| < TWO_TO_THE_64
      && EncodeEntries(v, keys) ==
         if Encode(item).None? then None
         else Joined(Text(keys[0]) + Encode(item).value, EncodeEntries(v, keys[1..]))
  {
    hide Encode, Text;
    if keys != [] && Encode(v.entries[keys[0]]).Some? {
      JoinAssociates(Text(keys[0]), Encode(v.entries[keys[0]]).value, EncodeEntries(v, keys[1..]));
    }
  }

  lemma JoinAssociates(a: string, b: string, rest: Option<string>)
    ensures Joined(a, Joined(b, rest)) == Joined(a + b, rest)
    ensures Joined([], rest) == rest && Joined(a, Some([])) == Some(a)
  {
    if rest.Some? {
      assert a + (b + rest.value) == a + b + rest.value && [] + rest.value == rest.value;
    }
    assert a + [] == a;
  }

  function Power128(width: nat): nat {
    if width == 0 then 1 else 128 * Power128(width - 1)
  }

  // binary.PutUvarint.
  method PutUvarint(target: array<char>, value: uint64) returns (written: nat)
    requires target.Length >= 10
    modifies target
    ensures written <= target.Length && target[..written] == Uvarint(value)
  {
    var x: nat := value;
    written := 0;
    ghost var room := 10;
    while x >= 128
      invariant written + room == 10 && room > 0 && x < Power128(room)
      invariant target[..written] + Uvarint(x) == Uvarint(value)
    {
      ghost var sofar := target[..written];
      var low := Byte(x % 128 + 128);
      assert sofar + ([low] + Uvarint(x / 128)) == sofar + [low] + Uvarint(x / 128);
      target[written] := low;
      x := x / 128;
      written := written + 1;
      room := room - 1;
      assert target[..written] == sofar + [low];
    }
    target[written] := Byte(x);
    written := written + 1;
  }

  // binary.BigEndian.PutUint64.
  method PutUint64(target: array<char>, value: uint64)
    requires target.Length == 8
    modifies target
    ensures target[..] == Word(value)
  {
    var x: nat := value;
    var i := 8;
    while i > 0
      invariant 0 <= i <= 8
      invariant BigEndian(x, i) + target[i..] == Word(value)
    {
      i := i - 1;
      target[i] := Byte(x % 256);
      x := x / 256;
    }
  }

  // A listing of a set without repetition.
  ghost predicate Lists(keys: seq<string>, all: set<string>) {
    |keys| == |all| && forall k :: k in keys <==> k in all
  }

  // reflect.Value.MapKeys: every key once, in no particular order.
  method MapKeys(m: map<string, Value>) returns (keys: seq<string>)
    ensures Lists(keys, m.Keys)
  {
    keys := [];
    var left := m.Keys;
    ghost var taken: set<string> := {};
    while left != {}
      invariant left + taken == m.Keys && left !! taken
      invariant Lists(keys, taken)
      decreases left
    {
      var key :| key in left;
      keys := keys + [key];
      taken := taken + {key};
      left := left - {key};
    }
    assert taken == m.Keys;
  }

  // sort.Slice with the byte order of strings, as an insertion sort.
  method SortKeys(unsorted: seq<string>, ghost all: set<string>) returns (keys: seq<string>)
    requires Lists(unsorted, all)
    ensures keys == SortedKeys(all)
  {
    keys := [];
    for n := 0 to |unsorted|
      invariant Sorted(keys) && |keys| == n
      invariant forall k :: k in keys <==> k in unsorted[..n]
    {
      var key := unsorted[n];
      ListedOnce(unsorted, all, n);
      assert key !in unsorted[..n];
      var at := 0;
      while at < n && Below(keys[at], key)
        invariant 0 <= at <= n
        invariant forall i | 0 <= i < at :: Below(keys[i], key)
      {
        at := at + 1;
      }
      assert unsorted[..n + 1] == unsorted[..n] + [key];
      InsertKeepsSorted(keys, key, at);
      keys := keys[..at] + [key] + keys[at..];
    }
    assert unsorted[..|unsorted|] == unsorted;
    SortedUnique(keys, SortedKeys(all));
  }

  lemma InsertKeepsSorted(keys: seq<string>, key: string, at: nat)
    requires Sorted(keys) && at <= |keys| && key !in keys
    requires forall i | 0 <= i < at :: Below(keys[i], key)
    requires at < |keys| ==> !Below(keys[at], key)
    ensures Sorted(keys[..at] + [key] + keys[at..])
    ensures forall k :: k in keys[..at] + [key] + keys[at..] <==> k in keys || k == key
  {
    hide Below;
    assert keys == keys[..at] + keys[at..];
    forall i | at <= i < |keys| ensures Below(key, keys[i]) {
      BelowTotal(key, keys[at]);
      if i > at { BelowTransitive(key, keys[at], keys[i]); }
    }
  }

  lemma {:induction false} SetOfDistinct(keys: seq<string>)
    ensures |set k | k in keys| <= |keys|
    ensures |set k | k in keys| == |keys| ==> forall i, j | 0 <= i < j < |keys| :: keys[i] != keys[j]
    decreases |keys|
  {
    if keys != [] {
      var last := |keys| - 1;
      var init := keys[..last];
      SetOfDistinct(init);
      var a, b := (set k | k in keys), set k | k in init;
      assert keys == init + [keys[last]];
      assert a == b + {keys[last]};
      if keys[last] in b {
        assert a == b;
      }
      forall i, j | 0 <= i < j < |keys| && |a| == |keys| ensures keys[i] != keys[j] {
        assert keys[i] == init[i];
        if j < last {
          assert keys[j] == init[j];
        } else {
          assert keys[i] in b;
        }
      }
    }
  }

  lemma ListedOnce(keys: seq<string>, all: set<string>, n: nat)
    requires Lists(keys, all) && n < |keys|
    ensures keys[n] !in keys[..n]
  {
    assert (set k | k in keys) == all;
    SetOfDistinct(keys);
  }

  lemma {:induction false} SortedUnique(a: seq<string>, b: seq<string>)
    requires Sorted(a) && Sorted(b) && forall k :: k in a <==> k in b
    ensures a == b
    decreases |a|
  {
    hide Below;
    if a != [] {
      assert a[0] in b;
      assert b[0] in a;
      BelowTotal(a[0], b[0]);
      assert a[0] == b[0];
      BelowTotal(a[0], a[0]);
      assert a[0] !in a[1..] && b[0] !in b[1..];
      assert a == [a[0]] + a[1..] && b == [b[0]] + b[1..];
      assert forall k :: k in a[1..] <==> k in a && k != a[0];
      assert forall k :: k in b[1..] <==> k in b && k != b[0];
      SortedUnique(a[1..], b[1..]);
    } else {
      NothingListed(b);
    }
  }

  lemma NothingListed(keys: seq<string>)
    requires forall k :: k !in keys
    ensures keys == []
  {
    if keys != [] {
      FirstListed(keys);
    }
  }

  lemma FirstListed(keys: seq<string>)
    requires keys != []
    ensures exists k :: k in keys
  {
    assert keys[0] in keys;
  }

  // Fingerprint up to the hash: the bytes SHA-256 is applied to, or None for a
  // registration whose entry cannot be encoded.
  method Fingerprint(raw: Value) returns (preimage: Option<string>)
    requires WellTyped(raw)
    ensures preimage == Preimage(raw)
  {
    hide Encode, Text, WellTyped;
    var encoder := new ProjectFingerprintEncoder();
    encoder.WriteString(DOMAIN);
    encoder.WriteString(VERSION);
    assert encoder.buffer == Text(DOMAIN) + Text(VERSION) by { assert [] + Text(DOMAIN) == Text(DOMAIN); }
    var ok := encoder.WriteValue(raw);
    JoinAssociates(Text(DOMAIN), Text(VERSION), Encode(raw));
    if !ok {
      return None;
    }
    return Some(encoder.buffer);
  }
}

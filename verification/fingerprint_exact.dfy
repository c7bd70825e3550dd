/** The pre-image of a project fingerprint agrees exactly with the structural
    equality the compare-and-swap uses. */
module FingerprintExact {
  import opened Integers
  import opened Wrappers
  import opened ByteEncoding
  import opened FingerprintTypes
  import opened FingerprintValues

  // ----- Same is an equivalence -----

  // Functions aside, every value is the same as itself: NaN bits included.
  lemma {:induction false} SameReflexive(v: Value)
    requires forall p | p in Parts(v) :: !p.Func?
    ensures Same(v, v)
  {
    assert v in Parts(v);
    match v
    case Array(_, items) =>
      forall i | 0 <= i < |items| ensures Same(items[i], items[i]) {
        assert forall p | p in Parts(items[i]) :: p in Parts(v);
        SameReflexive(items[i]);
      }
    case Slice(_, _, items) =>
      forall i | 0 <= i < |items| ensures Same(items[i], items[i]) {
        assert forall p | p in Parts(items[i]) :: p in Parts(v);
        SameReflexive(items[i]);
      }
    case Map(_, _, entries) =>
      forall k | k in entries ensures Same(entries[k], entries[k]) {
        assert forall p | p in Parts(entries[k]) :: p in Parts(v);
        SameReflexive(entries[k]);
      }
    case Interface(Some(w)) =>
      assert forall p | p in Parts(w) :: p in Parts(v);
      SameReflexive(w);
    case _ =>
  }

  // Maps of equal size whose left keys all occur on the right have the same keys.
  lemma SameKeys(l: map<string, Value>, r: map<string, Value>)
    requires |l| == |r| && forall k | k in l :: k in r
    ensures l.Keys == r.Keys
  {
    assert l.Keys <= r.Keys;
    Subset(l.Keys, r.Keys);
  }

  lemma Subset(a: set<string>, b: set<string>)
    requires a <= b && |a| == |b|
    ensures a == b
  {
    assert |b - a| == |b| - |a|;
  }

  // ----- what the comparison means -----

  // Functions are never the same unless both are nil.
  ghost predicate NilFuncs(v: Value) {
    forall p | p in Parts(v) :: p.Func? ==> p.isNil
  }

  lemma NilFuncsInside(v: Value)
    ensures v.Array? || v.Slice? ==> (NilFuncs(v) <==> forall i | 0 <= i < |v.items| :: NilFuncs(v.items[i]))
    ensures v.Map? ==> (NilFuncs(v) <==> forall k | k in v.entries :: NilFuncs(v.entries[k]))
    ensures v.Interface? && v.content.Some? ==> (NilFuncs(v) <==> NilFuncs(v.content.value))
    ensures !(v.Array? || v.Slice? || v.Map? || v.Interface? || v.Func?) ==> NilFuncs(v)
    ensures v == Interface(None) ==> NilFuncs(v)
    ensures v.Func? ==> (NilFuncs(v) <==> v.isNil)
  {
  }

  /** The comparison is equality, bit patterns of floats included, but for
      functions. */
  lemma {:induction false} SameMeansEqual(l: Value, r: Value)
    ensures Same(l, r) <==> l == r && NilFuncs(l)
    decreases l, 1
  {
    hide Parts, NilFuncs, Name;
    NilFuncsInside(l);
    match l
    case Array(_, items) =>
      if r.Array? { EqualItems(items, r.items); }
    case Slice(_, _, items) =>
      if r.Slice? { EqualItems(items, r.items); }
    case Map(_, _, entries) =>
      if r.Map? { EqualEntries(l, r); }
    case Interface(Some(w)) =>
      if r.Interface? && r.content.Some? { SameMeansEqual(w, r.content.value); }
    case _ =>
  }

  lemma {:induction false} EqualItems(l: seq<Value>, r: seq<Value>)
    ensures |l| == |r| && (forall i | 0 <= i < |l| :: Same(l[i], r[i])) <==>
      l == r && forall i | 0 <= i < |l| :: NilFuncs(l[i])
    decreases l
  {
    hide Same, NilFuncs;
    if |l| == |r| {
      forall i | 0 <= i < |l| { SameMeansEqual(l[i], r[i]); }
    }
  }

  lemma {:induction false} EqualEntries(l: Value, r: Value)
    requires l.Map? && r.Map?
    ensures |l.entries| == |r.entries|
              && (forall k | k in l.entries :: k in r.entries && Same(l.entries[k], r.entries[k])) <==>
      l.entries == r.entries && forall k | k in l.entries :: NilFuncs(l.entries[k])
    decreases l, 0
  {
    hide Same, NilFuncs;
    forall k | k in l.entries && k in r.entries { SameMeansEqual(l.entries[k], r.entries[k]); }
    if |l.entries| == |r.entries| && forall k | k in l.entries :: k in r.entries {
      SameKeys(l.entries, r.entries);
    }
  }

  // A value with what writeTime does not read of its times set to zero.
  function Shown(v: Value): Value {
    match v
    case Instant(stamp, _) => Instant(stamp, 0)
    case Array(elem, items) => Array(elem, seq(|items|, i requires 0 <= i < |items| => Shown(items[i])))
    case Slice(elem, isNil, items) =>
      Slice(elem, isNil, seq(|items|, i requires 0 <= i < |items| => Shown(items[i])))
    case Map(elem, isNil, entries) => Map(elem, isNil, map k | k in entries :: Shown(entries[k]))
    case Interface(Some(w)) => Interface(Some(Shown(w)))
    case _ => v
  }

  /** Comparing times by their stamps only is equality of what is shown. */
  lemma {:induction false} SameMeansShown(l: Value, r: Value)
    ensures Same(l, r, exact := false) <==> Shown(l) == Shown(r) && NilFuncs(l)
    decreases l, 1
  {
    hide Parts, NilFuncs, Name, Same, Shown;
    NilFuncsInside(l);
    SameInside(l, r);
    ShownInside(l);
    ShownInside(r);
    if (l.Array? && r.Array?) || (l.Slice? && r.Slice?) {
      ShownItems(l.items, r.items, Shown(l).items, Shown(r).items);
    } else if l.Map? && r.Map? {
      ShownEntries(l, r, Shown(l).entries, Shown(r).entries);
    } else if l.Interface? && r.Interface? && l.content.Some? && r.content.Some? {
      SameMeansShown(l.content.value, r.content.value);
    } else {
      LeavesShown(l, r);
    }
  }

  // The comparison of two containers, one level down.
  lemma SameInside(l: Value, r: Value)
    ensures (l.Array? && r.Array?) || (l.Slice? && r.Slice?) ==>
      (Same(l, r, exact := false) <==>
        && l.elem == r.elem && |l.items| == |r.items| && (l.Slice? ==> l.isNil == r.isNil)
        && forall i | 0 <= i < |l.items| :: Same(l.items[i], r.items[i], exact := false))
    ensures l.Map? && r.Map? ==>
      (Same(l, r, exact := false) <==>
        && l.elem == r.elem && l.isNil == r.isNil && |l.entries| == |r.entries|
        && forall k | k in l.entries :: k in r.entries && Same(l.entries[k], r.entries[k], exact := false))
    ensures l.Interface? && r.Interface? && l.content.Some? && r.content.Some? ==>
      (Same(l, r, exact := false) <==> Same(l.content.value, r.content.value, exact := false))
  {
    hide Name;
  }

  lemma ShownInside(v: Value)
    ensures v.Array? ==>
      var s := Shown(v);
      && s == Array(v.elem, s.items) && |s.items| == |v.items|
      && forall i | 0 <= i < |v.items| :: s.items[i] == Shown(v.items[i])
    ensures v.Slice? ==>
      var s := Shown(v);
      && s == Slice(v.elem, v.isNil, s.items) && |s.items| == |v.items|
      && forall i | 0 <= i < |v.items| :: s.items[i] == Shown(v.items[i])
    ensures v.Map? ==>
      var s := Shown(v);
      && s == Map(v.elem, v.isNil, s.entries) && s.entries.Keys == v.entries.Keys
      && forall k | k in v.entries :: s.entries[k] == Shown(v.entries[k])
    ensures v.Interface? && v.content.Some? ==> Shown(v) == Interface(Some(Shown(v.content.value)))
  {
  }

  // Everything else, and containers of different kinds.
  lemma LeavesShown(l: Value, r: Value)
    requires !((l.Array? && r.Array?) || (l.Slice? && r.Slice?) || (l.Map? && r.Map?))
    requires !(l.Interface? && r.Interface? && l.content.Some? && r.content.Some?)
    ensures Same(l, r, exact := false) <==> Shown(l) == Shown(r) && NilFuncs(l)
  {
    hide Parts, NilFuncs, Name;
    NilFuncsInside(l);
  }

  lemma {:induction false} ShownItems(l: seq<Value>, r: seq<Value>, a: seq<Value>, b: seq<Value>)
    requires |a| == |l| && |b| == |r|
    requires forall i | 0 <= i < |l| :: a[i] == Shown(l[i])
    requires forall i | 0 <= i < |r| :: b[i] == Shown(r[i])
    ensures |l| == |r| && (forall i | 0 <= i < |l| :: Same(l[i], r[i], exact := false)) <==>
      a == b && forall i | 0 <= i < |l| :: NilFuncs(l[i])
    decreases l
  {
    hide Same, NilFuncs, Shown;
    if |l| == |r| {
      forall i | 0 <= i < |l| { SameMeansShown(l[i], r[i]); }
    }
  }

  lemma {:induction false} ShownEntries(
    l: Value, r: Value, a: map<string, Value>, b: map<string, Value>)
    requires l.Map? && a.Keys == l.entries.Keys && forall k | k in l.entries :: a[k] == Shown(l.entries[k])
    requires r.Map? && b.Keys == r.entries.Keys && forall k | k in r.entries :: b[k] == Shown(r.entries[k])
    ensures |l.entries| == |r.entries|
              && (forall k | k in l.entries :: k in r.entries && Same(l.entries[k], r.entries[k], exact := false)) <==>
      a == b && forall k | k in l.entries :: NilFuncs(l.entries[k])
    decreases l, 0
  {
    hide Same, NilFuncs, Shown;
    forall k | k in l.entries && k in r.entries { SameMeansShown(l.entries[k], r.entries[k]); }
    if |l.entries| == |r.entries| && forall k | k in l.entries :: k in r.entries {
      SameKeys(l.entries, r.entries);
    }
    if a == b {
      assert l.entries.Keys == r.entries.Keys;
      assert |l.entries.Keys| == |l.entries| && |r.entries.Keys| == |r.entries|;
    }
  }

  // ----- values that are the same have the same encoding -----

  lemma {:induction false} SameEncodesEqually(l: Value, r: Value)
    requires WellTyped(l) && WellTyped(r) && Same(l, r, exact := false)
    ensures Encode(l) == Encode(r)
    decreases l, 1, 0
  {
    hide Header, Text, Word, Flag, DateBytes, TimeBytes, StampBytes, Name, EncodeItems, EncodeEntries;
    match l
    case Interface(Some(w)) =>
      SameEncodesEqually(w, r.content.value);
    case Array(_, items) =>
      SameItemsEncodeEqually(l, r, 0);
    case Slice(_, _, items) =>
      SameItemsEncodeEqually(l, r, 0);
    case Map(_, _, entries) =>
      SameKeys(entries, r.entries);
      SameEntriesEncodeEqually(l, r, SortedKeys(entries.Keys));
    case _ =>
  }

  lemma {:induction false} SameItemsEncodeEqually(l: Value, r: Value, i: nat)
    requires WellTyped(l) && WellTyped(r) && (l.Array? || l.Slice?) && (r.Array? || r.Slice?)
    requires i <= |l.items| == |r.items| && forall j | 0 <= j < |l.items| ::
        Same(l.items[j], r.items[j], exact := false)
    ensures EncodeItems(l, i) == EncodeItems(r, i)
    decreases l, 0, |l.items| - i
  {
    hide Encode, Same, Name;
    if i < |l.items| {
      SameEncodesEqually(l.items[i], r.items[i]);
      SameItemsEncodeEqually(l, r, i + 1);
    }
  }

  lemma {:induction false} SameEntriesEncodeEqually(l: Value, r: Value, keys: seq<string>)
    requires WellTyped(l) && WellTyped(r) && l.Map? && r.Map?
    requires forall k | k in keys ::
        k in l.entries && k in r.entries && Same(l.entries[k], r.entries[k], exact := false)
    ensures EncodeEntries(l, keys) == EncodeEntries(r, keys)
    decreases l, 0, |keys|
  {
    hide Encode, Same, Text, Name;
    if keys != [] {
      SameEncodesEqually(l.entries[keys[0]], r.entries[keys[0]]);
      SameEntriesEncodeEqually(l, r, keys[1..]);
    }
  }

  // ----- decoding: where an encoding ends, and what it was of -----

  lemma {:induction false} EncodingDecodes(l: Value, r: Value, s: string, t: string)
    requires WellTyped(l) && WellTyped(r) && (l.Interface? <==> r.Interface?)
    requires Encode(l).Some? && Encode(r).Some? && Encode(l).value + s == Encode(r).value + t
    ensures Same(l, r, exact := false) && s == t
    decreases l, 1, 0
  {
    hide Header, WellTyped, Encode, Body, Same;
    if l.Interface? {
      Unwrapped(l);
      Unwrapped(r);
      EncodingDecodes(l.content.value, r.content.value, s, t);
      SameContents(l, r);
    } else {
      BodyFollowsHeader(l);
      BodyFollowsHeader(r);
      var hl, hr := Header(TypeOf(l)), Header(TypeOf(r));
      assert Encode(l).value + s == hl + (Body(l) + s);
      assert Encode(r).value + t == hr + (Body(r) + t);
      HeaderDecodes(TypeOf(l), TypeOf(r), Body(l) + s, Body(r) + t);
      if l.Array? || l.Slice? {
        SequenceDecodes(l, r, s, t);
      } else if l.Map? {
        MapDecodes(l, r, s, t);
      } else {
        LeafDecodes(l, r, s, t);
      }
    }
  }

  lemma Unwrapped(v: Value)
    requires v.Interface? && WellTyped(v) && Encode(v).Some?
    ensures v.content.Some? && Encode(v) == Encode(v.content.value)
    ensures WellTyped(v.content.value) && !v.content.value.Interface?
  {
  }

  lemma SameContents(l: Value, r: Value)
    requires l.Interface? && r.Interface? && l.content.Some? && r.content.Some?
    requires Same(l.content.value, r.content.value, exact := false)
    ensures Same(l, r, exact := false)
  {
  }

  // What an encoding holds after the type header.
  ghost function Body(v: Value): string
    requires WellTyped(v) && !v.Interface? && Encode(v).Some?
  {
    match v
    case Bool(b) => Flag(b)
    case Str(s) => Text(s)
    case Int(_, n) => Word(Unsigned(n))
    case Uint(_, u) => Word(u)
    case Float32(bits) => Word(bits)
    case Float64(bits) => Word(bits)
    case Instant(s, _) => StampBytes(s)
    case LocalDate(d) => DateBytes(d)
    case LocalTime(t) => TimeBytes(t)
    case LocalDateTime(d, t) => DateBytes(d) + TimeBytes(t)
    case Array(_, items) => Word(|items|) + EncodeItems(v, 0).value
    case Slice(_, isNil, items) => Flag(isNil) + (Word(|items|) + EncodeItems(v, 0).value)
    case Map(_, isNil, entries) =>
      Flag(isNil) + (Word(|entries|) + EncodeEntries(v, SortedKeys(entries.Keys)).value)
  }

  lemma BodyFollowsHeader(v: Value)
    requires WellTyped(v) && !v.Interface? && Encode(v).Some?
    ensures Encode(v).value == Header(TypeOf(v)) + Body(v)
  {
    hide Header, Name, SortedKeys, EncodeItems, EncodeEntries;
  }

  lemma IntDecodes(m: int, n: int, s: string, t: string)
    requires Signed(m) && Signed(n) && Word(Unsigned(m)) + s == Word(Unsigned(n)) + t
    ensures m == n && s == t
  {
    WordDecodes(Unsigned(m), Unsigned(n), s, t);
    UnsignedInjective(m, n);
  }

  lemma DateDecodes(a: Date, b: Date, s: string, t: string)
    requires DateInRange(a) && DateInRange(b) && DateBytes(a) + s == DateBytes(b) + t
    ensures a == b && s == t
  {
    hide Word, Unsigned;
    var a2, b2 := Word(Unsigned(a.day)) + s, Word(Unsigned(b.day)) + t;
    var a1, b1 := Word(Unsigned(a.month)) + a2, Word(Unsigned(b.month)) + b2;
    assert DateBytes(a) + s == Word(Unsigned(a.year)) + a1;
    assert DateBytes(b) + t == Word(Unsigned(b.year)) + b1;
    IntDecodes(a.year, b.year, a1, b1);
    IntDecodes(a.month, b.month, a2, b2);
    IntDecodes(a.day, b.day, s, t);
  }

  lemma TimeDecodes(a: Time, b: Time, s: string, t: string)
    requires TimeInRange(a) && TimeInRange(b) && TimeBytes(a) + s == TimeBytes(b) + t
    ensures a == b && s == t
  {
    hide Word, Unsigned;
    var a4, b4 := Word(Unsigned(a.precision)) + s, Word(Unsigned(b.precision)) + t;
    var a3, b3 := Word(Unsigned(a.nanosecond)) + a4, Word(Unsigned(b.nanosecond)) + b4;
    var a2, b2 := Word(Unsigned(a.second)) + a3, Word(Unsigned(b.second)) + b3;
    var a1, b1 := Word(Unsigned(a.minute)) + a2, Word(Unsigned(b.minute)) + b2;
    assert TimeBytes(a) + s == Word(Unsigned(a.hour)) + a1;
    assert TimeBytes(b) + t == Word(Unsigned(b.hour)) + b1;
    IntDecodes(a.hour, b.hour, a1, b1);
    IntDecodes(a.minute, b.minute, a2, b2);
    IntDecodes(a.second, b.second, a3, b3);
    IntDecodes(a.nanosecond, b.nanosecond, a4, b4);
    IntDecodes(a.precision, b.precision, s, t);
  }

  lemma StampDecodes(a: Stamp, b: Stamp, s: string, t: string)
    requires StampInRange(a) && StampInRange(b) && StampBytes(a) + s == StampBytes(b) + t
    ensures a == b && s == t
  {
    hide Word, Unsigned, Text;
    var a8, b8 := Word(Unsigned(a.offset)) + s, Word(Unsigned(b.offset)) + t;
    var a7, b7 := Text(a.zone) + a8, Text(b.zone) + b8;
    var a6, b6 := Word(Unsigned(a.nanosecond)) + a7, Word(Unsigned(b.nanosecond)) + b7;
    var a5, b5 := Word(Unsigned(a.second)) + a6, Word(Unsigned(b.second)) + b6;
    var a4, b4 := Word(Unsigned(a.minute)) + a5, Word(Unsigned(b.minute)) + b5;
    var a3, b3 := Word(Unsigned(a.hour)) + a4, Word(Unsigned(b.hour)) + b4;
    var a2, b2 := Word(Unsigned(a.day)) + a3, Word(Unsigned(b.day)) + b3;
    var a1, b1 := Word(Unsigned(a.month)) + a2, Word(Unsigned(b.month)) + b2;
    assert StampBytes(a) + s == Word(Unsigned(a.year)) + a1;
    assert StampBytes(b) + t == Word(Unsigned(b.year)) + b1;
    IntDecodes(a.year, b.year, a1, b1);
    IntDecodes(a.month, b.month, a2, b2);
    IntDecodes(a.day, b.day, a3, b3);
    IntDecodes(a.hour, b.hour, a4, b4);
    IntDecodes(a.minute, b.minute, a5, b5);
    IntDecodes(a.second, b.second, a6, b6);
    IntDecodes(a.nanosecond, b.nanosecond, a7, b7);
    TextDecodes(a.zone, b.zone, a8, b8);
    IntDecodes(a.offset, b.offset, s, t);
  }

  lemma LeafDecodes(l: Value, r: Value, s: string, t: string)
    requires WellTyped(l) && WellTyped(r) && TypeOf(l) == TypeOf(r)
    requires Encode(l).Some? && Encode(r).Some?
    requires !(l.Array? || l.Slice? || l.Map? || l.Interface?)
    requires Body(l) + s == Body(r) + t
    ensures Same(l, r, exact := false) && s == t
  {
    hide Word, Unsigned, Flag, Text, DateBytes, TimeBytes, StampBytes, Header, Name, EncodeItems, EncodeEntries;
    hide SortedKeys;
    match l
    case Bool(b) => FlagDecodes(b, r.flag, s, t);
    case Str(x) => TextDecodes(x, r.text, s, t);
    case Int(_, n) => IntDecodes(n, r.n, s, t);
    case Uint(_, u) => WordDecodes(u, r.u, s, t);
    case Float32(bits) => WordDecodes(bits, r.bits, s, t);
    case Float64(bits) => WordDecodes(bits, r.bits, s, t);
    case Instant(x, _) => StampDecodes(x, r.stamp, s, t);
    case LocalDate(d) => DateDecodes(d, r.date, s, t);
    case LocalTime(x) => TimeDecodes(x, r.time, s, t);
    case LocalDateTime(d, x) =>
      assert Body(l) + s == DateBytes(d) + (TimeBytes(x) + s);
      assert Body(r) + t == DateBytes(r.date) + (TimeBytes(r.time) + t);
      DateDecodes(d, r.date, TimeBytes(x) + s, TimeBytes(r.time) + t);
      TimeDecodes(x, r.time, s, t);
    case Func(_) =>
  }

  lemma {:induction false} SequenceDecodes(l: Value, r: Value, s: string, t: string)
    requires WellTyped(l) && WellTyped(r) && TypeOf(l) == TypeOf(r)
    requires Encode(l).Some? && Encode(r).Some?
    requires l.Array? || l.Slice?
    requires Body(l) + s == Body(r) + t
    ensures Same(l, r, exact := false) && s == t
    decreases l, 0, |l.items| + 1
  {
    hide Word, Flag, Encode, Body, WellTyped, Same, EncodeItems;
    SequenceBody(l);
    SequenceBody(r);
    var nl, nr := |l.items|, |r.items|;
    var el, er := EncodeItems(l, 0).value + s, EncodeItems(r, 0).value + t;
    if l.Slice? {
      assert Body(l) + s == Flag(l.isNil) + (Word(nl) + el);
      assert Body(r) + t == Flag(r.isNil) + (Word(nr) + er);
      FlagDecodes(l.isNil, r.isNil, Word(nl) + el, Word(nr) + er);
    } else {
      assert Body(l) + s == Word(nl) + el;
      assert Body(r) + t == Word(nr) + er;
    }
    WordDecodes(nl, nr, el, er);
    ItemsDecode(l, r, 0, s, t);
    SameItems(l, r);
  }

  lemma SequenceBody(v: Value)
    requires (v.Array? || v.Slice?) && WellTyped(v) && Encode(v).Some?
    ensures |v.items| < TWO_TO_THE_64 && EncodeItems(v, 0).Some?
    ensures v.Array? ==> Body(v) == Word(|v.items|) + EncodeItems(v, 0).value
    ensures v.Slice? ==> Body(v) == Flag(v.isNil) + (Word(|v.items|) + EncodeItems(v, 0).value)
  {
  }

  lemma SameItems(l: Value, r: Value)
    requires l.Array? || l.Slice?
    requires TypeOf(l) == TypeOf(r) && |l.items| == |r.items| && (l.Slice? ==> l.isNil == r.isNil)
    requires forall i | 0 <= i < |l.items| :: Same(l.items[i], r.items[i], exact := false)
    ensures Same(l, r, exact := false)
  {
  }

  lemma {:induction false} MapDecodes(l: Value, r: Value, s: string, t: string)
    requires l.Map? && r.Map? && l.elem == r.elem
    requires WellTyped(l) && WellTyped(r) && Encode(l).Some? && Encode(r).Some?
    requires Body(l) + s == Body(r) + t
    ensures Same(l, r, exact := false) && s == t
    decreases l, 0, |l.entries| + 1
  {
    hide Word, Flag, Encode, Body, WellTyped, Same, EncodeEntries, SortedKeys, Sorted, Below;
    MapBody(l);
    MapBody(r);
    var kl, kr := SortedKeys(l.entries.Keys), SortedKeys(r.entries.Keys);
    var nl, nr := |l.entries|, |r.entries|;
    var el, er := EncodeEntries(l, kl).value + s, EncodeEntries(r, kr).value + t;
    assert Body(l) + s == Flag(l.isNil) + (Word(nl) + el);
    assert Body(r) + t == Flag(r.isNil) + (Word(nr) + er);
    FlagDecodes(l.isNil, r.isNil, Word(nl) + el, Word(nr) + er);
    WordDecodes(nl, nr, el, er);
    EntriesDecode(l, r, kl, kr, s, t);
    SameEntries(l, r);
  }

  lemma MapBody(v: Value)
    requires v.Map? && WellTyped(v) && Encode(v).Some?
    ensures |v.entries| < TWO_TO_THE_64
    ensures var keys := SortedKeys(v.entries.Keys);
      && EncodeEntries(v, keys).Some?
      && Body(v) == Flag(v.isNil) + (Word(|v.entries|) + EncodeEntries(v, keys).value)
  {
  }

  lemma SameEntries(l: Value, r: Value)
    requires l.Map? && r.Map? && l.elem == r.elem && l.isNil == r.isNil && |l.entries| == |r.entries|
    requires SortedKeys(l.entries.Keys) == SortedKeys(r.entries.Keys)
    requires forall k | k in SortedKeys(l.entries.Keys) ::
        k in l.entries && k in r.entries && Same(l.entries[k], r.entries[k], exact := false)
    ensures Same(l, r, exact := false)
  {
    assert forall k | k in l.entries :: k in SortedKeys(l.entries.Keys);
  }

  lemma {:induction false} ItemsDecode(l: Value, r: Value, i: nat, s: string, t: string)
    requires WellTyped(l) && WellTyped(r) && (l.Array? || l.Slice?) && (r.Array? || r.Slice?)
    requires l.elem == r.elem && i <= |l.items| == |r.items|
    requires EncodeItems(l, i).Some? && EncodeItems(r, i).Some?
    requires EncodeItems(l, i).value + s == EncodeItems(r, i).value + t
    ensures s == t && forall j | i <= j < |l.items| :: Same(l.items[j], r.items[j], exact := false)
    decreases l, 0, |l.items| - i
  {
    hide WellTyped, Encode, EncodeItems, Same;
    ItemsStep(l, i);
    ItemsStep(r, i);
    assert [] + s == s && [] + t == t;
    if i < |l.items| {
      var x, y := l.items[i], r.items[i];
      var sl, sr := EncodeItems(l, i + 1).value + s, EncodeItems(r, i + 1).value + t;
      Regroup(Encode(x).value, EncodeItems(l, i + 1).value, s);
      Regroup(Encode(y).value, EncodeItems(r, i + 1).value, t);
      SameTypeSameShape(x, y);
      EncodingDecodes(x, y, sl, sr);
      ItemsDecode(l, r, i + 1, s, t);
    }
  }

  // EncodeItems and WellTyped, one element unrolled.
  lemma ItemsStep(v: Value, i: nat)
    requires WellTyped(v) && (v.Array? || v.Slice?) && i <= |v.items| && EncodeItems(v, i).Some?
    ensures i == |v.items| ==> EncodeItems(v, i).value == []
    ensures i < |v.items| ==>
      && TypeOf(v.items[i]) == v.elem && WellTyped(v.items[i])
      && Encode(v.items[i]).Some? && EncodeItems(v, i + 1).Some?
      && EncodeItems(v, i).value == Encode(v.items[i]).value + EncodeItems(v, i + 1).value
  {
  }

  lemma SameTypeSameShape(x: Value, y: Value)
    requires TypeOf(x) == TypeOf(y)
    ensures x.Interface? <==> y.Interface?
  {
  }

  lemma {:induction false} EntriesDecode(l: Value, r: Value, kl: seq<string>, kr: seq<string>, s: string, t: string)
    requires WellTyped(l) && WellTyped(r) && l.Map? && r.Map? && l.elem == r.elem
    requires |kl| == |kr| && (forall k | k in kl :: k in l.entries) && (forall k | k in kr :: k in r.entries)
    requires EncodeEntries(l, kl).Some? && EncodeEntries(r, kr).Some?
    requires EncodeEntries(l, kl).value + s == EncodeEntries(r, kr).value + t
    ensures s == t && kl == kr && forall k | k in kl :: Same(l.entries[k], r.entries[k], exact := false)
    decreases l, 0, |kl|
  {
    hide WellTyped, Encode, EncodeEntries, Same, Text;
    EntriesStep(l, kl);
    EntriesStep(r, kr);
    assert [] + s == s && [] + t == t;
    if kl != [] {
      var a, b := kl[0], kr[0];
      var x, y := l.entries[a], r.entries[b];
      var sl, sr := EncodeEntries(l, kl[1..]).value + s, EncodeEntries(r, kr[1..]).value + t;
      Regroup(Encode(x).value, EncodeEntries(l, kl[1..]).value, s);
      Regroup(Encode(y).value, EncodeEntries(r, kr[1..]).value, t);
      Regroup(Text(a), Encode(x).value + EncodeEntries(l, kl[1..]).value, s);
      Regroup(Text(b), Encode(y).value + EncodeEntries(r, kr[1..]).value, t);
      TextDecodes(a, b, Encode(x).value + sl, Encode(y).value + sr);
      SameTypeSameShape(x, y);
      EncodingDecodes(x, y, sl, sr);
      EntriesDecode(l, r, kl[1..], kr[1..], s, t);
      assert kl == [a] + kl[1..] && kr == [b] + kr[1..];
    }
  }

  // EncodeEntries and WellTyped, one entry unrolled.
  lemma EntriesStep(v: Value, keys: seq<string>)
    requires WellTyped(v) && v.Map? && (forall k | k in keys :: k in v.entries) && EncodeEntries(v, keys).Some?
    ensures keys == [] ==> EncodeEntries(v, keys).value == []
    ensures keys != [] ==>
      var w := v.entries[keys[0]];
      && TypeOf(w) == v.elem && WellTyped(w) && Encode(w).Some? && EncodeEntries(v, keys[1..]).Some?
      && EncodeEntries(v, keys).value == Text(keys[0]) + (Encode(w).value + EncodeEntries(v, keys[1..]).value)
  {
    hide Encode, Text;
  }

  // ----- the two agree -----

  const DOMAIN := "kwt.project-registration"
  const VERSION := "v1:"

  // What Fingerprint hashes.
  ghost function Preimage(raw: Value): Option<string>
    requires WellTyped(raw)
  {
    Joined(Text(DOMAIN), Joined(Text(VERSION), Encode(raw)))
  }

  lemma EncodableHasNoFuncs(v: Value)
    requires WellTyped(v) && Preimage(v).Some?
    ensures NilFuncs(v)
  {
    hide Encode, Text;
    EncodeFailsExactly(v);
    forall p | p in Parts(v) ensures !p.Func? {
      assert p.Func? ==> Unsupported(p);
    }
  }

  /** Two entries that can be fingerprinted have one pre-image exactly when the
      compare-and-swap takes them for the same entry but for what a time.Time has
      besides its stamp. */
  lemma PreimageShows(l: Value, r: Value)
    requires WellTyped(l) && WellTyped(r) && !l.Interface? && !r.Interface?
    requires Preimage(l).Some? && Preimage(r).Some?
    ensures Preimage(l) == Preimage(r) <==> Same(l, r, exact := false)
    ensures Preimage(l) == Preimage(r) <==> Shown(l) == Shown(r)
  {
    hide Shown, NilFuncs, Same;
    SameMeansShown(l, r);
    EncodableHasNoFuncs(l);
    if Same(l, r, exact := false) {
      SameEncodesEqually(l, r);
    }
    if Preimage(l) == Preimage(r) {
      hide Encode, Text;
      TextDecodes(DOMAIN, DOMAIN, Text(VERSION) + Encode(l).value, Text(VERSION) + Encode(r).value);
      TextDecodes(VERSION, VERSION, Encode(l).value, Encode(r).value);
      EncodingDecodes(l, r, [], []);
    }
  }

  // What a time.Time has besides its stamp follows from the stamp, as it does for
  // times decoded from one kind of source.
  ghost predicate StampsDecide(l: Value, r: Value) {
    forall p, q | p in Parts(l) && q in Parts(r) && p.Instant? && q.Instant? && p.stamp == q.stamp ::
      p.location == q.location
  }

  ghost predicate Timeless(v: Value) {
    forall p | p in Parts(v) :: !p.Instant?
  }

  lemma TimelessDecides(l: Value, r: Value)
    ensures Timeless(l) ==> StampsDecide(l, r)
  {
    hide Parts;
  }

  /** The comparison is at least as fine as the pre-image, and the two agree where
      stamps decide times, on entries without times in particular. */
  lemma PreimageExact(l: Value, r: Value)
    requires WellTyped(l) && WellTyped(r) && !l.Interface? && !r.Interface?
    requires Preimage(l).Some? && Preimage(r).Some?
    ensures Same(l, r) ==> Preimage(l) == Preimage(r)
    ensures Same(l, r) <==> l == r
    ensures StampsDecide(l, r) ==> (Preimage(l) == Preimage(r) <==> l == r)
    ensures Timeless(l) ==> (Preimage(l) == Preimage(r) <==> l == r)
  {
    hide Encode, Same, StampsDecide, Timeless, Preimage, Parts, WellTyped, Shown, NilFuncs;
    SameMeansEqual(l, r);
    EncodableHasNoFuncs(l);
    TimelessDecides(l, r);
    PreimageShows(l, r);
    if Same(l, r) {
      SameShows(l, r);
    }
    if StampsDecide(l, r) && Same(l, r, exact := false) {
      StampsDecideSame(l, r);
    }
  }

  lemma {:induction false} SameShows(l: Value, r: Value)
    requires Same(l, r)
    ensures Same(l, r, exact := false)
  {
    match l
    case Array(_, items) =>
      forall i | 0 <= i < |items| { SameShows(items[i], r.items[i]); }
    case Slice(_, _, items) =>
      forall i | 0 <= i < |items| { SameShows(items[i], r.items[i]); }
    case Map(_, _, entries) =>
      forall k | k in entries { SameShows(entries[k], r.entries[k]); }
    case Interface(Some(w)) =>
      SameShows(w, r.content.value);
    case _ =>
  }

  lemma {:induction false} StampsDecideSame(l: Value, r: Value)
    requires StampsDecide(l, r) && Same(l, r, exact := false)
    ensures Same(l, r)
  {
    assert l in Parts(l) && r in Parts(r);
    match l
    case Array(_, items) =>
      forall i | 0 <= i < |items| ensures Same(items[i], r.items[i]) {
        StampsDecideParts(l, r, items[i], r.items[i]);
        StampsDecideSame(items[i], r.items[i]);
      }
    case Slice(_, _, items) =>
      forall i | 0 <= i < |items| ensures Same(items[i], r.items[i]) {
        StampsDecideParts(l, r, items[i], r.items[i]);
        StampsDecideSame(items[i], r.items[i]);
      }
    case Map(_, _, entries) =>
      forall k | k in entries ensures Same(entries[k], r.entries[k]) {
        StampsDecideParts(l, r, entries[k], r.entries[k]);
        StampsDecideSame(entries[k], r.entries[k]);
      }
    case Interface(Some(w)) =>
      StampsDecideParts(l, r, w, r.content.value);
      StampsDecideSame(w, r.content.value);
    case _ =>
  }

  lemma StampsDecideParts(l: Value, r: Value, x: Value, y: Value)
    requires StampsDecide(l, r) && Parts(x) <= Parts(l) && Parts(y) <= Parts(r)
    ensures StampsDecide(x, y)
  {
    hide Parts;
  }

  // The two Interface values excluded above never reach the encoder from
  // reflect.ValueOf: wrapping changes the static type and not the bytes.
  lemma WrappingIsInvisible(v: Value)
    requires WellTyped(v) && !v.Interface?
    ensures Encode(Interface(Some(v))) == Encode(v)
    ensures !Same(Interface(Some(v)), v)
  {
  }

  // ----- what fails -----

  ghost predicate Blocked(v: Value) {
    exists p :: p in Parts(v) && Unsupported(p)
  }

  lemma BlockedInside(v: Value)
    ensures v.Array? || v.Slice? ==> (Blocked(v) <==> exists i :: 0 <= i < |v.items| && Blocked(v.items[i]))
    ensures v.Map? ==> (Blocked(v) <==> exists k :: k in v.entries && Blocked(v.entries[k]))
    ensures v.Interface? && v.content.Some? ==> (Blocked(v) <==> Blocked(v.content.value))
    ensures Unsupported(v) ==> Blocked(v)
  {
  }

  /** Fingerprinting fails exactly when a function or a nil interface value
      occurs somewhere inside the entry. */
  lemma {:induction false} EncodeFailsExactly(v: Value)
    requires WellTyped(v)
    ensures Encode(v).None? <==> Blocked(v)
    decreases v, 1, 0
  {
    BlockedInside(v);
    hide Header, Text, Word, Flag, Blocked, Below, Sorted;
    match v
    case Interface(Some(w)) =>
      EncodeFailsExactly(w);
    case Array(_, items) =>
      ItemsFailExactly(v, 0);
    case Slice(_, _, items) =>
      ItemsFailExactly(v, 0);
    case Map(_, _, entries) =>
      EntriesFailExactly(v, SortedKeys(entries.Keys));
    case Interface(None) =>
    case Func(_) =>
    case _ =>
      NotBlocked(v);
  }

  lemma NotBlocked(v: Value)
    requires !(v.Array? || v.Slice? || v.Map? || v.Interface? || v.Func?)
    ensures !Blocked(v)
  {
  }

  lemma {:induction false} ItemsFailExactly(v: Value, i: nat)
    requires WellTyped(v) && (v.Array? || v.Slice?) && i <= |v.items|
    ensures EncodeItems(v, i).None? <==> exists j :: i <= j < |v.items| && Blocked(v.items[j])
    decreases v, 0, |v.items| - i
  {
    hide Blocked, Encode, Name, Text;
    if i < |v.items| {
      EncodeFailsExactly(v.items[i]);
      ItemsFailExactly(v, i + 1);
    }
  }

  lemma {:induction false} EntriesFailExactly(v: Value, keys: seq<string>)
    requires WellTyped(v) && v.Map? && forall k | k in keys :: k in v.entries
    ensures EncodeEntries(v, keys).None? <==> exists k :: k in keys && Blocked(v.entries[k])
    decreases v, 0, |keys|
  {
    hide Blocked, Encode, Name, Text;
    if keys != [] {
      BlockedAmong(v, keys);
      EncodeFailsExactly(v.entries[keys[0]]);
      EntriesFailExactly(v, keys[1..]);
      assert EncodeEntries(v, keys).None? <==>
        Encode(v.entries[keys[0]]).None? || EncodeEntries(v, keys[1..]).None?;
    }
  }

  // Some entry is blocked when the first one is, or one of the others.
  lemma BlockedAmong(v: Value, keys: seq<string>)
    requires v.Map? && keys != [] && forall k | k in keys :: k in v.entries
    ensures (exists k :: k in keys && Blocked(v.entries[k])) <==>
      Blocked(v.entries[keys[0]]) || exists k :: k in keys[1..] && Blocked(v.entries[k])
  {
    hide Blocked;
    assert keys == [keys[0]] + keys[1..];
  }

  // ----- where the bytes stand -----

  // The number in the k-th eight bytes.
  function WordAt(bytes: string, k: nat): nat
    requires 8 * k + 8 <= |bytes|
  {
    Number(bytes[8 * k..8 * k + 8])
  }

  /** The fields of a time, one word each, then its zone name and offset. */
  lemma StampReads(s: Stamp)
    ensures var bytes := StampBytes(s);
      && |bytes| == 64 + |Text(s.zone)|
      && WordAt(bytes, 0) == Unsigned(s.year) && WordAt(bytes, 1) == Unsigned(s.month)
      && WordAt(bytes, 2) == Unsigned(s.day) && WordAt(bytes, 3) == Unsigned(s.hour)
      && WordAt(bytes, 4) == Unsigned(s.minute) && WordAt(bytes, 5) == Unsigned(s.second)
      && WordAt(bytes, 6) == Unsigned(s.nanosecond)
      && bytes[56..|bytes| - 8] == Text(s.zone) && Number(bytes[|bytes| - 8..]) == Unsigned(s.offset)
  {
    hide Word, Unsigned, Text, Number;
    var words := [s.year, s.month, s.day, s.hour, s.minute, s.second, s.nanosecond, s.offset];
    forall i | 0 <= i < 8 ensures Number(Word(Unsigned(words[i]))) == Unsigned(words[i]) {
      WordReads(Unsigned(words[i]));
    }
    var bytes := StampBytes(s);
    assert bytes[0..8] == Word(Unsigned(words[0])) && bytes[8..16] == Word(Unsigned(words[1]));
    assert bytes[16..24] == Word(Unsigned(words[2])) && bytes[24..32] == Word(Unsigned(words[3]));
    assert bytes[32..40] == Word(Unsigned(words[4])) && bytes[40..48] == Word(Unsigned(words[5]));
    assert bytes[48..56] == Word(Unsigned(words[6])) && bytes[|bytes| - 8..] == Word(Unsigned(words[7]));
  }

  /** The fields of go-toml's local dates and times, one word each. */
  lemma LocalReads(d: Date, t: Time)
    ensures var bytes := DateBytes(d) + TimeBytes(t);
      && |bytes| == 64
      && WordAt(bytes, 0) == Unsigned(d.year) && WordAt(bytes, 1) == Unsigned(d.month)
      && WordAt(bytes, 2) == Unsigned(d.day) && WordAt(bytes, 3) == Unsigned(t.hour)
      && WordAt(bytes, 4) == Unsigned(t.minute) && WordAt(bytes, 5) == Unsigned(t.second)
      && WordAt(bytes, 6) == Unsigned(t.nanosecond) && WordAt(bytes, 7) == Unsigned(t.precision)
  {
    hide Word, Unsigned, Number;
    var words := [d.year, d.month, d.day, t.hour, t.minute, t.second, t.nanosecond, t.precision];
    forall i | 0 <= i < 8 ensures Number(Word(Unsigned(words[i]))) == Unsigned(words[i]) {
      WordReads(Unsigned(words[i]));
    }
    var bytes := DateBytes(d) + TimeBytes(t);
    assert bytes[0..8] == Word(Unsigned(words[0])) && bytes[8..16] == Word(Unsigned(words[1]));
    assert bytes[16..24] == Word(Unsigned(words[2])) && bytes[24..32] == Word(Unsigned(words[3]));
    assert bytes[32..40] == Word(Unsigned(words[4])) && bytes[40..48] == Word(Unsigned(words[5]));
    assert bytes[48..56] == Word(Unsigned(words[6])) && bytes[56..64] == Word(Unsigned(words[7]));
  }

  /** After the header of its type: a flag in one byte, a number in one word, a
      length before a string or a list, and before both whether a list or map is
      nil; the least key first. */
  lemma EncodingReads(v: Value)
    requires WellTyped(v) && !v.Interface? && Encode(v).Some?
    ensures var bytes, header := Encode(v).value, Header(TypeOf(v));
      && header <= bytes
      && var body := bytes[|header|..];
      && (v.Bool? ==> body == [if v.flag then '\U{1}' else '\0'])
      && (v.Str? ==> body == Uvarint(|v.text|) + v.text)
      && (v.Int? ==> |body| == 8 && Number(body) == Unsigned(v.n))
      && (v.Uint? ==> |body| == 8 && Number(body) == v.u)
      && (v.Float32? || v.Float64? ==> |body| == 8 && Number(body) == v.bits)
      && (v.Array? ==> ListReads(v.items, body))
      && (v.Slice? ==> body != [] && body[0] == (if v.isNil then '\U{1}' else '\0') && ListReads(v.items, body[1..]))
      && (v.Map? ==>
            && |body| >= 9 && body[0] == (if v.isNil then '\U{1}' else '\0')
            && Number(body[1..9]) == |v.entries|
            && (v.entries != map[] ==> StartsWithLeast(v.entries.Keys, body[9..])))
  {
    hide Header, Name, Text, Word, EncodeItems, EncodeEntries, SortedKeys, Number, Sorted, Below;
    BodyFollowsHeader(v);
    assert Encode(v).value[|Header(TypeOf(v))|..] == Body(v);
    if v.Int? {
      WordReads(Unsigned(v.n));
    } else if v.Uint? {
      WordReads(v.u);
    } else if v.Float32? || v.Float64? {
      WordReads(v.bits);
    } else if v.Str? {
      TextIs(v.text);
    } else if v.Array? || v.Slice? {
      SequenceReads(v);
    } else if v.Map? {
      MapReads(v);
    }
  }

  lemma TextIs(s: string)
    ensures Text(s) == Uvarint(|s|) + s
  {
  }

  // A length in one word, then the elements in order.
  ghost predicate ListReads(items: seq<Value>, bytes: string) {
    && |bytes| >= 8 && Number(bytes[..8]) == |items|
    && (items != [] ==> WellTyped(items[0]) && Encode(items[0]).Some? && Encode(items[0]).value <= bytes[8..])
  }

  lemma SequenceReads(v: Value)
    requires WellTyped(v) && (v.Array? || v.Slice?) && Encode(v).Some?
    ensures v.Array? ==> ListReads(v.items, Body(v))
    ensures v.Slice? ==>
      Body(v) != [] && Body(v)[0] == (if v.isNil then '\U{1}' else '\0') && ListReads(v.items, Body(v)[1..])
  {
    hide Encode, Body, WellTyped, EncodeItems, Word, Number;
    SequenceBody(v);
    WordReads(|v.items|);
    ItemsStep(v, 0);
    var list := Word(|v.items|) + EncodeItems(v, 0).value;
    assert list[..8] == Word(|v.items|) && list[8..] == EncodeItems(v, 0).value;
    if v.Slice? {
      assert Body(v)[1..] == list;
    }
  }

  ghost predicate StartsWithLeast(keys: set<string>, bytes: string) {
    exists key :: Least(keys, key) && Text(key) <= bytes
  }

  lemma MapReads(v: Value)
    requires WellTyped(v) && v.Map? && Encode(v).Some?
    ensures var body := Body(v);
      && |body| >= 9 && body[0] == (if v.isNil then '\U{1}' else '\0')
      && Number(body[1..9]) == |v.entries|
      && (v.entries != map[] ==> StartsWithLeast(v.entries.Keys, body[9..]))
  {
    hide Encode, Body, WellTyped, EncodeEntries, Word, Number, Text, Below, SortedKeys;
    MapBody(v);
    WordReads(|v.entries|);
    var keys := SortedKeys(v.entries.Keys);
    var rest := EncodeEntries(v, keys).value;
    assert Body(v)[1..9] == Word(|v.entries|) && Body(v)[9..] == rest;
    EntriesStep(v, keys);
    if v.entries != map[] {
      assert keys != [] by {
        var k :| k in v.entries;
        assert k in keys;
      }
      forall k | k in v.entries.Keys ensures k == keys[0] || Below(keys[0], k) {
        assert k in keys;
      }
      assert Least(v.entries.Keys, keys[0]) && Text(keys[0]) <= rest;
    }
  }

  // Package path, name and kind of some types.
  lemma KnownHeaders()
    ensures Header(MapOf(Base(InterfaceType))) == Text("") + (Text("map[string]interface {}") + ['\U{15}'])
    ensures Header(SliceOf(Base(InterfaceType))) == Text("") + (Text("[]interface {}") + ['\U{17}'])
    ensures Header(Base(IntType(W64))) == Text("") + (Text("int64") + ['\U{6}'])
    ensures Header(Base(Float64Type)) == Text("") + (Text("float64") + ['\U{E}'])
    ensures Header(Base(BoolType)) == Text("") + (Text("bool") + ['\U{1}'])
    ensures Header(Base(StringType)) == Text("") + (Text("string") + ['\U{18}'])
    ensures Header(Base(InstantType)) == Text("time") + (Text("time.Time") + ['\U{19}'])
    ensures Header(Base(LocalDateType)) ==
      Text("github.com/pelletier/go-toml/v2") + (Text("toml.LocalDate") + ['\U{19}'])
  {
    hide Text;
    assert Name(Base(InterfaceType)) == "interface {}";
    assert Name(MapOf(Base(InterfaceType))) == "map[string]interface {}";
    assert Name(SliceOf(Base(InterfaceType))) == "[]interface {}";
    assert Name(Base(IntType(W64))) == "int64";
  }
}

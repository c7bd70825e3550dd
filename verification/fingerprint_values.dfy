/** Decoded project entries, the structural equality internal/config uses on
    them, and the pre-image its fingerprint hashes. */
module FingerprintValues {
  import opened Integers
  import opened Wrappers
  import opened ByteEncoding
  import opened FingerprintTypes

  datatype Date = Date(year: int, month: int, day: int)

  datatype Time = Time(hour: int, minute: int, second: int, nanosecond: int, precision: int)

  // What writeTime reads of a time.Time.
  datatype Stamp = Stamp(
    year: int, month: int, day: int, hour: int, minute: int, second: int, nanosecond: int, zone: string, offset: int)

  // A reflect.Value. Floats carry their IEEE bits; a slice or map element of
  // type `interface {}` is an Interface around what it holds. The `location` of an
  // Instant stands for all that reflect.DeepEqual sees of a time.Time besides its
  // stamp: the rules of its zone and its internal form.
  datatype Value =
    | Bool(flag: bool)
    | Str(text: string)
    | Int(w: Width, n: int)
    | Uint(w: Width, u: uint64)
    | Float32(bits: uint64)
    | Float64(bits: uint64)
    | Instant(stamp: Stamp, location: int)
    | LocalDate(date: Date)
    | LocalTime(time: Time)
    | LocalDateTime(date: Date, time: Time)
    | Array(elem: GoType, items: seq<Value>)
    | Slice(elem: GoType, isNil: bool, items: seq<Value>)
    | Map(elem: GoType, isNil: bool, entries: map<string, Value>)
    | Interface(content: Option<Value>)
    | Func(isNil: bool)

  function TypeOf(v: Value): GoType {
    match v
    case Bool(_) => Base(BoolType)
    case Str(_) => Base(StringType)
    case Int(w, _) => Base(IntType(w))
    case Uint(w, _) => Base(UintType(w))
    case Float32(_) => Base(Float32Type)
    case Float64(_) => Base(Float64Type)
    case Instant(_, _) => Base(InstantType)
    case LocalDate(_) => Base(LocalDateType)
    case LocalTime(_) => Base(LocalTimeType)
    case LocalDateTime(_, _) => Base(LocalDateTimeType)
    case Array(elem, items) => ArrayOf(|items|, elem)
    case Slice(elem, _, _) => SliceOf(elem)
    case Map(elem, _, _) => MapOf(elem)
    case Interface(_) => Base(InterfaceType)
    case Func(_) => Base(FuncType)
  }

  predicate Signed(n: int) {
    -0x8000_0000_0000_0000 <= n < 0x8000_0000_0000_0000
  }

  predicate DateInRange(d: Date) {
    Signed(d.year) && Signed(d.month) && Signed(d.day)
  }

  predicate TimeInRange(t: Time) {
    Signed(t.hour) && Signed(t.minute) && Signed(t.second) && Signed(t.nanosecond) && Signed(t.precision)
  }

  predicate StampInRange(s: Stamp) {
    && Signed(s.year) && Signed(s.month) && Signed(s.day) && Signed(s.hour) && Signed(s.minute) && Signed(s.second)
    && Signed(s.nanosecond) && |s.zone| < TWO_TO_THE_64 && Signed(s.offset)
  }

  // What Go's type system and memory guarantee of any value.
  ghost predicate WellTyped(v: Value) {
    && |Name(TypeOf(v))| < TWO_TO_THE_64
    && match v
    case Str(s) => |s| < TWO_TO_THE_64
    case Int(_, n) => Signed(n)
    case Instant(s, _) => StampInRange(s)
    case LocalDate(d) => DateInRange(d)
    case LocalTime(t) => TimeInRange(t)
    case LocalDateTime(d, t) => DateInRange(d) && TimeInRange(t)
    case Array(elem, items) =>
      && |items| < TWO_TO_THE_64
      && forall i | 0 <= i < |items| :: TypeOf(items[i]) == elem && WellTyped(items[i])
    case Slice(elem, isNil, items) =>
      && |items| < TWO_TO_THE_64
      && (isNil ==> items == [])
      && forall i | 0 <= i < |items| :: TypeOf(items[i]) == elem && WellTyped(items[i])
    case Map(elem, isNil, entries) =>
      && |entries| < TWO_TO_THE_64
      && (isNil ==> entries == map[])
      && forall k | k in entries :: |k| < TWO_TO_THE_64 && TypeOf(entries[k]) == elem && WellTyped(entries[k])
    case Interface(Some(w)) => !w.Interface? && WellTyped(w)
    case _ => true
  }

  // ----- sameProjectRegistrationValue -----

  // With `exact` off, times are compared by what writeTime reads of them only.
  predicate Same(l: Value, r: Value, nameonly exact: bool := true)
    decreases l
  {
    && TypeOf(l) == TypeOf(r)
    && match l
       case Interface(content) =>
         if content.None? || r.content.None? then content.None? == r.content.None?
         else Same(content.value, r.content.value, exact := exact)
       case Array(_, items) =>
         forall i | 0 <= i < |items| :: Same(items[i], r.items[i], exact := exact)
       case Slice(_, isNil, items) =>
         && isNil == r.isNil && |items| == |r.items|
         && forall i | 0 <= i < |items| :: Same(items[i], r.items[i], exact := exact)
       case Map(_, isNil, entries) =>
         && isNil == r.isNil && |entries| == |r.entries|
         && forall k | k in entries :: k in r.entries && Same(entries[k], r.entries[k], exact := exact)
       // reflect.DeepEqual takes functions for equal only when both are nil.
       case Func(isNil) => isNil && r.isNil
       case Instant(stamp, _) => if exact then l == r else stamp == r.stamp
       case _ => l == r
  }

  // ----- the order keys are written in -----

  predicate Below(a: string, b: string) {
    if b == [] then false
    else if a == [] then true
    else if a[0] != b[0] then a[0] < b[0]
    else Below(a[1..], b[1..])
  }

  lemma {:induction false} BelowTotal(a: string, b: string)
    ensures Below(a, b) || a == b || Below(b, a)
    ensures !(Below(a, b) && Below(b, a)) && !Below(a, a)
  {
    if a != [] {
      BelowTotal(a[1..], a[1..]);
    }
    if a != [] && b != [] && a[0] == b[0] {
      BelowTotal(a[1..], b[1..]);
      assert a == [a[0]] + a[1..] && b == [b[0]] + b[1..];
    }
  }

  lemma {:induction false} BelowTransitive(a: string, b: string, c: string)
    requires Below(a, b) && Below(b, c)
    ensures Below(a, c)
  {
    if a != [] && a[0] == b[0] == c[0] {
      BelowTransitive(a[1..], b[1..], c[1..]);
    }
  }

  ghost predicate Sorted(keys: seq<string>) {
    forall i, j | 0 <= i < j < |keys| :: Below(keys[i], keys[j])
  }

  ghost predicate Least(keys: set<string>, least: string) {
    least in keys && forall k | k in keys :: k == least || Below(least, k)
  }

  // The keys in ascending byte order: the strictly ascending listing of them.
  ghost function SortedKeys(keys: set<string>): (r: seq<string>)
    ensures Sorted(r)
    ensures forall k :: k in r <==> k in keys
    ensures |r| == |keys|
  {
    if keys == {} then []
    else
      LeastExists(keys);
      var least :| Least(keys, least);
      var rest := SortedKeys(keys - {least});
      [least] + rest
  }

  lemma {:induction false} LeastExists(keys: set<string>)
    requires keys != {}
    ensures exists least :: Least(keys, least)
    decreases keys
  {
    hide Least;
    var k :| k in keys;
    if keys == {k} {
      OnlyIsLeast(k);
    } else {
      assert keys - {k} != {};
      LeastExists(keys - {k});
      var l :| Least(keys - {k}, l);
      BelowTotal(k, l);
      LeastOfMore(keys, k, l);
    }
  }

  lemma OnlyIsLeast(k: string)
    ensures Least({k}, k)
  {
  }

  lemma LeastOfMore(keys: set<string>, k: string, l: string)
    requires k in keys && Least(keys - {k}, l)
    ensures Least(keys, k) || Least(keys, l)
  {
    hide Below;
    BelowTotal(k, l);
    if Below(k, l) {
      forall j | j in keys ensures j == k || Below(k, j) {
        if j != k && j != l { BelowTransitive(k, l, j); }
      }
    }
  }

  // ----- writeValue: the bytes, or None where it returns an error -----

  function Joined(head: string, rest: Option<string>): Option<string> {
    match rest
    case None => None
    case Some(bytes) => Some(head + bytes)
  }

  function DateBytes(d: Date): string {
    Word(Unsigned(d.year)) + (Word(Unsigned(d.month)) + Word(Unsigned(d.day)))
  }

  function TimeBytes(t: Time): string {
    Word(Unsigned(t.hour)) + (Word(Unsigned(t.minute)) + (Word(Unsigned(t.second)) +
      (Word(Unsigned(t.nanosecond)) + Word(Unsigned(t.precision)))))
  }

  function StampBytes(s: Stamp): string {
    Word(Unsigned(s.year)) + (Word(Unsigned(s.month)) + (Word(Unsigned(s.day)) + (Word(Unsigned(s.hour)) +
      (Word(Unsigned(s.minute)) + (Word(Unsigned(s.second)) + (Word(Unsigned(s.nanosecond)) +
        (Text(s.zone) + Word(Unsigned(s.offset)))))))))
  }

  ghost function Encode(v: Value): Option<string>
    requires WellTyped(v)
    decreases v, 1, 0
  {
    var header := Header(TypeOf(v));
    match v
    case Bool(b) => Some(header + Flag(b))
    case Str(s) => Some(header + Text(s))
    case Int(_, n) => Some(header + Word(Unsigned(n)))
    case Uint(_, u) => Some(header + Word(u))
    case Float32(bits) => Some(header + Word(bits))
    case Float64(bits) => Some(header + Word(bits))
    case Instant(s, _) => Some(header + StampBytes(s))
    case LocalDate(d) => Some(header + DateBytes(d))
    case LocalTime(t) => Some(header + TimeBytes(t))
    case LocalDateTime(d, t) => Some(header + (DateBytes(d) + TimeBytes(t)))
    case Array(_, items) => Joined(header, Joined(Word(|items|), EncodeItems(v, 0)))
    case Slice(_, isNil, items) => Joined(header, Joined(Flag(isNil), Joined(Word(|items|), EncodeItems(v, 0))))
    case Map(_, isNil, entries) =>
      Joined(header, Joined(Flag(isNil), Joined(Word(|entries|), EncodeEntries(v, SortedKeys(entries.Keys)))))
    case Interface(None) => None
    case Interface(Some(w)) => Encode(w)
    case Func(_) => None
  }

  // The elements of an array or slice from index i on.
  ghost function EncodeItems(v: Value, i: nat): Option<string>
    requires WellTyped(v) && (v.Array? || v.Slice?) && i <= |v.items|
    decreases v, 0, |v.items| - i
  {
    if i == |v.items| then Some([])
    else
      match Encode(v.items[i])
      case None => None
      case Some(bytes) => Joined(bytes, EncodeItems(v, i + 1))
  }

  // The entries of a map under the given keys, in that order.
  ghost function EncodeEntries(v: Value, keys: seq<string>): Option<string>
    requires WellTyped(v) && v.Map? && forall k | k in keys :: k in v.entries
    decreases v, 0, |keys|
  {
    if keys == [] then Some([])
    else
      match Encode(v.entries[keys[0]])
      case None => None
      case Some(bytes) => Joined(Text(keys[0]), Joined(bytes, EncodeEntries(v, keys[1..])))
  }

  // ----- what cannot be encoded -----

  // Everything writeValue visits inside a value, itself included.
  ghost function Parts(v: Value): set<Value>
  {
    {v} +
    match v
    case Array(_, items) => set i, p | 0 <= i < |items| && p in Parts(items[i]) :: p
    case Slice(_, _, items) => set i, p | 0 <= i < |items| && p in Parts(items[i]) :: p
    case Map(_, _, entries) => set k, p | k in entries && p in Parts(entries[k]) :: p
    case Interface(Some(w)) => Parts(w)
    case _ => {}
  }

  predicate Unsupported(v: Value) {
    v.Func? || v == Interface(None)
  }
}

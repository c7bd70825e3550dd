/** The Go types a decoded project entry is made of, and that the header the
    fingerprint writes for a type determines it. */
module FingerprintTypes {
  import opened ByteEncoding

  datatype Width = Native | W8 | W16 | W32 | W64

  // Predeclared types, the empty interface, time.Time, go-toml's local date and time
  // structs, and a function type standing for everything the encoder refuses.
  datatype BaseType =
    | BoolType | StringType | IntType(w: Width) | UintType(w: Width) | Float32Type | Float64Type
    | InterfaceType | InstantType | LocalDateType | LocalTimeType | LocalDateTimeType | FuncType

  datatype GoType =
    | Base(b: BaseType)
    | ArrayOf(length: nat, elem: GoType)
    | SliceOf(elem: GoType)
    | MapOf(elem: GoType)

  const TOML_PACKAGE := "github.com/pelletier/go-toml/v2"

  function WidthName(w: Width): string {
    match w
    case Native => ""
    case W8 => "8"
    case W16 => "16"
    case W32 => "32"
    case W64 => "64"
  }

  function BaseName(b: BaseType): string {
    match b
    case BoolType => "bool"
    case StringType => "string"
    case IntType(w) => "int" + WidthName(w)
    case UintType(w) => "uint" + WidthName(w)
    case Float32Type => "float32"
    case Float64Type => "float64"
    case InterfaceType => "interface {}"
    case InstantType => "time.Time"
    case LocalDateType => "toml.LocalDate"
    case LocalTimeType => "toml.LocalTime"
    case LocalDateTimeType => "toml.LocalDateTime"
    case FuncType => "func()"
  }

  function Decimal(n: nat): (r: string)
    ensures r != [] && forall c | c in r :: '0' <= c <= '9'
  {
    var digit := ['0' + (n % 10) as char];
    if n < 10 then digit else Decimal(n / 10) + digit
  }

  // reflect.Type.String.
  function Name(t: GoType): string {
    match t
    case Base(b) => BaseName(b)
    case ArrayOf(n, elem) => "[" + (Decimal(n) + ("]" + Name(elem)))
    case SliceOf(elem) => "[" + ("]" + Name(elem))
    case MapOf(elem) => "map[string]" + Name(elem)
  }

  function Package(t: GoType): string {
    if t.Base? && (t.b.LocalDateType? || t.b.LocalTimeType? || t.b.LocalDateTimeType?) then TOML_PACKAGE
    else if t == Base(InstantType) then "time" else ""
  }

  function WidthKind(w: Width): nat {
    match w
    case Native => 0
    case W8 => 1
    case W16 => 2
    case W32 => 3
    case W64 => 4
  }

  // reflect.Kind.
  function Kind(t: GoType): (k: nat)
    ensures k < 256
  {
    match t
    case ArrayOf(_, _) => 17
    case MapOf(_) => 21
    case SliceOf(_) => 23
    case Base(b) =>
      match b
      case BoolType => 1
      case IntType(w) => 2 + WidthKind(w)
      case UintType(w) => 7 + WidthKind(w)
      case Float32Type => 13
      case Float64Type => 14
      case FuncType => 19
      case InterfaceType => 20
      case StringType => 24
      case InstantType => 25
      case LocalDateType => 25
      case LocalTimeType => 25
      case LocalDateTimeType => 25
  }

  function Header(t: GoType): string {
    Text(Package(t)) + (Text(Name(t)) + [Byte(Kind(t))])
  }

  // ----- names determine types -----

  // Length, first and last-but-one character tell the base names apart.
  function Signature(b: BaseType): (nat, char, char) {
    match b
    case BoolType => (4, 'b', 'o')
    case StringType => (6, 's', 'n')
    case IntType(w) => (3 + |WidthName(w)|, 'i', WidthMark(w))
    case UintType(w) => (4 + |WidthName(w)|, 'u', WidthMark(w))
    case Float32Type => (7, 'f', '3')
    case Float64Type => (7, 'f', '6')
    case InterfaceType => (12, 'i', '{')
    case InstantType => (9, 't', 'm')
    case LocalDateType => (14, 't', 't')
    case LocalTimeType => (14, 't', 'm')
    case LocalDateTimeType => (18, 't', 'm')
    case FuncType => (6, 'f', '(')
  }

  function WidthMark(w: Width): char {
    match w
    case Native => 'n'
    case W8 => 't'
    case W16 => '1'
    case W32 => '3'
    case W64 => '6'
  }

  lemma BaseSignature(b: BaseType)
    ensures var name := BaseName(b); |name| >= 3 && Signature(b) == (|name|, name[0], name[|name| - 2])
  {
  }

  lemma BaseNamesDiffer(a: BaseType, b: BaseType)
    requires BaseName(a) == BaseName(b)
    ensures a == b
  {
    hide BaseName;
    BaseSignature(a);
    BaseSignature(b);
  }

  lemma {:induction false} DecimalInjective(m: nat, n: nat)
    requires Decimal(m) == Decimal(n)
    ensures m == n
  {
    var a, b := Decimal(m), Decimal(n);
    assert a[|a| - 1] == '0' + (m % 10) as char && b[|b| - 1] == '0' + (n % 10) as char;
    assert m % 10 == n % 10;
    if m >= 10 && n >= 10 {
      assert Decimal(m / 10) == a[..|a| - 1] && Decimal(n / 10) == b[..|b| - 1];
      DecimalInjective(m / 10, n / 10);
    }
  }

  // Digits end at the first character that is not one.
  lemma {:induction false} DigitsEnd(a: string, s: string, b: string, t: string)
    requires (forall c | c in a :: '0' <= c <= '9') && (forall c | c in b :: '0' <= c <= '9')
    requires a + ("]" + s) == b + ("]" + t)
    ensures a == b && s == t
    decreases |a|
  {
    assert (a + ("]" + s))[0] == if a == [] then ']' else a[0];
    assert (b + ("]" + t))[0] == if b == [] then ']' else b[0];
    assert (a != [] ==> a[0] in a) && (b != [] ==> b[0] in b);
    if a == [] {
      assert a + ("]" + s) == "]" + s && b + ("]" + t) == "]" + t;
      SplitEqual("]", s, "]", t);
    } else {
      assert (a + ("]" + s))[1..] == a[1..] + ("]" + s);
      assert (b + ("]" + t))[1..] == b[1..] + ("]" + t);
      assert (forall c | c in a[1..] :: c in a) && (forall c | c in b[1..] :: c in b);
      DigitsEnd(a[1..], s, b[1..], t);
      assert a == [a[0]] + a[1..] && b == [b[0]] + b[1..];
    }
  }

  // The first character tells base types, maps and the rest apart.
  lemma NameStart(t: GoType)
    ensures Name(t) != []
    ensures t.MapOf? <==> Name(t)[0] == 'm'
    ensures t.ArrayOf? || t.SliceOf? <==> Name(t)[0] == '['
  {
  }

  lemma {:induction false} NamesDiffer(t: GoType, u: GoType)
    requires Name(t) == Name(u)
    ensures t == u
    decreases t
  {
    hide BaseName;
    NameStart(t);
    NameStart(u);
    if t.Base? {
      BaseNamesDiffer(t.b, u.b);
    } else if t.MapOf? {
      SplitEqual("map[string]", Name(t.elem), "map[string]", Name(u.elem));
      NamesDiffer(t.elem, u.elem);
    } else {
      var a := if t.ArrayOf? then Decimal(t.length) else [];
      var b := if u.ArrayOf? then Decimal(u.length) else [];
      assert Name(t) == "[" + (a + ("]" + Name(t.elem)));
      assert Name(u) == "[" + (b + ("]" + Name(u.elem)));
      SplitEqual("[", a + ("]" + Name(t.elem)), "[", b + ("]" + Name(u.elem)));
      DigitsEnd(a, Name(t.elem), b, Name(u.elem));
      NamesDiffer(t.elem, u.elem);
      if t.ArrayOf? && u.ArrayOf? {
        DecimalInjective(t.length, u.length);
      }
    }
  }

  lemma HeaderDecodes(t: GoType, u: GoType, s: string, r: string)
    requires Header(t) + s == Header(u) + r
    ensures t == u && s == r
  {
    hide Text, Name, Package, Kind;
    assert Header(t) + s == Text(Package(t)) + (Text(Name(t)) + ([Byte(Kind(t))] + s));
    assert Header(u) + r == Text(Package(u)) + (Text(Name(u)) + ([Byte(Kind(u))] + r));
    TextDecodes(Package(t), Package(u), Text(Name(t)) + ([Byte(Kind(t))] + s), Text(Name(u)) + ([Byte(Kind(u))] + r));
    TextDecodes(Name(t), Name(u), [Byte(Kind(t))] + s, [Byte(Kind(u))] + r);
    NamesDiffer(t, u);
    SplitEqual([Byte(Kind(t))], s, [Byte(Kind(u))], r);
  }
}

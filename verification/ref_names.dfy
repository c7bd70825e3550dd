/** Slash-separated ref names: string prefixes against path components. */
module RefNames {
  const HEADS := "refs/heads/"

  // strings.Split(s, "/").
  function Components(s: string): (r: seq<string>)
    ensures r != []
  {
    if s == [] then [""]
    else Grown(s[0], Components(s[1..]))
  }

  // The components of a string with one more character before it.
  function Grown(c: char, rest: seq<string>): (r: seq<string>)
    requires rest != []
    ensures r != []
  {
    if c == '/' then [""] + rest else [[c] + rest[0]] + rest[1..]
  }

  // strings.Join(parts, "/").
  function Join(parts: seq<string>): string
    requires parts != []
  {
    if |parts| == 1 then parts[0] else parts[0] + ("/" + Join(parts[1..]))
  }

  predicate SlashFree(s: string) {
    '/' !in s
  }

  lemma {:induction false} JoinComponents(s: string)
    ensures Join(Components(s)) == s
    ensures forall c | c in Components(s) :: SlashFree(c)
  {
    if s != [] {
      hide Grown, Join;
      JoinComponents(s[1..]);
      JoinGrown(s[0], Components(s[1..]));
      assert s == [s[0]] + s[1..];
    } else {
      assert Join([""]) == "";
    }
  }

  lemma JoinGrown(c: char, rest: seq<string>)
    requires rest != [] && forall p | p in rest :: SlashFree(p)
    ensures Join(Grown(c, rest)) == [c] + Join(rest)
    ensures forall p | p in Grown(c, rest) :: SlashFree(p)
  {
    var r := Grown(c, rest);
    if c == '/' {
      assert r[1..] == rest;
    } else {
      assert r[1..] == rest[1..];
      assert SlashFree(r[0]) by { assert rest[0] in rest; }
    }
  }

  lemma {:induction false} ComponentsConcat(a: string, b: string)
    ensures Components(a + ("/" + b)) == Components(a) + Components(b)
  {
    if a == [] {
      assert a + ("/" + b) == "/" + b && ("/" + b)[1..] == b;
    } else {
      hide Grown;
      var s := a + ("/" + b);
      assert s[0] == a[0] && s[1..] == a[1..] + ("/" + b);
      ComponentsConcat(a[1..], b);
      GrownConcat(a[0], Components(a[1..]), Components(b));
    }
  }

  lemma GrownConcat(c: char, x: seq<string>, y: seq<string>)
    requires x != []
    ensures Grown(c, x + y) == Grown(c, x) + y
  {
  }

  lemma {:induction false} SlashFreeComponents(s: string)
    requires SlashFree(s)
    ensures Components(s) == [s]
  {
    if s != [] {
      assert SlashFree(s[1..]) && s[0] in s;
      SlashFreeComponents(s[1..]);
      assert s == [s[0]] + s[1..];
    }
  }

  lemma {:induction false} JoinConcat(x: seq<string>, y: seq<string>)
    requires x != [] && y != []
    ensures Join(x + y) == Join(x) + ("/" + Join(y))
  {
    if |x| == 1 {
      assert (x + y)[1..] == y;
    } else {
      assert (x + y)[1..] == x[1..] + y;
      JoinConcat(x[1..], y);
      assert Join(x + y) == x[0] + ("/" + (Join(x[1..]) + ("/" + Join(y))));
    }
  }

  lemma {:induction false} ComponentsJoin(parts: seq<string>)
    requires parts != [] && forall p | p in parts :: SlashFree(p)
    ensures Components(Join(parts)) == parts
  {
    SlashFreeComponents(parts[0]);
    if |parts| > 1 {
      ComponentsJoin(parts[1..]);
      ComponentsConcat(parts[0], Join(parts[1..]));
    }
  }

  // One name is the other, or lies on the other's path.
  predicate Comparable(a: string, b: string) {
    Components(a) <= Components(b) || Components(b) <= Components(a)
  }

  /** The string test is component-wise prefixing. */
  lemma PrefixExactly(a: string, b: string)
    ensures Components(b) < Components(a) <==> b + "/" <= a
    ensures Components(b) <= Components(a) <==> b == a || b + "/" <= a
  {
    hide Components, Join;
    if b + "/" <= a {
      StringPrefix(a, b);
    }
    if Components(b) < Components(a) {
      ComponentPrefix(a, b);
    }
    JoinComponents(a);
    JoinComponents(b);
    if Components(b) <= Components(a) && |Components(b)| == |Components(a)| {
      assert Components(b) == Components(a);
    }
  }

  lemma StringPrefix(a: string, b: string)
    requires b + "/" <= a
    ensures Components(b) < Components(a)
  {
  }

  lemma ComponentPrefix(a: string, b: string)
    requires Components(b) < Components(a)
    ensures b + "/" <= a
  {
    hide Components, Join;
    var x, y := Components(a), Components(b);
    var more := x[|y|..];
    assert x == y + more;
    JoinComponents(a);
    JoinComponents(b);
    JoinConcat(y, more);
    assert a == (b + "/") + Join(more);
  }
}

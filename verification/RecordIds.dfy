/** Record ids of manifest rows: the whole primary key rendered as "column=value|column=value", and exactly when such
    a text can be read as another key. */
module RecordIds {

  function Field(name: string, value: string): string { name + "=" + value }

  /** "|".join(...) over the key columns in table order. */
  function Rendered(names: seq<string>, values: seq<string>): string
    requires |names| == |values|
  {
    if names == [] then ""
    else if |names| == 1 then Field(names[0], values[0])
    else Field(names[0], values[0]) + "|" + Rendered(names[1..], values[1..])
  }

  function Separator(name: string): string { "|" + name + "=" }

  ghost predicate Holds(s: string, pattern: string) {
    exists a, b :: s == a + pattern + b
  }

  lemma Held(a: string, pattern: string, b: string)
    ensures Holds(a + pattern + b, pattern)
  {}

  /** A value holds the separator of the next column or of its own, which is not the first. */
  ghost predicate Ambiguous(names: seq<string>, values: seq<string>)
    requires |names| == |values|
  {
    && |names| >= 2
    && (Holds(values[0], Separator(names[1])) || Holds(values[1], Separator(names[1]))
      || Ambiguous(names[1..], values[1..]))
  }

  /** Some value holds the separator of its own column, the first included. */
  ghost predicate HoldsOwn(names: seq<string>, values: seq<string>)
    requires |names| == |values|
  {
    names != [] && (Holds(values[0], Separator(names[0])) || HoldsOwn(names[1..], values[1..]))
  }

  /** Column names are identifiers. */
  predicate PlainNames(names: seq<string>) {
    forall i :: 0 <= i < |names| ==> '|' !in names[i]
  }

  /** A text that starts with "name=" and is cut at a bar is cut behind the "=". */
  lemma CutBehindTheName(u: string, t: string, name: string, x: string) returns (rest: string)
    requires '|' !in name && u + "|" + t == Field(name, x)
    ensures u == Field(name, rest) && x == rest + "|" + t
  {
    var s, m := Field(name, x), |name| + 1;
    assert forall i :: 0 <= i < |name| ==> s[i] == name[i] && name[i] in name;
    assert forall i :: 0 <= i < m ==> s[i] != '|';
    assert s[|u|] == '|';
    rest := u[m..];
    assert u == s[..|u|];
    assert s[..m] == name + "=";
    assert u[..m] == s[..m];
    assert u == u[..m] + rest;
    assert s[m..] == x;
    assert (u + "|" + t)[m..] == rest + "|" + t;
  }

  /** One text continues the other after the longer head. */
  lemma LongerHead(a: string, r: string, b: string, t: string) returns (u: string)
    requires a + "|" + r == b + "|" + t && |a| > |b|
    ensures a == b + "|" + u && t == u + "|" + r
  {
    var s := a + "|" + r;
    u := a[|b| + 1..];
    assert a == s[..|a|] && s[|b|] == '|' && s[..|b|] == b && s[|b| + 1..] == t;
    assert a == a[..|b|] + [a[|b|]] + u;
    assert s[|b| + 1..] == u + "|" + r;
  }

  lemma RenderedStarts(names: seq<string>, values: seq<string>) returns (x: string)
    requires |names| == |values| && names != []
    ensures Rendered(names, values) == Field(names[0], x)
    ensures x == if |names| == 1 then values[0] else values[0] + "|" + Rendered(names[1..], values[1..])
  {
    x := if |names| == 1 then values[0] else values[0] + "|" + Rendered(names[1..], values[1..]);
    if |names| > 1 {
      assert Field(names[0], values[0]) + "|" + Rendered(names[1..], values[1..]) == Field(names[0], x);
    }
  }

  /** A rendering that reappears behind a bar of another rendering: some value holds its own separator. */
  lemma {:induction false} ReappearingLater(names: seq<string>, values: seq<string>, others: seq<string>, u: string)
    requires |names| == |values| == |others| && names != [] && PlainNames(names)
    requires Rendered(names, values) == u + "|" + Rendered(names, others)
    ensures HoldsOwn(names, values)
    decreases |names|
  {
    hide Rendered, Holds, Separator;
    var name := names[0];
    var x := RenderedStarts(names, values);
    var y := RenderedStarts(names, others);
    var rest := CutBehindTheName(u, Field(name, y), name, x);
    SeparatorEndsTheHead(rest, name, y);
    if |names| == 1 {
      Held(rest, Separator(name), y);
    } else {
      var r, t := Rendered(names[1..], values[1..]), Rendered(names[1..], others[1..]);
      var head := rest + Separator(name) + others[0];
      assert rest + Separator(name) + (others[0] + "|" + t) == head + "|" + t;
      if |values[0]| >= |head| {
        HeadIsInside(values[0], r, head, t);
        var more := values[0][|head|..];
        assert head + more == rest + Separator(name) + (others[0] + more);
        Held(rest, Separator(name), others[0] + more);
      } else {
        var v := LongerHead(head, t, values[0], r);
        ReappearingLater(names[1..], values[1..], others[1..], v);
      }
    }
  }

  lemma SeparatorEndsTheHead(rest: string, name: string, y: string)
    ensures rest + "|" + Field(name, y) == rest + Separator(name) + y
  {}

  lemma HeadIsInside(a: string, r: string, b: string, t: string)
    requires a + "|" + r == b + "|" + t && |a| >= |b|
    ensures a == b + a[|b|..]
  {
    var s := a + "|" + r;
    assert s[..|a|] == a && s[..|b|] == b;
    assert s[..|b|] == a[..|b|];
  }

  lemma OwnSeparatorIsAmbiguous(names: seq<string>, values: seq<string>)
    requires |names| == |values| >= 2 && HoldsOwn(names[1..], values[1..])
    ensures Ambiguous(names, values)
    decreases |names|
  {
    if !Holds(values[1], Separator(names[1])) {
      assert names[1..][1..] != [];
      OwnSeparatorIsAmbiguous(names[1..], values[1..]);
    }
  }

  /** Two different keys with one rendering: the text is ambiguous. */
  lemma {:induction false} OtherReadingIsAmbiguous(names: seq<string>, values: seq<string>, others: seq<string>)
    requires |names| == |values| == |others| && PlainNames(names)
    requires Rendered(names, values) == Rendered(names, others) && values != others
    ensures Ambiguous(names, values)
    decreases |names|
  {
    hide Rendered, Ambiguous;
    BodiesAgree(names, values, others);
    if |values[0]| == |others[0]| {
      SameHead(values[0], Rendered(names[1..], values[1..]), others[0], Rendered(names[1..], others[1..]));
      assert values == [values[0]] + values[1..] && others == [others[0]] + others[1..];
      OtherReadingIsAmbiguous(names[1..], values[1..], others[1..]);
      AmbiguousTail(names, values);
    } else if |values[0]| > |others[0]| {
      LongerHoldsTheNext(names, values, others);
    } else {
      var u := LongerHead(others[0], Rendered(names[1..], others[1..]), values[0], Rendered(names[1..], values[1..]));
      ReappearingLater(names[1..], values[1..], others[1..], u);
      OwnSeparatorIsAmbiguous(names, values);
    }
  }

  lemma BodiesAgree(names: seq<string>, values: seq<string>, others: seq<string>)
    requires |names| == |values| == |others| && values != others
    requires Rendered(names, values) == Rendered(names, others)
    ensures |names| > 1
    ensures values[0] + "|" + Rendered(names[1..], values[1..]) == others[0] + "|" + Rendered(names[1..], others[1..])
  {
    hide Rendered;
    var x := RenderedStarts(names, values);
    var y := RenderedStarts(names, others);
    assert |names| == 1 ==> values == [x] && others == [y];
    assert x == Field(names[0], x)[|names[0]| + 1..] && y == Field(names[0], y)[|names[0]| + 1..];
  }

  lemma AmbiguousTail(names: seq<string>, values: seq<string>)
    requires |names| == |values| >= 2 && Ambiguous(names[1..], values[1..])
    ensures Ambiguous(names, values)
  {}

  lemma LongerHoldsTheNext(names: seq<string>, values: seq<string>, others: seq<string>)
    requires |names| == |values| == |others| >= 2 && PlainNames(names) && |values[0]| > |others[0]|
    requires values[0] + "|" + Rendered(names[1..], values[1..]) == others[0] + "|" + Rendered(names[1..], others[1..])
    ensures Ambiguous(names, values)
  {
    hide Rendered, Holds, Separator;
    var r := Rendered(names[1..], values[1..]);
    var u := LongerHead(values[0], r, others[0], Rendered(names[1..], others[1..]));
    var z := RenderedStarts(names[1..], others[1..]);
    var rest := CutBehindTheName(u, r, names[1], z);
    SeparatorEndsTheHead(others[0], names[1], rest);
    Held(others[0], Separator(names[1]), rest);
  }

  lemma SameHead(a: string, r: string, b: string, t: string)
    requires a + "|" + r == b + "|" + t && |a| == |b|
    ensures a == b && r == t
  {
    var s := a + "|" + r;
    assert s[..|a|] == a && s[..|b|] == b && s[|a| + 1..] == r && s[|b| + 1..] == t;
  }

  /** An ambiguous text does have another reading. */
  lemma {:induction false} AmbiguousHasAnotherReading(names: seq<string>, values: seq<string>)
    returns (others: seq<string>)
    requires |names| == |values| && Ambiguous(names, values)
    ensures |others| == |values| && others != values && Rendered(names, others) == Rendered(names, values)
    decreases |names|
  {
    hide Rendered, Holds, Separator;
    if Holds(values[0], Separator(names[1])) {
      others := CutEarlier(names, values);
    } else if Holds(values[1], Separator(names[1])) {
      others := CutLater(names, values);
    } else {
      var tail := AmbiguousHasAnotherReading(names[1..], values[1..]);
      others := [values[0]] + tail;
      SameTailRenders(names, values, others, tail);
    }
  }

  lemma SameTailRenders(names: seq<string>, values: seq<string>, others: seq<string>, tail: seq<string>)
    requires |names| == |values| == |others| >= 2 && others == [values[0]] + tail
    requires Rendered(names[1..], tail) == Rendered(names[1..], values[1..])
    ensures Rendered(names, others) == Rendered(names, values)
  {
    assert others[1..] == tail;
  }

  lemma CutEarlier(names: seq<string>, values: seq<string>) returns (others: seq<string>)
    requires |names| == |values| >= 2 && Holds(values[0], Separator(names[1]))
    ensures |others| == |values| && others != values && Rendered(names, others) == Rendered(names, values)
  {
    hide Rendered;
    var sep := Separator(names[1]);
    var a, b :| values[0] == a + sep + b;
    others := [a, b + sep + values[1]] + values[2..];
    TailRenders(names, values, others);
  }

  lemma CutLater(names: seq<string>, values: seq<string>) returns (others: seq<string>)
    requires |names| == |values| >= 2 && Holds(values[1], Separator(names[1]))
    ensures |others| == |values| && others != values && Rendered(names, others) == Rendered(names, values)
  {
    hide Rendered;
    var sep := Separator(names[1]);
    var a, b :| values[1] == a + sep + b;
    others := [values[0] + sep + a, b] + values[2..];
    TailRenders(names, values, others);
  }

  /** Moving the cut between the first two values leaves the text as it is. */
  lemma TailRenders(names: seq<string>, values: seq<string>, others: seq<string>)
    requires |names| == |values| == |others| >= 2 && others[2..] == values[2..]
    requires others[0] + Separator(names[1]) + others[1] == values[0] + Separator(names[1]) + values[1]
    ensures Rendered(names, others) == Rendered(names, values)
  {
    var tail := if |names| == 2 then "" else "|" + Rendered(names[2..], values[2..]);
    FirstTwo(names, values, tail);
    FirstTwo(names, others, tail);
  }

  lemma FirstTwo(names: seq<string>, values: seq<string>, tail: string)
    requires |names| == |values| >= 2
    requires tail == if |names| == 2 then "" else "|" + Rendered(names[2..], values[2..])
    ensures Rendered(names, values) == names[0] + "=" + (values[0] + Separator(names[1]) + values[1]) + tail
  {
    assert names[1..][1..] == names[2..] && values[1..][1..] == values[2..];
    assert Rendered(names[1..], values[1..]) == Field(names[1], values[1]) + tail;
    Regroup(names[0], values[0], names[1], values[1], tail);
  }

  lemma Regroup(first: string, v: string, second: string, w: string, tail: string)
    ensures Field(first, v) + "|" + (Field(second, w) + tail) == first + "=" + (v + Separator(second) + w) + tail
  {
    assert Field(first, v) + "|" + Field(second, w) == first + "=" + (v + Separator(second) + w);
  }

  /** A record id can be read as another key exactly when a value holds the separator before or after it. */
  lemma AnotherReadingIff(names: seq<string>, values: seq<string>)
    requires |names| == |values| && PlainNames(names)
    ensures (exists others: seq<string> ::
      |others| == |values| && others != values && Rendered(names, others) == Rendered(names, values))
       <==> Ambiguous(names, values)
  {
    if Ambiguous(names, values) {
      var others := AmbiguousHasAnotherReading(names, values);
    }
    if others: seq<string> :|
      && |others| == |values| && others != values
      && Rendered(names, others) == Rendered(names, values) {
      OtherReadingIsAmbiguous(names, values, others);
    }
  }

  /** In particular a key without a bar in its values has no other reading. */
  lemma {:induction false} NoBarNoOtherReading(names: seq<string>, values: seq<string>)
    requires |names| == |values| && forall i :: 0 <= i < |values| ==> '|' !in values[i]
    ensures !Ambiguous(names, values)
    decreases |names|
  {
    if |names| >= 2 {
      BarInside(values[0], names[1]);
      BarInside(values[1], names[1]);
      NoBarNoOtherReading(names[1..], values[1..]);
    }
  }

  lemma BarInside(value: string, name: string)
    ensures Holds(value, Separator(name)) ==> '|' in value
  {
    if Holds(value, Separator(name)) {
      var a, b :| value == a + Separator(name) + b;
      assert value[|a|] == '|';
    }
  }
}

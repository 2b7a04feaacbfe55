/**
  The constructs of the pattern language one by one: how each is written, character for
  character, and exactly which strings it stands for.
 */
module StrgenMeaning {
  import opened StrgenSpec
  import opened StrgenPattern

  lemma OneItem(rules: Rules, i: Item, out: Text)
    ensures Render([i]) == RenderItem(i) && (PatternOk(rules, [i]) <==> ItemOk(rules, i))
    ensures Produces(rules, [i], out) <==> ItemYields(rules, i, out)
  {
    hide ItemYields, ItemOk, RenderItem;
    var items := [i];
    assert items[0] == i && items[1..] == [];
    assert RenderItem(i) + [] == RenderItem(i);
    if ItemYields(rules, i, out) {
      assert out == out + [] && Produces(rules, [], []);
    }
    if Produces(rules, items, out) {
      var head, more :| out == head + more && ItemYields(rules, i, head) && Produces(rules, [], more);
      assert head + [] == head;
    }
  }

  // ---------- Choosing single characters ----------

  lemma {:induction false} JoinSingles(t: Text)
    ensures Join(Singles(t)) == t
    decreases |t|
  {
    if t != [] {
      JoinSingles(t[1..]);
      assert Singles(t)[1..] == Singles(t[1..]);
      assert [t[0]] + t[1..] == t;
    }
  }

  lemma {:induction false} AllSingle(vs: seq<Text>)
    requires forall i :: 0 <= i < |vs| ==> |vs[i]| == 1
    ensures Singles(Join(vs)) == vs
    decreases |vs|
  {
    if vs != [] {
      AllSingle(vs[1..]);
      var t := Join(vs);
      assert t[0] == vs[0][0] && t[1..] == Join(vs[1..]);
      assert Singles(t) == [[t[0]]] + Singles(t[1..]);
      assert vs == [vs[0]] + vs[1..] && vs[0] == [t[0]];
    }
  }

  lemma SinglesIn(cs: Text, v: Text)
    ensures v in Singles(cs) <==> |v| == 1 && v[0] in cs
  {
    if |v| == 1 && v[0] in cs {
      var i :| 0 <= i < |cs| && cs[i] == v[0];
      assert Singles(cs)[i] == [cs[i]] == v;
    }
  }

  lemma {:induction false} SinglesCount(cs: Text, c: Unit)
    ensures multiset(Singles(cs))[[c]] == multiset(cs)[c]
    decreases |cs|
  {
    if cs != [] {
      SinglesCount(cs[1..], c);
      assert cs == [cs[0]] + cs[1..] && Singles(cs) == [[cs[0]]] + Singles(cs[1..]);
    }
  }

  lemma SinglesWithin(a: Text, b: Text)
    ensures multiset(Singles(a)) <= multiset(Singles(b)) <==> multiset(a) <= multiset(b)
  {
    if multiset(a) <= multiset(b) {
      forall v
        ensures multiset(Singles(a))[v] <= multiset(Singles(b))[v]
      {
        if v in Singles(a) {
          SinglesIn(a, v);
          assert v == [v[0]];
          SinglesCount(a, v[0]);
          SinglesCount(b, v[0]);
        }
      }
    }
    if multiset(Singles(a)) <= multiset(Singles(b)) {
      forall c
        ensures multiset(a)[c] <= multiset(b)[c]
      {
        if c in a {
          SinglesCount(a, c);
          SinglesCount(b, c);
        }
      }
    }
  }

  function Letters(cs: Text): set<Unit> {
    set c | c in cs
  }

  lemma {:induction false} SinglesValues(cs: Text)
    ensures |Values(Singles(cs))| == |Letters(cs)|
    decreases |cs|
  {
    if cs == [] {
      assert Values(Singles(cs)) == {} && Letters(cs) == {};
    } else {
      var c, rest := cs[0], cs[1..];
      SinglesValues(rest);
      assert cs == [c] + rest && Singles(cs) == [[c]] + Singles(rest);
      assert Letters(cs) == Letters(rest) + {c} && Values(Singles(cs)) == Values(Singles(rest)) + {[c]};
      SinglesIn(rest, [c]);
    }
  }

  ghost predicate Different(t: Text) {
    forall i, j :: 0 <= i < j < |t| ==> t[i] != t[j]
  }

  /**
    `n` of the characters as the rules let them be chosen: with duplicates any, otherwise as
    many as there are, none oftener than it is there or, without multiple instances, than once.
   */
  ghost predicate LettersChosen(rules: Rules, cs: Text, n: int, out: Text) {
    && (forall i :: 0 <= i < |out| ==> out[i] in cs)
    && if rules.allowDuplicates then |out| == (if cs == [] then 0 else Max(n, 0))
       else if rules.allowMultiple then |out| == Min(Max(n, 0), |cs|) && multiset(out) <= multiset(cs)
       else |out| == Min(Max(n, 0), |Letters(cs)|) && Different(out)
  }

  lemma {:induction false} DifferentOnce(t: Text, c: Unit)
    requires Different(t)
    ensures multiset(t)[c] <= 1
    decreases |t|
  {
    if t != [] {
      DifferentOnce(t[1..], c);
      assert t == [t[0]] + t[1..];
      if t[0] == c {
        assert c !in t[1..];
        assert c !in multiset(t[1..]);
      }
    }
  }

  lemma DifferentWithin(t: Text, cs: Text)
    requires Different(t) && forall i :: 0 <= i < |t| ==> t[i] in cs
    ensures multiset(t) <= multiset(cs)
  {
    forall c
      ensures multiset(t)[c] <= multiset(cs)[c]
    {
      if c in t {
        DifferentOnce(t, c);
        assert c in cs && c in multiset(cs);
      }
    }
  }

  lemma SinglesAllIn(cs: Text, out: Text)
    ensures (forall i :: 0 <= i < |out| ==> Singles(out)[i] in Singles(cs)) <==> (forall i :: 0 <= i < |out| ==> out[i] in cs)
  {
    hide Singles;
    if i :| 0 <= i < |out| && Singles(out)[i] !in Singles(cs) {
      SinglesIn(cs, [out[i]]);
      assert out[i] !in cs;
    }
    if i :| 0 <= i < |out| && out[i] !in cs {
      SinglesIn(cs, [out[i]]);
      assert Singles(out)[i] !in Singles(cs);
    }
  }

  lemma WithinAllIn(a: Text, b: Text)
    requires multiset(a) <= multiset(b)
    ensures forall i :: 0 <= i < |a| ==> a[i] in b
  {
    forall i | 0 <= i < |a|
      ensures a[i] in b
    {
      assert a[i] in multiset(a) && a[i] in multiset(b);
    }
  }

  lemma SinglesDifferent(t: Text)
    ensures AllDifferent(Singles(t)) <==> Different(t)
  {
  }

  lemma SinglesChosen(rules: Rules, cs: Text, n: int, out: Text)
    ensures Chosen(rules, Singles(cs), n, Singles(out)) <==> LettersChosen(rules, cs, n, out)
  {
    hide Singles, AllDifferent, Different, Values, Letters;
    SinglesAllIn(cs, out);
    if !rules.allowDuplicates {
      SinglesWithin(out, cs);
      SinglesValues(cs);
      SinglesDifferent(out);
      if multiset(out) <= multiset(cs) {
        WithinAllIn(out, cs);
      } else if Different(out) && forall i :: 0 <= i < |out| ==> out[i] in cs {
        DifferentWithin(out, cs);
      }
    }
  }

  lemma ChosenIsSingle(rules: Rules, cs: Text, n: int, vs: seq<Text>)
    requires Chosen(rules, Singles(cs), n, vs)
    ensures forall i :: 0 <= i < |vs| ==> |vs[i]| == 1
  {
    forall i | 0 <= i < |vs|
      ensures |vs[i]| == 1
    {
      assert vs[i] in multiset(vs);
      assert vs[i] in Singles(cs) by {
        assert !rules.allowDuplicates ==> vs[i] in multiset(Singles(cs));
      }
      SinglesIn(cs, vs[i]);
    }
  }

  /** A number that the quantifier allows, and as many of the characters. */
  ghost predicate SomeLetters(rules: Rules, cs: Text, q: Quant, out: Text) {
    exists n :: Between(Bounds(rules, q).0, Bounds(rules, q).1, n) && LettersChosen(rules, cs, n, out)
  }

  lemma SelectsLetters(rules: Rules, cs: Text, q: Quant, out: Text)
    ensures (exists vs :: Selects(rules, Singles(cs), q, vs) && out == Join(vs)) <==> SomeLetters(rules, cs, q, out)
  {
    hide Chosen, LettersChosen, Between, Bounds;
    if SomeLetters(rules, cs, q, out) {
      var n :| Between(Bounds(rules, q).0, Bounds(rules, q).1, n) && LettersChosen(rules, cs, n, out);
      SinglesChosen(rules, cs, n, out);
      JoinSingles(out);
      assert Selects(rules, Singles(cs), q, Singles(out));
    }
    if vs :| Selects(rules, Singles(cs), q, vs) && out == Join(vs) {
      var n :| Between(Bounds(rules, q).0, Bounds(rules, q).1, n) && Chosen(rules, Singles(cs), n, vs);
      ChosenIsSingle(rules, cs, n, vs);
      AllSingle(vs);
      SinglesChosen(rules, cs, n, out);
    }
  }

  /** A body that collects the characters `cs` and writes nothing meanwhile. */
  ghost predicate Collects(rules: Rules, b: Body, cs: Text) {
    Written(rules, b) == [] && forall list :: ListOf(rules, b, list) <==> list == Singles(cs)
  }

  lemma GroupOfLetters(rules: Rules, b: Body, cs: Text, q: Quant, out: Text)
    requires Collects(rules, b, cs)
    ensures Produces(rules, [Group(b, q)], out) <==> SomeLetters(rules, cs, q, out)
  {
    hide ListOf, Selects, SomeLetters, Produces, Written, Render, PatternOk;
    OneItem(rules, Group(b, q), out);
    SelectsLetters(rules, cs, q, out);
    assert ListOf(rules, b, Singles(cs));
    if SomeLetters(rules, cs, q, out) {
      var vs :| Selects(rules, Singles(cs), q, vs) && out == Join(vs);
      assert [] + Join(vs) == out;
    }
    if ItemYields(rules, Group(b, q), out) {
      var list, vs :| ListOf(rules, b, list) && Selects(rules, list, q, vs) && out == Written(rules, b) + Join(vs);
      assert [] + Join(vs) == Join(vs);
    }
  }

  // ---------- Classes ----------

  /** What is read as itself in a class. */
  predicate PlainInClass(c: Unit) {
    c !in [Of('['), Of(']'), Of('{'), Of('}'), Of('('), Of(')'), Of('-'), Of('\\'), Of('|'), Of('/')]
  }

  function Plain(cs: Text): (ps: seq<Part>)
    ensures |ps| == |cs| && forall i :: 0 <= i < |cs| ==> ps[i] == Single(cs[i])
  {
    if cs == [] then [] else [Single(cs[0])] + Plain(cs[1..])
  }

  lemma {:induction false} PlainParts(rules: Rules, cs: Text)
    ensures RenderParts(Plain(cs)) == cs && ClassValues(rules, Plain(cs)) == Singles(cs) && Codes(rules, Plain(cs)) == []
    ensures PartsOk(false, Plain(cs)) <==> forall i :: 0 <= i < |cs| ==> PlainInClass(cs[i])
    decreases |cs|
  {
    if cs != [] {
      var c, rest := cs[0], cs[1..];
      PlainParts(rules, rest);
      assert Plain(cs)[0] == Single(c) && Plain(cs)[1..] == Plain(rest);
      assert cs == [c] + rest;
      PlainOk(c);
    }
  }

  lemma PlainOk(c: Unit)
    ensures PartOk(false, Single(c)) <==> PlainInClass(c)
    ensures PlainInClass(c) ==> LastOf(Single(c)) != Of('/')
  {
  }

  lemma PlainCollects(rules: Rules, cs: Text)
    ensures Collects(rules, Class(Plain(cs)), cs)
  {
    PlainParts(rules, cs);
  }

  /** `[cs]`: one of the characters. */
  lemma ClassPattern(rules: Rules, cs: Text, out: Text)
    ensures var items := [Group(Class(Plain(cs)), Once)];
            && Render(items) == [Of('[')] + cs + [Of(']')]
            && (PatternOk(rules, items) <==> cs != [] && forall i :: 0 <= i < |cs| ==> PlainInClass(cs[i]))
            && (cs != [] ==> (Produces(rules, items, out) <==> |out| == 1 && out[0] in cs))
  {
    hide Produces, PatternOk, Render, PlainInClass, Plain;
    PlainParts(rules, cs);
    PlainCollects(rules, cs);
    OneItem(rules, Group(Class(Plain(cs)), Once), out);
    GroupOfLetters(rules, Class(Plain(cs)), cs, Once, out);
    if cs != [] {
      OneLetter(rules, cs, out);
    }
    NoQuantifier(RenderBody(Class(Plain(cs))));
  }

  lemma NoQuantifier(t: Text)
    ensures t + RenderQuant(Once) == t
  {
  }

  lemma OneLetter(rules: Rules, cs: Text, out: Text)
    requires cs != []
    ensures SomeLetters(rules, cs, Once, out) <==> |out| == 1 && out[0] in cs
  {
    assert cs[0] in Letters(cs);
    if |out| == 1 && out[0] in cs {
      assert LettersChosen(rules, cs, 1, out) by {
        assert out == [out[0]] && out[0] in multiset(cs);
      }
      assert Between(Bounds(rules, Once).0, Bounds(rules, Once).1, 1);
    }
    if SomeLetters(rules, cs, Once, out) {
      var n :| Between(Bounds(rules, Once).0, Bounds(rules, Once).1, n) && LettersChosen(rules, cs, n, out);
      assert n == 1;
    }
  }

  /** The code units from `lo` to `hi`. */
  function Ascending(lo: Unit, hi: Unit): (cs: Text)
    requires lo <= hi
    ensures |cs| == hi - lo + 1 && forall i :: 0 <= i < |cs| ==> cs[i] == lo + i
  {
    seq(hi - lo + 1, i requires 0 <= i < hi - lo + 1 => lo + i)
  }

  lemma SpanCollects(rules: Rules, a: Unit, b: Unit)
    ensures Collects(rules, Class([Span(a, false, b)]), Ascending(Min(a, b), Max(a, b)))
  {
    hide Singles, From, Ascending;
    var ps := [Span(a, false, b)];
    assert ps[1..] == [] && ClassValues(rules, []) == [] && Codes(rules, []) == [];
    assert ClassValues(rules, ps) == From(Min(a, b), Max(a, b)) + [] == From(Min(a, b), Max(a, b));
    FromIsAscending(Min(a, b), Max(a, b));
    assert Codes(rules, ps) == [] + [];
  }

  lemma FromIsAscending(lo: Unit, hi: Unit)
    requires lo <= hi
    ensures From(lo, hi) == Singles(Ascending(lo, hi))
  {
  }

  /** A class of one part. */
  lemma OnePart(p: Part)
    ensures ClassOk([p]) <==> PartOk(false, p)
    ensures RenderBody(Class([p])) == [Of('[')] + RenderPart(p) + [Of(']')]
  {
    var ps := [p];
    assert ps[0] == p && ps[1..] == [];
    assert PartsOk(LastOf(p) == Of('/'), []);
    assert PartsOk(false, ps) <==> PartOk(false, p);
    assert RenderParts(ps) == RenderPart(p) + [] == RenderPart(p);
  }

  /** `[a-b]`: one of the code units between the two, in either order, both included. */
  lemma RangePattern(rules: Rules, a: Unit, b: Unit, out: Text)
    ensures var items := [Group(Class([Span(a, false, b)]), Once)];
            && Render(items) == [Of('['), a, Of('-'), b, Of(']')]
            && (PatternOk(rules, items) <==> PlainInClass(a) && b != Of('/'))
            && (Produces(rules, items, out) <==> |out| == 1 && Min(a, b) <= out[0] <= Max(a, b))
  {
    hide Produces, PatternOk, Render, PlainInClass, ClassOk, RenderParts;
    var ps, cs := [Span(a, false, b)], Ascending(Min(a, b), Max(a, b));
    OneItem(rules, Group(Class(ps), Once), out);
    SpanCollects(rules, a, b);
    GroupOfLetters(rules, Class(ps), cs, Once, out);
    OneLetter(rules, cs, out);
    OnePart(Span(a, false, b));
    NoQuantifier(RenderBody(Class(ps)));
    PlainOk(a);
    if |out| == 1 && Min(a, b) <= out[0] <= Max(a, b) {
      assert cs[out[0] - Min(a, b)] == out[0];
    }
  }

  /** `[\c]`: one of the characters of the first preset with that code; without one the code itself is written. */
  lemma PresetPattern(rules: Rules, code: Unit, out: Text)
    ensures var items, n := [Group(Class([Named(code)]), Once)], PresetOf(rules.presets, [code]);
            && Render(items) == [Of('['), Of('\\'), code, Of(']')] && PatternOk(rules, items)
            && (Produces(rules, items, out) <==>
                if n == |rules.presets| then out == [code]
                else if rules.presets[n].value == [] then out == []
                else |out| == 1 && out[0] in rules.presets[n].value)
  {
    hide Produces, PatternOk, Render, ClassOk, RenderParts, PresetOf;
    var ps, n := [Named(code)], PresetOf(rules.presets, [code]);
    OneItem(rules, Group(Class(ps), Once), out);
    assert ps[1..] == [] && ClassValues(rules, []) == [] && Codes(rules, []) == [];
    OnePart(Named(code));
    NoQuantifier(RenderBody(Class(ps)));
    if n == |rules.presets| {
      assert Codes(rules, ps) == [code] + [] && ClassValues(rules, ps) == [] + [];
      NothingToPick(rules, Class(ps), out);
    } else {
      var cs := rules.presets[n].value;
      assert Codes(rules, ps) == [] + [] && ClassValues(rules, ps) == Singles(cs) + [];
      GroupOfLetters(rules, Class(ps), cs, Once, out);
      if cs == [] {
        NoLetter(rules, out);
      } else {
        OneLetter(rules, cs, out);
      }
    }
  }

  lemma NoLetter(rules: Rules, out: Text)
    ensures SomeLetters(rules, [], Once, out) <==> out == []
  {
    assert Letters([]) == {};
    if out == [] {
      assert LettersChosen(rules, [], 1, out);
      assert Between(Bounds(rules, Once).0, Bounds(rules, Once).1, 1);
    }
  }

  /** A body without values gives only what is written while it is read. */
  lemma NothingToPick(rules: Rules, b: Body, out: Text)
    requires forall list :: ListOf(rules, b, list) <==> list == []
    ensures ItemYields(rules, Group(b, Once), out) <==> out == Written(rules, b)
  {
    hide ListOf, Written;
    NothingAvailable([], rules.allowMultiple);
    assert Chosen(rules, [], 1, []);
    assert Between(Bounds(rules, Once).0, Bounds(rules, Once).1, 1);
    assert ListOf(rules, b, []) && Selects(rules, [], Once, []);
    assert Written(rules, b) + Join([]) == Written(rules, b);
    forall vs | Selects(rules, [], Once, vs)
      ensures vs == []
    {
    }
  }

  // ---------- Quantifiers ----------

  /** What may stand in a numeral. */
  predicate Digits(t: Text) {
    forall i :: 0 <= i < |t| ==> PlainInClass(t[i]) && t[i] != Of(':') && t[i] != Of(',')
  }

  lemma DigitsAre(t: Text)
    ensures Numeral(t) <==> Digits(t)
  {
    forall i | 0 <= i < |t|
      ensures t[i] !in OPERATORS && !IsQuantifierOperator([t[i]]) <==> PlainInClass(t[i]) && t[i] != Of(':') && t[i] != Of(',')
    {
      DigitIs(t[i]);
    }
  }

  lemma DigitIs(c: Unit)
    ensures c !in OPERATORS && !IsQuantifierOperator([c]) <==> PlainInClass(c) && c != Of(':') && c != Of(',')
  {
  }

  /** `[cs]{t}`: as many of the characters as the numeral says. */
  lemma CountPattern(rules: Rules, cs: Text, t: Text, n: int, out: Text)
    requires rules.parseInt(t) == Int(n)
    ensures var items := [Group(Class(Plain(cs)), Count(t))];
            && Render(items) == [Of('[')] + cs + [Of(']')] + ([Of('{')] + t + [Of('}')])
            && (PatternOk(rules, items) <==>
                && cs != [] && (forall i :: 0 <= i < |cs| ==> PlainInClass(cs[i]))
                && t != [] && Digits(t) && rules.toNumber(t) == Int(n))
            && (Produces(rules, items, out) <==> LettersChosen(rules, cs, n, out))
  {
    hide Produces, PatternOk, Render, PlainInClass, Plain, LettersChosen, Digits, Numeral;
    var q := Count(t);
    PlainParts(rules, cs);
    PlainCollects(rules, cs);
    DigitsAre(t);
    OneItem(rules, Group(Class(Plain(cs)), q), out);
    GroupOfLetters(rules, Class(Plain(cs)), cs, q, out);
    if LettersChosen(rules, cs, n, out) {
      assert Between(Bounds(rules, q).0, Bounds(rules, q).1, n);
    }
  }

  /** A numeral of a range; a missing one is 0. */
  function BoundOf(rules: Rules, t: Text): Num {
    if t == [] then Int(0) else rules.parseInt(t)
  }

  /** `[cs]{t,u}`, and with a colon or a hyphen: as many as some number between the two, in either order. */
  lemma BetweenPattern(rules: Rules, cs: Text, t: Text, sep: Unit, u: Text, a: int, b: int, out: Text)
    requires BoundOf(rules, t) == Int(a) && BoundOf(rules, u) == Int(b)
    ensures var items := [Group(Class(Plain(cs)), Range(t, sep, u))];
            && Render(items) == [Of('[')] + cs + [Of(']')] + ([Of('{')] + t + [sep] + u + [Of('}')])
            && (PatternOk(rules, items) <==>
                && cs != [] && (forall i :: 0 <= i < |cs| ==> PlainInClass(cs[i]))
                && (t != [] || u != []) && Digits(t) && Digits(u) && (sep == Of(':') || sep == Of(',') || sep == Of('-')))
            && (Produces(rules, items, out) <==> exists n :: Min(a, b) <= n <= Max(a, b) && LettersChosen(rules, cs, n, out))
  {
    hide Produces, PatternOk, Render, PlainInClass, Plain, LettersChosen, Digits, Numeral;
    var q := Range(t, sep, u);
    PlainParts(rules, cs);
    PlainCollects(rules, cs);
    DigitsAre(t);
    DigitsAre(u);
    OneItem(rules, Group(Class(Plain(cs)), q), out);
    GroupOfLetters(rules, Class(Plain(cs)), cs, q, out);
    assert forall n :: Between(Bounds(rules, q).0, Bounds(rules, q).1, n) <==> Min(a, b) <= n <= Max(a, b);
  }

  /** What is read as itself outside classes and sequences. */
  predicate PlainOutside(c: Unit) {
    c !in [Of('['), Of(']'), Of('{'), Of('}'), Of('('), Of(')'), Of('/'), Of('+'), Of('*'), Of('?')]
  }

  lemma BareIs(c: Unit)
    ensures Bare(c) <==> PlainOutside(c)
  {
  }

  predicate Copies(out: Text, c: Unit) {
    forall i :: 0 <= i < |out| ==> out[i] == c
  }

  lemma CopiesChosen(rules: Rules, c: Unit, n: int, out: Text)
    ensures LettersChosen(rules, [c], n, out) <==>
            Copies(out, c) && |out| == if rules.allowDuplicates then Max(n, 0) else Min(Max(n, 0), 1)
  {
    assert Letters([c]) == {c};
    if Copies(out, c) && |out| <= 1 && !rules.allowDuplicates {
      assert out == [] || out == [c];
    }
  }

  /** So many copies at most; without duplicates there is only one. */
  function Capped(rules: Rules, n: int): nat {
    if rules.allowDuplicates then Max(n, 0) else Min(Max(n, 0), 1)
  }

  lemma SomeCopies(rules: Rules, c: Unit, q: Quant, lo: int, hi: int, out: Text)
    requires Bounds(rules, q).0.Int? && Bounds(rules, q).1.Int?
    requires lo == Min(Bounds(rules, q).0.n, Bounds(rules, q).1.n) && hi == Max(Bounds(rules, q).0.n, Bounds(rules, q).1.n)
    ensures SomeLetters(rules, [c], q, out) <==> Copies(out, c) && Capped(rules, lo) <= |out| <= Capped(rules, hi)
  {
    hide LettersChosen, Copies;
    if SomeLetters(rules, [c], q, out) {
      var n :| Between(Bounds(rules, q).0, Bounds(rules, q).1, n) && LettersChosen(rules, [c], n, out);
      CopiesChosen(rules, c, n, out);
    }
    if Copies(out, c) && Capped(rules, lo) <= |out| <= Capped(rules, hi) {
      var n := if |out| == Capped(rules, lo) then lo else if |out| == Capped(rules, hi) then hi else |out|;
      CopiesChosen(rules, c, n, out);
      assert Between(Bounds(rules, q).0, Bounds(rules, q).1, n);
    }
  }

  lemma CharCollects(rules: Rules, c: Unit)
    ensures Collects(rules, Char(c), [c])
  {
    assert [c][1..] == [] && Singles([c]) == [[c]] + [];
  }

  lemma RepeatItem(rules: Rules, c: Unit, q: Quant, out: Text)
    requires Symbol(q)
    ensures var items := [Group(Char(c), q)];
            && Render(items) == [c] + RenderQuant(q) && (PatternOk(rules, items) <==> PlainOutside(c))
            && (Produces(rules, items, out) <==> SomeLetters(rules, [c], q, out))
  {
    hide Produces, PatternOk, Render, PlainOutside, SomeLetters, Bare;
    OneItem(rules, Group(Char(c), q), out);
    CharCollects(rules, c);
    GroupOfLetters(rules, Char(c), [c], q, out);
    BareIs(c);
  }

  /** `c?`: the character or nothing. */
  lemma OptionalPattern(rules: Rules, c: Unit, out: Text)
    ensures var items := [Group(Char(c), Opt)];
            && Render(items) == [c, Of('?')] && (PatternOk(rules, items) <==> PlainOutside(c))
            && (Produces(rules, items, out) <==> out == [] || out == [c])
  {
    hide Produces, PatternOk, Render, PlainOutside, SomeLetters;
    RepeatItem(rules, c, Opt, out);
    SomeCopies(rules, c, Opt, 0, 1, out);
    if |out| == 1 && Copies(out, c) {
      assert out == [out[0]];
    }
  }

  /** `c*`: from none up to the largest number of copies. */
  lemma StarPattern(rules: Rules, c: Unit, out: Text)
    ensures var items := [Group(Char(c), Star)];
            && Render(items) == [c, Of('*')] && (PatternOk(rules, items) <==> PlainOutside(c))
            && (Produces(rules, items, out) <==> Copies(out, c) && |out| <= Capped(rules, rules.symbolMax))
  {
    hide Produces, PatternOk, Render, PlainOutside, SomeLetters, Copies;
    RepeatItem(rules, c, Star, out);
    SomeCopies(rules, c, Star, Min(0, rules.symbolMax), Max(0, rules.symbolMax), out);
  }

  /** `c+`: from one up to the largest number of copies, or down to it if that is less. */
  lemma PlusPattern(rules: Rules, c: Unit, out: Text)
    ensures var items := [Group(Char(c), Plus)];
            && Render(items) == [c, Of('+')] && (PatternOk(rules, items) <==> PlainOutside(c))
            && (Produces(rules, items, out) <==>
                Copies(out, c) && Capped(rules, Min(1, rules.symbolMax)) <= |out| <= Capped(rules, Max(1, rules.symbolMax)))
  {
    hide Produces, PatternOk, Render, PlainOutside, SomeLetters, Copies;
    RepeatItem(rules, c, Plus, out);
    SomeCopies(rules, c, Plus, Min(1, rules.symbolMax), Max(1, rules.symbolMax), out);
  }

  // ---------- Literals ----------

  /** `/c`: the character, whatever it is. */
  lemma EscapedPattern(rules: Rules, c: Unit, out: Text)
    ensures var items := [Escaped(c)];
            && Render(items) == [Of('/'), c] && PatternOk(rules, items) && (Produces(rules, items, out) <==> out == [c])
  {
    hide Produces, PatternOk, Render;
    OneItem(rules, Escaped(c), out);
  }

  // ---------- Sequences ----------

  /** What is read as itself in a sequence. */
  predicate PlainInSequence(c: Unit) {
    PlainInClass(c) && c !in [Of('+'), Of('*'), Of('?'), Of('&')]
  }

  predicate PlainWords(words: seq<Text>) {
    forall i, j :: 0 <= i < |words| && 0 <= j < |words[i]| ==> PlainInSequence(words[i][j])
  }

  /** A word of letters. */
  function Spelled(t: Text): (w: Word)
    ensures |w| == |t| && forall i :: 0 <= i < |t| ==> w[i] == Letter(t[i])
  {
    if t == [] then [] else [Letter(t[0])] + Spelled(t[1..])
  }

  lemma {:induction false} SpelledIs(rules: Rules, t: Text, out: Text)
    ensures RenderWord(Spelled(t)) == t && WordCodes(rules, Spelled(t)) == []
    ensures WordMeans(rules, Spelled(t), out) <==> out == t
    decreases |t|
  {
    if t != [] {
      var w := Spelled(t);
      assert w[0] == Letter(t[0]) && w[1..] == Spelled(t[1..]) && t == [t[0]] + t[1..];
      SpelledIs(rules, t[1..], t[1..]);
      if WordMeans(rules, w, out) {
        var head, more :| out == head + more && PieceMeans(rules, w[0], head) && WordMeans(rules, w[1..], more);
        SpelledIs(rules, t[1..], more);
      }
      if out == t {
        assert PieceMeans(rules, w[0], [t[0]]);
      }
    }
  }

  lemma LetterOk(rules: Rules, c: Unit)
    ensures PieceOk(rules, Letter(c)) <==> PlainInSequence(c)
  {
  }

  lemma SpelledOk(rules: Rules, t: Text)
    ensures WordOk(rules, Spelled(t)) <==> forall j :: 0 <= j < |t| ==> PlainInSequence(t[j])
  {
    hide PieceOk, PlainInSequence;
    forall j | 0 <= j < |t|
      ensures PieceOk(rules, Spelled(t)[j]) <==> PlainInSequence(t[j])
    {
      LetterOk(rules, t[j]);
    }
  }

  /** One alternative for each word. */
  function Apart(words: seq<Text>): (alts: seq<seq<Word>>)
    ensures |alts| == |words| && forall i :: 0 <= i < |words| ==> alts[i] == [Spelled(words[i])]
  {
    if words == [] then [] else [[Spelled(words[0])]] + Apart(words[1..])
  }

  /** The words with bars between them. */
  function Barred(words: seq<Text>): Text
    requires words != []
  {
    if |words| == 1 then words[0] else words[0] + [Of('|')] + Barred(words[1..])
  }

  lemma OneWord(rules: Rules, t: Text)
    ensures var alt := [Spelled(t)];
            RenderAlt(alt) == t && Flatten(alt) == Spelled(t)
  {
    var alt := [Spelled(t)];
    assert alt[0] == Spelled(t) && alt[1..] == [];
    assert Flatten(alt) == Spelled(t) + [];
    SpelledIs(rules, t, t);
    assert RenderAlt(alt) == t + [];
  }

  lemma {:induction false} ApartRenders(rules: Rules, words: seq<Text>)
    requires words != []
    ensures RenderAlts(Apart(words)) == Barred(words) && AltsCodes(rules, Apart(words)) == []
    decreases |words|
  {
    hide RenderAlt, WordCodes, Flatten;
    var alts, rest := Apart(words), words[1..];
    assert alts[0] == [Spelled(words[0])] && alts[1..] == Apart(rest);
    OneWord(rules, words[0]);
    assert WordCodes(rules, Flatten(alts[0])) == [] by { SpelledIs(rules, words[0], []); }
    if rest == [] {
      assert AltsCodes(rules, Apart(rest)) == [];
      assert RenderAlts(alts) == words[0] + [];
    } else {
      ApartRenders(rules, rest);
      var more := Apart(rest);
      assert MoreAlts(more) == [Of('|')] + RenderAlts(more);
      assert words[0] + ([Of('|')] + Barred(rest)) == words[0] + [Of('|')] + Barred(rest);
    }
  }

  lemma ApartOk(rules: Rules, words: seq<Text>)
    ensures AltsOk(rules, Apart(words)) <==> PlainWords(words)
  {
    hide WordOk, PlainInSequence;
    var alts := Apart(words);
    forall i | 0 <= i < |words|
      ensures AltOk(rules, alts[i]) <==> forall j :: 0 <= j < |words[i]| ==> PlainInSequence(words[i][j])
    {
      SpelledOk(rules, words[i]);
      assert alts[i] == [Spelled(words[i])];
      assert AltOk(rules, alts[i]) <==> WordOk(rules, alts[i][0]);
    }
  }

  lemma AltOfOneWord(rules: Rules, t: Text, vals: seq<Text>)
    ensures AltMeans(rules, [Spelled(t)], vals) <==> vals == NonEmpty(t)
  {
    hide WordMeans, Flatten;
    OneWord(rules, t);
    SpelledIs(rules, t, t);
    if AltMeans(rules, [Spelled(t)], vals) {
      var u :| WordMeans(rules, Flatten([Spelled(t)]), u) && AltComesTo(|[Spelled(t)]| > 1, u, vals);
      SpelledIs(rules, t, u);
    }
  }

  /** The words that are not empty, in order. */
  function Proper(words: seq<Text>): (list: seq<Text>)
    ensures forall v :: v in list <==> v in words && v != []
  {
    if words == [] then [] else NonEmpty(words[0]) + Proper(words[1..])
  }

  function ProperEach(words: seq<Text>): (vals: seq<seq<Text>>)
    ensures |vals| == |words| && forall i :: 0 <= i < |words| ==> vals[i] == NonEmpty(words[i])
    ensures Concat(vals) == Proper(words)
  {
    if words == [] then [] else
      var vals := [NonEmpty(words[0])] + ProperEach(words[1..]);
      assert vals[1..] == ProperEach(words[1..]);
      vals
  }

  lemma ApartValues(rules: Rules, words: seq<Text>, list: seq<Text>)
    ensures ListOf(rules, Sequence(Apart(words)), list) <==> list == Proper(words)
  {
    hide AltMeans, Concat;
    var alts := Apart(words);
    forall i, vals | 0 <= i < |words|
      ensures AltMeans(rules, alts[i], vals) <==> vals == NonEmpty(words[i])
    {
      AltOfOneWord(rules, words[i], vals);
    }
    assert AltsMean(rules, alts, ProperEach(words));
    forall vals | AltsMean(rules, alts, vals)
      ensures vals == ProperEach(words)
    {
    }
  }

  /** One value of a list. */
  lemma OneOfList(rules: Rules, list: seq<Text>, vs: seq<Text>)
    ensures Selects(rules, list, Once, vs) <==> if list == [] then vs == [] else |vs| == 1 && vs[0] in list
  {
    NothingAvailable(list, rules.allowMultiple);
    assert forall n :: Between(Bounds(rules, Once).0, Bounds(rules, Once).1, n) <==> n == 1;
    assert Selects(rules, list, Once, vs) <==> Chosen(rules, list, 1, vs);
    if |vs| == 1 {
      assert vs == [vs[0]] && (vs[0] in list <==> vs[0] in multiset(list));
    }
  }

  lemma JoinOne(v: Text)
    ensures Join([v]) == v && Join([]) == []
  {
    assert [v][1..] == [];
  }

  lemma ApartBody(rules: Rules, words: seq<Text>)
    requires words != []
    ensures var b := Sequence(Apart(words));
            RenderBody(b) == [Of('(')] + Barred(words) + [Of(')')] && Written(rules, b) == []
  {
    hide RenderAlts, AltsCodes, Apart, Barred;
    ApartRenders(rules, words);
  }

  /** `(a|b|…)`: one of the words that are not empty. */
  lemma AlternativesPattern(rules: Rules, words: seq<Text>, out: Text)
    requires words != []
    ensures var items := [Group(Sequence(Apart(words)), Once)];
            && Render(items) == [Of('(')] + Barred(words) + [Of(')')]
            && (PatternOk(rules, items) <==> PlainWords(words))
            && (Produces(rules, items, out) <==> if out == [] then forall w :: w in words ==> w == [] else out in words)
  {
    hide Produces, PatternOk, Render, PlainWords, Apart, ListOf, Selects, Proper, RenderBody, Written, Barred, Join, RenderQuant;
    var b := Sequence(Apart(words));
    OneItem(rules, Group(b, Once), out);
    ApartBody(rules, words);
    ApartOk(rules, words);
    NoQuantifier(RenderBody(b));
    var list := Proper(words);
    ApartValues(rules, words, list);
    if ItemYields(rules, Group(b, Once), out) {
      var l, vs :| ListOf(rules, b, l) && Selects(rules, l, Once, vs) && out == Written(rules, b) + Join(vs);
      ApartValues(rules, words, l);
      OneOfList(rules, list, vs);
      PickedOne(list, vs);
      NoneProper(words);
    }
    if if out == [] then forall w :: w in words ==> w == [] else out in words {
      var vs := if out == [] then [] else [out];
      NoneProper(words);
      OneOfList(rules, list, vs);
      JoinOne(out);
      assert out == [] + Join(vs);
    }
  }

  lemma PickedOne(list: seq<Text>, vs: seq<Text>)
    requires if list == [] then vs == [] else |vs| == 1 && vs[0] in list
    ensures [] + Join(vs) == if list == [] then [] else vs[0]
  {
    if list != [] {
      assert vs == [vs[0]];
      JoinOne(vs[0]);
    }
  }

  lemma NoneProper(words: seq<Text>)
    ensures Proper(words) == [] <==> forall w :: w in words ==> w == []
  {
    var list := Proper(words);
    if list != [] {
      assert list[0] in list;
    }
  }

  // ---------- Words joined by ampersands ----------

  /** One alternative of all the words. */
  function Together(words: seq<Text>): (alt: seq<Word>)
    ensures |alt| == |words| && forall i :: 0 <= i < |words| ==> alt[i] == Spelled(words[i])
  {
    if words == [] then [] else [Spelled(words[0])] + Together(words[1..])
  }

  /** The words with ampersands between them. */
  function Ampersands(words: seq<Text>): Text
    requires words != []
  {
    if |words| == 1 then words[0] else words[0] + [Of('&')] + Ampersands(words[1..])
  }

  lemma {:induction false} SpelledConcat(a: Text, b: Text)
    ensures Spelled(a + b) == Spelled(a) + Spelled(b)
  {
  }

  lemma {:induction false} TogetherRenders(rules: Rules, words: seq<Text>)
    ensures words != [] ==> RenderAlt(Together(words)) == Ampersands(words)
    ensures Flatten(Together(words)) == Spelled(Join(words))
    decreases |words|
  {
    hide RenderWord;
    if words != [] {
      var alt, rest := Together(words), words[1..];
      assert alt[0] == Spelled(words[0]) && alt[1..] == Together(rest);
      SpelledIs(rules, words[0], []);
      TogetherRenders(rules, rest);
      SpelledConcat(words[0], Join(rest));
      if rest == [] {
        assert MoreWords(Together(rest)) == [] && RenderAlt(alt) == words[0] + [];
      } else {
        assert MoreWords(Together(rest)) == [Of('&')] + RenderAlt(Together(rest));
        assert words[0] + ([Of('&')] + Ampersands(rest)) == words[0] + [Of('&')] + Ampersands(rest);
      }
    }
  }

  lemma TogetherOk(rules: Rules, words: seq<Text>)
    requires words != []
    ensures AltsOk(rules, [Together(words)]) <==> PlainWords(words)
  {
    hide WordOk, PlainInSequence;
    var alt := Together(words);
    forall i | 0 <= i < |words|
      ensures WordOk(rules, alt[i]) <==> forall j :: 0 <= j < |words[i]| ==> PlainInSequence(words[i][j])
    {
      SpelledOk(rules, words[i]);
    }
    assert AltOk(rules, alt) <==> PlainWords(words);
    assert AltsOk(rules, [alt]) <==> AltOk(rules, [alt][0]);
  }

  lemma TogetherBody(rules: Rules, words: seq<Text>)
    requires words != []
    ensures var b := Sequence([Together(words)]);
            RenderBody(b) == [Of('(')] + Ampersands(words) + [Of(')')] && Written(rules, b) == []
  {
    hide RenderAlt, Flatten, WordCodes, RenderAlts, AltsCodes, Together, Ampersands, Spelled, Join;
    TogetherRenders(rules, words);
    SpelledIs(rules, Join(words), []);
    OneAlternative(rules, Together(words));
  }

  lemma OneAlternative(rules: Rules, alt: seq<Word>)
    ensures RenderAlts([alt]) == RenderAlt(alt) && AltsCodes(rules, [alt]) == WordCodes(rules, Flatten(alt))
  {
    hide RenderAlt, Flatten, WordCodes;
    var alts := [alt];
    assert alts[0] == alt && alts[1..] == [];
    assert RenderAlts(alts) == RenderAlt(alt) + [];
    assert AltsCodes(rules, alts) == WordCodes(rules, Flatten(alt)) + [];
  }

  lemma TogetherAlt(rules: Rules, words: seq<Text>, vals: seq<Text>)
    requires |words| > 1
    ensures AltMeans(rules, Together(words), vals) <==> |vals| == 1 && multiset(vals[0]) == multiset(Join(words))
  {
    hide WordMeans, Flatten, Join, Spelled;
    var alt := Together(words);
    TogetherRenders(rules, words);
    SpelledIs(rules, Join(words), Join(words));
    if AltMeans(rules, alt, vals) {
      var t :| WordMeans(rules, Flatten(alt), t) && AltComesTo(|alt| > 1, t, vals);
      SpelledIs(rules, Join(words), t);
    }
  }

  lemma OneAltList(rules: Rules, alt: seq<Word>, list: seq<Text>)
    ensures ListOf(rules, Sequence([alt]), list) <==> AltMeans(rules, alt, list)
  {
    hide AltMeans;
    var alts := [alt];
    if ListOf(rules, Sequence(alts), list) {
      var vals :| AltsMean(rules, alts, vals) && list == Concat(vals);
      assert vals[1..] == [] && Concat(vals) == vals[0] + [];
      assert AltMeans(rules, alts[0], vals[0]) && list == vals[0];
    }
    if AltMeans(rules, alt, list) {
      var vals := [list];
      assert AltsMean(rules, alts, vals) && vals[1..] == [] && Concat(vals) == list + [];
      assert list == Concat(vals);
    }
  }

  /** `(a&b&…)`: all letters of the words, in any order. */
  lemma TogetherPattern(rules: Rules, words: seq<Text>, out: Text)
    requires |words| > 1
    ensures var items := [Group(Sequence([Together(words)]), Once)];
            && Render(items) == [Of('(')] + Ampersands(words) + [Of(')')]
            && (PatternOk(rules, items) <==> PlainWords(words))
            && (Produces(rules, items, out) <==> multiset(out) == multiset(Join(words)))
  {
    hide Produces, PatternOk, Render, PlainWords, Together, ListOf, AltMeans, Selects, RenderBody, Written, Join;
    var b := Sequence([Together(words)]);
    OneItem(rules, Group(b, Once), out);
    TogetherBody(rules, words);
    TogetherOk(rules, words);
    NoQuantifier(RenderBody(b));
    if ItemYields(rules, Group(b, Once), out) {
      var list, vs :| ListOf(rules, b, list) && Selects(rules, list, Once, vs) && out == Written(rules, b) + Join(vs);
      OneAltList(rules, Together(words), list);
      TogetherAlt(rules, words, list);
      OneOfList(rules, list, vs);
      PickedOne(list, vs);
    }
    if multiset(out) == multiset(Join(words)) {
      var list := [out];
      OneAltList(rules, Together(words), list);
      TogetherAlt(rules, words, list);
      OneOfList(rules, list, list);
      JoinOne(out);
      assert out == [] + Join(list);
    }
  }

  // ---------- Broken and ignored characters in a word ----------

  lemma {:induction false} SpelledThen(rules: Rules, t: Text, w: Word, out: Text)
    ensures WordMeans(rules, Spelled(t) + w, out) <==> t <= out && WordMeans(rules, w, out[|t|..])
    decreases |t|
  {
    hide WordMeans;
    if t == [] {
      assert Spelled(t) + w == w && out[0..] == out;
    } else {
      var all, c, rest := Spelled(t) + w, t[0], t[1..];
      assert all[0] == Letter(c) && all[1..] == Spelled(rest) + w && t == [c] + rest;
      LetterFirst(rules, all, out);
      if out != [] {
        SpelledThen(rules, rest, w, out[1..]);
        assert out == [out[0]] + out[1..];
        assert |t| <= |out| ==> out[1..][|rest|..] == out[|t|..];
      }
    }
  }

  lemma LetterFirst(rules: Rules, w: Word, out: Text)
    requires w != [] && w[0].Letter?
    ensures WordMeans(rules, w, out) <==> out != [] && out[0] == w[0].c && WordMeans(rules, w[1..], out[1..])
  {
    if WordMeans(rules, w, out) {
      var head, more :| out == head + more && PieceMeans(rules, w[0], head) && WordMeans(rules, w[1..], more);
      assert more == out[1..];
    }
    if out != [] && out[0] == w[0].c && WordMeans(rules, w[1..], out[1..]) {
      assert out == [out[0]] + out[1..] && PieceMeans(rules, w[0], [out[0]]);
    }
  }

  lemma {:induction false} SpelledRenders(rules: Rules, t: Text, w: Word)
    ensures RenderWord(Spelled(t) + w) == t + RenderWord(w) && WordCodes(rules, Spelled(t) + w) == WordCodes(rules, w)
    decreases |t|
  {
    hide RenderPiece, PieceCodes;
    if t == [] {
      assert Spelled(t) + w == w;
    } else {
      var all, c, rest := Spelled(t) + w, t[0], t[1..];
      assert all[0] == Letter(c) && all[1..] == Spelled(rest) + w && t == [c] + rest;
      LetterIs(rules, c);
      SpelledRenders(rules, rest, w);
      assert [c] + (rest + RenderWord(w)) == ([c] + rest) + RenderWord(w);
    }
  }

  lemma LetterIs(rules: Rules, c: Unit)
    ensures RenderPiece(Letter(c)) == [c] && PieceCodes(rules, Letter(c)) == []
  {
  }

  /** What such a piece adds to the word. */
  function Adds(p: Piece): Text
    requires p.Broken? || p.Ignored?
  {
    if p.Broken? then [p.c] else []
  }

  lemma PieceThen(rules: Rules, p: Piece, u: Text, out: Text)
    requires p.Broken? || p.Ignored?
    ensures WordMeans(rules, [p] + Spelled(u), out) <==> out == Adds(p) + u
    ensures RenderWord([p] + Spelled(u)) == RenderPiece(p) + u && WordCodes(rules, [p] + Spelled(u)) == []
  {
    var w := [p] + Spelled(u);
    assert w[0] == p && w[1..] == Spelled(u);
    SpelledIs(rules, u, u);
    if WordMeans(rules, w, out) {
      var head, more :| out == head + more && PieceMeans(rules, w[0], head) && WordMeans(rules, w[1..], more);
      SpelledIs(rules, u, more);
    }
    if out == Adds(p) + u {
      assert PieceMeans(rules, w[0], Adds(p)) && WordMeans(rules, w[1..], u);
    }
  }

  function Around(t: Text, p: Piece, u: Text): Word {
    Spelled(t) + ([p] + Spelled(u))
  }

  lemma AroundMeans(rules: Rules, t: Text, p: Piece, u: Text, out: Text)
    requires p.Broken? || p.Ignored?
    ensures WordMeans(rules, Around(t, p, u), out) <==> out == t + Adds(p) + u
    ensures RenderWord(Around(t, p, u)) == t + (RenderPiece(p) + u) && WordCodes(rules, Around(t, p, u)) == []
  {
    hide WordMeans, RenderWord, WordCodes;
    var w := [p] + Spelled(u);
    SpelledThen(rules, t, w, out);
    SpelledRenders(rules, t, w);
    if t <= out {
      PieceThen(rules, p, u, out[|t|..]);
      assert out == t + out[|t|..];
    } else {
      PieceThen(rules, p, u, []);
    }
    if out == t + Adds(p) + u {
      assert out[|t|..] == Adds(p) + u;
    }
    assert t + Adds(p) + u == t + (Adds(p) + u);
  }

  lemma AroundOk(rules: Rules, t: Text, p: Piece, u: Text)
    ensures WordOk(rules, Around(t, p, u)) <==>
            (forall j :: 0 <= j < |t| ==> PlainInSequence(t[j])) && PieceOk(rules, p) && (forall j :: 0 <= j < |u| ==> PlainInSequence(u[j]))
  {
    hide PieceOk, PlainInSequence;
    var w := Around(t, p, u);
    SpelledOk(rules, t);
    SpelledOk(rules, u);
    assert forall j :: 0 <= j < |t| ==> w[j] == Spelled(t)[j];
    assert forall j :: 0 <= j < |u| ==> Spelled(u)[j] == w[|t| + 1 + j];
    assert w[|t|] == p;
  }

  lemma AroundBody(rules: Rules, t: Text, p: Piece, u: Text, list: seq<Text>)
    requires p.Broken? || p.Ignored?
    ensures var b := Sequence([[Around(t, p, u)]]);
            && RenderBody(b) == [Of('(')] + (t + (RenderPiece(p) + u)) + [Of(')')] && Written(rules, b) == []
            && (ListOf(rules, b, list) <==> list == NonEmpty(t + Adds(p) + u))
            && (AltsOk(rules, b.alts) <==> WordOk(rules, Around(t, p, u)))
  {
    hide WordMeans, RenderWord, WordCodes, RenderAlts, AltsCodes, ListOf, Around, WordOk;
    var w, full := Around(t, p, u), t + Adds(p) + u;
    var alt := [w];
    assert alt[0] == w && alt[1..] == [];
    assert RenderAlt(alt) == RenderWord(w) + [] == RenderWord(w);
    assert Flatten(alt) == w + [] == w;
    OneAlternative(rules, alt);
    OneAltList(rules, alt, list);
    AroundMeans(rules, t, p, u, full);
    if AltMeans(rules, alt, list) {
      var x :| WordMeans(rules, Flatten(alt), x) && AltComesTo(|alt| > 1, x, list);
      AroundMeans(rules, t, p, u, x);
    }
    assert AltOk(rules, alt) <==> WordOk(rules, alt[0]);
    assert AltsOk(rules, [alt]) <==> AltOk(rules, [alt][0]);
  }

  lemma WholeWord(rules: Rules, b: Body, full: Text, out: Text)
    requires Written(rules, b) == [] && forall list :: ListOf(rules, b, list) <==> list == NonEmpty(full)
    ensures ItemYields(rules, Group(b, Once), out) <==> out == full
  {
    hide ListOf, Selects, Written, Join;
    var list := NonEmpty(full);
    if ItemYields(rules, Group(b, Once), out) {
      var l, vs :| ListOf(rules, b, l) && Selects(rules, l, Once, vs) && out == Written(rules, b) + Join(vs);
      OneOfList(rules, list, vs);
      PickedOne(list, vs);
    }
    if out == full {
      OneOfList(rules, list, list);
      JoinOne(full);
      assert out == [] + Join(list);
    }
  }

  /** `(t/cu)`: the character behind the slash, unless that is a parenthesis. */
  lemma BrokenPattern(rules: Rules, t: Text, c: Unit, u: Text, out: Text)
    ensures var items := [Group(Sequence([[Around(t, Broken(c), u)]]), Once)];
            && Render(items) == [Of('(')] + (t + ([Of('/'), c] + u)) + [Of(')')]
            && (PatternOk(rules, items) <==>
                c != Of(')') && (forall j :: 0 <= j < |t| ==> PlainInSequence(t[j])) && (forall j :: 0 <= j < |u| ==> PlainInSequence(u[j])))
            && (Produces(rules, items, out) <==> out == t + [c] + u)
  {
    hide Produces, PatternOk, Render, RenderBody, ListOf, ItemYields, WordOk, AltsOk, Around, Written;
    PiecePattern(rules, t, Broken(c), u, out);
  }

  /** `(t-u)`, and with a backslash or an opening parenthesis: the operator is passed over. */
  lemma IgnoredPattern(rules: Rules, t: Text, c: Unit, u: Text, out: Text)
    ensures var items := [Group(Sequence([[Around(t, Ignored(c), u)]]), Once)];
            && Render(items) == [Of('(')] + (t + ([c] + u)) + [Of(')')]
            && (PatternOk(rules, items) <==>
                && (c == Of('-') || c == Of('\\') || c == Of('('))
                && (forall j :: 0 <= j < |t| ==> PlainInSequence(t[j])) && (forall j :: 0 <= j < |u| ==> PlainInSequence(u[j])))
            && (Produces(rules, items, out) <==> out == t + u)
  {
    hide Produces, PatternOk, Render, RenderBody, ListOf, ItemYields, WordOk, AltsOk, Around, Written;
    PiecePattern(rules, t, Ignored(c), u, out);
    assert t + [] + u == t + u;
  }

  lemma PiecePattern(rules: Rules, t: Text, p: Piece, u: Text, out: Text)
    requires p.Broken? || p.Ignored?
    ensures var items := [Group(Sequence([[Around(t, p, u)]]), Once)];
            && Render(items) == [Of('(')] + (t + (RenderPiece(p) + u)) + [Of(')')]
            && (PatternOk(rules, items) <==>
                && PieceOk(rules, p) && (forall j :: 0 <= j < |t| ==> PlainInSequence(t[j]))
                && (forall j :: 0 <= j < |u| ==> PlainInSequence(u[j])))
            && (Produces(rules, items, out) <==> out == t + Adds(p) + u)
  {
    hide Produces, PatternOk, Render, RenderBody, ListOf, ItemYields, WordOk, AltsOk, Around, Written, PieceOk, PlainInSequence, RenderPiece;
    var b := Sequence([[Around(t, p, u)]]);
    OneItem(rules, Group(b, Once), out);
    NoQuantifier(RenderBody(b));
    AroundOk(rules, t, p, u);
    forall list
      ensures ListOf(rules, b, list) <==> list == NonEmpty(t + Adds(p) + u)
    {
      AroundBody(rules, t, p, u, list);
    }
    AroundBody(rules, t, p, u, []);
    WholeWord(rules, b, t + Adds(p) + u, out);
  }
}

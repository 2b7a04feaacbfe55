/**
  The values that the string generator of `strgen.js` works with: code units,
  JavaScript numbers, and drawing values from a list that shrinks.
 */
module StrgenSpec {
  /** A UTF-16 code unit; a JavaScript string is a sequence of them. */
  type Unit = n: int | 0 <= n < 0x10000
  type Text = seq<Unit>

  /** A number: an integer or NaN. */
  datatype Num = NaN | Int(n: int)

  /** What the variables of `getQuantifier` hold. */
  datatype Value = Undefined | Str(s: Text) | Number(n: int)

  function Of(c: char): Unit
    requires c as int < 0x10000
  {
    c as int
  }

  /** `"[]{}()-\\|/"` */
  const OPERATORS: Text := [Of('['), Of(']'), Of('{'), Of('}'), Of('('), Of(')'), Of('-'), Of('\\'), Of('|'), Of('/')]

  const SYMBOLS: Text := [Of('+'), Of('*'), Of('?')]

  /** `charAt`: the empty string outside the pattern. */
  function CharAt(p: Text, i: int): (c: Text)
    ensures |c| <= 1
    ensures c == [] <==> i < 0 || i >= |p|
  {
    if 0 <= i < |p| then [p[i]] else []
  }

  /** The first character as a string, and what is behind it. */
  function First(t: Text): Text {
    if t == [] then [] else [t[0]]
  }

  function Behind(t: Text): Text {
    if t == [] then [] else t[1..]
  }

  /** `operators.includes(c)`; every string includes the empty one. */
  predicate IsOperator(c: Text)
    requires |c| <= 1
  {
    c == [] || c[0] in OPERATORS
  }

  predicate Is(c: Text, x: char)
    requires x as int < 0x10000
  {
    |c| == 1 && c[0] == Of(x)
  }

  /** `symbol_quantifiers` is an array, which does not include the empty string. */
  predicate IsSymbol(c: Text) {
    |c| == 1 && c[0] in SYMBOLS
  }

  predicate IsQuantifierOperator(c: Text) {
    Is(c, ':') || Is(c, ',') || Is(c, '-')
  }

  // ---------- Drawing from a list ----------

  function Remove(list: seq<Text>, r: nat): seq<Text>
    requires r < |list|
  {
    list[..r] + list[r + 1..]
  }

  function RemoveAll(list: seq<Text>, v: Text): seq<Text> {
    if list == [] then []
    else (if list[0] == v then [] else [list[0]]) + RemoveAll(list[1..], v)
  }

  /** The list after the value at `r` was drawn; `multiple` lets equal values stay. */
  function Drawn(list: seq<Text>, r: nat, multiple: bool): seq<Text>
    requires r < |list|
  {
    if multiple then Remove(list, r) else RemoveAll(Remove(list, r), list[r])
  }

  function Values(list: seq<Text>): set<Text> {
    set v | v in list
  }

  /** What `getValueListLength` counts. */
  function Available(list: seq<Text>, multiple: bool): nat {
    if multiple then |list| else |Values(list)|
  }

  function Min(a: int, b: int): int {
    if a < b then a else b
  }

  function Max(a: int, b: int): int {
    if a < b then b else a
  }

  ghost predicate AllDifferent(vs: seq<Text>) {
    forall i, j :: 0 <= i < j < |vs| ==> vs[i] != vs[j]
  }

  lemma {:induction false} RemoveAllExact(list: seq<Text>, v: Text)
    ensures multiset(RemoveAll(list, v)) == multiset(list)[v := 0]
    decreases |list|
  {
    if list != [] {
      RemoveAllExact(list[1..], v);
      assert list == [list[0]] + list[1..];
    }
  }

  lemma RemoveAllValues(list: seq<Text>, v: Text)
    ensures Values(RemoveAll(list, v)) == Values(list) - {v}
    ensures multiset(RemoveAll(list, v)) <= multiset(list)
  {
    hide RemoveAll;
    RemoveAllExact(list, v);
    var kept := RemoveAll(list, v);
    forall x
      ensures x in kept <==> x in list && x != v
    {
      assert x in kept <==> x in multiset(kept);
      assert x in list <==> x in multiset(list);
    }
  }

  lemma {:induction false} RemoveAllKeeps(list: seq<Text>, v: Text)
    requires v !in list
    ensures RemoveAll(list, v) == list
    decreases |list|
  {
    if list != [] {
      RemoveAllKeeps(list[1..], v);
      assert list == [list[0]] + list[1..];
    }
  }

  lemma {:induction false} RemoveAllConcat(a: seq<Text>, b: seq<Text>, v: Text)
    ensures RemoveAll(a + b, v) == RemoveAll(a, v) + RemoveAll(b, v)
    decreases |a|
  {
    if a == [] {
      assert a + b == b && RemoveAll(a, v) == [];
    } else {
      RemoveAllConcat(a[1..], b, v);
      assert (a + b)[1..] == a[1..] + b;
      var first, x, y := if a[0] == v then [] else [a[0]], RemoveAll(a[1..], v), RemoveAll(b, v);
      assert RemoveAll(a + b, v) == first + (x + y);
      assert first + (x + y) == (first + x) + y;
    }
  }

  lemma RemoveAllFirst(v: Text, after: seq<Text>)
    ensures RemoveAll([v] + after, v) == RemoveAll(after, v)
  {
    assert ([v] + after)[1..] == after;
  }

  /** An occurrence taken out beforehand makes no difference. */
  lemma RemoveAllSkips(list: seq<Text>, r: nat)
    requires r < |list|
    ensures RemoveAll(Remove(list, r), list[r]) == RemoveAll(list, list[r])
  {
    hide RemoveAll;
    var v, before, after := list[r], list[..r], list[r + 1..];
    RemoveAllConcat(before, after, v);
    RemoveAllConcat(before, [v] + after, v);
    RemoveAllFirst(v, after);
    assert list == before + ([v] + after);
  }

  lemma RemoveValues(list: seq<Text>, r: nat)
    requires r < |list|
    ensures multiset(Remove(list, r)) + multiset{list[r]} == multiset(list)
    ensures Values(Remove(list, r)) + {list[r]} == Values(list)
  {
    assert list == list[..r] + [list[r]] + list[r + 1..];
    forall v | v in list && v != list[r]
      ensures v in Remove(list, r)
    {
      var i :| 0 <= i < |list| && list[i] == v;
      assert v in if i < r then list[..r] else list[r + 1..];
    }
  }

  /** One draw uses up exactly one of the available values. */
  lemma DrawnLeaves(list: seq<Text>, r: nat, multiple: bool)
    requires r < |list|
    ensures Available(Drawn(list, r, multiple), multiple) == Available(list, multiple) - 1
    ensures multiset(Drawn(list, r, multiple)) + multiset{list[r]} <= multiset(list)
    ensures !multiple ==> list[r] !in Drawn(list, r, multiple)
  {
    var v, l := list[r], Remove(list, r);
    RemoveValues(list, r);
    if !multiple {
      RemoveAllValues(l, v);
      assert Values(l) - {v} == Values(list) - {v};
      assert v in Values(list) && v !in Values(RemoveAll(l, v));
    }
  }

  lemma NothingAvailable(list: seq<Text>, multiple: bool)
    ensures Available(list, multiple) == 0 <==> list == []
  {
    if list != [] {
      assert list[0] in Values(list);
    } else {
      assert Values(list) == {};
    }
  }

  function Join(vs: seq<Text>): Text {
    if vs == [] then [] else vs[0] + Join(vs[1..])
  }

  lemma {:induction false} JoinAppend(vs: seq<Text>, v: Text)
    ensures Join(vs + [v]) == Join(vs) + v
    decreases |vs|
  {
    if vs == [] {
      assert [v][1..] == [];
    } else {
      JoinAppend(vs[1..], v);
      assert (vs + [v])[1..] == vs[1..] + [v];
    }
  }

  // ---------- Random choices ----------

  // `draws` stands for what `Math.random` will return: one number for each choice to
  // come, of which `Math.floor(Math.random() * n)` keeps the remainder below `n`. Any
  // index is possible at any choice.

  function Choice(draws: seq<nat>, n: nat): (r: nat)
    requires n > 0
    ensures r < n
  {
    if draws == [] then 0 else draws[0] % n
  }

  function Later(draws: seq<nat>): seq<nat> {
    if draws == [] then [] else draws[1..]
  }

  lemma ChoiceIs(r: nat, later: seq<nat>, n: nat)
    requires r < n
    ensures Choice([r] + later, n) == r && Later([r] + later) == later
  {
  }

  /** `n` values picked one after another; `duplicates` puts each back. */
  function PickValues(list: seq<Text>, n: nat, draws: seq<nat>, duplicates: bool, multiple: bool): (seq<Text>, seq<nat>)
    decreases n
  {
    if n == 0 || list == [] then ([], draws)
    else
      var r := Choice(draws, |list|);
      var more := PickValues(if duplicates then list else Drawn(list, r, multiple), n - 1, Later(draws), duplicates, multiple);
      ([list[r]] + more.0, more.1)
  }

  /** A number between two, in either order. */
  function PickNumber(a: int, b: int, draws: seq<nat>): (r: (int, seq<nat>))
    ensures Min(a, b) <= r.0 <= Max(a, b)
  {
    (Min(a, b) + Choice(draws, Max(a, b) - Min(a, b) + 1), Later(draws))
  }

  /** All letters, one after another, each taken out. */
  function Shuffle(t: Text, draws: seq<nat>): (Text, seq<nat>)
    decreases |t|
  {
    if t == [] then ([], draws)
    else
      var r := Choice(draws, |t|);
      var more := Shuffle(t[..r] + t[r + 1..], Later(draws));
      ([t[r]] + more.0, more.1)
  }

  /** As many values of the list as are wanted and there, none oftener than there; pairwise different without `multiple`. */
  ghost predicate DrawnFrom(list: seq<Text>, n: nat, vs: seq<Text>, multiple: bool) {
    && |vs| == Min(n, Available(list, multiple))
    && multiset(vs) <= multiset(list)
    && (!multiple ==> AllDifferent(vs))
  }

  /** The same with every value put back. */
  ghost predicate TakenFrom(list: seq<Text>, n: nat, vs: seq<Text>) {
    |vs| == (if list == [] then 0 else n) && forall i :: 0 <= i < |vs| ==> vs[i] in list
  }

  /** However the choices fall, the picked values are drawn from the list. */
  lemma {:induction false} PickDrawn(list: seq<Text>, n: nat, draws: seq<nat>, multiple: bool)
    ensures DrawnFrom(list, n, PickValues(list, n, draws, false, multiple).0, multiple)
    decreases n
  {
    hide Drawn, Available, AllDifferent;
    NothingAvailable(list, multiple);
    NoneDiffer();
    if n > 0 && list != [] {
      var r := Choice(draws, |list|);
      var rest := Drawn(list, r, multiple);
      DrawnLeaves(list, r, multiple);
      PickDrawn(rest, n - 1, Later(draws), multiple);
      OneMore(list[r], PickValues(rest, n - 1, Later(draws), false, multiple).0, rest, list, multiple);
    }
  }

  lemma {:induction false} PickTaken(list: seq<Text>, n: nat, draws: seq<nat>, multiple: bool)
    ensures TakenFrom(list, n, PickValues(list, n, draws, true, multiple).0)
    decreases n
  {
    if n > 0 && list != [] {
      PickTaken(list, n - 1, Later(draws), multiple);
    }
  }

  lemma PickedFirst(list: seq<Text>, n: nat, r: nat, draws: seq<nat>, vs: seq<Text>, later: seq<nat>, duplicates: bool, multiple: bool)
    requires n > 0 && r < |list|
    requires PickValues(if duplicates then list else Drawn(list, r, multiple), n - 1, draws + later, duplicates, multiple) == (vs, later)
    ensures PickValues(list, n, ([r] + draws) + later, duplicates, multiple) == ([list[r]] + vs, later)
  {
    hide Drawn, Choice, Later;
    ChoiceIs(r, draws + later, |list|);
    assert [r] + (draws + later) == ([r] + draws) + later;
  }

  /** Everything drawn from the list comes out for some choices, whatever is chosen later. */
  lemma {:induction false} DrawnPicked(list: seq<Text>, n: nat, vs: seq<Text>, multiple: bool, later: seq<nat>)
      returns (draws: seq<nat>)
    requires DrawnFrom(list, n, vs, multiple)
    ensures PickValues(list, n, draws + later, false, multiple) == (vs, later)
    decreases n
  {
    hide Drawn, Available, AllDifferent, PickValues;
    NothingAvailable(list, multiple);
    if n == 0 || list == [] {
      NothingPicked(list, n, later, false, multiple);
      assert [] + later == later;
      return [];
    }
    var r := IndexOf(list, vs);
    DrawnLeaves(list, r, multiple);
    OneLess(list, r, vs, multiple);
    draws := DrawnPicked(Drawn(list, r, multiple), n - 1, vs[1..], multiple, later);
    PickedFirst(list, n, r, draws, vs[1..], later, false, multiple);
    assert vs == [vs[0]] + vs[1..];
    draws := [r] + draws;
  }

  lemma NothingPicked(list: seq<Text>, n: nat, draws: seq<nat>, duplicates: bool, multiple: bool)
    requires n == 0 || list == []
    ensures PickValues(list, n, draws, duplicates, multiple) == ([], draws)
  {
  }

  lemma IndexOf(list: seq<Text>, vs: seq<Text>) returns (r: nat)
    requires vs != [] && multiset(vs) <= multiset(list)
    ensures r < |list| && list[r] == vs[0]
  {
    assert vs[0] in multiset(vs);
    assert vs[0] in multiset(list);
    r :| 0 <= r < |list| && list[r] == vs[0];
  }

  lemma FirstOut<T>(s: seq<T>)
    requires s != []
    ensures multiset(s) == multiset{s[0]} + multiset(s[1..])
  {
    assert s == [s[0]] + s[1..];
  }

  lemma SumCancels<T>(x: T, a: multiset<T>, b: multiset<T>)
    ensures multiset{x} + a <= multiset{x} + b ==> a <= b
    ensures multiset{x} + a == multiset{x} + b ==> a == b
  {
    assert a == (multiset{x} + a) - multiset{x} && b == (multiset{x} + b) - multiset{x};
  }

  lemma OneOut<T>(s: seq<T>, r: nat)
    requires r < |s|
    ensures multiset(s) == multiset{s[r]} + multiset(s[..r] + s[r + 1..])
  {
    assert s == s[..r] + [s[r]] + s[r + 1..];
  }

  /** What is left to be drawn after the first value is drawn from what is left of the list. */
  lemma OneLess(list: seq<Text>, r: nat, vs: seq<Text>, multiple: bool)
    requires r < |list| && vs != [] && list[r] == vs[0]
    requires multiset(vs) <= multiset(list) && (!multiple ==> AllDifferent(vs))
    ensures multiset(vs[1..]) <= multiset(Drawn(list, r, multiple)) && (!multiple ==> AllDifferent(vs[1..]))
  {
    hide RemoveAll;
    FirstOut(vs);
    OneOut(list, r);
    SumCancels(vs[0], multiset(vs[1..]), multiset(Remove(list, r)));
    if !multiple {
      RemoveAllExact(Remove(list, r), vs[0]);
      NotAgain(vs);
    }
  }

  lemma NotAgain(vs: seq<Text>)
    requires vs != [] && AllDifferent(vs)
    ensures multiset(vs[1..])[vs[0]] == 0 && AllDifferent(vs[1..])
  {
    assert vs[0] !in vs[1..];
  }

  lemma {:induction false} TakenPicked(list: seq<Text>, n: nat, vs: seq<Text>, multiple: bool, later: seq<nat>)
      returns (draws: seq<nat>)
    requires TakenFrom(list, n, vs)
    ensures PickValues(list, n, draws + later, true, multiple) == (vs, later)
    decreases n
  {
    hide PickValues;
    if n == 0 || list == [] {
      NothingPicked(list, n, later, true, multiple);
      assert [] + later == later;
      return [];
    }
    assert vs[0] in list;
    var r: nat :| r < |list| && list[r] == vs[0];
    draws := TakenPicked(list, n - 1, vs[1..], multiple, later);
    PickedFirst(list, n, r, draws, vs[1..], later, true, multiple);
    assert vs == [vs[0]] + vs[1..];
    draws := [r] + draws;
  }

  lemma NumberPicked(a: int, b: int, n: int, later: seq<nat>) returns (draws: seq<nat>)
    requires Min(a, b) <= n <= Max(a, b)
    ensures PickNumber(a, b, draws + later) == (n, later)
  {
    draws := [n - Min(a, b)];
    ChoiceIs(n - Min(a, b), later, Max(a, b) - Min(a, b) + 1);
  }

  lemma {:induction false} ShufflePermutes(t: Text, draws: seq<nat>)
    ensures multiset(Shuffle(t, draws).0) == multiset(t)
    decreases |t|
  {
    if t != [] {
      var r := Choice(draws, |t|);
      OneOut(t, r);
      ShufflePermutes(t[..r] + t[r + 1..], Later(draws));
    }
  }

  lemma ShuffledFirst(t: Text, r: nat, draws: seq<nat>, u: Text, later: seq<nat>)
    requires r < |t| && Shuffle(t[..r] + t[r + 1..], draws + later) == (u, later)
    ensures Shuffle(t, ([r] + draws) + later) == ([t[r]] + u, later)
  {
    hide Choice, Later;
    ChoiceIs(r, draws + later, |t|);
    assert [r] + (draws + later) == ([r] + draws) + later;
  }

  /** Every order of the letters comes out for some choices. */
  lemma {:induction false} Shuffled(t: Text, u: Text, later: seq<nat>) returns (draws: seq<nat>)
    requires multiset(u) == multiset(t)
    ensures Shuffle(t, draws + later) == (u, later)
    decreases |t|
  {
    SameLength(t, u);
    if t == [] {
      assert [] + later == later;
      return [];
    }
    hide Shuffle;
    var r := LetterOf(t, u);
    draws := Shuffled(t[..r] + t[r + 1..], u[1..], later);
    ShuffledFirst(t, r, draws, u[1..], later);
    assert u == [u[0]] + u[1..];
    draws := [r] + draws;
  }

  lemma SameLength(t: Text, u: Text)
    requires multiset(u) == multiset(t)
    ensures |u| == |t|
  {
    assert |u| == |multiset(u)| == |multiset(t)| == |t|;
  }

  /** Where the first letter of `u` stands in `t`; without it the letters still agree. */
  lemma LetterOf(t: Text, u: Text) returns (r: nat)
    requires u != [] && multiset(u) == multiset(t)
    ensures r < |t| && t[r] == u[0] && multiset(u[1..]) == multiset(t[..r] + t[r + 1..])
  {
    assert u[0] in multiset(u);
    assert u[0] in t;
    r :| 0 <= r < |t| && t[r] == u[0];
    FirstOut(u);
    OneOut(t, r);
    SumCancels(u[0], multiset(u[1..]), multiset(t[..r] + t[r + 1..]));
  }

  lemma NoneDiffer()
    ensures AllDifferent([])
  {
  }

  lemma OneMore(v: Text, vs: seq<Text>, rest: seq<Text>, list: seq<Text>, multiple: bool)
    requires multiset(vs) <= multiset(rest) && multiset(rest) + multiset{v} <= multiset(list)
    requires !multiple ==> v !in rest && AllDifferent(vs)
    ensures multiset([v] + vs) <= multiset(list)
    ensures !multiple ==> AllDifferent([v] + vs)
  {
    assert multiset([v] + vs) == multiset{v} + multiset(vs);
    forall j | 0 <= j < |vs|
      ensures vs[j] in rest
    {
      assert vs[j] in multiset(vs);
    }
  }

  lemma ValuesAppend(vs: seq<Text>, v: Text)
    ensures Values(vs + [v]) == Values(vs) + {v}
  {
  }

  lemma {:induction false} DifferentCount(vs: seq<Text>)
    requires AllDifferent(vs)
    ensures |Values(vs)| == |vs|
    decreases |vs|
  {
    if vs != [] {
      var v, rest := vs[|vs| - 1], vs[..|vs| - 1];
      DifferentCount(rest);
      assert v !in rest;
      assert Values(vs) == Values(rest) + {v};
    }
  }
}

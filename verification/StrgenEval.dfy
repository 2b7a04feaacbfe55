/**
  A pattern evaluated under given random choices. The strings that come out for some
  choices are exactly the strings that the pattern stands for.
 */
module StrgenEval {
  import opened StrgenSpec
  import opened StrgenPattern

  function PickBy(rules: Rules, list: seq<Text>, n: int, draws: seq<nat>): (seq<Text>, seq<nat>) {
    PickValues(list, Max(n, 0), draws, rules.allowDuplicates, rules.allowMultiple)
  }

  /** The number that a quantifier comes to; only a range or a symbol makes a choice. */
  function QuantNumber(rules: Rules, q: Quant, draws: seq<nat>): (int, seq<nat>)
    requires QuantOk(rules, q)
  {
    var lo, hi := Bounds(rules, q).0.n, Bounds(rules, q).1.n;
    if q.Once? || q.Count? then (lo, draws) else PickNumber(lo, hi, draws)
  }

  function Quantified(rules: Rules, list: seq<Text>, q: Quant, draws: seq<nat>): (seq<Text>, seq<nat>)
    requires QuantOk(rules, q)
  {
    var (n, later) := QuantNumber(rules, q, draws);
    PickBy(rules, list, if q.Once? then 1 else Clamped(rules, list, n), later)
  }

  function EvaluatePiece(rules: Rules, p: Piece, draws: seq<nat>): (Text, seq<nat>)
    requires PieceOk(rules, p)
  {
    match p
    case Letter(c) => ([c], draws)
    case Broken(c) => ([c], draws)
    case Ignored(_) => ([], draws)
    case Pick(ps, q) =>
      var (vs, later) := Quantified(rules, ClassValues(rules, ps), q, draws);
      (Join(vs), later)
  }

  function EvaluateWord(rules: Rules, w: Word, draws: seq<nat>): (Text, seq<nat>)
    requires WordOk(rules, w)
  {
    if w == [] then ([], draws)
    else
      var (t, later) := EvaluatePiece(rules, w[0], draws);
      var (more, last) := EvaluateWord(rules, w[1..], later);
      (t + more, last)
  }

  /** What becomes of the letters of an alternative. */
  function Finish(several: bool, t: Text, draws: seq<nat>): (seq<Text>, seq<nat>) {
    if several then
      var (u, later) := Shuffle(t, draws);
      ([u], later)
    else (NonEmpty(t), draws)
  }

  lemma {:induction false} FlattenOk(rules: Rules, words: seq<Word>)
    requires forall i :: 0 <= i < |words| ==> WordOk(rules, words[i])
    ensures WordOk(rules, Flatten(words))
    decreases |words|
  {
    hide PieceOk;
    if words != [] {
      FlattenOk(rules, words[1..]);
    }
  }

  function EvaluateAlt(rules: Rules, alt: seq<Word>, draws: seq<nat>): (seq<Text>, seq<nat>)
    requires AltOk(rules, alt)
  {
    FlattenOk(rules, alt);
    var (t, later) := EvaluateWord(rules, Flatten(alt), draws);
    Finish(|alt| > 1, t, later)
  }

  /** The value of a last alternative of several words comes first, all others in order. */
  function Arranged(several: bool, values: seq<Text>, last: seq<Text>): seq<Text> {
    if several then last + values else values + last
  }

  function EvaluateAlts(rules: Rules, values: seq<Text>, alts: seq<seq<Word>>, draws: seq<nat>): (seq<Text>, seq<nat>)
    requires alts != [] && AltsOk(rules, alts)
    decreases |alts|
  {
    var (vals, later) := EvaluateAlt(rules, alts[0], draws);
    if |alts| == 1 then (Arranged(|alts[0]| > 1, values, vals), later)
    else EvaluateAlts(rules, values + vals, alts[1..], later)
  }

  /** The values of all alternatives in that order. */
  function ArrangedAll(values: seq<Text>, alts: seq<seq<Word>>, vals: seq<seq<Text>>): seq<Text>
    requires alts != [] && |vals| == |alts|
    decreases |alts|
  {
    if |alts| == 1 then Arranged(|alts[0]| > 1, values, vals[0])
    else ArrangedAll(values + vals[0], alts[1..], vals[1..])
  }

  lemma {:induction false} ArrangedKeeps(values: seq<Text>, alts: seq<seq<Word>>, vals: seq<seq<Text>>)
    requires alts != [] && |vals| == |alts|
    ensures multiset(ArrangedAll(values, alts, vals)) == multiset(values) + multiset(Concat(vals))
    decreases |alts|
  {
    if |alts| == 1 {
      assert vals[1..] == [] && Concat(vals) == vals[0] + [] == vals[0];
    } else {
      ArrangedKeeps(values + vals[0], alts[1..], vals[1..]);
    }
  }

  function EvaluateBody(rules: Rules, b: Body, draws: seq<nat>): (seq<Text>, seq<nat>)
    requires BodyOk(rules, b)
  {
    match b
    case Class(ps) => (ClassValues(rules, ps), draws)
    case Sequence(alts) => EvaluateAlts(rules, [], alts, draws)
    case Char(c) => ([[c]], draws)
  }

  function EvaluateItem(rules: Rules, i: Item, draws: seq<nat>): (Text, seq<nat>)
    requires ItemOk(rules, i)
  {
    match i
    case Literal(c) => ([c], draws)
    case Escaped(c) => ([c], draws)
    case Group(b, q) =>
      var (list, later) := EvaluateBody(rules, b, draws);
      var (vs, last) := Quantified(rules, list, q, later);
      (Written(rules, b) + Join(vs), last)
  }

  function Evaluate(rules: Rules, items: seq<Item>, draws: seq<nat>): (Text, seq<nat>)
    requires PatternOk(rules, items)
  {
    if items == [] then ([], draws)
    else
      var (t, later) := EvaluateItem(rules, items[0], draws);
      var (more, last) := Evaluate(rules, items[1..], later);
      (t + more, last)
  }

  // ---------- Whatever comes out is meant ----------

  lemma PickChosen(rules: Rules, list: seq<Text>, n: int, draws: seq<nat>)
    ensures Chosen(rules, list, n, PickBy(rules, list, n, draws).0)
  {
    hide DrawnFrom, TakenFrom, PickValues;
    if rules.allowDuplicates {
      PickTaken(list, Max(n, 0), draws, rules.allowMultiple);
    } else {
      PickDrawn(list, Max(n, 0), draws, rules.allowMultiple);
    }
  }

  lemma QuantifiedMeant(rules: Rules, list: seq<Text>, q: Quant, draws: seq<nat>)
    requires QuantOk(rules, q)
    ensures Selects(rules, list, q, Quantified(rules, list, q, draws).0)
  {
    hide Chosen, PickBy, Clamped, QuantOk;
    var (n, later) := QuantNumber(rules, q, draws);
    assert Between(Bounds(rules, q).0, Bounds(rules, q).1, n) by { NumberBetween(rules, q, draws); }
    if q.Once? {
      PickChosen(rules, list, 1, later);
      assert n == 1;
    } else {
      PickChosen(rules, list, Clamped(rules, list, n), later);
      ClampExact(rules, list, n, PickBy(rules, list, Clamped(rules, list, n), later).0);
    }
  }

  lemma NumberBetween(rules: Rules, q: Quant, draws: seq<nat>)
    requires QuantOk(rules, q)
    ensures Between(Bounds(rules, q).0, Bounds(rules, q).1, QuantNumber(rules, q, draws).0)
  {
  }

  lemma PieceMeant(rules: Rules, p: Piece, draws: seq<nat>)
    requires PieceOk(rules, p)
    ensures PieceMeans(rules, p, EvaluatePiece(rules, p, draws).0)
  {
    hide Selects, Quantified;
    if p.Pick? {
      QuantifiedMeant(rules, ClassValues(rules, p.parts), p.quant, draws);
    }
  }

  lemma {:induction false} WordMeant(rules: Rules, w: Word, draws: seq<nat>)
    requires WordOk(rules, w)
    ensures WordMeans(rules, w, EvaluateWord(rules, w, draws).0)
    decreases |w|
  {
    hide PieceMeans, PieceOk, EvaluatePiece;
    if w != [] {
      PieceMeant(rules, w[0], draws);
      WordMeant(rules, w[1..], EvaluatePiece(rules, w[0], draws).1);
    }
  }

  lemma FinishMeant(several: bool, t: Text, draws: seq<nat>)
    ensures AltComesTo(several, t, Finish(several, t, draws).0)
  {
    ShufflePermutes(t, draws);
  }

  lemma AltMeant(rules: Rules, alt: seq<Word>, draws: seq<nat>)
    requires AltOk(rules, alt)
    ensures AltMeans(rules, alt, EvaluateAlt(rules, alt, draws).0)
  {
    hide WordOk, WordMeans, Finish, AltComesTo, EvaluateWord, Flatten;
    FlattenOk(rules, alt);
    WordMeant(rules, Flatten(alt), draws);
    var (t, later) := EvaluateWord(rules, Flatten(alt), draws);
    FinishMeant(|alt| > 1, t, later);
  }

  lemma {:induction false} AltsMeant(rules: Rules, values: seq<Text>, alts: seq<seq<Word>>, draws: seq<nat>)
      returns (vals: seq<seq<Text>>)
    requires alts != [] && AltsOk(rules, alts)
    ensures AltsMean(rules, alts, vals) && EvaluateAlts(rules, values, alts, draws).0 == ArrangedAll(values, alts, vals)
    decreases |alts|
  {
    hide AltOk, AltMeans, EvaluateAlt;
    AltMeant(rules, alts[0], draws);
    var (first, later) := EvaluateAlt(rules, alts[0], draws);
    if |alts| == 1 {
      vals := [first];
    } else {
      var more := AltsMeant(rules, values + first, alts[1..], later);
      vals := [first] + more;
      assert vals[1..] == more;
      forall i | 0 <= i < |alts|
        ensures AltMeans(rules, alts[i], vals[i])
      {
        assert i > 0 ==> alts[i] == alts[1..][i - 1] && vals[i] == more[i - 1];
      }
    }
  }

  lemma SelectsPermutes(rules: Rules, list: seq<Text>, other: seq<Text>, q: Quant, vs: seq<Text>)
    requires multiset(list) == multiset(other)
    ensures Selects(rules, list, q, vs) <==> Selects(rules, other, q, vs)
  {
    hide Chosen;
    forall n
      ensures Chosen(rules, list, n, vs) <==> Chosen(rules, other, n, vs)
    {
      ChosenPermutes(rules, list, other, n, vs);
    }
  }

  lemma BodyMeant(rules: Rules, b: Body, draws: seq<nat>) returns (list: seq<Text>)
    requires BodyOk(rules, b)
    ensures ListOf(rules, b, list) && multiset(list) == multiset(EvaluateBody(rules, b, draws).0)
  {
    hide AltsOk, EvaluateAlts, AltsMean, Concat, ArrangedAll;
    if b.Sequence? {
      var vals := AltsMeant(rules, [], b.alts, draws);
      assert |vals| == |b.alts| by { ValsFit(rules, b.alts, vals); }
      ArrangedKeeps([], b.alts, vals);
      list := Concat(vals);
    } else {
      list := EvaluateBody(rules, b, draws).0;
    }
  }

  lemma ValsFit(rules: Rules, alts: seq<seq<Word>>, vals: seq<seq<Text>>)
    requires AltsMean(rules, alts, vals)
    ensures |vals| == |alts|
  {
  }

  lemma ItemMeant(rules: Rules, i: Item, draws: seq<nat>)
    requires ItemOk(rules, i)
    ensures ItemYields(rules, i, EvaluateItem(rules, i, draws).0)
  {
    hide BodyOk, QuantOk, EvaluateBody, Quantified, ListOf, Selects, Written;
    if i.Group? {
      var list := BodyMeant(rules, i.body, draws);
      var (other, later) := EvaluateBody(rules, i.body, draws);
      QuantifiedMeant(rules, other, i.quant, later);
      SelectsPermutes(rules, list, other, i.quant, Quantified(rules, other, i.quant, later).0);
    }
  }

  lemma {:induction false} PatternMeant(rules: Rules, items: seq<Item>, draws: seq<nat>)
    requires PatternOk(rules, items)
    ensures Produces(rules, items, Evaluate(rules, items, draws).0)
    decreases |items|
  {
    hide ItemOk, ItemYields, EvaluateItem;
    if items != [] {
      ItemMeant(rules, items[0], draws);
      PatternMeant(rules, items[1..], EvaluateItem(rules, items[0], draws).1);
    }
  }

  // ---------- Whatever is meant comes out for some choices ----------

  lemma ChosenPicked(rules: Rules, list: seq<Text>, n: int, vs: seq<Text>, later: seq<nat>) returns (draws: seq<nat>)
    requires Chosen(rules, list, n, vs)
    ensures PickBy(rules, list, n, draws + later) == (vs, later)
  {
    hide DrawnFrom, TakenFrom, PickValues;
    if rules.allowDuplicates {
      draws := TakenPicked(list, Max(n, 0), vs, rules.allowMultiple, later);
    } else {
      draws := DrawnPicked(list, Max(n, 0), vs, rules.allowMultiple, later);
    }
  }

  lemma NumberMeant(rules: Rules, q: Quant, n: int, later: seq<nat>) returns (draws: seq<nat>)
    requires QuantOk(rules, q) && Between(Bounds(rules, q).0, Bounds(rules, q).1, n)
    ensures QuantNumber(rules, q, draws + later) == (n, later)
  {
    if q.Once? || q.Count? {
      draws := [];
      assert [] + later == later;
    } else {
      draws := NumberPicked(Bounds(rules, q).0.n, Bounds(rules, q).1.n, n, later);
    }
  }

  lemma SelectsQuantified(rules: Rules, list: seq<Text>, q: Quant, vs: seq<Text>, later: seq<nat>)
      returns (draws: seq<nat>)
    requires QuantOk(rules, q) && Selects(rules, list, q, vs)
    ensures Quantified(rules, list, q, draws + later) == (vs, later)
  {
    hide Chosen, PickBy, Clamped, QuantOk, QuantNumber;
    var n :| Between(Bounds(rules, q).0, Bounds(rules, q).1, n) && Chosen(rules, list, n, vs);
    ClampExact(rules, list, n, vs);
    var picks := ChosenPicked(rules, list, if q.Once? then 1 else Clamped(rules, list, n), vs, later);
    draws := NumberMeant(rules, q, n, picks + later);
    assert (draws + picks) + later == draws + (picks + later);
    draws := draws + picks;
  }

  lemma MeantPiece(rules: Rules, p: Piece, t: Text, later: seq<nat>) returns (draws: seq<nat>)
    requires PieceOk(rules, p) && PieceMeans(rules, p, t)
    ensures EvaluatePiece(rules, p, draws + later) == (t, later)
  {
    hide Selects, Quantified;
    if p.Pick? {
      var vs :| Selects(rules, ClassValues(rules, p.parts), p.quant, vs) && t == Join(vs);
      draws := SelectsQuantified(rules, ClassValues(rules, p.parts), p.quant, vs, later);
    } else {
      draws := [];
      assert [] + later == later;
    }
  }

  lemma {:induction false} MeantWord(rules: Rules, w: Word, t: Text, later: seq<nat>) returns (draws: seq<nat>)
    requires WordOk(rules, w) && WordMeans(rules, w, t)
    ensures EvaluateWord(rules, w, draws + later) == (t, later)
    decreases |w|
  {
    hide PieceMeans, PieceOk, EvaluatePiece;
    if w == [] {
      assert [] + later == later;
      return [];
    }
    var head, more :| t == head + more && PieceMeans(rules, w[0], head) && WordMeans(rules, w[1..], more);
    var last := MeantWord(rules, w[1..], more, later);
    draws := MeantPiece(rules, w[0], head, last + later);
    assert (draws + last) + later == draws + (last + later);
    draws := draws + last;
  }

  lemma MeantFinish(several: bool, t: Text, vals: seq<Text>, later: seq<nat>) returns (draws: seq<nat>)
    requires AltComesTo(several, t, vals)
    ensures Finish(several, t, draws + later) == (vals, later)
  {
    if several {
      draws := Shuffled(t, vals[0], later);
      assert vals == [vals[0]];
    } else {
      draws := [];
      assert [] + later == later;
    }
  }

  lemma MeantAlt(rules: Rules, alt: seq<Word>, vals: seq<Text>, later: seq<nat>) returns (draws: seq<nat>)
    requires AltOk(rules, alt) && AltMeans(rules, alt, vals)
    ensures EvaluateAlt(rules, alt, draws + later) == (vals, later)
  {
    hide WordOk, WordMeans, Finish, AltComesTo, EvaluateWord, Flatten;
    FlattenOk(rules, alt);
    var t :| WordMeans(rules, Flatten(alt), t) && AltComesTo(|alt| > 1, t, vals);
    var last := MeantFinish(|alt| > 1, t, vals, later);
    draws := MeantWord(rules, Flatten(alt), t, last + later);
    assert (draws + last) + later == draws + (last + later);
    draws := draws + last;
  }

  lemma {:induction false} MeantAlts(rules: Rules, values: seq<Text>, alts: seq<seq<Word>>, vals: seq<seq<Text>>, later: seq<nat>)
      returns (draws: seq<nat>)
    requires alts != [] && AltsOk(rules, alts) && AltsMean(rules, alts, vals)
    ensures EvaluateAlts(rules, values, alts, draws + later) == (ArrangedAll(values, alts, vals), later)
    decreases |alts|
  {
    hide AltOk, AltMeans, EvaluateAlt;
    if |alts| == 1 {
      draws := MeantAlt(rules, alts[0], vals[0], later);
    } else {
      var last := MeantAlts(rules, values + vals[0], alts[1..], vals[1..], later);
      draws := MeantAlt(rules, alts[0], vals[0], last + later);
      assert (draws + last) + later == draws + (last + later);
      draws := draws + last;
    }
  }

  /** The order in which a body's values come out; it does not depend on what is chosen later. */
  lemma BodyOrder(rules: Rules, b: Body, list: seq<Text>) returns (vals: seq<seq<Text>>, other: seq<Text>)
    requires BodyOk(rules, b) && ListOf(rules, b, list)
    ensures multiset(other) == multiset(list)
    ensures if b.Sequence? then |vals| == |b.alts| && AltsMean(rules, b.alts, vals) && other == ArrangedAll([], b.alts, vals)
            else other == list
  {
    hide AltsOk, AltsMean, Concat, ArrangedAll;
    vals, other := [], list;
    if b.Sequence? {
      vals :| AltsMean(rules, b.alts, vals) && list == Concat(vals);
      ValsFit(rules, b.alts, vals);
      other := ArrangedAll([], b.alts, vals);
      ArrangedKeeps([], b.alts, vals);
    }
  }

  lemma MeantBody(rules: Rules, b: Body, list: seq<Text>, vals: seq<seq<Text>>, other: seq<Text>, later: seq<nat>)
      returns (draws: seq<nat>)
    requires BodyOk(rules, b) && ListOf(rules, b, list)
    requires if b.Sequence? then |vals| == |b.alts| && AltsMean(rules, b.alts, vals) && other == ArrangedAll([], b.alts, vals)
             else other == list
    ensures EvaluateBody(rules, b, draws + later) == (other, later)
  {
    hide AltsOk, EvaluateAlts, AltsMean, Concat, ArrangedAll;
    if b.Sequence? {
      draws := MeantAlts(rules, [], b.alts, vals, later);
    } else {
      draws := [];
      assert [] + later == later;
    }
  }

  lemma MeantItem(rules: Rules, i: Item, t: Text, later: seq<nat>) returns (draws: seq<nat>)
    requires ItemOk(rules, i) && ItemYields(rules, i, t)
    ensures EvaluateItem(rules, i, draws + later) == (t, later)
  {
    hide BodyOk, QuantOk, EvaluateBody, Quantified, ListOf, Selects, AltsMean, ArrangedAll, Written;
    if !i.Group? {
      assert [] + later == later;
      return [];
    }
    var list, vs :| ListOf(rules, i.body, list) && Selects(rules, list, i.quant, vs) && t == Written(rules, i.body) + Join(vs);
    var vals, other := BodyOrder(rules, i.body, list);
    SelectsPermutes(rules, list, other, i.quant, vs);
    var picks := SelectsQuantified(rules, other, i.quant, vs, later);
    draws := MeantBody(rules, i.body, list, vals, other, picks + later);
    assert (draws + picks) + later == draws + (picks + later);
    draws := draws + picks;
  }

  lemma {:induction false} MeantPattern(rules: Rules, items: seq<Item>, out: Text, later: seq<nat>)
      returns (draws: seq<nat>)
    requires PatternOk(rules, items) && Produces(rules, items, out)
    ensures Evaluate(rules, items, draws + later) == (out, later)
    decreases |items|
  {
    hide ItemOk, ItemYields, EvaluateItem;
    if items == [] {
      assert [] + later == later;
      return [];
    }
    var head, more :| out == head + more && ItemYields(rules, items[0], head) && Produces(rules, items[1..], more);
    var last := MeantPattern(rules, items[1..], more, later);
    draws := MeantItem(rules, items[0], head, last + later);
    assert (draws + last) + later == draws + (last + later);
    draws := draws + last;
  }

  /** The strings that a pattern stands for are exactly those that come out for some choices. */
  lemma ComesOutExactly(rules: Rules, items: seq<Item>, out: Text)
    requires PatternOk(rules, items)
    ensures Produces(rules, items, out) <==> exists draws :: Evaluate(rules, items, draws).0 == out
  {
    hide PatternOk, Produces, Evaluate;
    if Produces(rules, items, out) {
      var draws := MeantPattern(rules, items, out, []);
      assert draws + [] == draws;
      assert Evaluate(rules, items, draws).0 == out;
    }
    if exists draws :: Evaluate(rules, items, draws).0 == out {
      var draws :| Evaluate(rules, items, draws).0 == out;
      PatternMeant(rules, items, draws);
    }
  }
}

/**
  The patterns of the string generator as data: how an item is written down, and
  which strings it stands for. None of it mentions the scanner or random choices.
 */
module StrgenPattern {
  import opened StrgenSpec

  datatype Preset = Preset(code: Text, value: Text)

  /**
    The generator's parameters. `parseInt` and `toNumber` are what JavaScript's
    `parseInt` and its conversion to a number (rounded up) make of a string.
   */
  datatype Rules = Rules(
    allowDuplicates: bool, allowMultiple: bool, symbolMax: int, presets: seq<Preset>,
    parseInt: Text -> Num, toNumber: Text -> Num)

  /** What stands between the brackets of a character class; a slash adds nothing itself. */
  datatype Part = Single(c: Unit) | Slash | Span(a: Unit, broken: bool, b: Unit) | Named(code: Unit)

  datatype Quant = Once | Count(t: Text) | Range(t: Text, sep: Unit, u: Text) | Opt | Star | Plus

  /** What stands in the words of a sequence; some operators are read and ignored there. */
  datatype Piece = Letter(c: Unit) | Broken(c: Unit) | Ignored(c: Unit) | Pick(parts: seq<Part>, quant: Quant)

  type Word = seq<Piece>

  /**
    What values are collected from: a class, a sequence, or one character. A sequence
    has alternatives between bars, and each of them words between ampersands.
   */
  datatype Body = Class(parts: seq<Part>) | Sequence(alts: seq<seq<Word>>) | Char(c: Unit)

  datatype Item = Literal(c: Unit) | Escaped(c: Unit) | Group(body: Body, quant: Quant)

  // ---------- How patterns are written ----------

  function RenderPart(p: Part): (t: Text)
    ensures t != []
  {
    match p
    case Single(c) => [c]
    case Slash => [Of('/')]
    case Span(a, broken, b) => if broken then [a, Of('-'), Of('/'), b] else [a, Of('-'), b]
    case Named(code) => [Of('\\'), code]
  }

  function RenderParts(ps: seq<Part>): Text {
    if ps == [] then [] else RenderPart(ps[0]) + RenderParts(ps[1..])
  }

  function RenderQuant(q: Quant): Text {
    match q
    case Once => []
    case Count(t) => [Of('{')] + t + [Of('}')]
    case Range(t, sep, u) => [Of('{')] + t + [sep] + u + [Of('}')]
    case Opt => [Of('?')]
    case Star => [Of('*')]
    case Plus => [Of('+')]
  }

  function RenderPiece(p: Piece): Text {
    match p
    case Letter(c) => [c]
    case Broken(c) => [Of('/'), c]
    case Ignored(c) => [c]
    case Pick(ps, q) => [Of('[')] + (RenderParts(ps) + ([Of(']')] + RenderQuant(q)))
  }

  function RenderWord(w: Word): Text {
    if w == [] then [] else RenderPiece(w[0]) + RenderWord(w[1..])
  }

  /** The words after the first of an alternative, each behind its ampersand. */
  function MoreWords(words: seq<Word>): Text {
    if words == [] then [] else [Of('&')] + (RenderWord(words[0]) + MoreWords(words[1..]))
  }

  function RenderAlt(alt: seq<Word>): Text {
    if alt == [] then [] else RenderWord(alt[0]) + MoreWords(alt[1..])
  }

  /** The alternatives after the first, each behind its bar. */
  function MoreAlts(alts: seq<seq<Word>>): Text {
    if alts == [] then [] else [Of('|')] + (RenderAlt(alts[0]) + MoreAlts(alts[1..]))
  }

  function RenderAlts(alts: seq<seq<Word>>): Text {
    if alts == [] then [] else RenderAlt(alts[0]) + MoreAlts(alts[1..])
  }

  function RenderBody(b: Body): Text {
    match b
    case Class(ps) => [Of('[')] + RenderParts(ps) + [Of(']')]
    case Sequence(alts) => [Of('(')] + RenderAlts(alts) + [Of(')')]
    case Char(c) => [c]
  }

  function RenderItem(i: Item): Text {
    match i
    case Literal(c) => [c]
    case Escaped(c) => [Of('/'), c]
    case Group(b, q) => RenderBody(b) + RenderQuant(q)
  }

  function Render(items: seq<Item>): Text {
    if items == [] then [] else RenderItem(items[0]) + Render(items[1..])
  }

  // ---------- Which of them are patterns ----------

  /** Read as itself outside classes and sequences. */
  predicate Bare(c: Unit) {
    c !in SYMBOLS && (c !in OPERATORS || c == Of('-') || c == Of('\\') || c == Of('|'))
  }

  /** An element of a class: no operator, or one behind a slash other than these three. */
  predicate Element(c: Unit, afterSlash: bool) {
    c !in OPERATORS || (afterSlash && c != Of(']') && c != Of('\\') && c != Of('/'))
  }

  predicate PartOk(afterSlash: bool, p: Part) {
    match p
    case Single(c) => Element(c, afterSlash)
    case Slash => true
    case Span(a, broken, b) => Element(a, afterSlash) && (broken || b != Of('/'))
    case Named(code) => true
  }

  /** The last character of a part. */
  function LastOf(p: Part): Unit {
    match p
    case Single(c) => c
    case Slash => Of('/')
    case Span(_, _, b) => b
    case Named(code) => code
  }

  predicate PartsOk(afterSlash: bool, ps: seq<Part>)
    decreases |ps|
  {
    ps == [] || (PartOk(afterSlash, ps[0]) && PartsOk(LastOf(ps[0]) == Of('/'), ps[1..]))
  }

  predicate ClassOk(ps: seq<Part>) {
    ps != [] && PartsOk(false, ps)
  }

  predicate Symbol(q: Quant) {
    q.Opt? || q.Star? || q.Plus?
  }

  predicate Numeral(t: Text) {
    forall i :: 0 <= i < |t| ==> t[i] !in OPERATORS && !IsQuantifierOperator([t[i]])
  }

  function Bounds(rules: Rules, q: Quant): (Num, Num) {
    match q
    case Once => (Int(1), Int(1))
    case Count(t) => (rules.parseInt(t), rules.parseInt(t))
    case Range(t, _, u) =>
      (if t == [] then Int(0) else rules.parseInt(t), if u == [] then Int(0) else rules.parseInt(u))
    case Opt => (Int(0), Int(1))
    case Star => (Int(0), Int(rules.symbolMax))
    case Plus => (Int(1), Int(rules.symbolMax))
  }

  /** Both bounds are numbers, and `toNumber` and `parseInt` agree on a lone one. */
  predicate QuantOk(rules: Rules, q: Quant) {
    && Bounds(rules, q).0.Int? && Bounds(rules, q).1.Int?
    && (q.Count? ==> q.t != [] && Numeral(q.t) && rules.toNumber(q.t) == rules.parseInt(q.t))
    && (q.Range? ==> Numeral(q.t) && Numeral(q.u) && IsQuantifierOperator([q.sep]) && (q.t != [] || q.u != []))
  }

  /**
    A parenthesis right behind a slash, or at the end of a class, ends the sequence
    in which it stands; the other operators are ignored in a word.
   */
  predicate PieceOk(rules: Rules, p: Piece) {
    match p
    case Letter(c) => c !in OPERATORS && c !in SYMBOLS && c != Of('&')
    case Broken(c) => c != Of(')')
    case Ignored(c) => c == Of('-') || c == Of('\\') || c == Of('(')
    case Pick(ps, q) => ClassOk(ps) && LastOf(ps[|ps| - 1]) != Of(')') && QuantOk(rules, q)
  }

  predicate WordOk(rules: Rules, w: Word) {
    forall i :: 0 <= i < |w| ==> PieceOk(rules, w[i])
  }

  predicate AltOk(rules: Rules, alt: seq<Word>) {
    alt != [] && forall i :: 0 <= i < |alt| ==> WordOk(rules, alt[i])
  }

  predicate AltsOk(rules: Rules, alts: seq<seq<Word>>) {
    forall i :: 0 <= i < |alts| ==> AltOk(rules, alts[i])
  }

  predicate BodyOk(rules: Rules, b: Body) {
    match b
    case Class(ps) => ClassOk(ps)
    case Sequence(alts) => alts != [] && AltsOk(rules, alts)
    case Char(c) => Bare(c)
  }

  predicate ItemOk(rules: Rules, i: Item) {
    match i
    case Literal(c) => Bare(c)
    case Escaped(c) => true
    case Group(b, q) => BodyOk(rules, b) && QuantOk(rules, q) && (b.Char? ==> Symbol(q))
  }

  predicate PatternOk(rules: Rules, items: seq<Item>) {
    forall i :: 0 <= i < |items| ==> ItemOk(rules, items[i])
  }

  // ---------- What they mean ----------

  /** The code units from `lo` up to `hi`. */
  function From(lo: int, hi: int): (s: seq<Text>)
    requires 0 <= lo <= hi + 1 <= 0x10000
    ensures |s| == hi - lo + 1 && forall i :: 0 <= i < |s| ==> s[i] == [lo + i]
    decreases hi - lo
  {
    if lo > hi then [] else [[lo]] + From(lo + 1, hi)
  }

  function Singles(t: Text): (s: seq<Text>)
    ensures |s| == |t| && forall i :: 0 <= i < |t| ==> s[i] == [t[i]]
  {
    if t == [] then [] else [[t[0]]] + Singles(t[1..])
  }

  /** The first preset with that code, or their number. */
  function PresetOf(presets: seq<Preset>, code: Text): (n: nat)
    ensures n <= |presets|
    ensures n < |presets| ==> presets[n].code == code
    ensures forall i :: 0 <= i < n ==> presets[i].code != code
  {
    if presets == [] || presets[0].code == code then 0 else 1 + PresetOf(presets[1..], code)
  }

  function PartValues(rules: Rules, p: Part): seq<Text> {
    match p
    case Single(c) => [[c]]
    case Slash => []
    case Span(a, _, b) => From(Min(a, b), Max(a, b))
    case Named(code) =>
      var n := PresetOf(rules.presets, [code]);
      if n < |rules.presets| then Singles(rules.presets[n].value) else []
  }

  function ClassValues(rules: Rules, ps: seq<Part>): seq<Text> {
    if ps == [] then [] else PartValues(rules, ps[0]) + ClassValues(rules, ps[1..])
  }

  function Flatten(words: seq<Word>): Word {
    if words == [] then [] else words[0] + Flatten(words[1..])
  }

  /** A code that no preset has is written out when it is read, and adds no value. */
  function PartCode(rules: Rules, p: Part): Text {
    if p.Named? && PresetOf(rules.presets, [p.code]) == |rules.presets| then [p.code] else []
  }

  function Codes(rules: Rules, ps: seq<Part>): Text {
    if ps == [] then [] else PartCode(rules, ps[0]) + Codes(rules, ps[1..])
  }

  function PieceCodes(rules: Rules, p: Piece): Text {
    if p.Pick? then Codes(rules, p.parts) else []
  }

  function WordCodes(rules: Rules, w: Word): Text {
    if w == [] then [] else PieceCodes(rules, w[0]) + WordCodes(rules, w[1..])
  }

  function AltsCodes(rules: Rules, alts: seq<seq<Word>>): Text {
    if alts == [] then [] else WordCodes(rules, Flatten(alts[0])) + AltsCodes(rules, alts[1..])
  }

  /** What is written while a body is read. */
  function Written(rules: Rules, b: Body): Text {
    match b
    case Class(ps) => Codes(rules, ps)
    case Sequence(alts) => AltsCodes(rules, alts)
    case Char(_) => []
  }

  /** The numbers between two, in either order. */
  predicate Between(a: Num, b: Num, n: int) {
    a.Int? && b.Int? && Min(a.n, b.n) <= n <= Max(a.n, b.n)
  }

  /** `n` values of the list as the rules let them be chosen. */
  ghost predicate Chosen(rules: Rules, list: seq<Text>, n: int, vs: seq<Text>) {
    if rules.allowDuplicates then TakenFrom(list, Max(n, 0), vs)
    else DrawnFrom(list, Max(n, 0), vs, rules.allowMultiple)
  }

  ghost predicate Selects(rules: Rules, list: seq<Text>, q: Quant, vs: seq<Text>) {
    exists n :: Between(Bounds(rules, q).0, Bounds(rules, q).1, n) && Chosen(rules, list, n, vs)
  }

  ghost predicate PieceMeans(rules: Rules, p: Piece, t: Text) {
    match p
    case Letter(c) => t == [c]
    case Broken(c) => t == [c]
    case Ignored(_) => t == []
    case Pick(ps, q) => exists vs :: Selects(rules, ClassValues(rules, ps), q, vs) && t == Join(vs)
  }

  ghost predicate WordMeans(rules: Rules, w: Word, t: Text) {
    if w == [] then t == []
    else exists head, more :: t == head + more && PieceMeans(rules, w[0], head) && WordMeans(rules, w[1..], more)
  }

  /**
    The values of an alternative: its only word unless that is empty, or a word of all
    the letters of its words in any order.
   */
  ghost predicate AltMeans(rules: Rules, alt: seq<Word>, vals: seq<Text>) {
    exists t :: WordMeans(rules, Flatten(alt), t) && AltComesTo(|alt| > 1, t, vals)
  }

  ghost predicate AltComesTo(several: bool, t: Text, vals: seq<Text>) {
    if several then |vals| == 1 && multiset(vals[0]) == multiset(t) else vals == NonEmpty(t)
  }

  function NonEmpty(t: Text): seq<Text> {
    if t == [] then [] else [t]
  }

  ghost predicate AltsMean(rules: Rules, alts: seq<seq<Word>>, vals: seq<seq<Text>>) {
    |vals| == |alts| && forall i :: 0 <= i < |alts| ==> AltMeans(rules, alts[i], vals[i])
  }

  function Concat(vals: seq<seq<Text>>): seq<Text> {
    if vals == [] then [] else vals[0] + Concat(vals[1..])
  }

  /** The values that a body may come to. */
  ghost predicate ListOf(rules: Rules, b: Body, list: seq<Text>) {
    match b
    case Class(ps) => list == ClassValues(rules, ps)
    case Sequence(alts) => exists vals :: AltsMean(rules, alts, vals) && list == Concat(vals)
    case Char(c) => list == [[c]]
  }

  ghost predicate ItemYields(rules: Rules, i: Item, out: Text) {
    match i
    case Literal(c) => out == [c]
    case Escaped(c) => out == [c]
    case Group(b, q) =>
      exists list, vs :: ListOf(rules, b, list) && Selects(rules, list, q, vs) && out == Written(rules, b) + Join(vs)
  }

  /** The strings that a pattern stands for. */
  ghost predicate Produces(rules: Rules, items: seq<Item>, out: Text) {
    if items == [] then out == []
    else exists head, more :: out == head + more && ItemYields(rules, items[0], head) && Produces(rules, items[1..], more)
  }

  // ---------- Choosing values ----------

  /** What the clamp makes of the number `n`. */
  function Clamped(rules: Rules, list: seq<Text>, n: int): int {
    if rules.allowDuplicates then n else Min(n, Available(list, rules.allowMultiple))
  }

  /** The clamp takes nothing away that could have been chosen. */
  lemma ClampExact(rules: Rules, list: seq<Text>, n: int, vs: seq<Text>)
    ensures Chosen(rules, list, Clamped(rules, list, n), vs) <==> Chosen(rules, list, n, vs)
  {
    hide AllDifferent;
  }

  /** Picking one value is the same with and without duplicates. */
  lemma OnceAlike(rules: Rules, list: seq<Text>, vs: seq<Text>)
    ensures Chosen(rules.(allowDuplicates := false), list, 1, vs) <==> Chosen(rules.(allowDuplicates := true), list, 1, vs)
  {
    NothingAvailable(list, rules.allowMultiple);
    if |vs| == 1 {
      assert vs == [vs[0]];
      assert multiset(vs) == multiset{vs[0]};
    }
  }

  /** The order of the list makes no difference. */
  lemma ChosenPermutes(rules: Rules, list: seq<Text>, other: seq<Text>, n: int, vs: seq<Text>)
    requires multiset(list) == multiset(other)
    ensures Chosen(rules, list, n, vs) <==> Chosen(rules, other, n, vs)
  {
    hide AllDifferent;
    assert |list| == |multiset(list)| == |multiset(other)| == |other|;
    assert forall v :: v in list <==> v in multiset(list);
    assert forall v :: v in other <==> v in multiset(other);
    assert Values(list) == Values(other);
  }

  // ---------- Patterns without operators ----------

  function Literals(p: Text): (items: seq<Item>)
    ensures |items| == |p| && forall i :: 0 <= i < |p| ==> items[i] == Literal(p[i])
  {
    if p == [] then [] else [Literal(p[0])] + Literals(p[1..])
  }

  lemma {:induction false} LiteralsRender(rules: Rules, p: Text)
    requires forall i :: 0 <= i < |p| ==> Bare(p[i])
    ensures PatternOk(rules, Literals(p)) && Render(Literals(p)) == p
    decreases |p|
  {
    hide Bare;
    if p != [] {
      assert Literals(p)[1..] == Literals(p[1..]);
      LiteralsRender(rules, p[1..]);
      assert p == [p[0]] + p[1..];
    }
  }

  lemma ProducesLiteral(rules: Rules, items: seq<Item>, out: Text)
    requires items != [] && items[0].Literal?
    ensures Produces(rules, items, out) <==> out != [] && out[0] == items[0].c && Produces(rules, items[1..], out[1..])
  {
    if Produces(rules, items, out) {
      var head, more :| out == head + more && ItemYields(rules, items[0], head) && Produces(rules, items[1..], more);
      assert more == out[1..];
    }
    if out != [] && out[0] == items[0].c && Produces(rules, items[1..], out[1..]) {
      assert out == [out[0]] + out[1..];
      assert ItemYields(rules, items[0], [out[0]]);
    }
  }

  /** A pattern of bare characters stands for itself only. */
  lemma {:induction false} LiteralPattern(rules: Rules, p: Text, out: Text)
    ensures Produces(rules, Literals(p), out) <==> out == p
    decreases |p|
  {
    hide Produces, Literals;
    if p == [] {
      NoLiterals(rules, out);
    } else {
      FirstLiteral(p);
      ProducesLiteral(rules, Literals(p), out);
      if out != [] {
        LiteralPattern(rules, p[1..], out[1..]);
        assert out == [out[0]] + out[1..] && p == [p[0]] + p[1..];
      }
    }
  }

  lemma NoLiterals(rules: Rules, out: Text)
    ensures Literals([]) == [] && (Produces(rules, Literals([]), out) <==> out == [])
  {
  }

  lemma FirstLiteral(p: Text)
    requires p != []
    ensures Literals(p) != [] && Literals(p)[0] == Literal(p[0]) && Literals(p)[1..] == Literals(p[1..])
  {
  }
}

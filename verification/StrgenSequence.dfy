/**
  How a sequence is read: its alternatives, their words and the pieces of a word, one
  character after another, and the list of values that it comes to.
 */
module StrgenSequence {
  import opened StrgenSpec
  import opened StrgenPattern
  import opened StrgenEval
  import opened StrgenReading

  /** What is left of a sequence: the rest of a group, of a word, of an alternative, and more alternatives. */
  datatype Spot = Spot(s: Stage, word: Word, words: seq<Word>, alts: seq<seq<Word>>)

  predicate WordsOk(rules: Rules, words: seq<Word>) {
    forall i :: 0 <= i < |words| ==> WordOk(rules, words[i])
  }

  predicate SpotOk(rules: Rules, p: Spot) {
    && StageOk(rules, p.s) && WordOk(rules, p.word) && WordsOk(rules, p.words) && AltsOk(rules, p.alts)
    && (p.s.Closing? ==> p.s.bracket == Of(']'))
  }

  function WordsText(words: seq<Word>, alts: seq<seq<Word>>, tail: Text): Text {
    MoreWords(words) + (MoreAlts(alts) + tail)
  }

  /** What is behind the rest of the group. */
  function SpotAfter(p: Spot, tail: Text): Text {
    RenderWord(p.word) + WordsText(p.words, p.alts, tail)
  }

  predicate SpotDue(rules: Rules, p: Spot, tail: Text, text: Text) {
    SpotOk(rules, p) && First(tail) == [Of(')')] && StageDue(rules, p.s, SpotAfter(p, tail), text)
  }

  // ---------- What it comes to ----------

  /**
    The list that the rest of a sequence leads to: `values` are those of the alternatives
    read, `said` are the letters of the one at hand, `several` whether an ampersand was read in it.
   */
  function SpotRun(rules: Rules, values: seq<Text>, several: bool, said: Text, p: Spot, draws: seq<nat>): (seq<Text>, seq<nat>)
    requires SpotOk(rules, p)
  {
    RestOk(rules, p);
    var (t, d1) := StageRun(rules, p.s, draws);
    var (more, d2) := EvaluateWord(rules, p.word + Flatten(p.words), d1);
    var (vals, d3) := Finish(several || p.words != [], (said + t) + more, d2);
    if p.alts == [] then (Arranged(several || p.words != [], values, vals), d3)
    else EvaluateAlts(rules, values + vals, p.alts, d3)
  }

  lemma RestOk(rules: Rules, p: Spot)
    requires SpotOk(rules, p)
    ensures WordOk(rules, p.word + Flatten(p.words))
  {
    hide PieceOk;
    FlattenOk(rules, p.words);
  }

  lemma AltOpens(rules: Rules, alts: seq<seq<Word>>)
    requires alts != [] && AltsOk(rules, alts)
    ensures alts[0] != [] && WordOk(rules, alts[0][0]) && WordsOk(rules, alts[0][1..]) && AltsOk(rules, alts[1..])
    ensures SpotOk(rules, Opened(alts))
  {
    hide WordOk;
    assert AltOk(rules, alts[0]);
  }

  /** The first alternative, from its beginning. */
  function Opened(alts: seq<seq<Word>>): Spot
    requires alts != []
  {
    if alts[0] == [] then Spot(Fresh, [], [], alts[1..]) else Spot(Fresh, alts[0][0], alts[0][1..], alts[1..])
  }

  lemma OpenedRun(rules: Rules, values: seq<Text>, alts: seq<seq<Word>>, draws: seq<nat>)
    requires alts != [] && AltsOk(rules, alts) && SpotOk(rules, Opened(alts))
    ensures SpotRun(rules, values, false, [], Opened(alts), draws) == EvaluateAlts(rules, values, alts, draws)
  {
    hide AltOk, WordOk, EvaluateWord, Finish, Arranged;
    AltOpens(rules, alts);
    RestOk(rules, Opened(alts));
    FlattenOk(rules, alts[0]);
    assert alts[0][0] + Flatten(alts[0][1..]) == Flatten(alts[0]);
    var t := EvaluateWord(rules, Flatten(alts[0]), draws).0;
    assert ([] + []) + t == t;
    OneAlt(rules, values, alts, draws);
  }

  lemma OneAlt(rules: Rules, values: seq<Text>, alts: seq<seq<Word>>, draws: seq<nat>)
    requires alts != [] && AltsOk(rules, alts) && AltOk(rules, alts[0]) && WordOk(rules, Flatten(alts[0]))
    ensures var (t, d2) := EvaluateWord(rules, Flatten(alts[0]), draws);
            var (vals, d3) := Finish(|alts[0]| > 1, t, d2);
            EvaluateAlts(rules, values, alts, draws) ==
            if alts[1..] == [] then (Arranged(|alts[0]| > 1, values, vals), d3) else EvaluateAlts(rules, values + vals, alts[1..], d3)
  {
    hide AltOk, WordOk, EvaluateWord, Finish, Arranged;
  }

  /** Reading on in the group at hand. */
  lemma SpotStage(rules: Rules, values: seq<Text>, several: bool, said: Text, p: Spot, draws: seq<nat>,
                  picked: Text, s2: Stage, later: seq<nat>)
    requires SpotOk(rules, p) && StageLeads(rules, p.s, draws, picked, s2, later) && SpotOk(rules, p.(s := s2))
    ensures SpotRun(rules, values, several, said, p, draws) == SpotRun(rules, values, several, said + picked, p.(s := s2), later)
  {
    hide StageRun, StageOk, WordOk, EvaluateWord, Finish, Arranged, EvaluateAlts;
    RestOk(rules, p);
    var t := StageRun(rules, s2, later).0;
    assert said + (picked + t) == (said + picked) + t;
  }

  lemma WordStep(rules: Rules, w: Word, words: seq<Word>)
    requires w != [] && WordOk(rules, w)
    ensures WordOk(rules, w[1..]) && PieceOk(rules, w[0])
    ensures (w + Flatten(words))[0] == w[0] && (w + Flatten(words))[1..] == w[1..] + Flatten(words)
  {
    hide PieceOk;
  }

  /** Reading a piece that is no class. */
  lemma SpotPiece(rules: Rules, values: seq<Text>, several: bool, said: Text, p: Spot, draws: seq<nat>)
    requires SpotOk(rules, p) && p.s.Fresh? && p.word != [] && !p.word[0].Pick?
    ensures SpotOk(rules, p.(word := p.word[1..])) && PieceOk(rules, p.word[0])
    ensures SpotRun(rules, values, several, said, p, draws) ==
            SpotRun(rules, values, several, said + EvaluatePiece(rules, p.word[0], draws).0, p.(word := p.word[1..]), draws)
  {
    hide WordOk, Finish, Arranged, EvaluateAlts, EvaluatePiece;
    WordStep(rules, p.word, p.words);
    RestOk(rules, p);
    RestOk(rules, p.(word := p.word[1..]));
    assert EvaluatePiece(rules, p.word[0], draws).1 == draws by { NoDraw(rules, p.word[0], draws); }
    var t := EvaluatePiece(rules, p.word[0], draws).0;
    var more := EvaluateWord(rules, p.word[1..] + Flatten(p.words), draws).0;
    assert (said + []) + (t + more) == ((said + t) + []) + more;
  }

  lemma NoDraw(rules: Rules, p: Piece, draws: seq<nat>)
    requires PieceOk(rules, p) && !p.Pick?
    ensures EvaluatePiece(rules, p, draws) == (if p.Ignored? then [] else [p.c], draws)
  {
  }

  /** Reading a class. */
  lemma SpotPick(rules: Rules, values: seq<Text>, several: bool, said: Text, p: Spot, draws: seq<nat>)
    requires SpotOk(rules, p) && p.s.Fresh? && p.word != [] && p.word[0].Pick?
    ensures var p2 := p.(s := Closing(Of(']'), ClassValues(rules, p.word[0].parts), p.word[0].quant), word := p.word[1..]);
            SpotOk(rules, p2) && SpotRun(rules, values, several, said, p, draws) == SpotRun(rules, values, several, said, p2, draws)
  {
    hide WordOk, Finish, Arranged, EvaluateAlts, Quantified, ClassOk, QuantOk;
    WordStep(rules, p.word, p.words);
    RestOk(rules, p);
    var p2 := p.(s := Closing(Of(']'), ClassValues(rules, p.word[0].parts), p.word[0].quant), word := p.word[1..]);
    RestOk(rules, p2);
    var (vs, later) := Quantified(rules, p2.s.list, p2.s.quant, draws);
    assert EvaluatePiece(rules, p.word[0], draws) == (Join(vs), later);
    var more := EvaluateWord(rules, p2.word + Flatten(p.words), later).0;
    assert (said + []) + (Join(vs) + more) == (said + Join(vs)) + more;
  }

  /** Reading an ampersand. */
  lemma SpotAmpersand(rules: Rules, values: seq<Text>, several: bool, said: Text, p: Spot, draws: seq<nat>)
    requires SpotOk(rules, p) && p.s.Fresh? && p.word == [] && p.words != []
    ensures var p2 := p.(word := p.words[0], words := p.words[1..]);
            SpotOk(rules, p2) && SpotRun(rules, values, several, said, p, draws) == SpotRun(rules, values, true, said, p2, draws)
  {
    hide WordOk, Finish, Arranged, EvaluateAlts, EvaluateWord;
    RestOk(rules, p);
    assert p.word + Flatten(p.words) == p.words[0] + Flatten(p.words[1..]);
  }

  lemma NothingLeft(rules: Rules, said: Text, p: Spot, draws: seq<nat>)
    requires p.s.Fresh? && p.word == [] && p.words == []
    ensures p.word + Flatten(p.words) == [] && WordOk(rules, []) && EvaluateWord(rules, [], draws) == ([], draws)
    ensures (said + []) + [] == said
  {
  }

  /** Reading a bar. */
  lemma SpotBar(rules: Rules, values: seq<Text>, several: bool, said: Text, p: Spot, draws: seq<nat>)
    requires SpotOk(rules, p) && p.s.Fresh? && p.word == [] && p.words == [] && p.alts != []
    ensures var (vals, later) := Finish(several, said, draws);
            && SpotOk(rules, Opened(p.alts))
            && SpotRun(rules, values, several, said, p, draws) == SpotRun(rules, values + vals, false, [], Opened(p.alts), later)
  {
    hide WordOk, Finish, Arranged, EvaluateAlts, EvaluateWord;
    NothingLeft(rules, said, p, draws);
    var (vals, later) := Finish(several, said, draws);
    AltOpens(rules, p.alts);
    OpenedRun(rules, values + vals, p.alts, later);
  }

  /** Reaching the parenthesis. */
  lemma SpotEnd(rules: Rules, values: seq<Text>, several: bool, said: Text, p: Spot, draws: seq<nat>)
    requires SpotOk(rules, p) && p.s.Fresh? && p.word == [] && p.words == [] && p.alts == []
    ensures var (vals, later) := Finish(several, said, draws);
            SpotRun(rules, values, several, said, p, draws) == (Arranged(several, values, vals), later)
  {
    hide WordOk, Finish, Arranged, EvaluateAlts, EvaluateWord;
    NothingLeft(rules, said, p, draws);
  }

  // ---------- What is written meanwhile ----------

  /** The codes without preset that are still to be read. */
  function SpotCodes(rules: Rules, p: Spot): Text {
    WordCodes(rules, p.word + Flatten(p.words)) + AltsCodes(rules, p.alts)
  }

  lemma CodesOfPiece(rules: Rules, p: Spot)
    requires p.word != []
    ensures SpotCodes(rules, p) == PieceCodes(rules, p.word[0]) + SpotCodes(rules, p.(word := p.word[1..]))
  {
    hide PieceCodes;
    var w := p.word + Flatten(p.words);
    assert w[0] == p.word[0] && w[1..] == p.word[1..] + Flatten(p.words);
    var first, more, alts := PieceCodes(rules, w[0]), WordCodes(rules, w[1..]), AltsCodes(rules, p.alts);
    assert (first + more) + alts == first + (more + alts);
  }

  lemma CodesOfPick(rules: Rules, p: Spot, p2: Spot, out: Text)
    requires p.word != [] && p.word[0].Pick? && p2.(s := p.s) == p.(word := p.word[1..])
    ensures out + SpotCodes(rules, p) == (out + Codes(rules, p.word[0].parts)) + SpotCodes(rules, p2)
  {
    hide Codes, WordCodes, AltsCodes;
    CodesOfPiece(rules, p);
    var codes, more := Codes(rules, p.word[0].parts), SpotCodes(rules, p2);
    assert out + (codes + more) == (out + codes) + more;
  }

  lemma CodesOfOther(rules: Rules, p: Spot)
    requires p.word != [] && !p.word[0].Pick?
    ensures SpotCodes(rules, p) == SpotCodes(rules, p.(word := p.word[1..]))
  {
    hide WordCodes, AltsCodes;
    CodesOfPiece(rules, p);
    assert [] + SpotCodes(rules, p.(word := p.word[1..])) == SpotCodes(rules, p.(word := p.word[1..]));
  }

  lemma CodesOfWord(rules: Rules, p: Spot)
    requires p.word == [] && p.words != []
    ensures SpotCodes(rules, p) == SpotCodes(rules, p.(word := p.words[0], words := p.words[1..]))
  {
    assert p.word + Flatten(p.words) == p.words[0] + Flatten(p.words[1..]);
  }

  lemma CodesOfAlts(rules: Rules, alts: seq<seq<Word>>)
    requires alts != []
    ensures SpotCodes(rules, Opened(alts)) == AltsCodes(rules, alts)
  {
    assert alts[0] != [] ==> alts[0][0] + Flatten(alts[0][1..]) == Flatten(alts[0]);
  }

  lemma CodesAtEnd(rules: Rules, p: Spot)
    requires p.word == [] && p.words == []
    ensures SpotCodes(rules, p) == AltsCodes(rules, p.alts)
  {
    assert p.word + Flatten(p.words) == [];
  }

  /** A separator leaves them as they are. */
  lemma CodesOfSeparator(rules: Rules, p: Spot)
    requires p.word == []
    ensures p.words != [] ==> SpotCodes(rules, p) == SpotCodes(rules, p.(word := p.words[0], words := p.words[1..]))
    ensures p.words == [] && p.alts != [] ==> SpotCodes(rules, p) == SpotCodes(rules, Opened(p.alts))
    ensures p.words == [] && p.alts == [] ==> forall out: Text :: out + SpotCodes(rules, p) == out
  {
    hide WordCodes, SpotCodes;
    if p.words != [] {
      CodesOfWord(rules, p);
    } else {
      CodesAtEnd(rules, p);
      if p.alts != [] {
        CodesOfAlts(rules, p.alts);
      }
    }
  }

  // ---------- What is read ----------

  /** What is behind the words of an alternative: an ampersand, a bar, or the parenthesis. */
  lemma WordsFirst(words: seq<Word>, alts: seq<seq<Word>>, tail: Text)
    requires First(tail) == [Of(')')]
    ensures var t := WordsText(words, alts, tail);
            && t != []
            && t[0] == (if words != [] then Of('&') else if alts != [] then Of('|') else Of(')'))
            && (words == [] && alts == [] ==> t == tail)
  {
  }

  /** The first character of a piece. */
  function PieceStart(p: Piece): Unit {
    match p
    case Letter(c) => c
    case Broken(_) => Of('/')
    case Ignored(c) => c
    case Pick(_, _) => Of('[')
  }

  lemma PieceFirst(p: Piece)
    ensures RenderPiece(p) != [] && RenderPiece(p)[0] == PieceStart(p)
  {
    hide RenderParts, RenderQuant;
  }

  lemma SpotFirst(p: Spot, tail: Text)
    requires First(tail) == [Of(')')]
    ensures var t := SpotAfter(p, tail);
            && t != []
            && t[0] == (if p.word != [] then PieceStart(p.word[0])
                        else if p.words != [] then Of('&') else if p.alts != [] then Of('|') else Of(')'))
  {
    hide WordsText, RenderPiece;
    WordsFirst(p.words, p.alts, tail);
    if p.word != [] {
      PieceFirst(p.word[0]);
    }
  }

  /** A sequence goes on neither with a brace nor with a symbol. */
  lemma AfterSpot(rules: Rules, p: Spot, tail: Text)
    requires First(tail) == [Of(')')] && SpotOk(rules, p)
    ensures !IsSymbol(First(SpotAfter(p, tail))) && !Is(First(SpotAfter(p, tail)), '{')
    ensures p.s.Fresh? ==> SpotDue(rules, p, tail, SpotAfter(p, tail))
  {
    hide SpotAfter, ClassOk, QuantOk;
    SpotFirst(p, tail);
    if p.word != [] {
      assert PieceOk(rules, p.word[0]);
    }
    assert [] + SpotAfter(p, tail) == SpotAfter(p, tail);
  }

  lemma StageKind(rules: Rules, s: Stage, after: Text, text: Text)
    requires StageDue(rules, s, after, text) && !s.Fresh? && (s.Closing? ==> s.bracket == Of(']'))
    ensures text != []
    ensures var c := First(text);
            && (Is(c, ']') <==> s.Closing?) && (Is(c, '}') <==> s.Counted?)
            && (Is(c, '{') <==> s.Counting? && !Symbol(s.quant)) && (IsSymbol(c) <==> s.Counting? && Symbol(s.quant))
            && !Is(c, '&') && !Is(c, '|') && !Is(c, ')') && !Is(c, '[') && !Is(c, '/')
  {
    hide QuantOk, StageText;
    StageFirst(rules, s, after, text);
    if s.Counting? {
      QuantSymbol(s.quant);
    }
  }

  lemma PieceKind(rules: Rules, p: Piece, c: Text)
    requires PieceOk(rules, p) && c == [PieceStart(p)]
    ensures (Is(c, '[') <==> p.Pick?) && (Is(c, '/') <==> p.Broken?)
    ensures (p.Letter? ==> !IsOperator(c)) && (p.Ignored? ==> IsOperator(c)) && !IsSymbol(c)
    ensures !Is(c, '&') && !Is(c, '|') && !Is(c, ')') && !Is(c, ']') && !Is(c, '{') && !Is(c, '}')
  {
    hide ClassOk, QuantOk;
  }

  /** The next character tells what comes. */
  lemma SpotKind(rules: Rules, p: Spot, tail: Text, text: Text)
    requires SpotDue(rules, p, tail, text)
    ensures text != []
    ensures var c := First(text);
            && (Is(c, '&') <==> p.s.Fresh? && p.word == [] && p.words != [])
            && (Is(c, '|') <==> p.s.Fresh? && p.word == [] && p.words == [] && p.alts != [])
            && (Is(c, ')') <==> p.s.Fresh? && p.word == [] && p.words == [] && p.alts == [])
            && (Is(c, ']') <==> p.s.Closing?)
            && (Is(c, '{') <==> p.s.Counting? && !Symbol(p.s.quant))
            && (Is(c, '}') <==> p.s.Counted?)
            && (IsSymbol(c) <==> p.s.Counting? && Symbol(p.s.quant))
            && (Is(c, '[') <==> p.s.Fresh? && p.word != [] && p.word[0].Pick?)
            && (Is(c, '/') <==> p.s.Fresh? && p.word != [] && p.word[0].Broken?)
            && (p.s.Fresh? && p.word != [] && p.word[0].Letter? ==> !IsOperator(c))
            && (p.s.Fresh? && p.word != [] && p.word[0].Ignored? ==> IsOperator(c))
  {
    hide SpotAfter, StageText, WordsOk, AltsOk, PieceOk, StageOk, IsOperator, Symbol, StageDue;
    if !p.s.Fresh? {
      StageKind(rules, p.s, SpotAfter(p, tail), text);
    } else {
      StageFirst(rules, p.s, SpotAfter(p, tail), text);
      SpotFirst(p, tail);
      if p.word != [] {
        PieceKind(rules, p.word[0], First(text));
      }
    }
  }

  lemma QuantSymbol(q: Quant)
    ensures Symbol(q) ==> IsSymbol(RenderQuant(q)) && !IsOperator(RenderQuant(q))
  {
  }

  /** What is behind the first piece of a word. */
  lemma PieceText(p: Spot, tail: Text)
    requires p.word != []
    ensures SpotAfter(p, tail) == RenderPiece(p.word[0]) + SpotAfter(p.(word := p.word[1..]), tail)
  {
    hide WordsText, RenderPiece;
    var t, w, x := RenderPiece(p.word[0]), RenderWord(p.word[1..]), WordsText(p.words, p.alts, tail);
    assert (t + w) + x == t + (w + x);
  }

  lemma PieceSteps(p: Piece, after: Text)
    requires !p.Pick?
    ensures var t := RenderPiece(p) + after;
            First(t) == [PieceStart(p)] && Behind(t) == (if p.Broken? then [p.c] + after else after)
  {
    match p
    case Letter(c) => Peel(c, after);
    case Ignored(c) => Peel(c, after);
    case Broken(c) =>
      assert [Of('/'), c] + after == [Of('/')] + ([c] + after);
      Peel(Of('/'), [c] + after);
  }

  lemma ReadPiece(rules: Rules, p: Spot, tail: Text, text: Text)
    requires SpotDue(rules, p, tail, text) && p.s.Fresh? && p.word != [] && !p.word[0].Pick?
    ensures var p2 := p.(word := p.word[1..]);
            && SpotOk(rules, p2) && SpotDue(rules, p2, tail, SpotAfter(p2, tail))
            && First(text) == [PieceStart(p.word[0])]
            && Behind(text) == (if p.word[0].Broken? then [p.word[0].c] + SpotAfter(p2, tail) else SpotAfter(p2, tail))
  {
    hide SpotAfter, WordOk, StageDue, RenderPiece, First, Behind, PieceStart;
    WordStep(rules, p.word, p.words);
    var p2 := p.(word := p.word[1..]);
    StageFirst(rules, p.s, SpotAfter(p, tail), text);
    PieceText(p, tail);
    AfterSpot(rules, p2, tail);
    PieceSteps(p.word[0], SpotAfter(p2, tail));
  }

  lemma PickNested(t: Text, u: Text, after: Text)
    ensures ([Of('[')] + (t + ([Of(']')] + u))) + after == [Of('[')] + (t + ([Of(']')] + (u + after)))
    ensures ([Of(']')] + u) + after == [Of(']')] + (u + after)
  {
    var v := [Of(']')] + u;
    assert ([Of('[')] + (t + v)) + after == [Of('[')] + (t + (v + after));
    assert v + after == [Of(']')] + (u + after);
  }

  lemma BarNested(w: Text, m: Text, x: Text, tail: Text)
    ensures ((w + m) + x) + tail == w + (m + (x + tail))
    ensures (w + (m + x)) + tail == w + (m + (x + tail))
    ensures [] + (([Of('|')] + ((w + m) + x)) + tail) == [Of('|')] + (w + (m + (x + tail)))
  {
    assert ((w + m) + x) + tail == (w + m) + (x + tail);
    assert (w + m) + (x + tail) == w + (m + (x + tail));
    var y := (w + m) + x;
    assert [] + (([Of('|')] + y) + tail) == [Of('|')] + (y + tail);
  }

  lemma ReadPick(rules: Rules, p: Spot, tail: Text, text: Text)
    requires SpotDue(rules, p, tail, text) && p.s.Fresh? && p.word != [] && p.word[0].Pick?
    ensures var ps, q, p2 := p.word[0].parts, p.word[0].quant, p.(word := p.word[1..]);
            var behind := [Of(']')] + (RenderQuant(q) + SpotAfter(p2, tail));
            && First(text) == [Of('[')] && Behind(text) == RenderParts(ps) + behind
            && ClassOk(ps) && LastOf(ps[|ps| - 1]) != Of(')')
            && SpotDue(rules, p2.(s := Closing(Of(']'), ClassValues(rules, ps), q)), tail, behind)
  {
    hide SpotAfter, WordOk, RenderParts, RenderQuant, ClassOk, QuantOk, ClassValues, IsSymbol;
    WordStep(rules, p.word, p.words);
    var ps, q, p2 := p.word[0].parts, p.word[0].quant, p.(word := p.word[1..]);
    assert PieceOk(rules, p.word[0]);
    StageFirst(rules, p.s, SpotAfter(p, tail), text);
    PieceText(p, tail);
    AfterSpot(rules, p2, tail);
    var t, u, after := RenderParts(ps), RenderQuant(q), SpotAfter(p2, tail);
    PickNested(t, u, after);
    Peel(Of('['), t + ([Of(']')] + (u + after)));
    SameAfter(p2, Closing(Of(']'), ClassValues(rules, ps), q), tail);
  }

  lemma SameAfter(p: Spot, s: Stage, tail: Text)
    ensures SpotAfter(p.(s := s), tail) == SpotAfter(p, tail)
  {
  }

  lemma ReadAmpersand(rules: Rules, p: Spot, tail: Text, text: Text)
    requires SpotDue(rules, p, tail, text) && p.s.Fresh? && p.word == [] && p.words != []
    ensures var p2 := p.(word := p.words[0], words := p.words[1..]);
            SpotOk(rules, p2) && SpotDue(rules, p2, tail, Behind(text))
  {
    hide WordOk, RenderWord, MoreAlts, StageDue;
    var p2 := p.(word := p.words[0], words := p.words[1..]);
    AfterSpot(rules, p2, tail);
    FreshText(rules, p, tail, text);
    var w, m, x := RenderWord(p2.word), MoreWords(p2.words), MoreAlts(p.alts) + tail;
    assert NoWord(p.word) by { NoWordText(p.word); }
    BarNested([Of('&')], w, m, x);
    Peel(Of('&'), w + (m + x));
  }

  predicate NoWord(w: Word) {
    RenderWord(w) == []
  }

  lemma NoWordText(w: Word)
    requires w == []
    ensures NoWord(w)
  {
  }

  lemma FreshText(rules: Rules, p: Spot, tail: Text, text: Text)
    requires SpotDue(rules, p, tail, text) && p.s.Fresh? && p.word == []
    ensures text == WordsText(p.words, p.alts, tail)
  {
    hide WordsText;
    StageFirst(rules, p.s, SpotAfter(p, tail), text);
    assert [] + WordsText(p.words, p.alts, tail) == WordsText(p.words, p.alts, tail);
  }

  lemma ReadBar(rules: Rules, p: Spot, tail: Text, text: Text)
    requires SpotDue(rules, p, tail, text) && p.s.Fresh? && p.word == [] && p.words == [] && p.alts != []
    ensures SpotOk(rules, Opened(p.alts)) && SpotDue(rules, Opened(p.alts), tail, Behind(text))
  {
    hide WordOk, RenderWord, StageDue;
    AltOpens(rules, p.alts);
    var p2 := Opened(p.alts);
    AfterSpot(rules, p2, tail);
    FreshText(rules, p, tail, text);
    var w, m, x := RenderWord(p2.word), MoreWords(p2.words), MoreAlts(p2.alts);
    BarNested(w, m, x, tail);
    Peel(Of('|'), w + (m + (x + tail)));
  }

  lemma ReadEnd(rules: Rules, p: Spot, tail: Text, text: Text)
    requires SpotDue(rules, p, tail, text) && p.s.Fresh? && p.word == [] && p.words == [] && p.alts == []
    ensures text == tail
  {
    hide StageDue;
    FreshText(rules, p, tail, text);
    WordsFirst(p.words, p.alts, tail);
  }

  /** The sequence behind its opening parenthesis. */
  lemma SequenceDue(rules: Rules, alts: seq<seq<Word>>, tail: Text)
    requires alts != [] && AltsOk(rules, alts) && First(tail) == [Of(')')]
    ensures SpotOk(rules, Opened(alts)) && SpotDue(rules, Opened(alts), tail, RenderAlts(alts) + tail)
  {
    hide WordOk, RenderWord, StageDue;
    AltOpens(rules, alts);
    var p := Opened(alts);
    AfterSpot(rules, p, tail);
    var w, m, x := RenderWord(p.word), MoreWords(p.words), MoreAlts(p.alts);
    BarNested(w, m, x, tail);
  }

  lemma SpotKnown(rules: Rules, p: Spot)
    requires SpotOk(rules, p)
    ensures StageOk(rules, p.s) && (p.s.Closing? ==> p.s.bracket == Of(']'))
  {
  }

  lemma SpotIsOk(rules: Rules, p: Spot, tail: Text, text: Text)
    requires SpotDue(rules, p, tail, text)
    ensures SpotOk(rules, p) && First(tail) == [Of(')')] && StageDue(rules, p.s, SpotAfter(p, tail), text)
  {
  }

  lemma PieceNotClosing(rules: Rules, p: Piece)
    requires PieceOk(rules, p) && !p.Pick?
    ensures p.c != Of(')') && PieceStart(p) != Of(')')
  {
  }

  lemma SlashIsNoSymbol()
    ensures !IsSymbol([Of('/')])
  {
  }

  /** The sequence of one broken character. */
  lemma OneBroken(rules: Rules, c: Unit, draws: seq<nat>)
    ensures var alts := [[[Broken(c)]]];
            && RenderAlts(alts) == [Of('/'), c] && (AltsOk(rules, alts) <==> c != Of(')'))
            && (AltsOk(rules, alts) ==> EvaluateAlts(rules, [], alts, draws) == ([[c]], draws))
  {
    var w := [Broken(c)];
    var alt := [w];
    var alts := [alt];
    assert w[1..] == [] && alt[1..] == [] && alts[1..] == [];
    assert RenderWord(w) == [Of('/'), c] + [];
    assert RenderAlt(alt) == [Of('/'), c] + [];
    assert RenderAlts(alts) == [Of('/'), c] + [];
    assert Flatten(alt) == w + [] == w;
    assert PieceOk(rules, w[0]) <==> c != Of(')');
    assert AltsOk(rules, alts) ==> AltOk(rules, alts[0]) && WordOk(rules, alts[0][0]) && PieceOk(rules, alts[0][0][0]);
    if c != Of(')') {
      assert WordOk(rules, w) && AltOk(rules, alt) && AltsOk(rules, alts);
      assert EvaluateWord(rules, [], draws) == ([], draws);
      assert [c] + [] == [c] && EvaluateWord(rules, w, draws) == ([c], draws);
      assert Flatten(alt) == w;
      assert Finish(false, [c], draws) == ([[c]], draws);
      assert EvaluateAlt(rules, alt, draws) == ([[c]], draws);
      assert [] + [[c]] == [[c]];
    }
  }
}

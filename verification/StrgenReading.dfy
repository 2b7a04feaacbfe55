/**
  How a pattern is read: what is left to be read after each character, and that what
  is written from there on completes what the pattern comes to.
 */
module StrgenReading {
  import opened StrgenSpec
  import opened StrgenPattern
  import opened StrgenEval

  lemma Peel(c: Unit, t: Text)
    ensures First([c] + t) == [c] && Behind([c] + t) == t
  {
  }

  lemma SameTail(c: Text, rest: Text, x: Unit, t: Text)
    requires |c| == 1 && c + rest == [x] + t
    ensures c == [x] && rest == t
  {
    assert c[0] == (c + rest)[0] && x == ([x] + t)[0];
    assert rest == (c + rest)[1..] && t == ([x] + t)[1..];
  }

  lemma EndIsOperator()
    ensures IsOperator([]) && !IsQuantifierOperator([]) && First([]) == []
  {
  }

  // ---------- Reading a class ----------

  /** What is behind the first character of a range. */
  function SpanText(p: Part, behind: Text): Text
    requires p.Span?
  {
    [Of('-')] + (if p.broken then [Of('/')] + ([p.b] + behind) else [p.b] + behind)
  }

  /** A part and what is behind it. */
  function PartText(p: Part, behind: Text): Text {
    match p
    case Single(c) => [c] + behind
    case Slash => [Of('/')] + behind
    case Span(a, broken, b) => [a] + ([Of('-')] + (if broken then [Of('/')] + ([b] + behind) else [b] + behind))
    case Named(code) => [Of('\\')] + ([code] + behind)
  }

  lemma PartTextIs(p: Part, behind: Text)
    ensures RenderPart(p) + behind == PartText(p, behind)
  {
    match p
    case Single(c) =>
    case Slash =>
    case Span(a, broken, b) =>
      if broken {
        assert [a, Of('-'), Of('/'), b] + behind == [a] + ([Of('-')] + ([Of('/')] + ([b] + behind)));
      } else {
        assert [a, Of('-'), b] + behind == [a] + ([Of('-')] + ([b] + behind));
      }
    case Named(code) => assert [Of('\\'), code] + behind == [Of('\\')] + ([code] + behind);
  }

  /** How the first character of a part answers the questions of the scanner. */
  lemma PartFacts(afterSlash: bool, p: Part, behind: Text)
    requires PartOk(afterSlash, p)
    ensures var t := PartText(p, behind);
            match p
            case Single(c) =>
              First(t) == [c] && Behind(t) == behind && (!IsOperator([c]) || afterSlash) && c != Of('\\') && c != Of('/')
            case Slash => First(t) == [Of('/')] && Behind(t) == behind
            case Span(a, broken, b) =>
              && First(t) == [a] && Behind(t) == [Of('-')] + (if broken then [Of('/')] + ([b] + behind) else [b] + behind)
              && (!IsOperator([a]) || afterSlash) && a != Of('\\') && a != Of('/')
            case Named(code) =>
              && First(t) == [Of('\\')] && Behind(t) == [code] + behind
              && First([code] + behind) == [code] && Behind([code] + behind) == behind
  {
    match p
    case Single(c) => Peel(c, behind);
    case Slash => Peel(Of('/'), behind);
    case Span(a, broken, b) => Peel(a, [Of('-')] + (if broken then [Of('/')] + ([b] + behind) else [b] + behind));
    case Named(code) => Peel(Of('\\'), [code] + behind); Peel(code, behind);
  }

  /** A class goes on with no unbroken hyphen, and with a closing bracket only at its end. */
  lemma PartsFirst(afterSlash: bool, ps: seq<Part>, tail: Text)
    requires PartsOk(afterSlash, ps) && First(tail) == [Of(']')]
    ensures var t := RenderParts(ps) + tail;
            t != [] && (t[0] == Of(']') <==> ps == []) && (!afterSlash ==> t[0] != Of('-'))
  {
    if ps != [] {
      PartStarts(afterSlash, ps[0]);
    }
  }

  lemma PartStarts(afterSlash: bool, p: Part)
    requires PartOk(afterSlash, p)
    ensures RenderPart(p)[0] != Of(']') && (!afterSlash ==> RenderPart(p)[0] != Of('-'))
  {
  }

  lemma PartsStep(afterSlash: bool, ps: seq<Part>, tail: Text)
    requires ps != [] && PartsOk(afterSlash, ps)
    ensures PartOk(afterSlash, ps[0]) && PartsOk(LastOf(ps[0]) == Of('/'), ps[1..])
    ensures RenderParts(ps) + tail == PartText(ps[0], RenderParts(ps[1..]) + tail)
  {
    hide PartOk, PartText, RenderPart;
    PartTextIs(ps[0], RenderParts(ps[1..]) + tail);
    assert RenderParts(ps) + tail == RenderPart(ps[0]) + (RenderParts(ps[1..]) + tail);
  }

  lemma NoParts(rules: Rules, tail: Text)
    ensures RenderParts([]) + tail == tail && ClassValues(rules, []) == [] && Codes(rules, []) == []
  {
  }

  predicate EndsInSlash(ps: seq<Part>) {
    ps != [] && LastOf(ps[|ps| - 1]) == Of('/')
  }

  lemma {:induction false} PartsAppend(afterSlash: bool, ps: seq<Part>, p: Part)
    requires PartsOk(afterSlash, ps) && PartOk(if ps == [] then afterSlash else EndsInSlash(ps), p)
    ensures PartsOk(afterSlash, ps + [p]) && RenderParts(ps + [p]) == RenderParts(ps) + RenderPart(p)
    decreases |ps|
  {
    hide PartOk, RenderPart;
    if ps == [] {
      assert ps + [p] == [p] && [p][1..] == [];
    } else {
      PartsAppend(LastOf(ps[0]) == Of('/'), ps[1..], p);
      assert (ps + [p])[1..] == ps[1..] + [p];
      var first, more, last := RenderPart(ps[0]), RenderParts(ps[1..]), RenderPart(p);
      assert first + (more + last) == (first + more) + last;
    }
  }

  lemma {:induction false} ClassAppend(rules: Rules, ps: seq<Part>, p: Part)
    ensures ClassValues(rules, ps + [p]) == ClassValues(rules, ps) + PartValues(rules, p)
    ensures Codes(rules, ps + [p]) == Codes(rules, ps) + PartCode(rules, p)
    decreases |ps|
  {
    hide PartValues, PartCode;
    if ps == [] {
      assert ps + [p] == [p] && [p][1..] == [];
    } else {
      ClassAppend(rules, ps[1..], p);
      assert (ps + [p])[1..] == ps[1..] + [p];
      var values, code := PartValues(rules, ps[0]), PartCode(rules, ps[0]);
      assert values + (ClassValues(rules, ps[1..]) + PartValues(rules, p)) == (values + ClassValues(rules, ps[1..])) + PartValues(rules, p);
      assert code + (Codes(rules, ps[1..]) + PartCode(rules, p)) == (code + Codes(rules, ps[1..])) + PartCode(rules, p);
    }
  }

  // ---------- Reading a quantifier ----------

  predicate InBraces(q: Quant) {
    || (q.Count? && q.t != [] && Numeral(q.t))
    || (q.Range? && Numeral(q.t) && Numeral(q.u) && IsQuantifierOperator([q.sep]))
  }

  /** What is behind the first numeral. */
  function AfterFirst(q: Quant, tail: Text): Text
    requires InBraces(q)
  {
    if q.Count? then [Of('}')] + tail else [q.sep] + (q.u + ([Of('}')] + tail))
  }

  /** A variable that stays undefined until something is read. */
  function Given(t: Text): Value {
    if t == [] then Undefined else Str(t)
  }

  /** The value read so far with one more character. */
  function Extend(v: Value, c: Text): Value {
    match v
    case Undefined => Str(c)
    case Str(s) => Str(s + c)
    case Number(n) => Undefined
  }

  /** `done` of a numeral has been read and `left` is left of it; `range` when it is the second one. */
  datatype Progress = Progress(done: Text, left: Text, value: Value, first: Value, range: bool)

  predicate Reading(q: Quant, tail: Text, rest: Text, r: Progress) {
    && InBraces(q) && Numeral(r.left)
    && if r.range then
         q.Range? && r.first == Given(q.t) && r.value == Str(r.done) && q.u == r.done + r.left && rest == r.left + ([Of('}')] + tail)
       else
         r.first == Undefined && r.value == Given(r.done) && q.t == r.done + r.left && rest == r.left + AfterFirst(q, tail)
  }

  predicate Unfinished(q: Quant, r: Progress) {
    r.left != [] || (q.Range? && !r.range)
  }

  /** One more character of a numeral, or the separator. */
  function Advanced(q: Quant, r: Progress): Progress
    requires Unfinished(q, r)
  {
    if r.left != [] then r.(done := r.done + [r.left[0]], left := r.left[1..], value := Extend(r.value, [r.left[0]]))
    else Progress([], q.u, Str([]), r.value, true)
  }

  lemma AdvancedIs(q: Quant, r: Progress)
    requires Unfinished(q, r)
    ensures var a := Advanced(q, r);
            if r.left != [] then (a.value, a.first, a.range) == (Extend(r.value, [r.left[0]]), r.first, r.range)
            else (a.value, a.first, a.range) == (Str([]), r.value, true)
  {
  }

  lemma ReadingStarts(q: Quant, tail: Text)
    requires InBraces(q)
    ensures var r := Progress([], q.t, Undefined, Undefined, false);
            Reading(q, tail, q.t + AfterFirst(q, tail), r) && Unfinished(q, r)
  {
    hide AfterFirst, Numeral;
  }

  lemma ReadingStep(q: Quant, tail: Text, rest: Text, r: Progress)
    requires Reading(q, tail, rest, r) && Unfinished(q, r)
    ensures Reading(q, tail, Behind(rest), Advanced(q, r)) && First(rest) != [] && !Is(First(rest), ')')
    ensures r.left != [] ==> First(rest) == [r.left[0]] && !IsOperator(First(rest)) && !IsQuantifierOperator(First(rest))
    ensures r.left == [] ==> r.first == Undefined && IsQuantifierOperator(First(rest))
  {
    if r.left != [] {
      hide AfterFirst;
      NumeralStep(r.left, if r.range then [Of('}')] + tail else AfterFirst(q, tail));
      assert r.done + r.left == (r.done + [r.left[0]]) + r.left[1..];
    } else {
      hide IsQuantifierOperator, Numeral;
      Peel(q.sep, q.u + ([Of('}')] + tail));
      assert rest == AfterFirst(q, tail);
    }
  }

  lemma NumeralStep(left: Text, behind: Text)
    requires Numeral(left) && left != []
    ensures First(left + behind) == [left[0]] && Behind(left + behind) == left[1..] + behind
    ensures Numeral(left[1..]) && !IsOperator([left[0]]) && !IsQuantifierOperator([left[0]]) && left[0] != Of('}')
  {
  }

  lemma ReadingEnds(q: Quant, tail: Text, rest: Text, r: Progress)
    requires Reading(q, tail, rest, r)
    ensures First(rest) == [Of('}')] <==> !Unfinished(q, r)
    ensures !Unfinished(q, r) ==>
              && rest == [Of('}')] + tail && r.range == q.Range?
              && r.value == Str(if r.range then q.u else q.t) && r.first == (if r.range then Given(q.t) else Undefined)
  {
    if r.left != [] {
      hide AfterFirst;
      NumeralStep(r.left, if r.range then [Of('}')] + tail else AfterFirst(q, tail));
    } else if Unfinished(q, r) {
      Peel(q.sep, q.u + ([Of('}')] + tail));
    } else {
      assert r.done + [] == r.done;
      assert rest == [Of('}')] + tail;
    }
  }

  /** What is read for a quantifier: its numerals, or the bounds of its symbol. */
  function Taken(rules: Rules, q: Quant): (Value, Value, bool) {
    match q
    case Once => (Number(1), Undefined, false)
    case Count(t) => (Str(t), Undefined, false)
    case Range(t, _, u) => (Str(u), Given(t), true)
    case Opt => (Number(1), Number(0), true)
    case Star => (Number(rules.symbolMax), Number(0), true)
    case Plus => (Number(rules.symbolMax), Number(1), true)
  }

  function NumberOf(rules: Rules, v: Value): Num {
    match v
    case Undefined => NaN
    case Str(s) => rules.toNumber(s)
    case Number(n) => Int(n)
  }

  function ParsedInt(rules: Rules, v: Value): Num {
    match v
    case Undefined => NaN
    case Str(s) => rules.parseInt(s)
    case Number(n) => Int(n)
  }

  /** A missing lower bound is 0, or else a missing upper one. */
  function RangeBounds(rules: Rules, first: Value, value: Value): (Num, Num) {
    if first == Undefined || first == Str([]) then (Int(0), ParsedInt(rules, value))
    else if value == Undefined || value == Str([]) then (ParsedInt(rules, first), Int(0))
    else (ParsedInt(rules, first), ParsedInt(rules, value))
  }

  lemma TakenBounds(rules: Rules, q: Quant)
    requires QuantOk(rules, q)
    ensures var (value, first, range) := Taken(rules, q);
            if range then RangeBounds(rules, first, value) == Bounds(rules, q)
            else NumberOf(rules, value) == ParsedInt(rules, value) == Bounds(rules, q).0 == Bounds(rules, q).1
  {
  }

  lemma QuantBegins(rules: Rules, q: Quant, c: Text, rest: Text, tail: Text)
    requires QuantOk(rules, q) && !q.Once? && |c| == 1 && c + rest == RenderQuant(q) + tail
    ensures Symbol(q) ==> c == RenderQuant(q) && rest == tail
    ensures !Symbol(q) ==> c == [Of('{')] && InBraces(q) && rest == q.t + AfterFirst(q, tail)
  {
    hide Numeral, IsQuantifierOperator, Bounds;
    var first: Unit := RenderQuant(q)[0];
    var more := if Symbol(q) then tail else q.t + AfterFirst(q, tail);
    QuantText(q, tail);
    calc {
      c + rest;
      RenderQuant(q) + tail;
      [first] + more;
    }
    assert c[0] == (c + rest)[0] && rest == (c + rest)[1..] && more == ([first] + more)[1..];
  }

  lemma QuantText(q: Quant, tail: Text)
    requires InBraces(q) || Symbol(q)
    ensures RenderQuant(q) + tail == if Symbol(q) then [RenderQuant(q)[0]] + tail else [Of('{')] + (q.t + AfterFirst(q, tail))
  {
    hide Numeral, IsQuantifierOperator;
    match q
    case Count(t) =>
      assert ([Of('{')] + t + [Of('}')]) + tail == [Of('{')] + (t + ([Of('}')] + tail));
    case Range(t, sep, u) =>
      var end := [Of('}')] + tail;
      assert ([Of('{')] + t + [sep] + u + [Of('}')]) + tail == ([Of('{')] + t + [sep]) + (u + end);
      assert ([Of('{')] + t + [sep]) + (u + end) == [Of('{')] + (t + ([sep] + (u + end)));
    case _ =>
  }

  // ---------- The stages of reading one group ----------

  /** How far a group has been read, with the values collected from it. */
  datatype Stage =
    | Fresh
    | Closing(bracket: Unit, list: seq<Text>, quant: Quant)
    | Counting(list: seq<Text>, quant: Quant)
    | Counted(list: seq<Text>, n: int)

  /** What of the group is still to be read. */
  function StageText(s: Stage): Text {
    match s
    case Fresh => []
    case Closing(b, _, q) => [b] + RenderQuant(q)
    case Counting(_, q) => RenderQuant(q)
    case Counted(_, _) => [Of('}')]
  }

  predicate StageOk(rules: Rules, s: Stage) {
    match s
    case Fresh => true
    case Closing(b, _, q) => QuantOk(rules, q) && (b == Of(']') || b == Of(')'))
    case Counting(_, q) => QuantOk(rules, q) && !q.Once?
    case Counted(_, _) => true
  }

  /** The text is the rest of the group, and `after`, which does not begin like a quantifier. */
  predicate StageDue(rules: Rules, s: Stage, after: Text, text: Text) {
    StageOk(rules, s) && text == StageText(s) + after && !IsSymbol(First(after)) && !Is(First(after), '{')
  }

  /** What the rest of the group comes to. */
  function StageRun(rules: Rules, s: Stage, draws: seq<nat>): (Text, seq<nat>)
    requires StageOk(rules, s)
  {
    match s
    case Fresh => ([], draws)
    case Closing(_, list, q) => Joined(Quantified(rules, list, q, draws))
    case Counting(list, q) => Joined(Quantified(rules, list, q, draws))
    case Counted(list, n) => Joined(PickBy(rules, list, n, draws))
  }

  function Joined(r: (seq<Text>, seq<nat>)): (Text, seq<nat>) {
    (Join(r.0), r.1)
  }

  /** Reading on from `s` with `draws`, `picked` is written and `s2` is reached with `later`. */
  ghost predicate StageLeads(rules: Rules, s: Stage, draws: seq<nat>, picked: Text, s2: Stage, later: seq<nat>) {
    && StageOk(rules, s) && StageOk(rules, s2)
    && StageRun(rules, s, draws) == (picked + StageRun(rules, s2, later).0, StageRun(rules, s2, later).1)
  }

  /** Whether one value is put back makes no difference. */
  lemma PickOnce(list: seq<Text>, draws: seq<nat>, duplicates: bool, multiple: bool)
    ensures PickValues(list, 1, draws, duplicates, multiple) == PickValues(list, 1, draws, true, multiple)
  {
  }

  lemma ClosingPicks(rules: Rules, s: Stage, draws: seq<nat>, duplicates: bool)
    requires StageOk(rules, s) && s.Closing? && s.quant.Once?
    ensures var (vs, later) := PickValues(s.list, 1, draws, duplicates, rules.allowMultiple);
            StageLeads(rules, s, draws, Join(vs), Fresh, later)
  {
    hide PickValues;
    PickOnce(s.list, draws, duplicates, rules.allowMultiple);
    PickOnce(s.list, draws, rules.allowDuplicates, rules.allowMultiple);
    var (vs, later) := PickValues(s.list, 1, draws, duplicates, rules.allowMultiple);
    assert Join(vs) + [] == Join(vs);
  }

  lemma ClosingCounts(rules: Rules, s: Stage, draws: seq<nat>)
    requires StageOk(rules, s) && s.Closing? && !s.quant.Once?
    ensures StageLeads(rules, s, draws, [], Counting(s.list, s.quant), draws)
  {
    hide Quantified, QuantOk;
    assert [] + StageRun(rules, s, draws).0 == StageRun(rules, s, draws).0;
  }

  lemma CountingSettles(rules: Rules, s: Stage, draws: seq<nat>)
    requires StageOk(rules, s) && s.Counting?
    ensures var (n, later) := QuantNumber(rules, s.quant, draws);
            StageLeads(rules, s, draws, [], Counted(s.list, Clamped(rules, s.list, n)), later)
  {
    hide PickBy, Clamped, QuantOk, QuantNumber;
    assert [] + StageRun(rules, s, draws).0 == StageRun(rules, s, draws).0;
  }

  lemma CountedPicks(rules: Rules, s: Stage, draws: seq<nat>)
    requires s.Counted?
    ensures var (vs, later) := PickBy(rules, s.list, s.n, draws);
            StageLeads(rules, s, draws, Join(vs), Fresh, later)
  {
    hide PickBy;
    var vs := PickBy(rules, s.list, s.n, draws).0;
    assert Join(vs) + [] == Join(vs);
  }

  lemma StageLeadsOn(rules: Rules, s: Stage, draws: seq<nat>, p: Text, s2: Stage, draws2: seq<nat>, p2: Text, s3: Stage, draws3: seq<nat>)
    requires StageLeads(rules, s, draws, p, s2, draws2) && StageLeads(rules, s2, draws2, p2, s3, draws3)
    ensures StageLeads(rules, s, draws, p + p2, s3, draws3)
  {
    hide StageRun, StageOk;
    var last := StageRun(rules, s3, draws3).0;
    assert p + (p2 + last) == (p + p2) + last;
  }

  /** Which stage goes on with which character. */
  lemma StageFirst(rules: Rules, s: Stage, after: Text, text: Text)
    requires StageDue(rules, s, after, text)
    ensures s.Fresh? ==> text == after
    ensures s.Closing? ==> First(text) == [s.bracket]
    ensures s.Counting? ==> First(text) == (if Symbol(s.quant) then RenderQuant(s.quant) else [Of('{')])
    ensures s.Counted? ==> First(text) == [Of('}')]
    ensures !s.Fresh? ==> text != []
  {
    hide QuantOk;
  }

  lemma ReadClosing(rules: Rules, s: Stage, after: Text, c: Text, rest: Text)
    requires StageDue(rules, s, after, c + rest) && |c| == 1 && s.Closing?
    ensures c == [s.bracket] && (s.quant.Once? <==> !Is(First(rest), '{') && !IsSymbol(First(rest)))
    ensures StageDue(rules, if s.quant.Once? then Fresh else Counting(s.list, s.quant), after, rest)
  {
    hide QuantOk, IsSymbol;
    var q := RenderQuant(s.quant);
    assert ([s.bracket] + q) + after == [s.bracket] + (q + after);
    SameTail(c, rest, s.bracket, q + after);
    QuantFirst(s.quant, after);
  }

  /** A quantifier begins with a brace or a symbol. */
  lemma QuantFirst(q: Quant, after: Text)
    ensures q.Once? ==> RenderQuant(q) + after == after
    ensures !q.Once? ==> Is(First(RenderQuant(q) + after), '{') || IsSymbol(First(RenderQuant(q) + after))
  {
  }

  lemma ReadCounting(rules: Rules, s: Stage, after: Text, c: Text, rest: Text)
    requires StageDue(rules, s, after, c + rest) && |c| == 1 && s.Counting?
    ensures QuantOk(rules, s.quant) && !s.quant.Once? && c + rest == RenderQuant(s.quant) + after
    ensures Symbol(s.quant) <==> IsSymbol(c)
    ensures Is(c, '{') <==> !Symbol(s.quant)
    ensures StageDue(rules, Fresh, after, after)
    ensures forall n :: StageDue(rules, Counted(s.list, n), after, [Of('}')] + after)
  {
    hide QuantOk;
    StageFirst(rules, s, after, c + rest);
    assert First(c + rest) == c;
    assert [] + after == after;
  }

  lemma ReadCounted(rules: Rules, s: Stage, after: Text, c: Text, rest: Text)
    requires StageDue(rules, s, after, c + rest) && |c| == 1 && s.Counted?
    ensures c == [Of('}')] && rest == after && StageDue(rules, Fresh, after, rest)
  {
    hide IsSymbol;
    SameTail(c, rest, Of('}'), after);
    assert [] + after == after;
  }

  // ---------- From item to item ----------

  function Run(rules: Rules, s: Stage, items: seq<Item>, draws: seq<nat>): (Text, seq<nat>)
    requires StageOk(rules, s) && PatternOk(rules, items)
  {
    var (t, later) := StageRun(rules, s, draws);
    var (more, last) := Evaluate(rules, items, later);
    (t + more, last)
  }

  ghost predicate Leads(rules: Rules, s: Stage, items: seq<Item>, draws: seq<nat>, emitted: Text,
                        s2: Stage, items2: seq<Item>, later: seq<nat>) {
    && StageOk(rules, s) && StageOk(rules, s2) && PatternOk(rules, items) && PatternOk(rules, items2)
    && Run(rules, s, items, draws) == (emitted + Run(rules, s2, items2, later).0, Run(rules, s2, items2, later).1)
  }

  lemma StageLeadsItems(rules: Rules, s: Stage, items: seq<Item>, draws: seq<nat>, picked: Text, s2: Stage, later: seq<nat>)
    requires StageLeads(rules, s, draws, picked, s2, later) && PatternOk(rules, items)
    ensures Leads(rules, s, items, draws, picked, s2, items, later)
  {
    hide StageRun, StageOk, Evaluate, PatternOk;
    var (t, last) := StageRun(rules, s2, later);
    var more := Evaluate(rules, items, last).0;
    assert (picked + t) + more == picked + (t + more);
  }

  lemma TailOk(rules: Rules, items: seq<Item>)
    requires PatternOk(rules, items) && items != []
    ensures PatternOk(rules, items[1..]) && ItemOk(rules, items[0])
  {
    hide ItemOk;
  }

  lemma FreshRun(rules: Rules, items: seq<Item>, draws: seq<nat>)
    requires PatternOk(rules, items)
    ensures Run(rules, Fresh, items, draws) == Evaluate(rules, items, draws)
  {
    hide Evaluate, PatternOk;
    var t := Evaluate(rules, items, draws).0;
    assert [] + t == t;
  }

  lemma LiteralLeads(rules: Rules, items: seq<Item>, draws: seq<nat>)
    requires PatternOk(rules, items) && items != [] && !items[0].Group?
    ensures PatternOk(rules, items[1..]) && Leads(rules, Fresh, items, draws, [items[0].c], Fresh, items[1..], draws)
  {
    hide ItemOk, Run;
    TailOk(rules, items);
    FreshRun(rules, items, draws);
    FreshRun(rules, items[1..], draws);
  }

  /** The stage that follows the values of a group: its bracket, or its quantifier. */
  ghost predicate Collected(s: Stage, list: seq<Text>, q: Quant) {
    (s.Closing? || s.Counting?) && s.list == list && s.quant == q
  }

  lemma GroupLeads(rules: Rules, items: seq<Item>, draws: seq<nat>, list: seq<Text>, s: Stage, later: seq<nat>)
    requires PatternOk(rules, items) && items != [] && items[0].Group? && StageOk(rules, s)
    requires BodyOk(rules, items[0].body) && EvaluateBody(rules, items[0].body, draws) == (list, later)
    requires Collected(s, list, items[0].quant)
    ensures PatternOk(rules, items[1..])
    ensures Leads(rules, Fresh, items, draws, Written(rules, items[0].body), s, items[1..], later)
  {
    hide ItemOk, BodyOk, QuantOk, EvaluateBody, Quantified, Run, Written, Evaluate;
    TailOk(rules, items);
    FreshRun(rules, items, draws);
    GroupRun(rules, items, draws, list, s, later);
  }

  lemma GroupRun(rules: Rules, items: seq<Item>, draws: seq<nat>, list: seq<Text>, s: Stage, later: seq<nat>)
    requires PatternOk(rules, items) && items != [] && items[0].Group? && StageOk(rules, s) && PatternOk(rules, items[1..])
    requires BodyOk(rules, items[0].body) && EvaluateBody(rules, items[0].body, draws) == (list, later)
    requires Collected(s, list, items[0].quant)
    ensures var (t, last) := Run(rules, s, items[1..], later);
            Evaluate(rules, items, draws) == (Written(rules, items[0].body) + t, last)
  {
    hide BodyOk, QuantOk, EvaluateBody, Quantified, PatternOk, Written;
    TailOk(rules, items);
    assert ItemOk(rules, items[0]);
    var (vs, last) := Quantified(rules, list, items[0].quant, later);
    var written, more := Written(rules, items[0].body), Evaluate(rules, items[1..], last).0;
    assert EvaluateItem(rules, items[0], draws) == (written + Join(vs), last);
    assert (written + Join(vs)) + more == written + (Join(vs) + more);
  }

  /** The chain of steps. */
  lemma Follow(rules: Rules, s: Stage, items: seq<Item>, draws: seq<nat>, emitted: Text, s2: Stage, items2: seq<Item>, later: seq<nat>)
    requires Leads(rules, s, items, draws, emitted, s2, items2, later)
    ensures StageOk(rules, s) && StageOk(rules, s2) && PatternOk(rules, items) && PatternOk(rules, items2)
    ensures Run(rules, s, items, draws) == (emitted + Run(rules, s2, items2, later).0, Run(rules, s2, items2, later).1)
  {
  }

  // ---------- Reading items ----------

  /** The text is what is still to be read of an item, and more items. */
  predicate Due(rules: Rules, s: Stage, items: seq<Item>, text: Text) {
    PatternOk(rules, items) && StageDue(rules, s, Render(items), text)
  }

  /** An item begins neither with a brace nor with a symbol quantifier. */
  lemma FirstOfItem(rules: Rules, i: Item)
    requires ItemOk(rules, i)
    ensures RenderItem(i) != [] && RenderItem(i)[0] !in SYMBOLS && RenderItem(i)[0] != Of('{')
  {
    hide QuantOk, ClassOk, AltsOk, RenderQuant, RenderParts, RenderAlts;
  }

  lemma NextItem(rules: Rules, items: seq<Item>)
    requires PatternOk(rules, items)
    ensures Render(items) == [] <==> items == []
    ensures !IsSymbol(First(Render(items))) && !Is(First(Render(items)), '{')
  {
    hide RenderItem, ItemOk;
    if items != [] {
      FirstOfItem(rules, items[0]);
    }
  }

  lemma FreshDue(rules: Rules, items: seq<Item>)
    requires PatternOk(rules, items)
    ensures Due(rules, Fresh, items, Render(items))
  {
    hide Render, IsSymbol;
    NextItem(rules, items);
    assert [] + Render(items) == Render(items);
  }

  function Opening(b: Body): Unit {
    match b
    case Class(_) => Of('[')
    case Sequence(_) => Of('(')
    case Char(c) => c
  }

  /** What is behind the first character of a body. */
  function BodyTail(b: Body, after: Text): Text {
    match b
    case Class(ps) => RenderParts(ps) + ([Of(']')] + after)
    case Sequence(alts) => RenderAlts(alts) + ([Of(')')] + after)
    case Char(c) => after
  }

  lemma BodyText(b: Body, after: Text)
    ensures RenderBody(b) + after == [Opening(b)] + BodyTail(b, after)
  {
    hide RenderAlts, RenderParts;
    match b
    case Class(ps) => Nested(Of('['), RenderParts(ps), Of(']'), after);
    case Sequence(alts) => Nested(Of('('), RenderAlts(alts), Of(')'), after);
    case Char(c) =>
  }

  lemma Nested(x: Unit, t: Text, y: Unit, after: Text)
    ensures ([x] + t + [y]) + after == [x] + (t + ([y] + after))
  {
  }

  /** What is behind a group's values. */
  function AfterGroup(items: seq<Item>): Text
    requires items != [] && items[0].Group?
  {
    RenderQuant(items[0].quant) + Render(items[1..])
  }

  lemma GroupText(rules: Rules, items: seq<Item>)
    requires PatternOk(rules, items) && items != [] && items[0].Group?
    ensures PatternOk(rules, items[1..]) && BodyOk(rules, items[0].body) && QuantOk(rules, items[0].quant)
    ensures Render(items) == [Opening(items[0].body)] + BodyTail(items[0].body, AfterGroup(items))
    ensures items[0].body.Char? ==> Symbol(items[0].quant)
  {
    hide BodyOk, QuantOk, Symbol, RenderBody, RenderQuant, Opening, BodyTail, PatternOk, Render;
    TailOk(rules, items);
    var b, q, more := items[0].body, RenderQuant(items[0].quant), Render(items[1..]);
    RenderGroup(items);
    BodyText(b, q + more);
  }

  lemma RenderGroup(items: seq<Item>)
    requires items != [] && items[0].Group?
    ensures Render(items) == RenderBody(items[0].body) + AfterGroup(items)
  {
    hide RenderBody, RenderQuant;
    var t, q, more := RenderBody(items[0].body), RenderQuant(items[0].quant), Render(items[1..]);
    assert (t + q) + more == t + (q + more);
  }

  lemma LiteralText(rules: Rules, items: seq<Item>)
    requires PatternOk(rules, items) && items != [] && !items[0].Group?
    ensures PatternOk(rules, items[1..])
    ensures Render(items) == if items[0].Literal? then [items[0].c] + Render(items[1..])
                             else [Of('/')] + ([items[0].c] + Render(items[1..]))
  {
    hide ItemOk, RenderBody, RenderQuant;
    TailOk(rules, items);
  }

  /** Which item begins with which character. */
  lemma ItemFirst(rules: Rules, items: seq<Item>)
    requires PatternOk(rules, items) && items != []
    ensures First(Render(items)) == match items[0] case Literal(c) => [c] case Escaped(c) => [Of('/')] case Group(b, _) => [Opening(b)]
    ensures items[0].Literal? ==> Bare(items[0].c)
    ensures items[0].Group? && items[0].body.Char? ==> Bare(items[0].body.c)
  {
    hide Render, BodyTail, QuantOk, ClassOk, AltsOk, AfterGroup;
    TailOk(rules, items);
    if items[0].Group? {
      GroupText(rules, items);
      Peel(Opening(items[0].body), BodyTail(items[0].body, AfterGroup(items)));
    } else {
      LiteralText(rules, items);
    }
  }

  /** The first character tells what is being read. */
  lemma Kind(rules: Rules, s: Stage, items: seq<Item>, c: Text, rest: Text)
    requires Due(rules, s, items, c + rest) && |c| == 1
    ensures Is(c, '[') ==> s.Fresh? && items != [] && items[0].Group? && items[0].body.Class?
    ensures Is(c, '(') ==> s.Fresh? && items != [] && items[0].Group? && items[0].body.Sequence?
    ensures Is(c, ']') || Is(c, ')') ==> s.Closing? && c == [s.bracket]
    ensures Is(c, '{') ==> s.Counting? && !Symbol(s.quant)
    ensures Is(c, '}') ==> s.Counted?
    ensures Is(c, '/') ==> s.Fresh? && items != [] && items[0].Escaped?
    ensures IsSymbol(c) ==> s.Counting? && Symbol(s.quant)
    ensures Bare(c[0]) ==> s.Fresh? && items != [] && (items[0].Literal? || (items[0].Group? && items[0].body.Char?))
  {
    hide Render, StageText, ItemOk, QuantOk;
    StageFirst(rules, s, Render(items), c + rest);
    assert First(c + rest) == c;
    if s.Fresh? {
      NextItem(rules, items);
      ItemFirst(rules, items);
    }
  }

  lemma ClosingDue(rules: Rules, bracket: Unit, list: seq<Text>, items: seq<Item>)
    requires bracket == Of(']') || bracket == Of(')')
    requires items != [] && items[0].Group? && PatternOk(rules, items)
    ensures Due(rules, Closing(bracket, list, items[0].quant), items[1..], [bracket] + AfterGroup(items))
  {
    hide QuantOk, RenderQuant, Render, IsSymbol, BodyOk;
    TailOk(rules, items);
    NextItem(rules, items[1..]);
    assert [bracket] + AfterGroup(items) == ([bracket] + RenderQuant(items[0].quant)) + Render(items[1..]);
  }

  lemma ReadOpening(rules: Rules, s: Stage, items: seq<Item>, c: Text, rest: Text)
    requires Due(rules, s, items, c + rest) && (Is(c, '[') || Is(c, '('))
    ensures s.Fresh? && items != [] && items[0].Group? && PatternOk(rules, items)
    ensures BodyOk(rules, items[0].body) && QuantOk(rules, items[0].quant)
    ensures rest == BodyTail(items[0].body, AfterGroup(items))
    ensures if Is(c, '[') then items[0].body.Class? else items[0].body.Sequence?
  {
    hide BodyOk, BodyTail, Bare, Symbol, QuantOk, ItemOk, Render, AfterGroup;
    Kind(rules, s, items, c, rest);
    GroupText(rules, items);
    StageFirst(rules, s, Render(items), c + rest);
    SameTail(c, rest, Opening(items[0].body), BodyTail(items[0].body, AfterGroup(items)));
  }

  lemma ReadSlash(rules: Rules, s: Stage, items: seq<Item>, c: Text, rest: Text)
    requires Due(rules, s, items, c + rest) && Is(c, '/')
    ensures s.Fresh? && items != [] && items[0].Escaped? && PatternOk(rules, items)
    ensures First(rest) == [items[0].c] && Due(rules, Fresh, items[1..], Behind(rest))
  {
    hide Bare, Symbol, ItemOk, QuantOk, Render;
    Kind(rules, s, items, c, rest);
    LiteralText(rules, items);
    StageFirst(rules, s, Render(items), c + rest);
    SameTail(c, rest, Of('/'), [items[0].c] + Render(items[1..]));
    Peel(items[0].c, Render(items[1..]));
    FreshDue(rules, items[1..]);
  }

  /** A bare character is a literal unless a symbol quantifier follows. */
  lemma ReadBare(rules: Rules, s: Stage, items: seq<Item>, c: Text, rest: Text)
    requires Due(rules, s, items, c + rest) && |c| == 1 && Bare(c[0])
    ensures s.Fresh? && items != [] && PatternOk(rules, items) && (IsSymbol(First(rest)) <==> items[0].Group?)
    ensures items[0].Group? ==>
              && items[0].body == Char(c[0]) && BodyOk(rules, items[0].body)
              && Due(rules, Counting([c], items[0].quant), items[1..], rest)
    ensures !items[0].Group? ==> c == [items[0].c] && Due(rules, Fresh, items[1..], rest)
  {
    hide Bare, ItemOk, QuantOk, Render;
    Kind(rules, s, items, c, rest);
    StageFirst(rules, s, Render(items), c + rest);
    if items[0].Group? {
      GroupText(rules, items);
      SameTail(c, rest, items[0].body.c, AfterGroup(items));
      NextItem(rules, items[1..]);
      SymbolFirst(items[0].quant, Render(items[1..]));
    } else {
      LiteralText(rules, items);
      SameTail(c, rest, items[0].c, Render(items[1..]));
      NextItem(rules, items[1..]);
      FreshDue(rules, items[1..]);
    }
  }

  lemma SymbolFirst(q: Quant, after: Text)
    requires Symbol(q)
    ensures IsSymbol(First(RenderQuant(q) + after)) && !q.Once?
  {
  }

  /** What is neither operator nor symbol quantifier is a bare character. */
  lemma PlainIsBare(c: Text)
    requires |c| <= 1 && !IsOperator(c) && !IsSymbol(c)
    ensures |c| == 1 && Bare(c[0])
  {
  }

  lemma NoItems(rules: Rules, draws: seq<nat>)
    ensures PatternOk(rules, []) && Evaluate(rules, [], draws) == ([], draws)
  {
  }

  lemma DueOk(rules: Rules, s: Stage, items: seq<Item>, text: Text)
    requires Due(rules, s, items, text)
    ensures StageOk(rules, s)
  {
  }

  lemma FirstBehind(text: Text)
    ensures text == First(text) + Behind(text)
  {
  }

  lemma ClassHasParts(ps: seq<Part>)
    requires ClassOk(ps)
    ensures ps != []
  {
  }

  lemma BehindFirst(c: Text, rest: Text)
    requires |c| == 1
    ensures First(c + rest) == c && Behind(c + rest) == rest
  {
  }

  lemma SymbolsAre(s: Stage)
    ensures s.Counting? && Symbol(s.quant) ==> IsSymbol(RenderQuant(s.quant)) && |RenderQuant(s.quant)| == 1
    ensures forall c: Text :: IsSymbol(c) ==> !Is(c, ']') && !Is(c, '{') && !Is(c, '}')
  {
  }

  /** What is read for a quantifier determines its number. */
  lemma TakenNumber(rules: Rules, q: Quant, draws: seq<nat>)
    requires QuantOk(rules, q)
    ensures var (value, first, range) := Taken(rules, q);
            var (a, b) := RangeBounds(rules, first, value);
            if range then a.Int? && b.Int? && QuantNumber(rules, q, draws) == PickNumber(a.n, b.n, draws)
            else NumberOf(rules, value) == ParsedInt(rules, value) == Int(QuantNumber(rules, q, draws).0)
                 && QuantNumber(rules, q, draws).1 == draws
  {
    hide PickNumber;
    TakenBounds(rules, q);
  }

  lemma NumberIs(rules: Rules)
    ensures forall n :: NumberOf(rules, Number(n)) == ParsedInt(rules, Number(n)) == Int(n)
  {
  }

  lemma StageKnown(rules: Rules, s: Stage, after: Text, text: Text)
    requires StageDue(rules, s, after, text)
    ensures StageOk(rules, s)
  {
  }

  lemma PickNone(list: seq<Text>, draws: seq<nat>, duplicates: bool, multiple: bool)
    ensures PickValues(list, 0, draws, duplicates, multiple) == ([], draws) && Join([]) == []
  {
  }

  /** How a slash and a character are read in a class, but for a backslash. */
  function BrokenParts(c: Unit): seq<Part> {
    if c == Of(']') then [Slash] else if c == Of('/') then [Slash, Slash] else [Slash, Single(c)]
  }

  lemma BrokenText(rules: Rules, c: Unit, tail: Text)
    requires First(tail) == [Of(']')]
    ensures var behind := if c == Of(']') then [c] + tail else tail;
            && [Of('/'), c] + tail == RenderParts(BrokenParts(c)) + behind && First(behind) == [Of(']')]
            && (c != Of('\\') ==> ClassOk(BrokenParts(c)))
            && ClassValues(rules, BrokenParts(c)) == (if c == Of(']') || c == Of('/') then [] else [[c]])
  {
    var ps := BrokenParts(c);
    assert ps[1..] == if c == Of(']') then [] else [ps[1]];
    if c == Of(']') {
      assert RenderParts(ps) == [Of('/')] + [];
      assert [Of('/'), c] + tail == [Of('/')] + ([c] + tail);
    } else {
      assert ps[1..][1..] == [];
      assert RenderParts(ps[1..]) == RenderPart(ps[1]) + [];
      assert ClassValues(rules, ps[1..]) == PartValues(rules, ps[1]) + [];
    }
  }

  /** The reader passes the hyphen and, if there is one, the slash. */
  lemma SpanSteps(p: Part, behind: Text)
    requires p.Span?
    ensures var t := Behind(SpanText(p, behind));
            if p.broken then First(t) == [Of('/')] && First(Behind(t)) == [p.b] && Behind(Behind(t)) == behind
            else First(t) == [p.b] && Behind(t) == behind
  {
    Peel(Of('-'), if p.broken then [Of('/')] + ([p.b] + behind) else [p.b] + behind);
    Peel(Of('/'), [p.b] + behind);
    Peel(p.b, behind);
  }

  lemma ValuesOfPart(rules: Rules, p: Part)
    ensures p.Single? ==> PartValues(rules, p) == [[p.c]] && LastOf(p) == p.c
    ensures p.Slash? ==> PartValues(rules, p) == [] && LastOf(p) == Of('/')
    ensures p.Span? ==> PartValues(rules, p) == From(Min(p.a, p.b), Max(p.a, p.b)) && LastOf(p) == p.b
    ensures if p.Named? then LastOf(p) == p.code else PartCode(rules, p) == []
  {
  }

  lemma SingleIsNoSlash(afterSlash: bool, p: Part)
    requires PartOk(afterSlash, p)
    ensures p.Single? ==> LastOf(p) != Of('/')
  {
  }
}

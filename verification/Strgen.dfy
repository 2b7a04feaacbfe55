/**
  The string generator of `strgen.js`: a scanner that walks over the pattern, and
  random selection from the values it collects. `draws` holds the random numbers to
  come; every statement is about all of them.
 */
module Strgen {
  import opened Options
  import opened StrgenSpec
  import opened StrgenPattern
  import opened StrgenEval
  import opened StrgenReading
  import opened StrgenSequence

  /** The operator that joined the last two words of a sequence. */
  datatype Joiner = NoneYet | Or | And

  class Strgen {
    const pattern: Text
    const rules: Rules

    var draws: seq<nat>
    var currentIndex: int
    var quantifierValue: Num
    var generatedValues: seq<Text>
    var temporaryValues: seq<Text>
    var output: Text
    var error: bool

    constructor (pattern: Text, rules: Rules, draws: seq<nat>)
      ensures this.pattern == pattern && this.rules == rules && this.draws == draws
    {
      this.pattern, this.rules, this.draws := pattern, rules, draws;
    }

    // ---------- Reading the pattern ----------

    function Current(): (c: Text)
      reads this
      ensures |c| <= 1
    {
      CharAt(pattern, currentIndex)
    }

    /** What is left of the pattern behind the pointer. */
    ghost function Rest(): Text
      reads this
    {
      if -1 <= currentIndex < |pattern| then pattern[currentIndex + 1..] else []
    }

    function Lookahead(): (c: Text)
      reads this
      ensures |c| <= 1
      ensures currentIndex >= -1 ==> c == First(Rest())
    {
      CharAt(pattern, currentIndex + 1)
    }

    function Last(): (c: Text)
      reads this
      ensures |c| <= 1
    {
      CharAt(pattern, currentIndex - 1)
    }

    method Next() returns (c: Text)
      modifies this`currentIndex
      ensures currentIndex == old(currentIndex) + 1 && c == Current() && |c| <= 1
      ensures Last() == old(Current())
      ensures old(currentIndex) >= -1 ==> c == First(old(Rest())) && Rest() == Behind(old(Rest()))
    {
      currentIndex := currentIndex + 1;
      c := Current();
    }

    // ---------- Drawing values ----------

    /** `Math.floor(Math.random() * n)`. */
    method Random(n: nat) returns (r: nat)
      requires n > 0
      modifies this`draws
      ensures r == Choice(old(draws), n) && draws == Later(old(draws))
    {
      r, draws := Choice(draws, n), Later(draws);
    }

    /** `removeValueFromList` of every occurrence: one is spliced out, until there is none. */
    method RemoveEverywhere(v: Text)
      modifies this`generatedValues
      ensures generatedValues == RemoveAll(old(generatedValues), v)
      decreases |generatedValues|
    {
      hide RemoveAll;
      if v in generatedValues {
        var index: nat :| index < |generatedValues| && generatedValues[index] == v;
        RemoveAllSkips(generatedValues, index);
        generatedValues := Remove(generatedValues, index);
        RemoveEverywhere(v);
      } else {
        RemoveAllKeeps(generatedValues, v);
      }
    }

    /** How many picks are still wanted at `index`. */
    function Wanted(index: int): nat
      reads this
    {
      if quantifierValue.Int? && index < quantifierValue.n then quantifierValue.n - index else 0
    }

    /**
      `selectValueFromList`: picks values at random until `quantifierValue` picks are
      made, and empties the list. Without duplicates the list shrinks at every pick.
     */
    method SelectValues(index: int, duplicates: bool, soFar: Text) returns (picked: Text, ghost vs: seq<Text>)
      modifies this`generatedValues, this`draws
      ensures generatedValues == [] && picked == soFar + Join(vs)
      ensures (vs, draws) == PickValues(old(generatedValues), Wanted(index), old(draws), duplicates, rules.allowMultiple)
      decreases Wanted(index)
    {
      hide RemoveAll, Choice, Later;
      if Wanted(index) == 0 {
        generatedValues := [];
        return soFar, [];
      }
      if |generatedValues| > 0 {
        var r := Random(|generatedValues|);
        var value := generatedValues[r];
        if !duplicates {
          generatedValues := Remove(generatedValues, r);
          if !rules.allowMultiple {
            RemoveEverywhere(value);
          }
        }
        picked, vs := SelectValues(index + 1, duplicates, soFar + value);
        vs := [value] + vs;
      } else {
        // Nothing to pick from; with nothing picked so far the remaining turns are skipped.
        picked, vs := SelectValues(if soFar == [] then quantifierValue.n + 1 else index + 1, duplicates, soFar);
      }
    }

    /** `quantifierValue` values. */
    method Select(duplicates: bool) returns (picked: Text)
      modifies this`generatedValues, this`draws
      ensures generatedValues == []
      ensures (picked, draws) == Joined(PickValues(old(generatedValues), Wanted(0), old(draws), duplicates, rules.allowMultiple))
    {
      ghost var vs;
      picked, vs := SelectValues(0, duplicates, []);
      assert [] + Join(vs) == Join(vs);
    }

    /** `getValueListLength`: the length of the list, or the number of different values in it. */
    method GetValueListLength() returns (n: nat)
      ensures n == Available(generatedValues, rules.allowMultiple)
    {
      if rules.allowMultiple {
        return |generatedValues|;
      }
      var counted: seq<Text>, index := [], 0;
      while index != |generatedValues|
        invariant 0 <= index <= |generatedValues|
        invariant AllDifferent(counted) && Values(counted) == Values(generatedValues[..index])
      {
        assert generatedValues[..index + 1] == generatedValues[..index] + [generatedValues[index]];
        ValuesAppend(generatedValues[..index], generatedValues[index]);
        ValuesAppend(counted, generatedValues[index]);
        if generatedValues[index] !in counted {
          counted := counted + [generatedValues[index]];
        }
        index := index + 1;
      }
      DifferentCount(counted);
      assert generatedValues[..index] == generatedValues;
      n := |counted|;
    }

    /** The end of `getQuantifier`: without duplicates no more is asked for than there is. */
    method Clamp(v: Value) returns (q: Num)
      modifies this`error
      ensures rules.allowDuplicates || !NumberOf(rules, v).Int? ==> q == ParsedInt(rules, v)
      ensures !rules.allowDuplicates && NumberOf(rules, v).Int? ==>
                var n := Available(generatedValues, rules.allowMultiple);
                q == if NumberOf(rules, v).n > n then Int(n) else ParsedInt(rules, v)
      ensures error == (old(error) || NumberOf(rules, v).NaN?)
      ensures NumberOf(rules, v).Int? && ParsedInt(rules, v) == NumberOf(rules, v) ==>
                q == Int(Clamped(rules, generatedValues, NumberOf(rules, v).n))
    {
      var value := v;
      if !rules.allowDuplicates {
        var length := GetValueListLength();
        if NumberOf(rules, value).Int? && NumberOf(rules, value).n > length {
          value := Number(length);
        }
      }
      if NumberOf(rules, value).NaN? {
        error := true;
      }
      q := ParsedInt(rules, value);
    }

    // ---------- Character classes ----------

    /** All code units between two, in either order; nothing if one of them is missing. */
    method GenerateRangeValue(first: Text, second: Text)
      requires |first| <= 1 && |second| <= 1
      modifies this`generatedValues
      ensures generatedValues == old(generatedValues) +
                                 if first == [] || second == [] then [] else From(Min(first[0], second[0]), Max(first[0], second[0]))
    {
      if first != [] && second != [] {
        var lo, hi := first[0], second[0];
        if lo > hi {
          lo, hi := hi, lo;
        }
        var c: int := lo;
        while c <= hi
          invariant lo <= c <= hi + 1
          invariant generatedValues + From(c, hi) == old(generatedValues) + From(lo, hi)
        {
          assert From(c, hi) == [[c]] + From(c + 1, hi);
          generatedValues := generatedValues + [[c]];
          c := c + 1;
        }
      }
    }

    method GeneratePresetValues(values: Text)
      modifies this`generatedValues
      ensures generatedValues == old(generatedValues) + Singles(values)
    {
      var i := 0;
      while i < |values|
        invariant 0 <= i <= |values|
        invariant generatedValues == old(generatedValues) + Singles(values)[..i]
      {
        generatedValues := generatedValues + [[values[i]]];
        i := i + 1;
      }
      assert Singles(values)[..i] == Singles(values);
    }

    method GetPresetValues(character: Text)
      modifies this`generatedValues, this`output
      ensures var n := PresetOf(rules.presets, character);
              if n < |rules.presets|
              then generatedValues == old(generatedValues) + Singles(rules.presets[n].value) && output == old(output)
              else generatedValues == old(generatedValues) && output == old(output) + Current()
    {
      var count := 0;
      while count < |rules.presets| && rules.presets[count].code != character
        invariant 0 <= count <= |rules.presets|
        invariant forall i :: 0 <= i < count ==> rules.presets[i].code != character
      {
        count := count + 1;
      }
      if count == |rules.presets| {
        output := output + Current();
      } else {
        GeneratePresetValues(rules.presets[count].value);
      }
    }

    /** The pointer stands before the part `p`. */
    ghost predicate Facing(p: Part, afterSlash: bool, behind: Text)
      reads this
    {
      && currentIndex >= 0 && PartOk(afterSlash, p) && (afterSlash ==> Is(Current(), '/'))
      && Rest() == PartText(p, behind) && behind != [] && (p.Single? ==> behind[0] != Of('-'))
    }

    lemma SpanRenders(start: int, p: Part)
      requires 0 <= start && start + 2 <= currentIndex < |pattern| && p.Span?
      requires p.a == pattern[start] && p.b == pattern[currentIndex]
      requires if p.broken then currentIndex == start + 3 && Is(CharAt(pattern, start + 2), '/') else currentIndex == start + 2
      ensures Is(CharAt(pattern, start + 1), '-') ==> RenderPart(p) == pattern[start..currentIndex + 1]
    {
    }

    /** The branch of `getCharacterSet` for a hyphen ahead: a range from the current character on. */
    method ReadSpan(ghost p: Part, ghost behind: Text) returns (ghost read: Part)
      requires 0 <= currentIndex < |pattern|
      modifies this`currentIndex, this`generatedValues
      ensures old(currentIndex) + 2 <= currentIndex
      ensures old(currentIndex + 1 < |pattern|) ==> currentIndex <= |pattern|
      ensures Is(old(Lookahead()), '-') && currentIndex < |pattern| ==>
                && read.Span? && [read.a] == old(Current()) && (read.broken || read.b != Of('/'))
                && RenderPart(read) == pattern[old(currentIndex)..currentIndex + 1] && Current() == [LastOf(read)]
                && generatedValues == old(generatedValues) + PartValues(rules, read)
      ensures p.Span? && old(Current()) == [p.a] && old(Rest()) == SpanText(p, behind) && (p.broken || p.b != Of('/')) ==>
                read == p && Rest() == behind
    {
      hide From, First, Behind, SpanText, RenderPart, PartValues;
      if p.Span? {
        SpanSteps(p, behind);
      }
      read := Slash;
      var store := Current();
      var c := Next();
      if Is(Lookahead(), '/') {
        c := Next();
      }
      c := Next();
      GenerateRangeValue(store, c);
      if c != [] {
        read := Span(store[0], currentIndex == old(currentIndex) + 3, c[0]);
        ValuesOfPart(rules, read);
        SpanRenders(old(currentIndex), read);
      }
    }

    /** The branch of `getCharacterSet` for a preset. */
    method ReadPreset(ghost p: Part, ghost behind: Text) returns (ghost read: Part)
      requires 0 <= currentIndex
      modifies this`currentIndex, this`generatedValues, this`output
      ensures currentIndex == old(currentIndex) + 1
      ensures currentIndex < |pattern| ==>
                && read == Named(pattern[currentIndex])
                && generatedValues == old(generatedValues) + PartValues(rules, read) && output == old(output) + PartCode(rules, read)
      ensures p.Named? && old(Rest()) == [p.code] + behind ==> read == p && Rest() == behind
    {
      hide PresetOf, Singles, First, Behind;
      if p.Named? {
        Peel(p.code, behind);
      }
      var c := Next();
      read := if c != [] then Named(c[0]) else Slash;
      GetPresetValues(c);
    }

    lemma FacingKind(p: Part, afterSlash: bool, behind: Text)
      requires Facing(p, afterSlash, behind)
      ensures var c, rest := First(Rest()), Behind(Rest());
              && |c| == 1 && !Is(c, ']') && (Is(c, '\\') <==> p.Named?) && (Is(c, '/') <==> p.Slash?)
              && (p.Single? || p.Span? ==> !IsOperator(c) || Is(Current(), '/'))
              && (p.Single? ==> c == [p.c] && rest == behind && !Is(First(rest), '-'))
              && (p.Slash? ==> c == [Of('/')] && rest == behind)
              && (p.Span? ==> c == [p.a] && rest == SpanText(p, behind) && Is(First(rest), '-') && (p.broken || p.b != Of('/')))
              && (p.Named? ==> rest == [p.code] + behind)
      ensures behind != []
    {
      hide IsOperator;
      PartFacts(afterSlash, p, behind);
    }

    /** What has been read since `before` is the part `p`. */
    ghost predicate PartRead(before: int, p: Part)
      reads this
    {
      && 0 <= before < currentIndex < |pattern| && PartOk(Is(CharAt(pattern, before), '/'), p)
      && RenderPart(p) == pattern[before + 1..currentIndex + 1] && Current() == [LastOf(p)]
    }

    lemma NamedRead(before: int, p: Part)
      requires 0 <= before && currentIndex == before + 2 && Is(CharAt(pattern, before + 1), '\\')
      ensures currentIndex < |pattern| && p == Named(pattern[currentIndex]) ==> PartRead(before, p)
    {
    }

    lemma SlashRead(before: int)
      requires 0 <= before && currentIndex == before + 1 && Is(Current(), '/')
      ensures PartRead(before, Slash)
    {
    }

    lemma SingleRead(before: int, p: Part)
      requires 0 <= before && currentIndex == before + 1 && !Is(Current(), '\\') && !Is(Current(), '/')
      requires !IsOperator(Current()) || (Is(CharAt(pattern, before), '/') && !Is(Current(), ']'))
      ensures currentIndex < |pattern| && p == Single(pattern[currentIndex]) ==> PartRead(before, p)
    {
    }

    lemma SpanRead(before: int, p: Part)
      requires 0 <= before && before + 1 < currentIndex
      requires var c := CharAt(pattern, before + 1);
               !Is(c, '\\') && !Is(c, '/') && (!IsOperator(c) || (Is(CharAt(pattern, before), '/') && !Is(c, ']')))
      ensures currentIndex < |pattern| && p.Span? && [p.a] == CharAt(pattern, before + 1) && (p.broken || p.b != Of('/')) &&
              RenderPart(p) == pattern[before + 1..currentIndex + 1] && Current() == [LastOf(p)] ==>
                PartRead(before, p)
    {
      hide RenderPart;
    }

    /**
      One turn of the loop of `getCharacterSet`; `stop` when it is left by an error. Any
      other turn inside the pattern reads one part, and does what that part says. Behind a
      slash there is no turn with the closing bracket ahead: the loop has ended.
     */
    method ReadPart(ghost p: Part, ghost afterSlash: bool, ghost behind: Text) returns (stop: bool, ghost read: Part)
      requires 0 <= currentIndex <= |pattern| && !(Is(Current(), '/') && Is(Lookahead(), ']'))
      modifies this`currentIndex, this`generatedValues, this`output, this`error
      ensures old(currentIndex) < currentIndex <= |pattern| + 1 && (old(error) ==> error)
      ensures if stop then error else currentIndex <= |pattern| && error == old(error)
      ensures Is(old(Lookahead()), '/') ==> currentIndex == old(currentIndex) + 1
      ensures Is(old(Lookahead()), '\\') ==> currentIndex == old(currentIndex) + 2
      ensures old(currentIndex) == |pattern| ==> stop
      ensures !stop && currentIndex < |pattern| ==>
                && PartRead(old(currentIndex), read)
                && output == old(output) + PartCode(rules, read) && generatedValues == old(generatedValues) + PartValues(rules, read)
      ensures old(Facing(p, afterSlash, behind)) ==> !stop && read == p && Rest() == behind && behind != []
    {
      hide IsOperator, First, Behind, PartOk, PartValues, PartCode, Facing, SpanText, PartRead, RenderPart, LastOf;
      ghost var before := currentIndex;
      if Facing(p, afterSlash, behind) {
        FacingKind(p, afterSlash, behind);
      }
      EndIsOperator();
      stop, read := false, Slash;
      var c := Next();
      if Is(Current(), '\\') {
        read := ReadPreset(p, behind);
        NamedRead(before, read);
      } else if IsOperator(Current()) && !Is(Last(), '/') && !Is(Current(), '/') {
        error := true;
        stop := true;
      } else if Is(Lookahead(), '-') && !Is(c, '/') {
        read := ReadSpan(p, behind);
        SpanRead(before, read);
      } else if !Is(Lookahead(), '-') && !Is(c, '/') {
        generatedValues := generatedValues + [Current()];
        read := if currentIndex < |pattern| then Single(pattern[currentIndex]) else Slash;
        SingleRead(before, read);
      } else {
        SlashRead(before);
      }
      ValuesOfPart(rules, read);
    }

    /** Behind the parts `read`, the rest of the class `parts` is left. */
    ghost predicate Halfway(parts: seq<Part>, tail: Text, read: seq<Part>)
      reads this
    {
      && currentIndex >= 0 && First(tail) == [Of(']')] && read <= parts
      && PartsOk(EndsInSlash(read), parts[|read|..]) && (EndsInSlash(read) ==> Is(Current(), '/'))
      && Rest() == RenderParts(parts[|read|..]) + tail
    }

    lemma StartsHalfway(parts: seq<Part>, tail: Text)
      requires currentIndex >= 0 && ClassOk(parts) && First(tail) == [Of(']')] && Rest() == RenderParts(parts) + tail
      ensures parts != [] && Halfway(parts, tail, [])
    {
      assert parts[0..] == parts;
    }

    lemma PartAhead(parts: seq<Part>, tail: Text, read: seq<Part>)
      requires Halfway(parts, tail, read)
      ensures read <= parts && (Is(Lookahead(), ']') <==> read == parts)
      ensures if read == parts then Rest() == tail
              else Facing(parts[|read|], EndsInSlash(read), RenderParts(parts[|read| + 1..]) + tail)
    {
      hide RenderParts, PartOk, PartText, LastOf, EndsInSlash;
      var ps, afterSlash := parts[|read|..], EndsInSlash(read);
      PartsFirst(afterSlash, ps, tail);
      if ps == [] {
        NoParts(rules, tail);
      } else {
        PartsStep(afterSlash, ps, tail);
        PartsFirst(LastOf(ps[0]) == Of('/'), ps[1..], tail);
        SingleIsNoSlash(afterSlash, ps[0]);
      }
    }

    lemma HalfwayNext(parts: seq<Part>, tail: Text, read: seq<Part>)
      requires currentIndex >= 0 && First(tail) == [Of(']')] && read < parts && PartsOk(EndsInSlash(read), parts[|read|..])
      requires Rest() == RenderParts(parts[|read| + 1..]) + tail && Current() == [LastOf(parts[|read|])]
      ensures Halfway(parts, tail, read + [parts[|read|]])
    {
      hide RenderParts, PartOk, LastOf;
      PartsStep(EndsInSlash(read), parts[|read|..], tail);
      assert parts[|read|..][1..] == parts[|read| + 1..];
    }

    lemma HalfwayKnown(parts: seq<Part>, tail: Text, read: seq<Part>)
      requires Halfway(parts, tail, read)
      ensures First(tail) == [Of(']')] && read <= parts && PartsOk(EndsInSlash(read), parts[|read|..])
    {
    }

    /**
      What has been read since `start` are the parts `read`: their values are behind
      `list`, their codes without preset behind `out`.
     */
    ghost predicate ReadSince(start: int, list: seq<Text>, out: Text, read: seq<Part>)
      reads this
    {
      && 0 <= start <= currentIndex < |pattern| && PartsOk(false, read)
      && RenderParts(read) == pattern[start + 1..currentIndex + 1]
      && generatedValues == list + ClassValues(rules, read) && output == out + Codes(rules, read)
      && if read == [] then !Is(Current(), '/') else Current() == [LastOf(read[|read| - 1])]
    }

    lemma ReadNothing()
      requires 0 <= currentIndex < |pattern| && Is(Current(), '[')
      ensures ReadSince(currentIndex, generatedValues, output, [])
    {
    }

    lemma ReadKnown(start: int, list: seq<Text>, out: Text, read: seq<Part>)
      requires ReadSince(start, list, out, read)
      ensures PartsOk(false, read) && RenderParts(read) == pattern[start + 1..currentIndex + 1]
      ensures generatedValues == list + ClassValues(rules, read) && output == out + Codes(rules, read)
      ensures EndsInSlash(read) <==> Is(Current(), '/')
    {
      hide RenderParts, PartsOk, ClassValues, Codes, LastOf;
    }

    lemma ReadOne(start: int, before: int, list: seq<Text>, out: Text, read: seq<Part>, p: Part)
      requires 0 <= start <= before && PartRead(before, p)
      requires PartsOk(false, read) && RenderParts(read) == pattern[start + 1..before + 1]
      requires EndsInSlash(read) <==> Is(CharAt(pattern, before), '/')
      requires generatedValues == (list + ClassValues(rules, read)) + PartValues(rules, p)
      requires output == (out + Codes(rules, read)) + PartCode(rules, p)
      ensures ReadSince(start, list, out, read + [p]) && Current() == [LastOf(p)]
    {
      hide PartsOk, PartOk, RenderParts, RenderPart, LastOf, ClassValues, Codes, PartValues, PartCode;
      PartsAppend(false, read, p);
      ClassAppend(rules, read, p);
      assert pattern[start + 1..before + 1] + pattern[before + 1..currentIndex + 1] == pattern[start + 1..currentIndex + 1];
      var values, codes := ClassValues(rules, read), Codes(rules, read);
      assert (list + values) + PartValues(rules, p) == list + (values + PartValues(rules, p));
      assert (out + codes) + PartCode(rules, p) == out + (codes + PartCode(rules, p));
    }

    /** The class `read`, from `start` on, has been read up to its closing bracket. */
    ghost predicate ClassReadFrom(start: int, list: seq<Text>, out: Text, read: seq<Part>)
      reads this
    {
      && ClassOk(read) && Current() == [LastOf(read[|read| - 1])] && First(Rest()) == [Of(']')]
      && -1 <= start < |pattern| && pattern[start + 1..] == RenderParts(read) + Rest()
      && generatedValues == list + ClassValues(rules, read) && output == out + Codes(rules, read)
    }

    lemma ReadAll(start: int, list: seq<Text>, out: Text, read: seq<Part>)
      requires ReadSince(start, list, out, read) && read != [] && Is(Lookahead(), ']')
      ensures ClassReadFrom(start, list, out, read)
    {
      hide RenderParts, PartsOk, LastOf, ClassValues, Codes;
      assert pattern[start + 1..] == pattern[start + 1..currentIndex + 1] + pattern[currentIndex + 1..];
    }

    /** One more part of a class. */
    method ReadOneMore(ghost parts: seq<Part>, ghost tail: Text, ghost start: int, ghost list: seq<Text>, ghost out: Text, ghost read: seq<Part>)
        returns (stop: bool, ghost read': seq<Part>)
      requires 0 <= start <= currentIndex <= |pattern| && !(Is(Current(), '/') && Is(Lookahead(), ']'))
      requires currentIndex < |pattern| ==> ReadSince(start, list, out, read)
      modifies this`currentIndex, this`generatedValues, this`output, this`error
      ensures old(currentIndex) < currentIndex <= |pattern| + 1
      ensures if stop then error else currentIndex <= |pattern| && error == old(error)
      ensures Is(old(Lookahead()), '/') ==> currentIndex == old(currentIndex) + 1
      ensures Is(old(Lookahead()), '\\') ==> currentIndex == old(currentIndex) + 2
      ensures !stop ==> read' != [] && (currentIndex < |pattern| ==> ReadSince(start, list, out, read'))
      ensures old(Halfway(parts, tail, read)) && read != parts ==> !stop && Halfway(parts, tail, read')
    {
      hide RenderParts, ClassValues, Codes, PartCode, PartsOk, PartValues, First, Facing, Halfway, ReadSince, PartRead, EndsInSlash;
      ghost var good, index := Halfway(parts, tail, read) && read != parts, currentIndex;
      ghost var next, behind := Slash, [];
      if good {
        PartAhead(parts, tail, read);
        HalfwayKnown(parts, tail, read);
        next, behind := parts[|read|], RenderParts(parts[|read| + 1..]) + tail;
      }
      if currentIndex < |pattern| {
        ReadKnown(start, list, out, read);
      }
      ghost var p;
      stop, p := ReadPart(next, EndsInSlash(read), behind);
      read' := read + [p];
      if !stop && currentIndex < |pattern| {
        ReadOne(start, index, list, out, read, p);
        if good {
          HalfwayNext(parts, tail, read);
        }
      }
    }

    /**
      Reads a class from its bracket on, up to the closing one. It ends without an error
      exactly on a class of the syntax, and then has collected its values and written the
      codes that no preset has. An unclosed class is left at most one behind the length of
      the pattern.
     */
    method GetCharacterSet(ghost parts: seq<Part>, ghost tail: Text) returns (ghost read: seq<Part>)
      requires 0 <= currentIndex < |pattern| && Is(Current(), '[')
      modifies this`currentIndex, this`generatedValues, this`output, this`error
      ensures old(currentIndex) < currentIndex <= |pattern| + 1
      ensures old(error) || currentIndex >= |pattern| ==> error
      ensures Is(CharAt(pattern, old(currentIndex) + 1), '/') && Is(CharAt(pattern, old(currentIndex) + 2), '\\') ==>
                currentIndex != old(currentIndex) + 2
      ensures !error ==> ClassReadFrom(old(currentIndex), old(generatedValues), old(output), read)
      ensures ClassOk(parts) && First(tail) == [Of(']')] && old(Rest()) == RenderParts(parts) + tail ==>
                && error == old(error) && read == parts && Rest() == tail
                && ClassReadFrom(old(currentIndex), old(generatedValues), old(output), parts)
    {
      hide RenderParts, ClassValues, Codes, PartCode, PartsOk, PartValues, First, Facing, Halfway, LastOf, ClassOk;
      hide ReadSince, PartRead, EndsInSlash, ClassReadFrom;
      ghost var good := ClassOk(parts) && First(tail) == [Of(']')] && Rest() == RenderParts(parts) + tail;
      ghost var start, list, out := currentIndex, generatedValues, output;
      ghost var slashes := Is(CharAt(pattern, currentIndex + 1), '/') && Is(CharAt(pattern, currentIndex + 2), '\\');
      if good {
        StartsHalfway(parts, tail);
      }
      ReadNothing();
      read := [];
      var again := true;
      while again
        invariant start <= currentIndex <= |pattern|
        invariant !again ==> currentIndex < |pattern| && Is(Lookahead(), ']') && read != []
        invariant error == old(error)
        invariant slashes ==> currentIndex != start + 2
        invariant currentIndex < |pattern| ==> ReadSince(start, list, out, read)
        invariant if read == [] then currentIndex == start else start < currentIndex && again == !Is(Lookahead(), ']')
        invariant good ==> Halfway(parts, tail, read) && again == (read != parts)
        decreases |pattern| - currentIndex, again
      {
        if good {
          PartAhead(parts, tail, read);
        }
        if currentIndex < |pattern| {
          ReadKnown(start, list, out, read);
        }
        var stop;
        stop, read := ReadOneMore(parts, tail, start, list, out, read);
        if stop {
          return;
        }
        if good {
          PartAhead(parts, tail, read);
        }
        again := !Is(Lookahead(), ']');
      }
      ReadAll(start, list, out, read);
      if good {
        PartAhead(parts, tail, read);
      }
    }

    /**
      A class with one broken character: it adds that character exactly if it is none of
      `]`, `\` and `/`. The first ends the class, the last is as good as nothing.
     */
    method GetBrokenCharacter(ghost c: Unit, ghost tail: Text)
      requires 0 <= currentIndex < |pattern| && Is(Current(), '[') && !error
      requires Rest() == [Of('/'), c] + tail && First(tail) == [Of(']')]
      modifies this`currentIndex, this`generatedValues, this`output, this`error
      ensures Rest() == tail && !error && generatedValues == old(generatedValues) + [[c]] <==>
              c != Of(']') && c != Of('\\') && c != Of('/')
      ensures c == Of(']') ==> Rest() == [c] + tail && !error && generatedValues == old(generatedValues)
      ensures c == Of('/') ==> Rest() == tail && !error && generatedValues == old(generatedValues)
    {
      ghost var list, text, parts := generatedValues, Rest(), BrokenParts(c);
      ghost var behind := if c == Of(']') then [c] + tail else tail;
      BrokenText(rules, c, tail);
      assert CharAt(pattern, currentIndex + 1) == [text[0]] && CharAt(pattern, currentIndex + 2) == [text[1]];
      assert |tail| > 0 && |tail| == |pattern| - currentIndex - 3;
      ghost var read := GetCharacterSet(parts, behind);
      assert list + [] == list;
    }

    // ---------- Quantifiers ----------

    /** A quantifier as far as it has been read: `done` of its only numeral, or of the second, behind `lead`, `t` and `sep`. */
    ghost predicate QuantText(text: Text, lead: Text, t: Text, sep: Unit, done: Text, value: Value, first: Value, range: bool) {
      && Numeral(t) && Numeral(done)
      && if range then
           && text == lead + t + [sep] + done && IsQuantifierOperator([sep]) && Separator(lead)
           && first == (if lead == [] then Given(t) else Str(t)) && value == Str(done)
         else lead == [] && text == done && first == Undefined && value == Given(done)
    }

    /** Nothing, or one separator too many. */
    ghost predicate Separator(lead: Text) {
      lead == [] || IsQuantifierOperator(lead)
    }

    lemma QuantStarts()
      ensures QuantText([], [], [], 0, [], Undefined, Undefined, false)
    {
    }

    lemma QuantMore(text: Text, c: Text, lead: Text, t: Text, sep: Unit, done: Text, value: Value, first: Value, range: bool)
      requires QuantText(text, lead, t, sep, done, value, first, range) && |c| == 1 && !IsOperator(c) && !IsQuantifierOperator(c)
      ensures QuantText(text + c, lead, t, sep, done + c, Extend(value, c), first, range)
    {
      hide Separator;
      assert Numeral(done + c);
      assert (lead + t + [sep] + done) + c == lead + t + [sep] + (done + c);
      assert [] + c == c;
    }

    lemma QuantSeparates(text: Text, c: Text, lead: Text, t: Text, sep: Unit, done: Text, value: Value, first: Value, range: bool)
      requires QuantText(text, lead, t, sep, done, value, first, range) && IsQuantifierOperator(c) && first.Undefined?
      ensures QuantText(text + c, if range then [sep] else [], done, c[0], [], Str([]), value, true)
    {
      hide IsQuantifierOperator, Numeral;
      assert c == [c[0]] by { OneCharacter(c); }
      assert Numeral([]) by { NoDigits(); }
      if range {
        assert text == [sep] + done;
        assert ([sep] + done) + c == [sep] + done + [c[0]] + [];
      } else {
        assert done + c == [] + done + [c[0]] + [];
      }
    }

    lemma OneCharacter(c: Text)
      requires IsQuantifierOperator(c)
      ensures |c| == 1 && c == [c[0]]
    {
    }

    lemma NoDigits()
      ensures Numeral([])
    {
    }

    /**
      From `start` on, a numeral, or two with a separator between them, have been read up to
      the brace; a separator before the first of two is passed over.
     */
    ghost predicate QuantReadFrom(start: int, lead: Text, read: Quant, value: Value, first: Value, range: bool)
      reads this
    {
      && -1 <= start < |pattern| && First(Rest()) == [Of('}')] && InBraces(read) && range == read.Range? && Separator(lead)
      && value == Str(if range then read.u else read.t)
      && first == (if !range then Undefined else if lead == [] then Given(read.t) else Str(read.t))
      && pattern[start + 1..] == (if range then lead + read.t + [read.sep] + read.u else read.t) + Rest()
    }

    /** What has been read since `start`. */
    ghost function ReadText(start: int): Text
      requires 0 <= start <= currentIndex < |pattern|
      reads this
    {
      pattern[start + 1..currentIndex + 1]
    }

    lemma NothingRead()
      requires 0 <= currentIndex < |pattern|
      ensures ReadText(currentIndex) == []
    {
    }

    lemma ReadTextGrows(start: int)
      requires 0 <= start < currentIndex < |pattern|
      ensures ReadText(start) == pattern[start + 1..currentIndex] + Current()
    {
    }

    lemma QuantAll(start: int, lead: Text, t: Text, sep: Unit, done: Text, value: Value, first: Value, range: bool)
      requires 0 <= start <= currentIndex < |pattern| && Is(Lookahead(), '}') && (range || done != [])
      requires QuantText(ReadText(start), lead, t, sep, done, value, first, range)
      ensures QuantReadFrom(start, lead, if range then Range(t, sep, done) else Quant.Count(done), value, first, range)
    {
      hide Numeral, IsQuantifierOperator;
      assert pattern[start + 1..] == pattern[start + 1..currentIndex + 1] + pattern[currentIndex + 1..];
    }

    /** One turn of the loop of `getQuantifier`; `stop` when it is left by an error. */
    method ReadDigit(ghost start: int, ghost lead: Text, ghost t: Text, ghost sep: Unit, ghost done: Text, value: Value, first: Value, range: bool)
        returns (stop: bool, value': Value, first': Value, range': bool, ghost lead': Text, ghost t': Text, ghost sep': Unit, ghost done': Text)
      requires 0 <= start <= currentIndex < |pattern| && QuantText(ReadText(start), lead, t, sep, done, value, first, range)
      modifies this`currentIndex, this`error
      ensures old(currentIndex) <= currentIndex < |pattern| && (if stop then error else error == old(error))
      ensures !stop ==>
                && currentIndex == old(currentIndex) + 1 && Rest() == Behind(old(Rest())) && Current() == old(Lookahead())
                && (range' || done' != [])
                && QuantText(ReadText(start), lead', t', sep', done', value', first', range')
      ensures var c := old(Lookahead());
              if !IsOperator(c) && !IsQuantifierOperator(c) then !stop && (value', first', range') == (Extend(value, c), first, range)
              else if IsQuantifierOperator(c) && first.Undefined? then !stop && (value', first', range') == (Str([]), value, true)
              else stop
    {
      hide IsOperator, IsQuantifierOperator, First, Behind, Extend, QuantText;
      EndIsOperator();
      stop, value', first', range', lead', t', sep', done' := false, value, first, range, lead, t, sep, done;
      ghost var text := ReadText(start);
      if !IsOperator(Lookahead()) && !IsQuantifierOperator(Lookahead()) {
        QuantMore(text, Lookahead(), lead, t, sep, done, value, first, range);
        var c := Next();
        value' := Extend(value, c);
        ReadTextGrows(start);
        done' := done + c;
      } else if IsQuantifierOperator(Lookahead()) && first.Undefined? {
        QuantSeparates(text, Lookahead(), lead, t, sep, done, value, first, range);
        range', first', value' := true, value, Str([]);
        var c := Next();
        ReadTextGrows(start);
        lead', t', sep', done' := if range then [sep] else [], done, c[0], [];
      } else if Lookahead() == [] {
        error := true;
        stop := true;
      } else {
        var c := Next();
        value' := Number(1);
        error := true;
        stop := true;
      }
    }

    /**
      The loop of `getQuantifier`; it never runs past the pattern. It ends without an error
      exactly before the brace behind a numeral, or behind two of them and a separator, but
      for a separator that it passes over.
     */
    method ReadQuantifier(ghost q: Quant, ghost tail: Text)
        returns (value: Value, first: Value, range: bool, ghost lead: Text, ghost read: Quant)
      requires 0 <= currentIndex < |pattern|
      modifies this`currentIndex, this`error
      ensures old(currentIndex) <= currentIndex < |pattern|
      ensures old(error) ==> error
      ensures !error ==> QuantReadFrom(old(currentIndex), lead, read, value, first, range)
      ensures InBraces(q) && old(Rest()) == q.t + AfterFirst(q, tail) ==>
                && Rest() == [Of('}')] + tail && error == old(error) && !Is(Current(), ')')
                && range == q.Range? && value == Str(if range then q.u else q.t) && first == (if range then Given(q.t) else Undefined)
    {
      hide Reading, Unfinished, IsOperator, IsQuantifierOperator, First, Behind, AfterFirst, Extend, QuantText, QuantReadFrom, Numeral;
      hide Given, ReadText, Advanced, Rest, Lookahead, Current;
      value, first, range, lead, read := Undefined, Undefined, false, [], Once;
      ghost var start, t: Text, sep: Unit, done: Text := currentIndex, [], 0, [];
      ghost var good := InBraces(q) && Rest() == q.t + AfterFirst(q, tail);
      ghost var r := Progress([], if good then q.t else [], value, first, range);
      QuantStarts();
      NothingRead();
      if good {
        ReadingStarts(q, tail);
      }
      var again := true;
      while again
        invariant start <= currentIndex < |pattern|
        invariant error == old(error)
        invariant QuantText(ReadText(start), lead, t, sep, done, value, first, range)
        invariant again || (Is(Lookahead(), '}') && (range || done != []))
        invariant value == r.value && first == r.first && range == r.range
        invariant good ==> Reading(q, tail, Rest(), r)
        invariant good ==> again == Unfinished(q, r) && (again || !Is(Current(), ')'))
        decreases |pattern| - currentIndex, again
      {
        if good {
          ReadingStep(q, tail, Rest(), r);
          AdvancedIs(q, r);
        }
        var stop;
        stop, value, first, range, lead, t, sep, done := ReadDigit(start, lead, t, sep, done, value, first, range);
        if stop {
          return;
        }
        r := if good then Advanced(q, r) else Progress([], [], value, first, range);
        if good {
          ReadingEnds(q, tail, Rest(), r);
        }
        again := !Is(Lookahead(), '}');
      }
      QuantAll(start, lead, t, sep, done, value, first, range);
      read := if range then Range(t, sep, done) else Quant.Count(done);
      if good {
        ReadingEnds(q, tail, Rest(), r);
      }
    }

    method Numbers(lo: int, hi: int) returns (choices: seq<int>)
      requires lo <= hi
      ensures |choices| == hi - lo + 1 && forall i :: 0 <= i < |choices| ==> choices[i] == lo + i
    {
      choices := [];
      var count := lo;
      while count <= hi
        invariant lo <= count <= hi + 1 && |choices| == count - lo
        invariant forall i :: 0 <= i < |choices| ==> choices[i] == lo + i
      {
        choices := choices + [count];
        count := count + 1;
      }
    }

    /** A random number between the two bounds; undefined if one of them is not a number. */
    method PickFromRange(first: Value, value: Value) returns (v: Value)
      modifies this`draws
      ensures var (a, b) := RangeBounds(rules, first, value);
              if a.Int? && b.Int? then (v, draws) == (Number(PickNumber(a.n, b.n, old(draws)).0), PickNumber(a.n, b.n, old(draws)).1)
              else v == Undefined && draws == old(draws)
    {
      hide Choice, Later;
      var from, to := first, value;
      if from == Undefined || from == Str([]) {
        from := Number(0);
      } else if to == Undefined || to == Str([]) {
        to := Number(0);
      }
      var a, b := ParsedInt(rules, from), ParsedInt(rules, to);
      if a.NaN? || b.NaN? {
        return Undefined;
      }
      var lo, hi := a.n, b.n;
      if lo > hi {
        lo, hi := hi, lo;
      }
      var choices := Numbers(lo, hi);
      var r := Random(|choices|);
      v := Number(choices[r]);
    }

    /** The first half of `getQuantifier`: the numerals, or the bounds of a symbol. */
    method ReadBounds(ghost q: Quant, ghost tail: Text) returns (value: Value, first: Value, range: bool)
      requires 0 <= currentIndex < |pattern|
      modifies this`currentIndex, this`error
      ensures old(currentIndex) <= currentIndex < |pattern|
      ensures old(error) ==> error
      ensures QuantOk(rules, q) && !q.Once? && old(Current() + Rest()) == RenderQuant(q) + tail ==>
                && error == old(error) && (value, first, range) == Taken(rules, q) && !Is(Current(), ')')
                && Rest() == if Symbol(q) then tail else [Of('}')] + tail
    {
      if QuantOk(rules, q) && !q.Once? && Current() + Rest() == RenderQuant(q) + tail {
        QuantBegins(rules, q, Current(), Rest(), tail);
      }
      hide QuantOk, AfterFirst, InBraces;
      if Is(Current(), '?') {
        value, first, range := Number(1), Number(0), true;
      } else if Is(Current(), '*') {
        value, first, range := Number(rules.symbolMax), Number(0), true;
      } else if Is(Current(), '+') {
        value, first, range := Number(rules.symbolMax), Number(1), true;
      } else {
        ghost var lead, read;
        value, first, range, lead, read := ReadQuantifier(q, tail);
      }
    }

    /**
      Reads a quantifier from its brace or symbol on. What comes of it is the number
      that it settles on, clamped to the values there are.
     */
    method GetQuantifier(ghost q: Quant, ghost tail: Text) returns (n: Num)
      requires 0 <= currentIndex < |pattern|
      modifies this`currentIndex, this`error, this`draws
      ensures old(currentIndex) <= currentIndex < |pattern|
      ensures old(error) ==> error
      ensures QuantOk(rules, q) && !q.Once? && old(Current() + Rest()) == RenderQuant(q) + tail ==>
                && error == old(error) && !Is(Current(), ')') && Rest() == (if Symbol(q) then tail else [Of('}')] + tail)
                && (n, draws) == (Int(Clamped(rules, generatedValues, QuantNumber(rules, q, old(draws)).0)), QuantNumber(rules, q, old(draws)).1)
    {
      hide QuantOk, RenderQuant, RangeBounds, Taken, NumberOf, ParsedInt, QuantNumber, Clamped, PickNumber, Symbol, Available;
      if QuantOk(rules, q) {
        TakenNumber(rules, q, draws);
      }
      NumberIs(rules);
      var value, first, range := ReadBounds(q, tail);
      if range {
        value := PickFromRange(first, value);
      }
      n := Clamp(value);
    }

    // ---------- The stages of a group ----------

    /** `text` is to be read: the rest of a group whose values have been collected, and `after`. */
    ghost predicate StageAt(text: Text, s: Stage, after: Text)
      reads this
    {
      && StageDue(rules, s, after, text)
      && quantifierValue == (if s.Counted? then Int(s.n) else Int(1))
      && generatedValues == (if s.Fresh? then [] else s.list)
    }

    /** `]` and `)`: one value is picked, unless a quantifier comes next. */
    method CloseBracket(duplicates: bool, ghost s: Stage, ghost after: Text) returns (picked: Text, ghost s2: Stage)
      requires 0 <= currentIndex < |pattern|
      modifies this`generatedValues, this`draws
      ensures old(StageAt(Current() + Rest(), s, after)) && s.Closing? ==>
                StageAt(Rest(), s2, after) && !s2.Closing? && StageLeads(rules, s, old(draws), picked, s2, draws)
    {
      hide StageDue, StageLeads, First, IsSymbol, PickValues;
      picked, s2 := [], s;
      ghost var good := StageAt(Current() + Rest(), s, after) && s.Closing?;
      if good {
        ReadClosing(rules, s, after, Current(), Rest());
        s2 := if s.quant.Once? then Fresh else Counting(s.list, s.quant);
        StageKnown(rules, s, after, Current() + Rest());
        if s.quant.Once? {
          ClosingPicks(rules, s, draws, duplicates);
        } else {
          ClosingCounts(rules, s, draws);
        }
      }
      if !Is(Lookahead(), '{') && !IsSymbol(Lookahead()) {
        picked := Select(duplicates);
      }
    }

    /** Reads a quantifier behind its first character and settles on a number. */
    method Settle(ghost s: Stage, ghost after: Text) returns (ghost s2: Stage)
      requires 0 <= currentIndex < |pattern|
      modifies this`currentIndex, this`error, this`quantifierValue, this`draws
      ensures old(currentIndex) <= currentIndex < |pattern| && (old(error) ==> error)
      ensures old(StageAt(Current() + Rest(), s, after)) && s.Counting? ==>
                && s2.Counted? && s2.list == s.list && quantifierValue == Int(s2.n)
                && StageLeads(rules, s, old(draws), [], s2, draws)
                && error == old(error) && !Is(Current(), ')') && Rest() == (if Symbol(s.quant) then after else [Of('}')] + after)
    {
      hide StageDue, StageLeads, QuantOk, RenderQuant, QuantNumber, Clamped, Symbol, IsSymbol;
      s2 := s;
      ghost var good := StageAt(Current() + Rest(), s, after) && s.Counting?;
      if good {
        ReadCounting(rules, s, after, Current(), Rest());
        StageKnown(rules, s, after, Current() + Rest());
        CountingSettles(rules, s, draws);
      }
      quantifierValue := GetQuantifier(if good then s.quant else Once, after);
      if good {
        s2 := Counted(s.list, quantifierValue.n);
      }
    }

    /** As many values as settled on are picked; for 0 the list is only emptied. */
    method PickCounted(ghost s: Stage) returns (picked: Text)
      modifies this`generatedValues, this`quantifierValue, this`draws
      ensures generatedValues == [] && quantifierValue == Int(1)
      ensures s.Counted? && old(quantifierValue) == Int(s.n) && old(generatedValues) == s.list ==>
                StageLeads(rules, s, old(draws), picked, Fresh, draws)
    {
      hide StageLeads, PickValues;
      if s.Counted? {
        CountedPicks(rules, s, draws);
        PickNone(s.list, draws, rules.allowDuplicates, rules.allowMultiple);
      }
      picked := [];
      if quantifierValue == Int(0) {
        generatedValues := [];
      } else {
        picked := Select(rules.allowDuplicates);
      }
      quantifierValue := Int(1);
    }

    /** `{`: a number is settled on. */
    method OpenBrace(ghost s: Stage, ghost after: Text) returns (ghost s2: Stage)
      requires 0 <= currentIndex < |pattern|
      modifies this`currentIndex, this`error, this`quantifierValue, this`draws
      ensures old(currentIndex) <= currentIndex < |pattern| && (old(error) ==> error)
      ensures old(StageAt(Current() + Rest(), s, after)) && s.Counting? && !Symbol(s.quant) ==>
                && StageAt(Rest(), s2, after) && s2.Counted? && StageLeads(rules, s, old(draws), [], s2, draws)
                && error == old(error) && !Is(Current(), ')')
    {
      hide StageDue, StageLeads, QuantOk, RenderQuant, Symbol, IsSymbol;
      if StageAt(Current() + Rest(), s, after) && s.Counting? {
        ReadCounting(rules, s, after, Current(), Rest());
      }
      s2 := Settle(s, after);
    }

    /** `}`: the values are picked. */
    method CloseBrace(ghost s: Stage, ghost after: Text) returns (picked: Text)
      requires 0 <= currentIndex < |pattern|
      modifies this`generatedValues, this`quantifierValue, this`draws
      ensures old(StageAt(Current() + Rest(), s, after)) && s.Counted? ==>
                StageAt(Rest(), Fresh, after) && StageLeads(rules, s, old(draws), picked, Fresh, draws)
    {
      hide StageDue, StageLeads;
      if StageAt(Current() + Rest(), s, after) && s.Counted? {
        ReadCounted(rules, s, after, Current(), Rest());
      }
      picked := PickCounted(s);
    }

    /** `+`, `*` and `?`: a number is settled on, and the values are picked. */
    method CountSymbol(ghost s: Stage, ghost after: Text) returns (picked: Text)
      requires 0 <= currentIndex < |pattern|
      modifies this`currentIndex, this`error, this`generatedValues, this`quantifierValue, this`draws
      ensures old(currentIndex) <= currentIndex < |pattern| && (old(error) ==> error)
      ensures old(StageAt(Current() + Rest(), s, after)) && s.Counting? && Symbol(s.quant) ==>
                && StageAt(Rest(), Fresh, after) && StageLeads(rules, s, old(draws), picked, Fresh, draws)
                && error == old(error) && !Is(Current(), ')')
    {
      hide StageDue, StageLeads, QuantOk, RenderQuant, Symbol, IsSymbol;
      ghost var good := StageAt(Current() + Rest(), s, after) && s.Counting? && Symbol(s.quant);
      if good {
        ReadCounting(rules, s, after, Current(), Rest());
      }
      ghost var s2 := Settle(s, after);
      ghost var middle := draws;
      picked := PickCounted(s2);
      if good {
        StageLeadsOn(rules, s, old(draws), [], s2, middle, picked, Fresh, draws);
        assert [] + picked == picked;
      }
    }

    /** The branches for `]`, `{`, `}` and the symbols, which are the same inside and outside a sequence. */
    method ReadStage(ghost s: Stage, ghost after: Text) returns (picked: Text, ghost s2: Stage)
      requires 0 <= currentIndex < |pattern|
      modifies this`currentIndex, this`error, this`generatedValues, this`quantifierValue, this`draws
      ensures old(currentIndex) <= currentIndex < |pattern| && (old(error) ==> error)
      ensures old(StageAt(Current() + Rest(), s, after)) && !s.Fresh? && (s.Closing? ==> s.bracket == Of(']')) ==>
                && StageAt(Rest(), s2, after) && StageLeads(rules, s, old(draws), picked, s2, draws)
                && error == old(error) && !Is(Current(), ')') && !s2.Closing?
    {
      hide StageDue, StageLeads, QuantOk, RenderQuant;
      picked, s2 := [], Fresh;
      if StageAt(Current() + Rest(), s, after) && !s.Fresh? && (s.Closing? ==> s.bracket == Of(']')) {
        StageFirst(rules, s, after, Current() + Rest());
        assert First(Current() + Rest()) == Current();
        SymbolsAre(s);
      }
      if Is(Current(), ']') {
        picked, s2 := CloseBracket(rules.allowDuplicates, s, after);
      } else if Is(Current(), '{') {
        s2 := OpenBrace(s, after);
      } else if Is(Current(), '}') {
        picked := CloseBrace(s, after);
      } else if IsSymbol(Current()) {
        picked := CountSymbol(s, after);
      }
    }

    // ---------- Sequences ----------

    /** The values in a random order, behind those already taken. */
    method GenerateAndString(values: Text, taken: Text) returns (out: Text)
      modifies this`draws
      ensures out == taken + Shuffle(values, old(draws)).0 && draws == Shuffle(values, old(draws)).1
      decreases |values|
    {
      hide Choice, Later;
      if values == [] {
        assert taken + [] == taken;
        return taken;
      }
      var r := Random(|values|);
      ghost var more := Shuffle(values[..r] + values[r + 1..], draws).0;
      assert (taken + [values[r]]) + more == taken + ([values[r]] + more);
      out := GenerateAndString(values[..r] + values[r + 1..], taken + [values[r]]);
    }

    /** The pointer is inside a sequence of which `p` is left. */
    ghost predicate InSequence(p: Spot, tail: Text)
      reads this
    {
      && currentIndex >= 0 && SpotDue(rules, p, tail, Rest()) && StageAt(Rest(), p.s, SpotAfter(p, tail)) && !Is(Current(), ')')
    }

    /** The character just read is the first of what is left of the sequence. */
    ghost predicate Reads(p: Spot, tail: Text)
      reads this
    {
      && currentIndex >= 0 && |Current()| == 1 && SpotDue(rules, p, tail, Current() + Rest())
      && StageAt(Current() + Rest(), p.s, SpotAfter(p, tail))
    }

    lemma ReadsKind(p: Spot, tail: Text)
      requires Reads(p, tail) && !(p.s.Fresh? && p.word == [])
      ensures SpotOk(rules, p)
      ensures var c := Current();
              && (Is(c, ']') || Is(c, '{') || Is(c, '}') || IsSymbol(c) <==> !p.s.Fresh?)
              && (Is(c, '[') <==> p.s.Fresh? && p.word[0].Pick?)
              && (Is(c, '/') <==> p.s.Fresh? && p.word[0].Broken?)
              && (p.s.Fresh? && p.word[0].Letter? ==> !IsOperator(c))
              && (p.s.Fresh? && p.word[0].Ignored? ==> IsOperator(c))
    {
      hide SpotAfter, StageAt, StageDue, IsOperator, IsSymbol, Behind;
      SpotKind(rules, p, tail, Current() + Rest());
      BehindFirst(Current(), Rest());
    }

    /** What the sequence comes to from here on, and what is written when it has been read. */
    ghost function Outcome(several: bool, said: Text, p: Spot): (seq<Text>, seq<nat>, Text)
      requires SpotOk(rules, p)
      reads this
    {
      var (list, later) := SpotRun(rules, temporaryValues, several, said, p, draws);
      (list, later, output + SpotCodes(rules, p))
    }

    lemma StageOn(p: Spot, s2: Stage, tail: Text, picked: Text, was: seq<nat>)
      requires SpotOk(rules, p) && First(tail) == [Of(')')] && StageAt(Rest(), s2, SpotAfter(p, tail)) && !s2.Closing?
      requires StageLeads(rules, p.s, was, picked, s2, draws) && currentIndex >= 0 && !Is(Current(), ')')
      ensures SpotOk(rules, p.(s := s2)) && InSequence(p.(s := s2), tail)
    {
      hide StageDue, SpotAfter, WordOk, StageOk, StageRun;
      SameAfter(p, s2, tail);
      StageKnown(rules, s2, SpotAfter(p, tail), Rest());
    }

    lemma SameOutcome(several: bool, said: Text, p: Spot, picked: Text, s2: Stage, was: seq<nat>)
      requires SpotOk(rules, p) && SpotOk(rules, p.(s := s2)) && StageLeads(rules, p.s, was, picked, s2, draws)
      ensures var (list, later) := SpotRun(rules, temporaryValues, several, said, p, was);
              Outcome(several, said + picked, p.(s := s2)) == (list, later, output + SpotCodes(rules, p))
    {
      SpotStage(rules, temporaryValues, several, said, p, was, picked, s2, draws);
    }

    /** A class or one of its quantifiers inside a sequence. */
    method ReadSequenceStage(ghost several: bool, ghost said: Text, ghost p: Spot, ghost tail: Text)
        returns (picked: Text, ghost p': Spot)
      requires 0 <= currentIndex < |pattern|
      modifies this`currentIndex, this`error, this`generatedValues, this`quantifierValue, this`draws
      ensures old(currentIndex) <= currentIndex < |pattern| && (old(error) ==> error)
      ensures old(Reads(p, tail)) && !p.s.Fresh? ==>
                && InSequence(p', tail) && error == old(error) && SpotOk(rules, p) && SpotOk(rules, p')
                && old(Outcome(several, said, p)) == Outcome(several, said + picked, p')
    {
      hide StageDue, StageLeads, SpotRun, SpotAfter, SpotOk, WordOk, StageOk, InSequence, SpotDue, First;
      ghost var good := Reads(p, tail) && !p.s.Fresh?;
      if good {
        SpotIsOk(rules, p, tail, Current() + Rest());
        SpotKnown(rules, p);
      }
      ghost var s2;
      picked, s2 := ReadStage(p.s, SpotAfter(p, tail));
      p' := p.(s := s2);
      if good {
        StageOn(p, s2, tail, picked, old(draws));
        SameOutcome(several, said, p, picked, s2, old(draws));
      }
    }

    lemma OpensClass(several: bool, said: Text, p: Spot, tail: Text) returns (parts: seq<Part>, behind: Text, p': Spot)
      requires Reads(p, tail) && p.s.Fresh? && p.word != [] && p.word[0].Pick?
      ensures ClassOk(parts) && parts != [] && LastOf(parts[|parts| - 1]) != Of(')')
      ensures First(behind) == [Of(']')] && Rest() == RenderParts(parts) + behind && generatedValues == [] && quantifierValue == Int(1)
      ensures p'.s.Closing? && p'.s.list == ClassValues(rules, parts) && SpotDue(rules, p', tail, behind)
      ensures SpotOk(rules, p) && SpotOk(rules, p')
      ensures SpotRun(rules, temporaryValues, several, said, p, draws) == SpotRun(rules, temporaryValues, several, said, p', draws)
      ensures output + SpotCodes(rules, p) == (output + Codes(rules, parts)) + SpotCodes(rules, p')
    {
      hide SpotDue, SpotRun, SpotAfter, SpotOk, ClassOk, RenderParts, RenderQuant, ClassValues, First, Behind, StageDue, Codes, SpotCodes;
      var text := Current() + Rest();
      ReadPick(rules, p, tail, text);
      BehindFirst(Current(), Rest());
      SpotIsOk(rules, p, tail, text);
      SpotPick(rules, temporaryValues, several, said, p, draws);
      var q, after := p.word[0].quant, SpotAfter(p.(word := p.word[1..]), tail);
      parts, behind := p.word[0].parts, [Of(']')] + (RenderQuant(q) + after);
      p' := p.(s := Closing(Of(']'), ClassValues(rules, parts), q), word := p.word[1..]);
      Peel(Of(']'), RenderQuant(q) + after);
      ClassHasParts(parts);
      CodesOfPick(rules, p, p', output);
    }

    lemma ClassRead(p: Spot, tail: Text, behind: Text)
      requires currentIndex >= 0 && p.s.Closing? && SpotDue(rules, p, tail, behind) && Rest() == behind
      requires generatedValues == p.s.list && quantifierValue == Int(1) && !Is(Current(), ')')
      ensures InSequence(p, tail)
    {
      hide SpotAfter, StageDue, SpotOk;
    }

    /** `[` inside a sequence. */
    method ReadSequenceClass(ghost several: bool, ghost said: Text, ghost p: Spot, ghost tail: Text, ghost first: Piece)
        returns (ghost p': Spot)
      requires 0 <= currentIndex < |pattern| && Is(Current(), '[')
      modifies this`currentIndex, this`error, this`generatedValues, this`output
      ensures old(currentIndex) < currentIndex <= |pattern| + 1 && (old(error) || currentIndex > |pattern| ==> error)
      ensures old(Reads(p, tail)) && p.s.Fresh? && p.word != [] && p.word[0].Pick? ==>
                && InSequence(p', tail) && error == old(error) && SpotOk(rules, p) && SpotOk(rules, p')
                && old(Outcome(several, said, p)) == Outcome(several, said, p')
      ensures p.word == [] && first.Pick? && ClassOk(first.parts) && First(tail) == [Of(']')] &&
              old(Rest()) == RenderParts(first.parts) + tail ==>
                && Rest() == tail && first.parts != [] && Current() == [LastOf(first.parts[|first.parts| - 1])]
                && error == old(error) && generatedValues == old(generatedValues) + ClassValues(rules, first.parts)
    {
      hide SpotDue, SpotRun, SpotAfter, SpotOk, ClassOk, RenderParts, ClassValues, First, InSequence, Reads, LastOf, StageAt;
      hide Codes, SpotCodes;
      p' := p;
      ghost var parts, behind := if first.Pick? then first.parts else [], tail;
      ghost var good := Reads(p, tail) && p.s.Fresh? && p.word != [] && p.word[0].Pick?;
      if good {
        parts, behind, p' := OpensClass(several, said, p, tail);
      }
      ghost var read := GetCharacterSet(parts, behind);
      if ClassOk(parts) {
        ClassHasParts(parts);
      }
      if good {
        assert [] + ClassValues(rules, parts) == ClassValues(rules, parts);
        ClassRead(p', tail, behind);
      }
    }

    lemma BehindSeparator(p: Spot, tail: Text)
      requires currentIndex >= 0 && SpotDue(rules, p, tail, Rest()) && p.s.Fresh? && !Is(Current(), ')')
      requires generatedValues == [] && quantifierValue == Int(1)
      ensures InSequence(p, tail)
    {
      hide SpotAfter, StageDue, SpotOk;
    }

    lemma PieceAhead(several: bool, said: Text, p: Spot, tail: Text) returns (p': Spot)
      requires Reads(p, tail) && p.s.Fresh? && p.word != [] && !p.word[0].Pick?
      ensures p'.s.Fresh? && SpotOk(rules, p) && SpotOk(rules, p') && SpotDue(rules, p', tail, SpotAfter(p', tail))
      ensures generatedValues == [] && quantifierValue == Int(1)
      ensures Is(Current(), '/') <==> p.word[0].Broken?
      ensures p.word[0].Broken? ==> Rest() == [p.word[0].c] + SpotAfter(p', tail) && p.word[0].c != Of(')')
      ensures !p.word[0].Broken? ==> Rest() == SpotAfter(p', tail) && !Is(Current(), ')') && Current() == [p.word[0].c]
      ensures p.word[0].Letter? ==> !IsOperator(Current())
      ensures p.word[0].Ignored? ==> IsOperator(Current())
      ensures Outcome(several, said, p) == Outcome(several, said + (if p.word[0].Ignored? then [] else [p.word[0].c]), p')
    {
      hide SpotDue, SpotRun, SpotAfter, SpotOk, StageDue, First, Behind, IsOperator, PieceOk, SpotCodes;
      var text := Current() + Rest();
      p' := p.(word := p.word[1..]);
      ReadsKind(p, tail);
      ReadPiece(rules, p, tail, text);
      BehindFirst(Current(), Rest());
      SpotPiece(rules, temporaryValues, several, said, p, draws);
      NoDraw(rules, p.word[0], draws);
      PieceNotClosing(rules, p.word[0]);
      CodesOfOther(rules, p);
    }

    /** A letter, a slash and its character, or an operator that is ignored. */
    method ReadSequencePiece(ghost several: bool, ghost said: Text, ghost p: Spot, ghost tail: Text)
        returns (picked: Text, ghost p': Spot)
      requires 0 <= currentIndex < |pattern|
      modifies this`currentIndex
      ensures old(currentIndex) <= currentIndex <= |pattern|
      ensures Is(old(Current()), '/') ==> currentIndex == old(currentIndex) + 1
      ensures old(Reads(p, tail)) && p.s.Fresh? && p.word != [] && !p.word[0].Pick? ==>
                && InSequence(p', tail) && SpotOk(rules, p) && SpotOk(rules, p')
                && old(Outcome(several, said, p)) == Outcome(several, said + picked, p')
    {
      hide SpotDue, SpotRun, SpotAfter, SpotOk, First, Behind, IsOperator, Reads, InSequence;
      picked, p' := [], p;
      ghost var good := Reads(p, tail) && p.s.Fresh? && p.word != [] && !p.word[0].Pick?;
      if good {
        p' := PieceAhead(several, said, p, tail);
        Peel(p.word[0].c, SpotAfter(p', tail));
      }
      if Is(Current(), '/') {
        picked := Next();
      } else if !IsOperator(Current()) {
        picked := Current();
      }
      if good {
        BehindSeparator(p', tail);
      }
    }

    /**
      The pointer is on the parenthesis of a sequence that begins with a piece whose last
      character is a parenthesis; `tail` is behind that piece, or behind the parts of its class.
     */
    ghost predicate AtParenthesis(first: Piece, tail: Text)
      reads this
    {
      && currentIndex >= 0 && Is(Current(), '(')
      && match first
         case Broken(c) => c == Of(')') && Rest() == [Of('/')] + ([c] + tail)
         case Pick(ps, _) =>
           ClassOk(ps) && LastOf(ps[|ps| - 1]) == Of(')') && First(tail) == [Of(']')] && Rest() == [Of('[')] + (RenderParts(ps) + tail)
         case _ => false
    }

    lemma ParenthesisAhead(first: Piece, tail: Text)
      requires AtParenthesis(first, tail)
      ensures first.Broken? || first.Pick?
      ensures first.Broken? ==> Is(Lookahead(), '/') && Behind(Rest()) == [Of(')')] + tail
      ensures first.Pick? ==>
                && Is(Lookahead(), '[') && Behind(Rest()) == RenderParts(first.parts) + tail && First(tail) == [Of(']')]
                && ClassOk(first.parts) && first.parts != [] && LastOf(first.parts[|first.parts| - 1]) == Of(')')
    {
      hide RenderParts, LastOf, PartsOk;
      if first.Broken? {
        Peel(Of('/'), [first.c] + tail);
      } else {
        Peel(Of('['), RenderParts(first.parts) + tail);
      }
    }

    /** The character just read is the first of such a piece. */
    ghost predicate ReadsParenthesis(first: Piece, tail: Text)
      reads this
    {
      || (first.Broken? && Is(Current(), '/') && Rest() == [Of(')')] + tail)
      || (first.Pick? && Is(Current(), '[') && ClassOk(first.parts) && first.parts != [] && LastOf(first.parts[|first.parts| - 1]) == Of(')')
          && First(tail) == [Of(']')] && Rest() == RenderParts(first.parts) + tail)
    }

    /** The arms of `generateSequence` for a character that is no separator, when it has been read. */
    method TakeSequenceCharacter(ghost several: bool, ghost said: Text, ghost p: Spot, ghost tail: Text, ghost first: Piece)
        returns (picked: Text, ghost p': Spot)
      requires 0 <= currentIndex < |pattern|
      modifies this`currentIndex, this`error, this`generatedValues, this`quantifierValue, this`output, this`draws
      ensures old(currentIndex) <= currentIndex <= |pattern| + 1 && (old(error) || currentIndex > |pattern| ==> error)
      ensures old(Reads(p, tail)) && !(p.s.Fresh? && p.word == []) ==>
                && InSequence(p', tail) && error == old(error) && SpotOk(rules, p) && SpotOk(rules, p')
                && old(Outcome(several, said, p)) == Outcome(several, said + picked, p')
      ensures old(ReadsParenthesis(first, tail)) && p.word == [] ==>
                && Is(Current(), ')') && Rest() == tail && error == old(error)
                && generatedValues == (if first.Pick? then old(generatedValues) + ClassValues(rules, first.parts) else old(generatedValues))
    {
      hide SpotOk, First, IsOperator, IsSymbol, ClassOk, RenderParts, ClassValues, LastOf, Reads, InSequence, Outcome;
      picked := [];
      if Reads(p, tail) && !(p.s.Fresh? && p.word == []) {
        ReadsKind(p, tail);
      }
      SlashIsNoSymbol();
      Peel(Of(')'), tail);
      assert said + [] == said;
      if Is(Current(), '[') {
        p' := ReadSequenceClass(several, said, p, tail, first);
      } else if Is(Current(), ']') || Is(Current(), '{') || Is(Current(), '}') || IsSymbol(Current()) {
        picked, p' := ReadSequenceStage(several, said, p, tail);
      } else {
        picked, p' := ReadSequencePiece(several, said, p, tail);
      }
    }

    lemma ReadsNext(p: Spot, tail: Text, rest: Text)
      requires currentIndex >= 0 && |Current()| == 1 && Current() == First(rest) && Rest() == Behind(rest)
      requires SpotDue(rules, p, tail, rest) && StageAt(rest, p.s, SpotAfter(p, tail))
      ensures Reads(p, tail)
    {
      hide SpotDue, StageAt, SpotAfter, First, Behind;
      FirstBehind(rest);
    }

    /** The arm of `generateSequence` for any character that is no separator. */
    method ReadSequenceCharacter(ghost several: bool, ghost said: Text, ghost p: Spot, ghost tail: Text, ghost first: Piece)
        returns (picked: Text, ghost p': Spot)
      requires 0 <= currentIndex && Lookahead() != []
      modifies this`currentIndex, this`error, this`generatedValues, this`quantifierValue, this`output, this`draws
      ensures old(currentIndex) < currentIndex <= |pattern| + 1 && (old(error) || currentIndex > |pattern| ==> error)
      ensures old(InSequence(p, tail)) && !(p.s.Fresh? && p.word == []) ==>
                && InSequence(p', tail) && error == old(error) && SpotOk(rules, p) && SpotOk(rules, p')
                && old(Outcome(several, said, p)) == Outcome(several, said + picked, p')
      ensures old(AtParenthesis(first, tail)) && p.word == [] ==>
                && Is(Current(), ')') && Rest() == tail && error == old(error)
                && generatedValues == (if first.Pick? then old(generatedValues) + ClassValues(rules, first.parts) else old(generatedValues))
    {
      hide SpotDue, SpotRun, SpotAfter, SpotOk, SpotCodes, First, Behind, AtParenthesis, ClassOk, RenderParts, ClassValues, LastOf, Reads, StageDue;
      ghost var rest := Rest();
      if AtParenthesis(first, tail) {
        ParenthesisAhead(first, tail);
      }
      var c := Next();
      if old(InSequence(p, tail)) {
        ReadsNext(p, tail, rest);
      }
      picked, p' := TakeSequenceCharacter(several, said, p, tail, first);
    }

    /** `several`: an ampersand was read in the alternative at hand; `bars`: a bar was read in the sequence. */
    ghost predicate Joins(several: bool, bars: bool, last: Joiner, joined: Option<Text>, values: seq<Text>) {
      && last == (if several then And else if bars then Or else NoneYet) && (several || bars || values == [])
      && (if several then joined.Some? else joined == None || joined == Some([]))
    }

    /** The letters of the alternative at hand. */
    function Said(word: Text, joined: Option<Text>): Text {
      if joined.Some? then joined.value + word else word
    }

    method ShuffleWord(t: Text) returns (u: Text)
      modifies this`draws
      ensures u == Shuffle(t, old(draws)).0 && draws == Shuffle(t, old(draws)).1
    {
      hide Shuffle;
      u := GenerateAndString(t, []);
    }

    /** A bar ahead: the alternative at hand is complete. */
    method EndAlternative(word: Text, last: Joiner, joined: Option<Text>, ghost several: bool, ghost bars: bool)
        returns (joined': Option<Text>)
      modifies this`generatedValues, this`temporaryValues, this`draws
      ensures Joins(several, bars, last, joined, old(temporaryValues)) && old(generatedValues) == [] ==>
                && draws == Finish(several, Said(word, joined), old(draws)).1 && generatedValues == []
                && temporaryValues == old(temporaryValues) + Finish(several, Said(word, joined), old(draws)).0
                && (joined' == None || joined' == Some([]))
    {
      hide Shuffle;
      joined' := joined;
      if last != And {
        assert [] + word == word;
        if word != [] {
          temporaryValues := temporaryValues + [word];
        }
      } else {
        var u := ShuffleWord(Said(word, joined));
        generatedValues, joined' := generatedValues + [u], Some([]);
        assert old(generatedValues) == [] ==> generatedValues == [u];
        temporaryValues, generatedValues := temporaryValues + generatedValues, [];
      }
    }

    /** The closing parenthesis ahead: the sequence is complete. */
    method EndSequence(word: Text, last: Joiner, joined: Option<Text>, ghost several: bool, ghost bars: bool)
      modifies this`generatedValues, this`temporaryValues, this`draws
      ensures Joins(several, bars, last, joined, old(temporaryValues)) && old(generatedValues) == [] ==>
                && draws == Finish(several, Said(word, joined), old(draws)).1
                && generatedValues + temporaryValues ==
                   Arranged(several, old(temporaryValues), Finish(several, Said(word, joined), old(draws)).0)
    {
      hide Shuffle;
      assert [] + word == word;
      if last == And {
        var u := ShuffleWord(Said(word, joined));
        generatedValues := generatedValues + [u];
        assert old(generatedValues) == [] ==> generatedValues == [u];
      } else if word != [] {
        if last == Or {
          temporaryValues := temporaryValues + [word];
        } else {
          generatedValues := generatedValues + [word];
        }
      }
    }

    /** What a separator or the closing parenthesis ahead makes of the word at hand. */
    method CompleteWord(word: Text, last: Joiner, joined: Option<Text>, ghost several: bool, ghost bars: bool)
        returns (last': Joiner, joined': Option<Text>)
      requires Is(Lookahead(), '|') || Is(Lookahead(), '&') || Is(Lookahead(), ')')
      modifies this`generatedValues, this`temporaryValues, this`draws
      ensures Joins(several, bars, last, joined, old(temporaryValues)) && old(generatedValues) == [] ==>
                if Is(Lookahead(), '&') then
                  && draws == old(draws) && generatedValues == [] && temporaryValues == old(temporaryValues)
                  && Joins(true, bars, last', joined', temporaryValues) && Said([], joined') == Said(word, joined)
                else
                  var (vals, later) := Finish(several, Said(word, joined), old(draws));
                  && draws == later
                  && if Is(Lookahead(), '|') then
                       && generatedValues == [] && temporaryValues == old(temporaryValues) + vals
                       && Joins(false, true, last', joined', temporaryValues) && Said([], joined') == []
                     else generatedValues + temporaryValues == Arranged(several, old(temporaryValues), vals)
    {
      hide Finish, Arranged;
      last', joined' := last, joined;
      if Is(Lookahead(), '&') {
        last', joined' := And, Some(Said(word, joined));
        assert Said(word, joined) + [] == Said(word, joined);
      } else if Is(Lookahead(), '|') {
        joined' := EndAlternative(word, last, joined, several, bars);
        last' := Or;
      } else {
        EndSequence(word, last, joined, several, bars);
      }
    }

    lemma AtSeparator(p: Spot, tail: Text)
      requires InSequence(p, tail)
      ensures SpotOk(rules, p) && SpotDue(rules, p, tail, Rest())
      ensures Is(Lookahead(), '|') || Is(Lookahead(), '&') || Is(Lookahead(), ')') ==>
                && p.s.Fresh? && p.word == [] && generatedValues == [] && quantifierValue == Int(1)
                && if Is(Lookahead(), '&') then p.words != []
                   else p.words == [] && if Is(Lookahead(), '|') then p.alts != [] else p.alts == []
    {
      hide SpotAfter, StageDue, IsSymbol, IsOperator;
      SpotKind(rules, p, tail, Rest());
    }

    /** The arm of `generateSequence` for a separator or the closing parenthesis ahead. */
    method JoinWord(word: Text, last: Joiner, joined: Option<Text>, ghost several: bool, ghost bars: bool, ghost p: Spot, ghost tail: Text)
        returns (last': Joiner, joined': Option<Text>, stop: bool, ghost several': bool, ghost bars': bool, ghost p': Spot)
      requires 0 <= currentIndex < |pattern|
      requires Is(Lookahead(), '|') || Is(Lookahead(), '&') || Is(Lookahead(), ')')
      modifies this`currentIndex, this`generatedValues, this`temporaryValues, this`draws
      ensures if stop then currentIndex == old(currentIndex) else currentIndex == old(currentIndex) + 1
      ensures currentIndex <= |pattern| && stop == Is(old(Lookahead()), ')')
      ensures old(InSequence(p, tail)) && Joins(several, bars, last, joined, old(temporaryValues)) ==>
                && SpotOk(rules, p)
                && if stop then
                     && Rest() == tail && quantifierValue == Int(1)
                     && (generatedValues + temporaryValues, draws, output) == old(Outcome(several, Said(word, joined), p))
                   else
                     && InSequence(p', tail) && SpotOk(rules, p') && Joins(several', bars', last', joined', temporaryValues)
                     && Outcome(several', Said([], joined'), p') == old(Outcome(several, Said(word, joined), p))
    {
      hide SpotRun, SpotOk, SpotDue, SpotAfter, InSequence, Joins, Said, Finish, Arranged, First, Behind, SpotCodes;
      ghost var good, said, was := InSequence(p, tail) && Joins(several, bars, last, joined, temporaryValues), Said(word, joined), draws;
      stop := Is(Lookahead(), ')');
      several', bars', p' := several, bars, p;
      if good {
        AtSeparator(p, tail);
        CodesOfSeparator(rules, p);
        if Is(Lookahead(), '&') {
          SpotAmpersand(rules, temporaryValues, several, said, p, draws);
          ReadAmpersand(rules, p, tail, Rest());
          several', p' := true, p.(word := p.words[0], words := p.words[1..]);
        } else if Is(Lookahead(), '|') {
          SpotBar(rules, temporaryValues, several, said, p, draws);
          ReadBar(rules, p, tail, Rest());
          several', bars', p' := false, true, Opened(p.alts);
        } else {
          SpotEnd(rules, temporaryValues, several, said, p, draws);
          ReadEnd(rules, p, tail, Rest());
        }
      }
      last', joined' := CompleteWord(word, last, joined, several, bars);
      if !stop {
        var c := Next();
        if good {
          BehindSeparator(p', tail);
        }
      }
    }

    /** The pointer is on the parenthesis of a sequence, and nothing has been collected. */
    ghost predicate AtSequence(alts: seq<seq<Word>>, tail: Text)
      reads this
    {
      && alts != [] && AltsOk(rules, alts) && First(tail) == [Of(')')]
      && currentIndex >= 0 && Is(Current(), '(') && Rest() == RenderAlts(alts) + tail
      && generatedValues == [] && temporaryValues == [] && quantifierValue == Int(1)
    }

    /** What the whole sequence comes to. */
    ghost function AllOf(alts: seq<seq<Word>>): (seq<Text>, seq<nat>, Text)
      requires alts != [] && AltsOk(rules, alts)
      reads this
    {
      var (list, later) := EvaluateAlts(rules, [], alts, draws);
      (list, later, output + AltsCodes(rules, alts))
    }

    lemma SequenceStarts(alts: seq<seq<Word>>, tail: Text)
      requires AtSequence(alts, tail)
      ensures InSequence(Opened(alts), tail) && !Is(Current(), ')') && SpotOk(rules, Opened(alts))
      ensures Joins(false, false, NoneYet, None, temporaryValues)
      ensures Outcome(false, [], Opened(alts)) == AllOf(alts)
    {
      hide SpotAfter, StageDue, SpotOk, SpotRun, AltsOk, EvaluateAlts, SpotCodes, AltsCodes;
      CodesOfAlts(rules, alts);
      SequenceDue(rules, alts, tail);
      OpenedRun(rules, [], alts, draws);
      BehindSeparator(Opened(alts), tail);
    }

    lemma SequenceKnown(alts: seq<seq<Word>>, tail: Text)
      requires AtSequence(alts, tail)
      ensures alts != [] && AltsOk(rules, alts)
    {
    }

    lemma SequenceAhead(p: Spot, tail: Text)
      requires InSequence(p, tail)
      ensures !Is(Current(), ')') && Lookahead() != []
      ensures p.s.Fresh? && p.word == [] <==> Is(Lookahead(), '|') || Is(Lookahead(), ')') || Is(Lookahead(), '&')
    {
      hide SpotAfter, StageDue, IsSymbol, IsOperator, StageAt;
      SpotKind(rules, p, tail, Rest());
    }

    lemma SaidNothing(word: Text)
      ensures Said(word, None) == word
    {
    }

    lemma SaidMore(word: Text, picked: Text, joined: Option<Text>)
      ensures Said(word, joined) + picked == Said(word + picked, joined)
    {
      if joined.Some? {
        assert (joined.value + word) + picked == joined.value + (word + picked);
      }
    }

    lemma ParenthesisNext(first: Piece, tail: Text)
      requires AtParenthesis(first, tail)
      ensures !Is(Current(), ')') && (Is(Lookahead(), '/') || Is(Lookahead(), '['))
    {
      hide RenderParts, LastOf, ClassOk;
      ParenthesisAhead(first, tail);
    }

    /**
      Reads a sequence from its parenthesis on, up to the closing one; where there is none
      it ends with an error. What it leaves is the list that the sequence comes to. A first piece that ends in a parenthesis ends
      the sequence: the word is lost, and the values of a class are left as they are.
     */
    method GenerateSequence(ghost alts: seq<seq<Word>>, ghost tail: Text, ghost first: Piece)
      requires 0 <= currentIndex < |pattern|
      modifies this
      ensures old(currentIndex) <= currentIndex <= |pattern| + 1
      ensures old(error) || currentIndex > |pattern| ==> error
      ensures error || Is(Current(), ')') || Is(Lookahead(), ')')
      ensures old(AtSequence(alts, tail)) ==>
                && Rest() == tail && alts != [] && AltsOk(rules, alts)
                && (generatedValues + temporaryValues, draws) == EvaluateAlts(rules, [], alts, old(draws))
                && output == old(output) + AltsCodes(rules, alts) && quantifierValue == Int(1) && error == old(error)
      ensures old(AtParenthesis(first, tail)) && !old(AtSequence(alts, tail)) ==>
                && Rest() == tail && error == old(error) && temporaryValues == old(temporaryValues)
                && generatedValues == (if first.Pick? then old(generatedValues) + ClassValues(rules, first.parts) else old(generatedValues))
    {
      hide AtSequence, AltsOk, EvaluateAlts, InSequence, Joins, Said, Outcome, SpotOk, First, Opened, AtParenthesis, ClassValues, AltsCodes;
      ghost var good := AtSequence(alts, tail);
      ghost var ends := AtParenthesis(first, tail) && !good;
      ghost var left := if first.Pick? then generatedValues + ClassValues(rules, first.parts) else generatedValues;
      ghost var p, several, bars := Spot(Fresh, [], [], []), false, false;
      if good {
        SequenceKnown(alts, tail);
        SequenceStarts(alts, tail);
        p := Opened(alts);
      }
      var word: Text, last, joined: Option<Text> := [], NoneYet, None;
      SaidNothing(word);
      if ends {
        ParenthesisNext(first, tail);
      }
      while !Is(Current(), ')')
        invariant old(currentIndex) <= currentIndex <= |pattern| + 1
        invariant old(error) || currentIndex > |pattern| ==> error
        invariant good ==> InSequence(p, tail) && Joins(several, bars, last, joined, temporaryValues) && SpotOk(rules, p) && !Is(Current(), ')')
        invariant good ==> Outcome(several, Said(word, joined), p) == old(AllOf(alts)) && error == old(error)
        invariant ends ==> error == old(error) && temporaryValues == old(temporaryValues)
        invariant ends ==>
                    || (currentIndex == old(currentIndex) && AtParenthesis(first, tail) && generatedValues == old(generatedValues) && p.word == [])
                    || (Is(Current(), ')') && Rest() == tail && generatedValues == left)
        decreases |pattern| + 1 - currentIndex
      {
        if good {
          SequenceAhead(p, tail);
        }
        if ends {
          ParenthesisNext(first, tail);
        }
        if Is(Lookahead(), '|') || Is(Lookahead(), ')') || Is(Lookahead(), '&') {
          var stop;
          last, joined, stop, several, bars, p := JoinWord(word, last, joined, several, bars, p, tail);
          if stop {
            break;
          }
          word := [];
        } else if Lookahead() != [] {
          var picked;
          picked, p := ReadSequenceCharacter(several, Said(word, joined), p, tail, first);
          SaidMore(word, picked, joined);
          word := word + picked;
        } else {
          error := true;
          break;
        }
        if good {
          SequenceAhead(p, tail);
        }
      }
    }

    lemma BrokenStarts(c: Unit, tail: Text)
      requires 0 <= currentIndex < |pattern| && Is(Current(), '(')
      requires Rest() == [Of('/')] + ([c] + tail) && First(tail) == [Of(')')]
      requires generatedValues == [] && temporaryValues == [] && quantifierValue == Int(1)
      ensures c != Of(')') ==> AtSequence([[[Broken(c)]]], tail)
      ensures c == Of(')') ==> AtParenthesis(Broken(c), tail) && !AtSequence([[[Broken(c)]]], tail)
    {
      hide AltsOk, RenderAlts, EvaluateAlts, ClassOk, RenderParts, LastOf, First;
      OneBroken(rules, c, draws);
      assert [Of('/'), c] + tail == [Of('/')] + ([c] + tail);
    }

    /** A sequence of one broken character: it leaves that character exactly if it is no parenthesis. */
    method GenerateBrokenCharacter(ghost c: Unit, ghost tail: Text)
      requires 0 <= currentIndex < |pattern| && Is(Current(), '(') && !error
      requires Rest() == [Of('/')] + ([c] + tail) && First(tail) == [Of(')')]
      requires generatedValues == [] && temporaryValues == [] && quantifierValue == Int(1)
      modifies this
      ensures Rest() == tail && !error
      ensures generatedValues + temporaryValues == [[c]] <==> c != Of(')')
      ensures c == Of(')') ==> generatedValues == [] && temporaryValues == []
    {
      hide AtSequence, AtParenthesis, EvaluateAlts, AltsOk;
      ghost var alts := [[[Broken(c)]]];
      OneBroken(rules, c, draws);
      BrokenStarts(c, tail);
      GenerateSequence(alts, tail, Broken(c));
    }

    // ---------- The scanner ----------

    /** `text` is to be read: the rest of an item whose values have been collected, and more items. */
    ghost predicate At(text: Text, s: Stage, items: seq<Item>)
      reads this
    {
      && Due(rules, s, items, text)
      && quantifierValue == (if s.Counted? then Int(s.n) else Int(1))
      && if s.Closing? && s.bracket == Of(')') then generatedValues + temporaryValues == s.list
         else temporaryValues == [] && generatedValues == (if s.Fresh? then [] else s.list)
    }

    /** The stages outside a sequence are those of its groups. */
    lemma AtIsStage(text: Text, s: Stage, items: seq<Item>)
      ensures PatternOk(rules, items) && StageAt(text, s, Render(items)) && temporaryValues == [] && !(s.Closing? && s.bracket == Of(')')) ==>
                At(text, s, items)
      ensures At(text, s, items) ==> PatternOk(rules, items) && StageDue(rules, s, Render(items), text)
      ensures At(text, s, items) && !(s.Closing? && s.bracket == Of(')')) ==>
                StageAt(text, s, Render(items)) && temporaryValues == []
    {
      hide StageDue, Render, PatternOk;
    }

    lemma ClassOpens(s: Stage, items: seq<Item>) returns (parts: seq<Part>, tail: Text)
      requires At(Current() + Rest(), s, items) && Is(Current(), '[')
      ensures s.Fresh? && items != [] && PatternOk(rules, items) && items[0].Group? && items[0].body == Class(parts)
      ensures ClassOk(parts) && tail == [Of(']')] + AfterGroup(items) && First(tail) == [Of(']')]
      ensures Rest() == RenderParts(parts) + tail && generatedValues == [] && temporaryValues == [] && quantifierValue == Int(1)
    {
      hide Due, PatternOk, First, RenderParts, ClassOk, AfterGroup;
      ReadOpening(rules, s, items, Current(), Rest());
      parts, tail := items[0].body.parts, [Of(']')] + AfterGroup(items);
      Peel(Of(']'), AfterGroup(items));
    }

    lemma ClassCollected(s: Stage, items: seq<Item>, parts: seq<Part>) returns (s2: Stage, items2: seq<Item>)
      requires s.Fresh? && items != [] && PatternOk(rules, items) && items[0].Group? && items[0].body == Class(parts)
      requires ClassOk(parts) && Rest() == [Of(']')] + AfterGroup(items)
      requires generatedValues == ClassValues(rules, parts) && temporaryValues == [] && quantifierValue == Int(1)
      ensures At(Rest(), s2, items2) && Leads(rules, s, items, draws, Codes(rules, parts), s2, items2, draws)
    {
      hide Codes, Due, PatternOk, Leads, ClassOk, AfterGroup, ClassValues, StageOk;
      s2, items2 := Closing(Of(']'), generatedValues, items[0].quant), items[1..];
      ClosingDue(rules, Of(']'), generatedValues, items);
      DueOk(rules, s2, items2, Rest());
      GroupLeads(rules, items, draws, generatedValues, s2, draws);
    }

    /** `[`: the class is read, and its bracket comes next. */
    method OpenClass(ghost s: Stage, ghost items: seq<Item>)
        returns (ghost s2: Stage, ghost items2: seq<Item>, ghost emitted: Text)
      requires 0 <= currentIndex < |pattern| && Is(Current(), '[')
      modifies this
      ensures old(currentIndex) <= currentIndex <= |pattern| + 1 && (old(error) || currentIndex > |pattern| ==> error)
      ensures old(At(Current() + Rest(), s, items)) ==>
                && At(Rest(), s2, items2) && Leads(rules, s, items, old(draws), emitted, s2, items2, draws)
                && output == old(output) + emitted && error == old(error)
    {
      hide At, Leads, First, ClassValues, Codes, RenderParts, ClassOk, AfterGroup, LastOf, BodyOk, PatternOk;
      s2, items2, emitted := s, items, [];
      ghost var good := At(Current() + Rest(), s, items);
      ghost var parts: seq<Part>, tail: Text := [], [];
      if good {
        parts, tail := ClassOpens(s, items);
      }
      ghost var read := GetCharacterSet(parts, tail);
      if good {
        assert [] + ClassValues(rules, parts) == ClassValues(rules, parts);
        s2, items2 := ClassCollected(s, items, parts);
        emitted := Codes(rules, parts);
      }
    }

    lemma SequenceOpens(s: Stage, items: seq<Item>) returns (alts: seq<seq<Word>>, tail: Text)
      requires At(Current() + Rest(), s, items) && Is(Current(), '(')
      ensures s.Fresh? && items != [] && PatternOk(rules, items) && items[0].Group? && items[0].body == Sequence(alts)
      ensures tail == [Of(')')] + AfterGroup(items) && AtSequence(alts, tail)
    {
      hide Due, PatternOk, First, RenderAlts, AltsOk, AfterGroup;
      ReadOpening(rules, s, items, Current(), Rest());
      alts, tail := items[0].body.alts, [Of(')')] + AfterGroup(items);
      Peel(Of(')'), AfterGroup(items));
    }

    lemma SequenceCollected(s: Stage, items: seq<Item>, alts: seq<seq<Word>>, was: seq<nat>)
        returns (s2: Stage, items2: seq<Item>)
      requires s.Fresh? && items != [] && PatternOk(rules, items) && items[0].Group? && items[0].body == Sequence(alts)
      requires alts != [] && AltsOk(rules, alts) && Rest() == [Of(')')] + AfterGroup(items) && quantifierValue == Int(1)
      requires (generatedValues + temporaryValues, draws) == EvaluateAlts(rules, [], alts, was)
      ensures At(Rest(), s2, items2) && Leads(rules, s, items, was, AltsCodes(rules, alts), s2, items2, draws)
    {
      hide AltsCodes, Due, PatternOk, Leads, AltsOk, AfterGroup, EvaluateAlts, StageOk;
      var list := generatedValues + temporaryValues;
      s2, items2 := Closing(Of(')'), list, items[0].quant), items[1..];
      ClosingDue(rules, Of(')'), list, items);
      DueOk(rules, s2, items2, Rest());
      GroupLeads(rules, items, was, list, s2, draws);
    }

    /** `(`: the sequence is read, and its parenthesis comes next. */
    method OpenSequence(ghost s: Stage, ghost items: seq<Item>)
        returns (ghost s2: Stage, ghost items2: seq<Item>, ghost emitted: Text)
      requires 0 <= currentIndex < |pattern| && Is(Current(), '(')
      modifies this
      ensures old(currentIndex) <= currentIndex <= |pattern| + 1 && (old(error) || currentIndex > |pattern| ==> error)
      ensures old(At(Current() + Rest(), s, items)) ==>
                && At(Rest(), s2, items2) && Leads(rules, s, items, old(draws), emitted, s2, items2, draws)
                && output == old(output) + emitted && error == old(error)
    {
      hide At, PatternOk, Leads, AltsOk, AltsCodes, AfterGroup, EvaluateAlts, AtSequence;
      s2, items2, emitted := s, items, [];
      ghost var good := At(Current() + Rest(), s, items);
      ghost var alts: seq<seq<Word>>, tail: Text := [], [];
      if good {
        alts, tail := SequenceOpens(s, items);
      }
      GenerateSequence(alts, tail, Ignored(0));
      if good {
        s2, items2 := SequenceCollected(s, items, alts, old(draws));
        emitted := AltsCodes(rules, alts);
      }
    }

    lemma SequenceCloses(s: Stage, items: seq<Item>)
      requires At(Current() + Rest(), s, items) && Is(Current(), ')')
      ensures s.Closing? && PatternOk(rules, items) && StageDue(rules, s, Render(items), Current() + Rest())
      ensures generatedValues + temporaryValues == s.list && quantifierValue == Int(1)
    {
      hide PatternOk, StageDue, Render, IsSymbol, Bare, Symbol;
      Kind(rules, s, items, Current(), Rest());
    }

    /** `)`: the values of the sequence are put together, and one is picked unless a quantifier comes next. */
    method CloseSequence(ghost s: Stage, ghost items: seq<Item>)
        returns (ghost s2: Stage, ghost items2: seq<Item>, ghost emitted: Text)
      requires 0 <= currentIndex < |pattern| && Is(Current(), ')')
      modifies this
      ensures old(currentIndex) <= currentIndex <= |pattern| + 1 && (old(error) || currentIndex > |pattern| ==> error)
      ensures old(At(Current() + Rest(), s, items)) ==>
                && At(Rest(), s2, items2) && Leads(rules, s, items, old(draws), emitted, s2, items2, draws)
                && output == old(output) + emitted && error == old(error)
    {
      hide At, PatternOk, Leads, StageDue, StageLeads, Render;
      s2, items2, emitted := s, items, [];
      ghost var good := At(Current() + Rest(), s, items);
      if good {
        SequenceCloses(s, items);
      }
      if |temporaryValues| >= 1 {
        generatedValues, temporaryValues := generatedValues + temporaryValues, [];
      }
      assert good ==> generatedValues == s.list;
      var picked;
      picked, s2 := CloseBracket(false, s, Render(items));
      output := output + picked;
      emitted := picked;
      if good {
        StageLeadsItems(rules, s, items, old(draws), picked, s2, draws);
        AtIsStage(Rest(), s2, items);
      }
    }

    lemma CountsAt(s: Stage, items: seq<Item>)
      requires At(Current() + Rest(), s, items)
      requires Is(Current(), ']') || Is(Current(), '{') || Is(Current(), '}') || IsSymbol(Current())
      ensures !s.Fresh? && (s.Closing? ==> s.bracket == Of(']')) && PatternOk(rules, items)
      ensures StageAt(Current() + Rest(), s, Render(items)) && temporaryValues == []
    {
      hide PatternOk, StageDue, Render, Bare, Symbol;
      Kind(rules, s, items, Current(), Rest());
      AtIsStage(Current() + Rest(), s, items);
    }

    /** `]`, `{`, `}` and the symbols: values are picked when their number is known. */
    method Count(ghost s: Stage, ghost items: seq<Item>)
        returns (ghost s2: Stage, ghost items2: seq<Item>, ghost emitted: Text)
      requires 0 <= currentIndex < |pattern| && (Is(Current(), ']') || Is(Current(), '{') || Is(Current(), '}') || IsSymbol(Current()))
      modifies this
      ensures old(currentIndex) <= currentIndex <= |pattern| + 1 && (old(error) || currentIndex > |pattern| ==> error)
      ensures old(At(Current() + Rest(), s, items)) ==>
                && At(Rest(), s2, items2) && Leads(rules, s, items, old(draws), emitted, s2, items2, draws)
                && output == old(output) + emitted && error == old(error)
    {
      hide At, PatternOk, Leads, StageDue, StageLeads, Render, IsSymbol;
      s2, items2, emitted := s, items, [];
      ghost var good := At(Current() + Rest(), s, items);
      if good {
        CountsAt(s, items);
      }
      var picked;
      picked, s2 := ReadStage(s, Render(items));
      output := output + picked;
      emitted := picked;
      if good {
        StageLeadsItems(rules, s, items, old(draws), picked, s2, draws);
        AtIsStage(Rest(), s2, items);
      }
    }

    /** `/`: the next character is a literal. */
    method Escape(ghost s: Stage, ghost items: seq<Item>)
        returns (ghost s2: Stage, ghost items2: seq<Item>, ghost emitted: Text)
      requires 0 <= currentIndex < |pattern| && Is(Current(), '/')
      modifies this
      ensures old(currentIndex) <= currentIndex <= |pattern| + 1 && (old(error) || currentIndex > |pattern| ==> error)
      ensures old(At(Current() + Rest(), s, items)) ==>
                && At(Rest(), s2, items2) && Leads(rules, s, items, old(draws), emitted, s2, items2, draws)
                && output == old(output) + emitted && error == old(error)
    {
      hide Due, Leads, First, Behind, PatternOk;
      s2, items2, emitted := s, items, [];
      if At(Current() + Rest(), s, items) {
        ReadSlash(rules, s, items, Current(), Rest());
        LiteralLeads(rules, items, draws);
        items2 := items[1..];
      }
      var c := Next();
      output := output + c;
      emitted := c;
    }

    /** Any other character is a literal, or the one value that a symbol quantifier behind it repeats. */
    method Character(ghost s: Stage, ghost items: seq<Item>)
        returns (ghost s2: Stage, ghost items2: seq<Item>, ghost emitted: Text)
      requires 0 <= currentIndex < |pattern| && Bare(Current()[0])
      modifies this
      ensures old(currentIndex) <= currentIndex <= |pattern| + 1 && (old(error) || currentIndex > |pattern| ==> error)
      ensures old(At(Current() + Rest(), s, items)) ==>
                && At(Rest(), s2, items2) && Leads(rules, s, items, old(draws), emitted, s2, items2, draws)
                && output == old(output) + emitted && error == old(error)
    {
      hide Due, Leads, First, Bare, IsSymbol, PatternOk;
      s2, items2, emitted := s, items, [];
      ghost var good := At(Current() + Rest(), s, items);
      if good {
        ReadBare(rules, s, items, Current(), Rest());
        items2 := items[1..];
      }
      if !IsSymbol(Lookahead()) {
        output := output + Current();
        emitted := Current();
        if good {
          LiteralLeads(rules, items, draws);
        }
      } else {
        generatedValues := generatedValues + [Current()];
        if good {
          s2 := Counting(generatedValues, items[0].quant);
          assert generatedValues == [Current()];
          DueOk(rules, s2, items2, Rest());
          GroupLeads(rules, items, draws, generatedValues, s2, draws);
        }
      }
    }

    /** The cases of `determineOperator`. */
    method Operate(ghost s: Stage, ghost items: seq<Item>)
        returns (ghost s2: Stage, ghost items2: seq<Item>, ghost emitted: Text)
      requires 0 <= currentIndex < |pattern|
      modifies this
      ensures old(currentIndex) <= currentIndex <= |pattern| + 1 && (old(error) || currentIndex > |pattern| ==> error)
      ensures old(At(Current() + Rest(), s, items)) ==>
                && At(Rest(), s2, items2) && Leads(rules, s, items, old(draws), emitted, s2, items2, draws)
                && output == old(output) + emitted && error == old(error)
    {
      hide At, Leads;
      if Is(Current(), '[') {
        s2, items2, emitted := OpenClass(s, items);
      } else if Is(Current(), '(') {
        s2, items2, emitted := OpenSequence(s, items);
      } else if Is(Current(), ')') {
        s2, items2, emitted := CloseSequence(s, items);
      } else if Is(Current(), ']') || Is(Current(), '{') || Is(Current(), '}') || IsSymbol(Current()) {
        s2, items2, emitted := Count(s, items);
      } else if Is(Current(), '/') {
        s2, items2, emitted := Escape(s, items);
      } else {
        s2, items2, emitted := Character(s, items);
      }
    }

    lemma AtEnd(s: Stage, items: seq<Item>)
      requires At([], s, items)
      ensures StageOk(rules, s) && PatternOk(rules, items) && Run(rules, s, items, draws) == ([], draws)
    {
      hide PatternOk, Render, Evaluate;
      StageFirst(rules, s, Render(items), []);
      NextItem(rules, items);
      FreshRun(rules, items, draws);
      NoItems(rules, draws);
    }

    /**
      `determineOperator`, and behind every operator `operatorComparison` again, until
      no character is left. What is written is what the rest of the pattern comes to.
     */
    method DetermineOperator(operator: Text, ghost s: Stage, ghost items: seq<Item>)
      requires 0 <= currentIndex <= |pattern| + 2 && operator == Current() && (currentIndex == |pattern| + 2 ==> error)
      modifies this
      ensures |pattern| <= currentIndex <= |pattern| + 2 && (old(error) || currentIndex == |pattern| + 2 ==> error)
      ensures old(At(Current() + Rest(), s, items)) ==>
                && StageOk(rules, s) && PatternOk(rules, items) && error == old(error)
                && output == old(output) + Run(rules, s, items, old(draws)).0 && draws == Run(rules, s, items, old(draws)).1
      decreases |pattern| + 2 - currentIndex, 1
    {
      hide At, Run, Leads, PatternOk, StageOk;
      if operator != [] {
        ghost var s2, items2, emitted := Operate(s, items);
        ghost var middle := draws;
        OperatorComparison(s2, items2);
        if old(At(Current() + Rest(), s, items)) {
          Follow(rules, s, items, old(draws), emitted, s2, items2, middle);
          ghost var more := Run(rules, s2, items2, middle).0;
          assert (old(output) + emitted) + more == old(output) + (emitted + more);
        }
      } else if At(Current() + Rest(), s, items) {
        assert Current() + Rest() == [];
        AtEnd(s, items);
        assert output + [] == output;
      }
    }

    /** `operatorComparison`: reads the next character, and the rest of the pattern. */
    method OperatorComparison(ghost s: Stage, ghost items: seq<Item>)
      requires -1 <= currentIndex <= |pattern| + 1 && (currentIndex > |pattern| ==> error)
      modifies this
      ensures |pattern| <= currentIndex <= |pattern| + 2 && (old(error) || currentIndex == |pattern| + 2 ==> error)
      ensures old(At(Rest(), s, items)) ==>
                && StageOk(rules, s) && PatternOk(rules, items) && error == old(error)
                && output == old(output) + Run(rules, s, items, old(draws)).0 && draws == Run(rules, s, items, old(draws)).1
      decreases |pattern| + 2 - currentIndex, 0
    {
      hide Due, Run, PatternOk, StageOk, IsOperator, IsSymbol, Bare, First, Behind;
      FirstBehind(Rest());
      EndIsOperator();
      var c := Next();
      if IsOperator(Current()) || IsSymbol(Current()) {
        DetermineOperator(c, s, items);
      } else {
        PlainIsBare(Current());
        ReadLiteral(s, items);
      }
    }

    /** A character that is no operator, and the rest of the pattern. */
    method ReadLiteral(ghost s: Stage, ghost items: seq<Item>)
      requires 0 <= currentIndex < |pattern| && Bare(Current()[0])
      modifies this
      ensures |pattern| <= currentIndex <= |pattern| + 2 && (old(error) || currentIndex == |pattern| + 2 ==> error)
      ensures old(At(Current() + Rest(), s, items)) ==>
                && StageOk(rules, s) && PatternOk(rules, items) && error == old(error)
                && output == old(output) + Run(rules, s, items, old(draws)).0 && draws == Run(rules, s, items, old(draws)).1
      decreases |pattern| + 2 - currentIndex, 1
    {
      hide At, Run, Leads, PatternOk, StageOk, Bare;
      ghost var s2, items2, emitted := Character(s, items);
      ghost var middle := draws;
      OperatorComparison(s2, items2);
      if old(At(Current() + Rest(), s, items)) {
        Follow(rules, s, items, old(draws), emitted, s2, items2, middle);
        ghost var more := Run(rules, s2, items2, middle).0;
        assert (old(output) + emitted) + more == old(output) + (emitted + more);
      }
    }

    /**
      `createString` ends for every pattern and all random choices, with the index at
      most two behind the length of the pattern, and there only in failure. For a pattern
      that is written as `items` it succeeds, with what `items` come to under the choices.
     */
    method CreateString(ghost items: seq<Item>) returns (out: Text, ghost failed: bool)
      modifies this
      ensures failed ==> out == []
      ensures if pattern == [] then failed else |pattern| <= currentIndex <= |pattern| + 2
      ensures currentIndex == |pattern| + 2 ==> failed
      ensures pattern != [] && pattern == Render(items) && PatternOk(rules, items) ==>
                !failed && (out, draws) == Evaluate(rules, items, old(draws)) && Produces(rules, items, out)
    {
      hide PatternOk, Render, Evaluate, Produces;
      currentIndex, quantifierValue := -1, Int(1);
      generatedValues, temporaryValues, output, error := [], [], [], false;
      out, failed := [], true;
      if pattern != [] {
        ghost var good := pattern == Render(items) && PatternOk(rules, items);
        if good {
          FreshDue(rules, items);
          FreshRun(rules, items, draws);
          PatternMeant(rules, items, draws);
        }
        OperatorComparison(Fresh, items);
        failed := error;
        if !error {
          out := output;
        }
        error := false;
      } else {
        error := true;
      }
    }
  }

  /** The class of two slashes. */
  const SLASHES: Text := [Of('['), Of('/'), Of('/'), Of(']')]

  lemma SlashesMean(rules: Rules, draws: seq<nat>)
    ensures var items := [Group(Class([Slash, Slash]), Once)];
            Render(items) == SLASHES && PatternOk(rules, items) && Evaluate(rules, items, draws) == ([], draws)
  {
    var ps := [Slash, Slash];
    var items := [Group(Class(ps), Once)];
    BrokenText(rules, Of('/'), [Of(']')]);
    assert RenderParts(ps) + [Of(']')] == [Of('/'), Of('/')] + [Of(']')];
    assert items[1..] == [];
    assert Render(items) == RenderItem(items[0]) + [];
    assert ClassValues(rules, ps) == [];
    assert PatternOk(rules, items);
    assert ps[1..][1..] == [] && Codes(rules, ps[1..]) == [] + [];
    assert EvaluateItem(rules, items[0], draws) == ([], draws);
    NoItems(rules, draws);
  }

  /** It generates nothing, and not a slash. */
  method DoubleSlash(rules: Rules, draws: seq<nat>) returns (out: Text)
    ensures out == []
  {
    var g := new Strgen(SLASHES, rules, draws);
    ghost var items := [Group(Class([Slash, Slash]), Once)];
    SlashesMean(rules, draws);
    ghost var failed;
    out, failed := g.CreateString(items);
  }
}

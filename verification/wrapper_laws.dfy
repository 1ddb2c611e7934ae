/** The single-parser wrappers: optional and default values, value
    transformation and checks, commitment (`Require`) and span capture. */
module WrapperLaws {
  import opened Union
  import opened Spans
  import opened Streams
  import opened Combinators
  import EngineLaws

  /** `OrNot` never misses: a match becomes `Some`, a miss becomes `Nil` at
      the unchanged input, and errors pass through. */
  lemma OrNotNeverMisses<I(!new), E>(q: Parser<I, E>, s: Stream<I>)
    ensures var o := Parse(OrNot(q), s); var i := Parse(q, s);
      && o != NoMatch
      && (i.Match? ==> o == Match(Opt(Some(i.value)), i.rest))
      && (i == NoMatch ==> o == Match(Opt(Nil), s))
      && (i.Terminal() ==> o == i)
  {
  }

  /** The value of an `OrNot` match, as a flag. */
  function IsSomeValue<I>(v: Value<I>): Value<I>
  {
    Bool(v.Opt? && v.maybe.Some?)
  }

  /** The value of an `OrNot` match, with `d` for `Nil`. */
  function SomeOr<I>(d: Value<I>): Value<I> -> Value<I>
  {
    (v: Value<I>) => if v.Opt? && v.maybe.Some? then v.maybe.item else d
  }

  /** `Boolean(q)` is `OrNot(q)` reporting only whether the inner parser matched. */
  lemma BooleanIsOrNotFlag<I(!new), E>(q: Parser<I, E>, s: Stream<I>)
    ensures Parse(Boolean(q), s) == Parse(Map(OrNot(q), IsSomeValue), s)
    ensures Parse(Boolean(q), s) != NoMatch
  {
    OrNotNeverMisses(q, s);
  }

  /** `OrElse(q, d)` is `OrNot(q)` with `d` in place of `Nil`, so it never
      misses and a miss returns `d` at the unchanged input. */
  lemma OrElseIsOrNotDefault<I(!new), E>(q: Parser<I, E>, d: Value<I>, s: Stream<I>)
    ensures Parse(OrElse(q, d), s) == Parse(Map(OrNot(q), SomeOr(d)), s)
    ensures Parse(q, s) == NoMatch ==> Parse(OrElse(q, d), s) == Match(d, s)
  {
    OrNotNeverMisses(q, s);
  }

  /** `To(q, k)` is `Map` with a constant function. */
  lemma ToIsConstantMap<I(!new), E>(q: Parser<I, E>, k: Value<I>, s: Stream<I>)
    ensures Parse(To(q, k), s) == Parse(Map(q, (_: Value<I>) => k), s)
  {
  }

  /** `Map` changes only the value of a match: outcome kind and cursor stay,
      and mapping twice is mapping once with the composition. */
  lemma MapKeepsCursor<I(!new), E>(q: Parser<I, E>, f: Value<I> -> Value<I>, g: Value<I> -> Value<I>, s: Stream<I>)
    ensures var o := Parse(Map(q, f), s); var i := Parse(q, s);
      && (o.Match? <==> i.Match?)
      && (i.Match? ==> o == Match(f(i.value), i.rest))
      && (!i.Match? ==> o == i)
    ensures Parse(Map(Map(q, f), g), s) == Parse(Map(q, (v: Value<I>) => g(f(v))), s)
    ensures Parse(Map(q, (v: Value<I>) => v), s) == Parse(q, s)
  {
  }

  /** `AndCheck` keeps a match whose value passes the check, unchanged, and
      demotes any other match to a miss; two checks are one conjoined check. */
  lemma AndCheckDemotes<I(!new), E>(q: Parser<I, E>, pred: Value<I> -> bool, other: Value<I> -> bool, s: Stream<I>)
    ensures var o := Parse(AndCheck(q, pred), s); var i := Parse(q, s);
      && (o.Match? <==> i.Match? && pred(i.value))
      && (o.Match? ==> o == i)
      && (i.Match? && !pred(i.value) ==> o == NoMatch)
      && (!i.Match? ==> o == i)
    ensures Parse(AndCheck(AndCheck(q, pred), other), s) == Parse(AndCheck(q, (v: Value<I>) => pred(v) && other(v)), s)
  {
  }

  /** `map_boolean` never misses; it yields `f(true)` after a match and
      `f(false)` at the unchanged input after a miss. */
  lemma MapBooleanLaw<I(!new), E>(q: Parser<I, E>, f: bool -> Value<I>, s: Stream<I>)
    ensures var o := Parse(MapBoolean(q, f), s); var i := Parse(q, s);
      && (i.Match? ==> o == Match(f(true), i.rest))
      && (i == NoMatch ==> o == Match(f(false), s))
      && (i.Terminal() ==> o == i)
  {
    assert Parse(Boolean(q), s) == ParseWrapped(Boolean(q), s);
  }

  /** `Require` never misses: a match or an error passes through; a miss
      becomes an error of the given kind located at the item before the
      cursor (index -1 at position 0, so the last item), or an IndexError
      when there is no such item. */
  lemma RequireCommits<I(!new), E>(q: Parser<I, E>, kind: E, s: Stream<I>)
    ensures var o := Parse(Require(q, kind), s); var i := Parse(q, s);
      && o != NoMatch
      && (i != NoMatch ==> o == i)
      && (i == NoMatch && 0 < s.position <= |s.spans| ==> o == Error(kind, s.spans[s.position - 1].span))
      && (i == NoMatch && s.position == 0 && |s.spans| > 0 ==> o == Error(kind, s.spans[|s.spans| - 1].span))
      && (i == NoMatch && (|s.spans| == 0 || s.position > |s.spans|) ==> o == Fault(IndexError))
  {
  }

  /** `Spanned` wraps a match with the span from the item under the starting
      cursor to the item before the final cursor, each looked up with the
      host language's indexing; when either lookup fails the result is an
      IndexError. Misses, errors and faults pass through. */
  lemma SpannedLocates<I(!new), E>(q: Parser<I, E>, s: Stream<I>)
    ensures var o := Parse(Combinators.Spanned(q), s); var i := Parse(q, s);
      && (!i.Match? ==> o == i)
      && (i.Match? ==> var first := PyIndex(s.spans, s.position); var last := PyIndex(s.spans, i.rest.position - 1);
           && (first.Some? && last.Some? ==> o == Match(Located(Spans.Spanned(i.value, Concat(first.item.span, last.item.span))), i.rest))
           && (first.Nil? || last.Nil? ==> o == Fault(IndexError)))
  {
    var p := Combinators.Spanned(q);
    assert Parse(p, s) == ParseCommitted(p, s);
    var i := Parse(q, s);
    if i.Match? {
      assert StepsForward(s, i.rest);
      assert i.rest.spans == s.spans;
    }
  }

  /** `Spanned` around a match, given the two items its lookups find. */
  lemma SpannedFromLookups<I(!new), E>(q: Parser<I, E>, s: Stream<I>, v: Value<I>, r: Stream<I>, first: Spans.Spanned<I>, last: Spans.Spanned<I>)
    requires Parse(q, s) == Match(v, r)
    requires PyIndex(s.spans, s.position) == Some(first) && PyIndex(r.spans, r.position - 1) == Some(last)
    ensures Parse(Combinators.Spanned(q), s) == Match(Located(Spans.Spanned(v, Concat(first.span, last.span))), r)
  {
    assert Parse(Combinators.Spanned(q), s) == ParseCommitted(Combinators.Spanned(q), s);
  }

  /** On a stream built by `from_source`, `Spanned` around a parser that
      consumed items `i..j-1` reports exactly `Span(base + i, base + j)`. */
  lemma SpannedCoversConsumed<I(!new), E>(q: Parser<I, E>, src: seq<I>, file: Maybe<string>, base: int, s: Stream<I>, v: Value<I>, r: Stream<I>)
    requires s.spans == FromSource(src, file, base).spans && s.position < |src|
    requires Parse(q, s) == Match(v, r) && r.position > s.position
    ensures Parse(Combinators.Spanned(q), s) == Match(Located(Spans.Spanned(v, Span(base + s.position, base + r.position))), r)
  {
    EngineLaws.ParseMonotone(q, s);
    assert r.spans == s.spans && r.position <= |src|;
    FromSourceLookups(src, file, base, s.spans, s.position, r.position);
    var first, last := s.spans[s.position], s.spans[r.position - 1];
    assert PyIndex(s.spans, s.position) == Some(first);
    assert PyIndex(r.spans, r.position - 1) == Some(last);
    assert Concat(first.span, last.span) == Span(base + s.position, base + r.position);
    SpannedFromLookups(q, s, v, r, first, last);
  }

  /** A zero-width match strictly inside a `from_source` stream gets the
      empty span at the cursor. */
  lemma SpannedZeroWidthInside<I(!new), E>(q: Parser<I, E>, src: seq<I>, file: Maybe<string>, base: int, s: Stream<I>)
    requires s.spans == FromSource(src, file, base).spans && 0 < s.position < |src|
    requires Parse(q, s).Match? && Parse(q, s).rest == s
    ensures Parse(Combinators.Spanned(q), s) == Match(Located(Spans.Spanned(Parse(q, s).value, Span(base + s.position, base + s.position))), s)
  {
    FromSourceLookups(src, file, base, s.spans, s.position, s.position);
    SpannedFromLookups(q, s, Parse(q, s).value, s, s.spans[s.position], s.spans[s.position - 1]);
  }

  /** A zero-width match at position 0 of a non-empty `from_source` stream
      gets the span of the whole input, because index -1 wraps round to the
      last item. */
  lemma SpannedZeroWidthAtStart<I(!new), E>(q: Parser<I, E>, src: seq<I>, file: Maybe<string>, base: int, s: Stream<I>)
    requires s.spans == FromSource(src, file, base).spans && s.position == 0 < |src|
    requires Parse(q, s).Match? && Parse(q, s).rest == s
    ensures Parse(Combinators.Spanned(q), s) == Match(Located(Spans.Spanned(Parse(q, s).value, Span(base, base + |src|))), s)
  {
    FromSourceLookups(src, file, base, s.spans, 0, |src|);
    SpannedFromLookups(q, s, Parse(q, s).value, s, s.spans[0], s.spans[|src| - 1]);
  }

  /** A match that starts at (or past) the end has no item under its
      starting cursor, so the span lookup raises an IndexError; this covers
      every zero-width match at the end. */
  lemma SpannedAtEndFaults<I(!new), E>(q: Parser<I, E>, s: Stream<I>)
    requires s.position >= |s.spans|
    requires Parse(q, s).Match?
    ensures Parse(Combinators.Spanned(q), s) == Fault(IndexError)
  {
    SpannedLocates(q, s);
    assert PyIndex(s.spans, s.position) == Nil;
  }
}

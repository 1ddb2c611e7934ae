/** The primitive matchers: each looks at most at the item under the cursor
    (or a literal prefix), consumes exactly what it matched, and never errs. */
module PrimitiveLaws {
  import opened Union
  import opened Spans
  import opened Streams
  import opened Combinators

  /** `Filter(f)` matches exactly when the item under the cursor satisfies
      `f`, yields that item and moves one item on; otherwise it misses. */
  lemma FilterMatchesPeek<I(!new), E>(f: I -> bool, s: Stream<I>)
    ensures var o := Parse<I, E>(Filter(f), s);
      && (o.Match? <==> Peek(s).Some? && f(Peek(s).item.item))
      && (o.Match? ==> o == Match(Item(s.spans[s.position].item), Advance(s, 1)) && o.rest.position == s.position + 1)
      && (!o.Match? ==> o == NoMatch)
  {
  }

  /** `Just(x)` is `Filter` with equality to `x`; it yields `x` itself. */
  lemma JustIsFilter<I(!new), E>(x: I, s: Stream<I>)
    ensures Parse<I, E>(Just(x), s) == Parse<I, E>(Filter(y => y == x), s)
    ensures Parse<I, E>(Just(x), s).Match? <==> Peek(s).Some? && Peek(s).item.item == x
  {
  }

  /** `OneOf(cs)` is `Filter` with membership in `cs`. */
  lemma OneOfIsFilter<I(!new), E>(cs: seq<I>, s: Stream<I>)
    ensures Parse<I, E>(OneOf(cs), s) == Parse<I, E>(Filter(y => y in cs), s)
    ensures Parse<I, E>(OneOf(cs), s).Match? <==> Peek(s).Some? && Peek(s).item.item in cs
  {
  }

  /** `Nothing` matches exactly at the end of the items; on a valid stream it
      leaves the cursor where it was, so it is a zero-width match. */
  lemma NothingAtEnd<I(!new), E>(s: Stream<I>)
    ensures var o := Parse<I, E>(Nothing, s);
      && (o.Match? <==> s.position >= |s.spans|)
      && (o.Match? ==> o.value == Opt(Nil) && o.rest.position == |s.spans|)
      && (o.Match? && Valid(s) ==> o.rest == s)
      && (!o.Match? ==> o == NoMatch)
  {
  }

  /** `StartsWith(pat)` matches exactly when the stream starts with `pat`,
      yields `pat`, and moves `|pat|` items on (clamped to the end). */
  lemma StartsWithMatches<I(!new), E>(pat: seq<I>, s: Stream<I>)
    ensures var o := Parse<I, E>(StartsWith(pat), s);
      && (o.Match? <==> Streams.StartsWith(s, pat))
      && (o.Match? ==> o == Match(Items(pat), Advance(s, |pat|)))
      && (!o.Match? ==> o == NoMatch)
  {
  }

  /** When the whole pattern lies within the remaining items, a match
      consumes exactly those items and they are the pattern. */
  lemma StartsWithConsumesPattern<I(!new), E>(pat: seq<I>, s: Stream<I>)
    requires |pat| <= |Remaining(s)|
    requires Parse<I, E>(StartsWith(pat), s).Match?
    ensures Parse<I, E>(StartsWith(pat), s).rest.position == s.position + |pat|
    ensures ItemsOf(s.spans[s.position..s.position + |pat|]) == pat
  {
    StartsWithMatches<I, E>(pat, s);
    StartsWithWindow(s, pat);
  }

  /** Because `startswith` checks the total length, a pattern may overhang
      the end: on "abc" at position 2, `StartsWith("cx")` matches, claims
      "cx", and leaves the cursor at the end. */
  lemma StartsWithOverhangMatches<E>()
    ensures var s := Stream(Nil, [Spans.Spanned('a', Span(0, 1)), Spans.Spanned('b', Span(1, 2)), Spans.Spanned('c', Span(2, 3))], 2);
      Parse<char, E>(StartsWith("cx"), s) == Match(Items("cx"), s.(position := 3))
  {
    var s := Stream(Nil, [Spans.Spanned('a', Span(0, 1)), Spans.Spanned('b', Span(1, 2)), Spans.Spanned('c', Span(2, 3))], 2);
    assert "cx" == ['c', 'x'];
    StartsWithOverhang(s, 'c', 'x');
  }

  /** No primitive ever reports an error or a fault. */
  lemma PrimitivesNeverFail<I(!new), E>(x: I, cs: seq<I>, f: I -> bool, pat: seq<I>, s: Stream<I>)
    ensures !Parse<I, E>(Just(x), s).Terminal()
    ensures !Parse<I, E>(OneOf(cs), s).Terminal()
    ensures !Parse<I, E>(Filter(f), s).Terminal()
    ensures !Parse<I, E>(Nothing, s).Terminal()
    ensures !Parse<I, E>(StartsWith(pat), s).Terminal()
  {
    FilterMatchesPeek<I, E>(f, s);
    FilterMatchesPeek<I, E>(y => y == x, s);
    JustIsFilter<I, E>(x, s);
    FilterMatchesPeek<I, E>(y => y in cs, s);
    OneOfIsFilter<I, E>(cs, s);
    NothingAtEnd<I, E>(s);
    StartsWithMatches<I, E>(pat, s);
  }
}

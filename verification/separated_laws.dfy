/** `SeparatedBy`: an optional leading separator, a first item, then
    separator-item pairs repeated, then an optional trailing separator. Its
    items are described by a chain of the pair parser (see `RepetitionLaws`). */
module SeparatedLaws {
  import opened Streams
  import opened Combinators
  import opened RepetitionLaws

  /** The stream the first item is parsed from: after the leading separator
      when one is allowed and present, else the input. */
  function FirstFrom<I(==,!new), E>(sep: Parser<I, E>, leading: bool, s: Stream<I>): Stream<I>
  {
    if leading && Parse(sep, s).Match? then Parse(sep, s).rest else s
  }

  /** The parser that reads each item after the first. */
  function SeparatorThenItem<I(!new), E>(q: Parser<I, E>, sep: Parser<I, E>): Parser<I, E>
  {
    IgnoreThen(sep, q)
  }

  /** The optional trailing separator after the items `all` at `t`. */
  function Trail<I(==,!new), E>(sep: Parser<I, E>, trailing: bool, all: Value<I>, t: Stream<I>): Outcome<I, E>
  {
    if !trailing then Match(all, t)
    else
      match Parse(sep, t)
      case Match(_, u) => Match(all, u)
      case NoMatch => Match(all, t)
      case o => o
  }

  /** An error or fault from an allowed leading separator ends the parse. */
  lemma SeparatedLeadingFails<I(!new), E>(q: Parser<I, E>, sep: Parser<I, E>, trailing: bool, n: int, s: Stream<I>)
    requires Parse(sep, s).Terminal()
    ensures Parse(SeparatedBy(q, sep, true, trailing, n), s) == Parse(sep, s)
  {
  }

  /** When the first item misses, the parse misses under a positive minimum
      and otherwise matches the empty list at the INPUT stream, dropping a
      leading separator it had read; an error of the first item is returned. */
  lemma SeparatedFirstMiss<I(!new), E>(q: Parser<I, E>, sep: Parser<I, E>, leading: bool, trailing: bool, n: int, s: Stream<I>)
    requires !(leading && Parse(sep, s).Terminal())
    requires !Parse(q, FirstFrom(sep, leading, s)).Match?
    ensures var o := Parse(SeparatedBy(q, sep, leading, trailing, n), s); var i := Parse(q, FirstFrom(sep, leading, s));
      && (i == NoMatch ==> o == if n > 0 then NoMatch else Match(List([]), s))
      && (i.Terminal() ==> o == i)
  {
  }

  /** One step of the parse once the first item `v` has matched and left
      `r`: the rest is `Repeated(SeparatorThenItem(q, sep), n - 1)` from `r`. */
  lemma SeparatedAfterFirst<I(!new), E>(q: Parser<I, E>, sep: Parser<I, E>, leading: bool, trailing: bool, n: int, s: Stream<I>)
    requires !(leading && Parse(sep, s).Terminal())
    requires Parse(q, FirstFrom(sep, leading, s)).Match?
    ensures var i := Parse(q, FirstFrom(sep, leading, s));
      var more := Parse(Repeated(SeparatorThenItem(q, sep), n - 1), i.rest);
      var o := Parse(SeparatedBy(q, sep, leading, trailing, n), s);
      && (more.Match? ==> o == Trail(sep, trailing, Cons(i.value, more.value), more.rest))
      && (!more.Match? ==> o == more)
  {
    assert Size(IgnoreThen(sep, q)) == 1 + Size(sep) + Size(q);
  }

  /** Specification of `separated_by`: after the first item `v`, along a
      maximal chain of separator-item pairs with values `vs` ending at `t`,
      the items are `[v] + vs` when the repetition would match, followed by
      an optional trailing separator; otherwise the repetition's miss,
      error or fault is the result. */
  lemma {:induction false} SeparatedFollowsChain<I(!new), E>(
    q: Parser<I, E>, sep: Parser<I, E>, leading: bool, trailing: bool, n: int, s: Stream<I>,
    vs: seq<Value<I>>, t: Stream<I>)
    requires !(leading && Parse(sep, s).Terminal())
    requires Parse(q, FirstFrom(sep, leading, s)).Match?
    requires Chain(SeparatorThenItem(q, sep), Parse(q, FirstFrom(sep, leading, s)).rest, vs, t) && Stops(SeparatorThenItem(q, sep), t)
    ensures var v := Parse(q, FirstFrom(sep, leading, s)).value;
      var f := Final(Parse(SeparatorThenItem(q, sep), t), t, n - 1, vs);
      var o := Parse(SeparatedBy(q, sep, leading, trailing, n), s);
      && (f.Match? ==> o == Trail(sep, trailing, List([v] + vs), t))
      && (!f.Match? ==> o == f)
  {
    var i := Parse(q, FirstFrom(sep, leading, s));
    SeparatedAfterFirst(q, sep, leading, trailing, n, s);
    RepeatedFollowsChain(SeparatorThenItem(q, sep), n - 1, i.rest, vs, t);
  }

  /** Every match yields a list of at least `n` items. */
  lemma SeparatedCount<I(!new), E>(q: Parser<I, E>, sep: Parser<I, E>, leading: bool, trailing: bool, n: int, s: Stream<I>)
    ensures var o := Parse(SeparatedBy(q, sep, leading, trailing, n), s);
      o.Match? ==> o.value.List? && n <= |o.value.elems|
  {
    if !(leading && Parse(sep, s).Terminal()) && Parse(q, FirstFrom(sep, leading, s)).Match? {
      var i := Parse(q, FirstFrom(sep, leading, s));
      ChainToStopExists(SeparatorThenItem(q, sep), i.rest);
      var vs, t :| Chain(SeparatorThenItem(q, sep), i.rest, vs, t) && Stops(SeparatorThenItem(q, sep), t);
      SeparatedFollowsChain(q, sep, leading, trailing, n, s, vs, t);
    }
  }

  /** With a minimum of at most 0 the parse never misses. */
  lemma SeparatedNeverMissesWithoutMinimum<I(!new), E>(q: Parser<I, E>, sep: Parser<I, E>, leading: bool, trailing: bool, n: int, s: Stream<I>)
    requires n <= 0
    ensures Parse(SeparatedBy(q, sep, leading, trailing, n), s) != NoMatch
  {
    if !(leading && Parse(sep, s).Terminal()) && Parse(q, FirstFrom(sep, leading, s)).Match? {
      var i := Parse(q, FirstFrom(sep, leading, s));
      ChainToStopExists(SeparatorThenItem(q, sep), i.rest);
      var vs, t :| Chain(SeparatorThenItem(q, sep), i.rest, vs, t) && Stops(SeparatorThenItem(q, sep), t);
      SeparatedFollowsChain(q, sep, leading, trailing, n, s, vs, t);
    }
  }

  /** Raising the minimum only turns matches into misses. */
  lemma SeparatedAtLeastMonotone<I(!new), E>(q: Parser<I, E>, sep: Parser<I, E>, leading: bool, trailing: bool, n: int, m: int, s: Stream<I>)
    requires n <= m
    ensures var lo := Parse(SeparatedBy(q, sep, leading, trailing, n), s);
      var hi := Parse(SeparatedBy(q, sep, leading, trailing, m), s);
      && (hi.Match? ==> lo == hi)
      && (!lo.Match? ==> hi == lo)
  {
    if !(leading && Parse(sep, s).Terminal()) && Parse(q, FirstFrom(sep, leading, s)).Match? {
      var i := Parse(q, FirstFrom(sep, leading, s));
      ChainToStopExists(SeparatorThenItem(q, sep), i.rest);
      var vs, t :| Chain(SeparatorThenItem(q, sep), i.rest, vs, t) && Stops(SeparatorThenItem(q, sep), t);
      SeparatedFollowsChain(q, sep, leading, trailing, n, s, vs, t);
      SeparatedFollowsChain(q, sep, leading, trailing, m, s, vs, t);
      FinalMonotone(Parse(SeparatorThenItem(q, sep), t), t, n - 1, m - 1, vs);
    }
  }

  /** `allow_leading` on a parse without it. With no separator at the input,
      nothing changes. After a separator, the parse is the plain one run from
      behind the separator, except for an empty match under no minimum: that
      is returned at the input, dropping the separator it read. */
  lemma AllowLeadingSkips<I(!new), E>(q: Parser<I, E>, sep: Parser<I, E>, trailing: bool, n: int, s: Stream<I>)
    requires !Parse(sep, s).Terminal()
    ensures var p := SeparatedBy(q, sep, false, trailing, n);
      Parse(sep, s) == NoMatch ==> Parse(AllowLeading(p), s) == Parse(p, s)
    ensures Parse(sep, s).Match? ==>
      var p := SeparatedBy(q, sep, false, trailing, n); var t := Parse(sep, s).rest;
      && ((Parse(q, t) != NoMatch || n > 0) ==> Parse(AllowLeading(p), s) == Parse(p, t))
      && (Parse(q, t) == NoMatch && n <= 0 ==>
            Parse(AllowLeading(p), s) == Match(List([]), s) && Parse(p, t) == Match(List([]), t))
  {
  }

  /** `allow_trailing` changes only a match with at least one item, by
      reading one more separator if present. An empty match is returned
      before the trailing step, so a lone separator is never consumed. */
  lemma AllowTrailingExtends<I(!new), E>(q: Parser<I, E>, sep: Parser<I, E>, leading: bool, n: int, s: Stream<I>)
    ensures var plain := Parse(SeparatedBy(q, sep, leading, false, n), s);
      var trail := Parse(SeparatedBy(q, sep, leading, true, n), s);
      && (!plain.Match? ==> trail == plain)
      && (plain.Match? && plain.value == List([]) && plain.rest == s ==> trail == plain)
      && (plain.Match? && plain.value.List? && |plain.value.elems| > 0 ==> trail == Trail(sep, true, plain.value, plain.rest))
  {
    if !(leading && Parse(sep, s).Terminal()) && Parse(q, FirstFrom(sep, leading, s)).Match? {
      var i := Parse(q, FirstFrom(sep, leading, s));
      ChainToStopExists(SeparatorThenItem(q, sep), i.rest);
      var vs, t :| Chain(SeparatorThenItem(q, sep), i.rest, vs, t) && Stops(SeparatorThenItem(q, sep), t);
      SeparatedFollowsChain(q, sep, leading, false, n, s, vs, t);
      SeparatedFollowsChain(q, sep, leading, true, n, s, vs, t);
    }
  }
}

/** Laws every parser obeys: cursors only move forward over the same items,
    and an error or fault from an inner parser reaches the caller unchanged. */
module EngineLaws {
  import opened Streams
  import opened Combinators

  /** On a valid stream a match never moves the cursor backwards, never past
      the end, and never swaps the items or the file. */
  lemma ParseMonotone<I(!new), E>(p: Parser<I, E>, s: Stream<I>)
    requires Valid(s)
    ensures var o := Parse(p, s);
      o.Match? ==> Valid(o.rest) && s.position <= o.rest.position && o.rest.spans == s.spans && o.rest.file == s.file
  {
  }

  /** Error short-circuiting in the wrappers: an inner error or fault comes
      back unchanged. */
  lemma TerminalPropagatesWrappers<I(!new), E>(
    q: Parser<I, E>, f: Value<I> -> Value<I>, pred: Value<I> -> bool, d: Value<I>, kind: E, s: Stream<I>)
    requires Parse(q, s).Terminal()
    ensures var o := Parse(q, s);
      && Parse(Require(q, kind), s) == o
      && Parse(Combinators.Spanned(q), s) == o
      && Parse(To(q, d), s) == o
      && Parse(OrNot(q), s) == o
      && Parse(OrElse(q, d), s) == o
      && Parse(Map(q, f), s) == o
      && Parse(AndCheck(q, pred), s) == o
      && Parse(Boolean(q), s) == o
  {
  }

  /** Error short-circuiting in sequences and choices: nothing after the
      failing parser runs. */
  lemma TerminalPropagatesSequences<I(!new), E>(q: Parser<I, E>, b: Parser<I, E>, k: Continuation<I, E>, s: Stream<I>)
    requires Parse(q, s).Terminal()
    ensures var o := Parse(q, s);
      && Parse(Alternative(q, b), s) == o
      && Parse(Then(q, b), s) == o
      && Parse(ThenWithContext(q, k), s) == o
      && Parse(IgnoreThen(q, b), s) == o
      && Parse(ThenIgnore(q, b), s) == o
      && Parse(Choice([q, b]), s) == o
  {
  }

  /** A repetition whose first attempt fails hard returns that failure and
      no items. */
  lemma TerminalPropagatesRepeated<I(!new), E>(q: Parser<I, E>, n: int, s: Stream<I>)
    requires Parse(q, s).Terminal()
    ensures Parse(Repeated(q, n), s) == Parse(q, s)
  {
  }

  /** The second parser of a sequence runs on the stream the first left, and
      its error is the sequence's error. */
  lemma SecondTerminalPropagates<I(!new), E>(a: Parser<I, E>, b: Parser<I, E>, s: Stream<I>)
    requires Parse(a, s).Match? && Parse(b, Parse(a, s).rest).Terminal()
    ensures var o := Parse(b, Parse(a, s).rest);
      && Parse(Then(a, b), s) == o
      && Parse(IgnoreThen(a, b), s) == o
      && Parse(ThenIgnore(a, b), s) == o
  {
    var x := Parse(a, s);
    assert Parse(Then(a, b), s) == ParseSequence(Then(a, b), s);
    assert Parse(IgnoreThen(a, b), s) == ParseSequence(IgnoreThen(a, b), s);
    assert Parse(ThenIgnore(a, b), s) == ParseSequence(ThenIgnore(a, b), s);
  }

  /** Backtracking: a miss carries no stream, so an alternative that misses
      leaves the next one to run on the very same input. */
  lemma AlternativeBacktracks<I(!new), E>(a: Parser<I, E>, b: Parser<I, E>, s: Stream<I>)
    ensures Parse(a, s) == NoMatch ==> Parse(Alternative(a, b), s) == Parse(b, s)
    ensures Parse(a, s) != NoMatch ==> Parse(Alternative(a, b), s) == Parse(a, s)
  {
  }
}

/** Concrete runs on short character inputs built with `from_source`. Each
    run takes its input as a parameter fixed by its precondition. */
module Examples {
  import opened Union
  import opened Spans
  import opened Streams
  import opened Combinators
  import opened RepetitionLaws
  import opened SeparatedLaws
  import SequencingLaws

  /** The input `text` as a stream from offset 0. */
  function Input(text: string): Stream<char>
  {
    FromSource(text, Nil, 0)
  }

  /** One step of `just(x)` on an item that is present. */
  lemma JustStep<I(!new), E>(x: I, s: Stream<I>)
    requires s.position < |s.spans|
    ensures Parse<I, E>(Just(x), s) ==
      if s.spans[s.position].item == x then Match(Item(x), s.(position := s.position + 1)) else NoMatch
  {
  }

  /** One step of `one_of(cs)` on an item that is present. */
  lemma OneOfStep<I(!new), E>(cs: seq<I>, s: Stream<I>)
    requires s.position < |s.spans|
    ensures Parse<I, E>(OneOf(cs), s) ==
      if s.spans[s.position].item in cs then Match(Item(s.spans[s.position].item), s.(position := s.position + 1)) else NoMatch
  {
  }

  /** `just('a').then(just('b'))` matches "ab" completely. */
  lemma ThenOnAb<E>(s: Stream<char>)
    requires s == Input("ab")
    ensures Parse<char, E>(Then(Just('a'), Just('b')), s) == Match(Pair(Item('a'), Item('b')), s.(position := 2))
  {
    assert s.spans[0].item == 'a' && s.spans[1].item == 'b';
    JustStep<char, E>('a', s);
    JustStep<char, E>('b', s.(position := 1));
    SequencingLaws.ThenMatchesBoth<char, E>(Just('a'), Just('b'), s);
  }

  /** `just('a').then(just('b'))` misses "ax". */
  lemma ThenOnAx<E>(s: Stream<char>)
    requires s == Input("ax")
    ensures Parse<char, E>(Then(Just('a'), Just('b')), s) == NoMatch
  {
    assert s.spans[0].item == 'a' && s.spans[1].item == 'x';
    JustStep<char, E>('a', s);
    JustStep<char, E>('b', s.(position := 1));
    SequencingLaws.ThenMatchesBoth<char, E>(Just('a'), Just('b'), s);
  }

  /** `a.then_chain(b.then(c))` after matches of `a`, `b` and `c` in turn
      yields the three-element list: the pair from `b.then(c)` is unpacked. */
  lemma ThenChainOfPair<I(!new), E>(a: Parser<I, E>, b: Parser<I, E>, c: Parser<I, E>, s: Stream<I>,
    x: Value<I>, r1: Stream<I>, y: Value<I>, r2: Stream<I>, z: Value<I>, r3: Stream<I>)
    requires Parse(a, s) == Match(x, r1) && Parse(b, r1) == Match(y, r2) && Parse(c, r2) == Match(z, r3)
    ensures Parse(ThenChain(a, Then(b, c)), s) == Match(List([x, y, z]), r3)
  {
    SequencingLaws.ThenMatchesBoth(b, c, r1);
    SequencingLaws.ThenMatchesBoth(a, Then(b, c), s);
    var v := Pair(x, Pair(y, z));
    SequencingLaws.ThenChainOnMatch(a, Then(b, c), s, v, r3);
    assert ChainValue(v) == List([x] + [y, z]) == List([x, y, z]);
  }

  /** `just('a').then_chain(just('b').then(just('c')))` on "abc": the pair
      the second parser returns is unpacked into the list. */
  lemma ThenChainOnAbc<E>(s: Stream<char>)
    requires s == Input("abc")
    ensures Parse<char, E>(ThenChain(Just('a'), Then(Just('b'), Just('c'))), s) ==
      Match(List([Item('a'), Item('b'), Item('c')]), s.(position := 3))
  {
    assert s.spans[0].item == 'a' && s.spans[1].item == 'b' && s.spans[2].item == 'c';
    JustStep<char, E>('a', s);
    JustStep<char, E>('b', s.(position := 1));
    JustStep<char, E>('c', s.(position := 2));
    ThenChainOfPair<char, E>(Just('a'), Just('b'), Just('c'), s,
      Item('a'), s.(position := 1), Item('b'), s.(position := 2), Item('c'), s.(position := 3));
  }

  /** `one_of("abc").repeated().at_least(1)` on "abcx" collects the first
      three items and leaves the `x`. */
  lemma RepeatedOneOfOnAbcx<E>(s: Stream<char>)
    requires s == Input("abcx")
    ensures Parse<char, E>(Repeated(OneOf("abc"), 1), s) == Match(List([Item('a'), Item('b'), Item('c')]), s.(position := 3))
  {
    var q: Parser<char, E> := OneOf("abc");
    assert s.spans[0].item == 'a' && s.spans[1].item == 'b' && s.spans[2].item == 'c' && s.spans[3].item == 'x';
    OneOfStep<char, E>("abc", s);
    OneOfStep<char, E>("abc", s.(position := 1));
    OneOfStep<char, E>("abc", s.(position := 2));
    OneOfStep<char, E>("abc", s.(position := 3));
    var t := s.(position := 3);
    assert Chain(q, t, [], t);
    ChainCons(q, s.(position := 2), Item('c'), t, [], t);
    ChainCons(q, s.(position := 1), Item('b'), s.(position := 2), [Item('c')], t);
    ChainCons(q, s, Item('a'), s.(position := 1), [Item('b'), Item('c')], t);
    assert [Item('a')] + ([Item('b')] + ([Item('c')] + [])) == [Item('a'), Item('b'), Item('c')];
    RepeatedFollowsChain(q, 1, s, [Item('a'), Item('b'), Item('c')], t);
  }

  /** Digits for the separated-list runs. */
  const Digits: seq<char> := "0123456789"

  /** A separator-digit pair `,d` at position `k`. */
  lemma DigitPairAt<E>(s: Stream<char>, k: nat)
    requires k + 1 < |s.spans| && s.spans[k].item == ',' && s.spans[k + 1].item in Digits
    ensures Parse<char, E>(SeparatorThenItem(OneOf(Digits), Just(',')), s.(position := k)) ==
      Match(Item(s.spans[k + 1].item), s.(position := k + 2))
  {
    JustStep<char, E>(',', s.(position := k));
    OneOfStep<char, E>(Digits, s.(position := k + 1));
    SequencingLaws.IgnoreThenRunsSecond<char, E>(Just(','), OneOf(Digits), s.(position := k));
  }

  /** A pair misses where its separator misses. */
  lemma NoPairWithoutSeparator<I(!new), E>(q: Parser<I, E>, sep: Parser<I, E>, s: Stream<I>)
    requires Parse(sep, s) == NoMatch
    ensures Parse(SeparatorThenItem(q, sep), s) == NoMatch
  {
  }

  /** The pairs `,2` at position 1 and `,3` at position 3 of "1,2,3". */
  lemma DigitPairsOn123<E>(s: Stream<char>)
    requires s == Input("1,2,3")
    ensures var pair := SeparatorThenItem<char, E>(OneOf(Digits), Just(','));
      && Parse(pair, s.(position := 1)) == Match(Item('2'), s.(position := 3))
      && Parse(pair, s.(position := 3)) == Match(Item('3'), s.(position := 5))
  {
    assert s.spans[1].item == ',' && s.spans[2].item == '2' && '2' in Digits;
    assert s.spans[3].item == ',' && s.spans[4].item == '3' && '3' in Digits;
    DigitPairAt<E>(s, 1);
    DigitPairAt<E>(s, 3);
  }

  /** No pair follows at the end of "1,2,3". */
  lemma NoPairAtEnd<E>(s: Stream<char>)
    requires s == Input("1,2,3")
    ensures Parse<char, E>(SeparatorThenItem(OneOf(Digits), Just(',')), s.(position := 5)) == NoMatch
  {
    var end := s.(position := 5);
    assert |end.spans| == 5;
    assert Parse<char, E>(Just(','), end) == NoMatch;
    NoPairWithoutSeparator<char, E>(OneOf(Digits), Just(','), end);
  }

  /** In "1,2,3", after the first digit, the pairs `,2` and `,3` form a
      chain that ends at the end of the input, where the next pair misses. */
  lemma DigitChainOn123<E>(s: Stream<char>)
    requires s == Input("1,2,3")
    ensures var pair := SeparatorThenItem<char, E>(OneOf(Digits), Just(','));
      Chain(pair, s.(position := 1), [Item('2'), Item('3')], s.(position := 5)) && Parse(pair, s.(position := 5)) == NoMatch
  {
    var pair := SeparatorThenItem<char, E>(OneOf(Digits), Just(','));
    var end := s.(position := 5);
    DigitPairsOn123<E>(s);
    NoPairAtEnd<E>(s);
    var tail: seq<Value<char>> := [];
    assert Chain(pair, end, tail, end);
    ChainCons(pair, s.(position := 3), Item('3'), end, tail, end);
    ChainCons(pair, s.(position := 1), Item('2'), s.(position := 3), [Item('3')] + tail, end);
    assert [Item('2')] + ([Item('3')] + tail) == [Item('2'), Item('3')];
  }

  /** `one_of(digits).separated_by(just(','))` on "1,2,3" reads all three
      digits and consumes the whole input. */
  lemma SeparatedOnDigits<E>(s: Stream<char>)
    requires s == Input("1,2,3")
    ensures Parse<char, E>(SeparatedBy(OneOf(Digits), Just(','), false, false, 0), s) ==
      Match(List([Item('1'), Item('2'), Item('3')]), s.(position := 5))
  {
    var q: Parser<char, E> := OneOf(Digits);
    var sep: Parser<char, E> := Just(',');
    var pair := SeparatorThenItem(q, sep);
    var vs := [Item('2'), Item('3')];
    var end := s.(position := 5);
    assert Parse(q, s) == Match(Item('1'), s.(position := 1)) by {
      assert s.spans[0].item == '1' && '1' in Digits;
      OneOfStep<char, E>(Digits, s);
    }
    assert FirstFrom(sep, false, s) == s;
    assert Chain(pair, s.(position := 1), vs, end) && Parse(pair, end) == NoMatch by {
      DigitChainOn123<E>(s);
    }
    assert [Item('1')] + vs == [Item('1'), Item('2'), Item('3')];
    SeparatedFollowsChain(q, sep, false, false, 0, s, vs, end);
  }

  /** With `at_least(2)`, a single digit is not enough: the first item
      matches but the rest, which needs one more pair, misses. */
  lemma SeparatedTooFew<E>(s: Stream<char>)
    requires s == Input("1")
    ensures Parse<char, E>(SeparatedBy(OneOf(Digits), Just(','), false, false, 2), s) == NoMatch
  {
    var q: Parser<char, E> := OneOf(Digits);
    var sep: Parser<char, E> := Just(',');
    var pair := SeparatorThenItem(q, sep);
    var end := s.(position := 1);
    assert s.spans[0].item == '1' && '1' in Digits;
    OneOfStep<char, E>(Digits, s);
    assert FirstFrom(sep, false, s) == s;
    assert Parse(sep, end) == NoMatch;
    assert Parse(pair, end) == NoMatch;
    assert Chain(pair, end, [], end);
    SeparatedFollowsChain(q, sep, false, false, 2, s, [], end);
  }

  /** `require` at position 0 reports the span of the LAST item, since the
      index `position - 1` is -1; later it reports the item before the cursor. */
  lemma RequireAtStartUsesLastSpan<E>(s: Stream<char>, kind: E)
    requires s == Input("abc")
    ensures Parse(Require(Just('z'), kind), s) == Error(kind, Span(2, 3))
    ensures Parse(Require(Just('z'), kind), s.(position := 2)) == Error(kind, Span(1, 2))
  {
    assert s.spans[0].item == 'a' && s.spans[2].item == 'c';
    assert s.spans[2].span == Span(2, 3) && s.spans[1].span == Span(1, 2);
    JustStep<char, E>('z', s);
    JustStep<char, E>('z', s.(position := 2));
  }
}

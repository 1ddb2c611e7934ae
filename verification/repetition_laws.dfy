/** `Repeated`: the loop runs its parser until it stops matching. A run is
    described by the chain of matches it went through and the outcome at
    the stream where the chain ended. */
module RepetitionLaws {
  import opened Streams
  import opened Combinators

  /** `q` matches `vs[0]`, `vs[1]`, … in turn from `s`, each match moving the
      cursor, and the last one leaves the stream `t`. */
  ghost predicate Chain<I(!new), E>(q: Parser<I, E>, s: Stream<I>, vs: seq<Value<I>>, t: Stream<I>)
    decreases |vs|
  {
    if |vs| == 0 then t == s
    else
      var o := Parse(q, s);
      && o.Match? && o.rest != s && o.value == vs[0]
      && Chain(q, o.rest, vs[1..], t)
  }

  /** The loop stops at `t`: the parser does not make a moving match there. */
  ghost predicate Stops<I(!new), E>(q: Parser<I, E>, t: Stream<I>)
  {
    !(Parse(q, t).Match? && Parse(q, t).rest != t)
  }

  /** What the loop returns when it stops at `t` having collected `ws`:
      a miss ends the loop (too few items is a miss of the whole), an
      error or fault is passed on, and a match that does not move would
      repeat forever. */
  function Final<I, E>(o: Outcome<I, E>, t: Stream<I>, n: int, ws: seq<Value<I>>): Outcome<I, E>
  {
    match o
    case NoMatch => if |ws| < n then NoMatch else Match(List(ws), t)
    case Match(_, _) => Fault(Diverges)
    case _ => o
  }

  /** A moving match followed by a chain is a chain one value longer. */
  lemma ChainCons<I(!new), E>(q: Parser<I, E>, s: Stream<I>, v: Value<I>, r: Stream<I>, vs: seq<Value<I>>, t: Stream<I>)
    requires Parse(q, s) == Match(v, r) && r != s && Chain(q, r, vs, t)
    ensures Chain(q, s, [v] + vs, t)
  {
    assert ([v] + vs)[1..] == vs;
  }

  /** Running the loop along a chain only collects the chain's values, and
      where the chain stops the loop ends with `Final` of the parser's
      outcome there. */
  lemma {:induction false} RepeatAlongChain<I(!new), E>(q: Parser<I, E>, n: int, s: Stream<I>, vs: seq<Value<I>>, t: Stream<I>, acc: seq<Value<I>>)
    requires Chain(q, s, vs, t) && Stops(q, t)
    ensures RepeatFrom(q, n, s, acc) == Final(Parse(q, t), t, n, acc + vs)
    decreases |vs|
  {
    if |vs| == 0 {
      assert acc + vs == acc;
      RepeatAtStop(q, n, t, acc);
    } else {
      var o := Parse(q, s);
      RepeatAlongChain(q, n, o.rest, vs[1..], t, acc + [vs[0]]);
      assert acc + [vs[0]] + vs[1..] == acc + vs;
    }
  }

  /** The loop at a stream where it stops returns `Final` of the parser's outcome there. */
  lemma RepeatAtStop<I(!new), E>(q: Parser<I, E>, n: int, t: Stream<I>, ws: seq<Value<I>>)
    requires Stops(q, t)
    ensures RepeatFrom(q, n, t, ws) == Final(Parse(q, t), t, n, ws)
  {
  }

  /** Specification of `Repeated(q, n)`: along any chain from `s` that ends
      where the loop stops, the result is `Final` of the parser's outcome
      at the end of the chain, with the chain's values as the items. */
  lemma {:induction false} RepeatedFollowsChain<I(!new), E>(q: Parser<I, E>, n: int, s: Stream<I>, vs: seq<Value<I>>, t: Stream<I>)
    requires Chain(q, s, vs, t) && Stops(q, t)
    ensures Parse(Repeated(q, n), s) == Final(Parse(q, t), t, n, vs)
  {
    RepeatedIsLoop(q, n, s);
    RepeatAlongChain(q, n, s, vs, t, []);
    assert [] + vs == vs;
  }

  /** `Repeated(q, n)` is the loop started with no items. */
  lemma RepeatedIsLoop<I(!new), E>(q: Parser<I, E>, n: int, s: Stream<I>)
    ensures Parse(Repeated(q, n), s) == RepeatFrom(q, n, s, [])
  {
  }

  /** From every stream there is such a chain (the loop's own run), so the
      specification above determines every result. */
  lemma {:induction false} ChainToStopExists<I(!new), E>(q: Parser<I, E>, s: Stream<I>)
    ensures exists vs, t :: Chain(q, s, vs, t) && Stops(q, t)
    decreases Measure(s)
  {
    var o := Parse(q, s);
    if o.Match? && o.rest != s {
      assert Measure(o.rest) < Measure(s);
      ChainToStopExists(q, o.rest);
      var vs, t :| Chain(q, o.rest, vs, t) && Stops(q, t);
      assert ([o.value] + vs)[1..] == vs;
      assert Chain(q, s, [o.value] + vs, t);
    } else {
      assert Chain(q, s, [], s);
    }
  }

  /** Hence a `Repeated` match is exactly a maximal chain with at least `n`
      values, whose end is where the parser misses: every match is one, and
      every such chain is the match. */
  lemma RepeatedMatchIsMaximalChain<I(!new), E>(q: Parser<I, E>, n: int, s: Stream<I>)
    ensures var o := Parse(Repeated(q, n), s);
      o.Match? ==> exists vs, t {:trigger Chain(q, s, vs, t)} :: Chain(q, s, vs, t) && Parse(q, t) == NoMatch && n <= |vs| && o == Match(List(vs), t)
    ensures forall vs, t {:trigger Chain(q, s, vs, t)} :: Chain(q, s, vs, t) && Parse(q, t) == NoMatch && n <= |vs| ==>
      Parse(Repeated(q, n), s) == Match(List(vs), t)
  {
    ChainToStopExists(q, s);
    var vs, t :| Chain(q, s, vs, t) && Stops(q, t);
    RepeatedFollowsChain(q, n, s, vs, t);
    var o := Parse(Repeated(q, n), s);
    assert o == Final(Parse(q, t), t, n, vs);
    if o.Match? {
      FinalMatch(Parse(q, t), t, n, vs);
      assert Chain(q, s, vs, t) && Parse(q, t) == NoMatch && n <= |vs| && o == Match(List(vs), t);
    }
    forall ws, u | Chain(q, s, ws, u) && Parse(q, u) == NoMatch && n <= |ws|
      ensures Parse(Repeated(q, n), s) == Match(List(ws), u)
    {
      RepeatedFollowsChain(q, n, s, ws, u);
    }
  }

  /** `Final` matches only after a miss, with at least `n` items. */
  lemma FinalMatch<I, E>(o: Outcome<I, E>, t: Stream<I>, n: int, ws: seq<Value<I>>)
    requires Final(o, t, n, ws).Match?
    ensures o == NoMatch && n <= |ws| && Final(o, t, n, ws) == Match(List(ws), t)
  {
  }

  /** Raising the minimum of `Final` only turns its match into a miss. */
  lemma FinalMonotone<I, E>(o: Outcome<I, E>, t: Stream<I>, n: int, m: int, ws: seq<Value<I>>)
    requires n <= m
    ensures Final(o, t, m, ws).Match? ==> Final(o, t, n, ws) == Final(o, t, m, ws)
    ensures Final(o, t, n, ws) == NoMatch ==> Final(o, t, m, ws) == NoMatch
    ensures !Final(o, t, n, ws).Match? ==> Final(o, t, m, ws) == Final(o, t, n, ws)
  {
  }

  /** With a minimum of at most 0 the repetition never misses. */
  lemma RepeatedNeverMissesWithoutMinimum<I(!new), E>(q: Parser<I, E>, n: int, s: Stream<I>)
    requires n <= 0
    ensures Parse(Repeated(q, n), s) != NoMatch
  {
    ChainToStopExists(q, s);
    var vs, t :| Chain(q, s, vs, t) && Stops(q, t);
    RepeatedFollowsChain(q, n, s, vs, t);
  }

  /** Raising the minimum only turns matches into misses: a match under the
      higher minimum is the same match under the lower one, and a miss
      under the lower minimum is a miss under the higher one. */
  lemma AtLeastMonotone<I(!new), E>(q: Parser<I, E>, n: int, m: int, s: Stream<I>)
    requires n <= m
    ensures Parse(Repeated(q, m), s).Match? ==> Parse(Repeated(q, n), s) == Parse(Repeated(q, m), s)
    ensures Parse(Repeated(q, n), s) == NoMatch ==> Parse(Repeated(q, m), s) == NoMatch
    ensures !Parse(Repeated(q, n), s).Match? ==> Parse(Repeated(q, m), s) == Parse(Repeated(q, n), s)
  {
    ChainToStopExists(q, s);
    var vs, t :| Chain(q, s, vs, t) && Stops(q, t);
    RepeatedFollowsChain(q, n, s, vs, t);
    RepeatedFollowsChain(q, m, s, vs, t);
    FinalMonotone(Parse(q, t), t, n, m, vs);
  }

  /** Every minimum at or below 0 behaves like 0; in particular the
      `at_least(n - 1)` that `separated_by` builds for `n = 0` is `at_least(0)`. */
  lemma NonPositiveMinimumIsZero<I(!new), E>(q: Parser<I, E>, n: int, s: Stream<I>)
    requires n <= 0
    ensures Parse(Repeated(q, n), s) == Parse(Repeated(q, 0), s)
  {
    ChainToStopExists(q, s);
    var vs, t :| Chain(q, s, vs, t) && Stops(q, t);
    RepeatedFollowsChain(q, n, s, vs, t);
    RepeatedFollowsChain(q, 0, s, vs, t);
  }

  /** The parser never matches without moving. */
  ghost predicate AlwaysMoves<I(!new), E>(q: Parser<I, E>)
  {
    forall t: Stream<I> :: Parse(q, t).Match? ==> Parse(q, t).rest != t
  }

  /** A parser that always moves cannot make the loop diverge: every
      error or fault of the repetition is one the parser itself returned at
      the end of a chain. */
  lemma MovingParserNeverDiverges<I(!new), E>(q: Parser<I, E>, n: int, s: Stream<I>)
    requires AlwaysMoves(q)
    ensures var o := Parse(Repeated(q, n), s);
      o.Terminal() ==> exists vs, t :: Chain(q, s, vs, t) && Parse(q, t) == o
  {
    ChainToStopExists(q, s);
    var vs, t :| Chain(q, s, vs, t) && Stops(q, t);
    RepeatedFollowsChain(q, n, s, vs, t);
  }

  /** A parser that matches without moving makes the loop diverge: at the
      end of the items `Nothing` matches in place, so repeating it faults. */
  lemma RepeatedNothingDiverges<I(!new), E>(n: int, s: Stream<I>)
    requires Valid(s) && s.position == |s.spans|
    ensures Parse<I, E>(Repeated(Nothing, n), s) == Fault(Diverges)
  {
    RepeatedFollowsChain<I, E>(Nothing, n, s, [], s);
  }

  /** A repetition whose first attempt misses collects no items: it misses
      under a positive minimum and matches the empty list in place otherwise. */
  lemma RepeatedFirstMiss<I(!new), E>(q: Parser<I, E>, n: int, s: Stream<I>)
    requires Parse(q, s) == NoMatch
    ensures Parse(Repeated(q, n), s) == if n > 0 then NoMatch else Match(List([]), s)
  {
    RepeatedFollowsChain(q, n, s, [], s);
  }
}

/** Sequencing: `Then` and the combinators that are `Then` with part of the
    pair thrown away, the context-passing form, and `then_chain`. */
module SequencingLaws {
  import opened Streams
  import opened Combinators

  /** `Then(a, b)` matches exactly when `a` matches and `b` matches on the
      stream `a` left; the value is the pair and the cursor is where `b`
      left it. A miss of either half is a miss of the whole, so the caller
      backtracks to the input stream. */
  lemma ThenMatchesBoth<I(!new), E>(a: Parser<I, E>, b: Parser<I, E>, s: Stream<I>)
    ensures var o := Parse(Then(a, b), s); var x := Parse(a, s);
      && (o.Match? <==> x.Match? && Parse(b, x.rest).Match?)
      && (o.Match? ==> o == Match(Pair(x.value, Parse(b, x.rest).value), Parse(b, x.rest).rest))
      && (x == NoMatch ==> o == NoMatch)
      && (x.Match? && Parse(b, x.rest) == NoMatch ==> o == NoMatch)
  {
  }

  /** After a match of `a`, `ignore_then` is exactly `b` on the stream `a` left. */
  lemma IgnoreThenRunsSecond<I(!new), E>(a: Parser<I, E>, b: Parser<I, E>, s: Stream<I>)
    requires Parse(a, s).Match?
    ensures Parse(IgnoreThen(a, b), s) == Parse(b, Parse(a, s).rest)
  {
  }

  /** The second component of a pair (the value itself if it is not one). */
  function Second<I>(v: Value<I>): Value<I>
  {
    if v.Pair? then v.snd else v
  }

  /** The first component of a pair (the value itself if it is not one). */
  function First<I>(v: Value<I>): Value<I>
  {
    if v.Pair? then v.fst else v
  }

  /** `ignore_then` is `then` keeping the second value. */
  lemma IgnoreThenKeepsSecond<I(!new), E>(a: Parser<I, E>, b: Parser<I, E>, s: Stream<I>)
    ensures Parse(IgnoreThen(a, b), s) == Parse(Map(Then(a, b), Second), s)
  {
    var x := Parse(a, s);
    if x.Match? {
      var y := Parse(b, x.rest);
      if y.Match? {
        assert Parse(Then(a, b), s) == Match(Pair(x.value, y.value), y.rest);
      } else {
        assert Parse(Then(a, b), s) == y;
      }
    } else {
      assert Parse(Then(a, b), s) == x;
    }
  }

  /** `then_ignore` is `then` keeping the first value. */
  lemma ThenIgnoreKeepsFirst<I(!new), E>(a: Parser<I, E>, b: Parser<I, E>, s: Stream<I>)
    ensures Parse(ThenIgnore(a, b), s) == Parse(Map(Then(a, b), First), s)
  {
    var x := Parse(a, s);
    if x.Match? {
      var y := Parse(b, x.rest);
      if y.Match? {
        assert Parse(Then(a, b), s) == Match(Pair(x.value, y.value), y.rest);
      } else {
        assert Parse(Then(a, b), s) == y;
      }
    } else {
      assert Parse(Then(a, b), s) == x;
    }
  }

  /** `((x, y), z)` from `(x, (y, z))`. */
  function Reassociate<I>(v: Value<I>): Value<I>
  {
    if v.Pair? && v.snd.Pair? then Pair(Pair(v.fst, v.snd.fst), v.snd.snd) else v
  }

  /** Sequencing is associative up to the nesting of the pairs: both
      groupings run the same parsers on the same streams. */
  lemma {:induction false} ThenAssociative<I(!new), E>(a: Parser<I, E>, b: Parser<I, E>, c: Parser<I, E>, s: Stream<I>)
    ensures Parse(Then(Then(a, b), c), s) == Parse(Map(Then(a, Then(b, c)), Reassociate), s)
  {
    var x := Parse(a, s);
    if x.Match? {
      var y := Parse(b, x.rest);
      if y.Match? {
        assert Parse(Then(a, b), s) == Match(Pair(x.value, y.value), y.rest);
        var z := Parse(c, y.rest);
        if z.Match? {
          assert Parse(Then(b, c), x.rest) == Match(Pair(y.value, z.value), z.rest);
          assert Parse(Then(a, Then(b, c)), s) == Match(Pair(x.value, Pair(y.value, z.value)), z.rest);
        } else {
          assert Parse(Then(b, c), x.rest) == z;
          assert Parse(Then(a, Then(b, c)), s) == z;
        }
      } else {
        assert Parse(Then(a, b), s) == y;
        assert Parse(Then(b, c), x.rest) == y;
        assert Parse(Then(a, Then(b, c)), s) == y;
      }
    } else {
      assert Parse(Then(a, b), s) == x;
      assert Parse(Then(a, Then(b, c)), s) == x;
    }
  }

  /** The value between the delimiters in `((start, item), end)`. */
  function Middle<I>(v: Value<I>): Value<I>
  {
    if v.Pair? && v.fst.Pair? then v.fst.snd else v
  }

  /** `delimited_by(start, end)` runs the three parsers in order and keeps
      only the middle value. */
  lemma DelimitedKeepsMiddle<I(!new), E>(q: Parser<I, E>, start: Parser<I, E>, end: Parser<I, E>, s: Stream<I>)
    ensures Parse(DelimitedBy(q, start, end), s) == Parse(Map(Then(Then(start, q), end), Middle), s)
  {
    var x := Parse(start, s);
    if x.Match? {
      var y := Parse(q, x.rest);
      if y.Match? {
        assert Parse(Then(start, q), s) == Match(Pair(x.value, y.value), y.rest);
        assert Parse(IgnoreThen(start, q), s) == Match(y.value, y.rest);
        var z := Parse(end, y.rest);
        if z.Match? {
          assert Parse(Then(Then(start, q), end), s) == Match(Pair(Pair(x.value, y.value), z.value), z.rest);
          assert Parse(ThenIgnore(IgnoreThen(start, q), end), s) == Match(y.value, z.rest);
        } else {
          assert Parse(Then(Then(start, q), end), s) == z;
          assert Parse(ThenIgnore(IgnoreThen(start, q), end), s) == z;
        }
      } else {
        assert Parse(Then(start, q), s) == y;
        assert Parse(IgnoreThen(start, q), s) == y;
        assert Parse(Then(Then(start, q), end), s) == y;
        assert Parse(ThenIgnore(IgnoreThen(start, q), end), s) == y;
      }
    } else {
      assert Parse(Then(start, q), s) == x;
      assert Parse(IgnoreThen(start, q), s) == x;
      assert Parse(Then(Then(start, q), end), s) == x;
      assert Parse(ThenIgnore(IgnoreThen(start, q), end), s) == x;
    }
  }

  /** The continuation that ignores the first value and runs `b`. */
  function Always<I(==,!new), E>(b: Parser<I, E>): Continuation<I, E>
  {
    (v: Value<I>, t: Stream<I>) => Parse(b, t)
  }

  /** `then_with_ctx` generalises `then`: with a callback that ignores the
      first value and runs `b`, it is `Then(a, b)`. */
  lemma ContextGeneralisesThen<I(!new), E>(a: Parser<I, E>, b: Parser<I, E>, s: Stream<I>)
    ensures Parse(ThenWithContext(a, Always(b)), s) == Parse(Then(a, b), s)
  {
  }

  /** The callback sees the first parser's value and the stream after it:
      the second half is chosen by that value. */
  lemma ContextSeesFirstValue<I(!new), E>(a: Parser<I, E>, k: Continuation<I, E>, s: Stream<I>)
    ensures var o := Parse(ThenWithContext(a, k), s); var x := Parse(a, s);
      && (o.Match? <==> x.Match? && k(x.value, x.rest).Match?)
      && (o.Match? ==> o == Match(Pair(x.value, k(x.value, x.rest).value), k(x.value, x.rest).rest))
      && (x.Match? && !k(x.value, x.rest).Match? ==> o == k(x.value, x.rest))
  {
  }

  /** `then_chain` after a match of `then` maps its value with `ChainValue`. */
  lemma ThenChainOnMatch<I(!new), E>(a: Parser<I, E>, rest: Parser<I, E>, s: Stream<I>, v: Value<I>, r: Stream<I>)
    requires Parse(Then(a, rest), s) == Match(v, r)
    ensures Parse(ThenChain(a, rest), s) == Match(ChainValue(v), r)
  {
    var p := ThenChain(a, rest);
    assert Parse(p, s) == ParseWrapped(p, s);
  }

  /** `then_chain` passes on a miss, error or fault of `then`. */
  lemma ThenChainOnFailure<I(!new), E>(a: Parser<I, E>, rest: Parser<I, E>, s: Stream<I>)
    requires !Parse(Then(a, rest), s).Match?
    ensures Parse(ThenChain(a, rest), s) == Parse(Then(a, rest), s)
  {
    var p := ThenChain(a, rest);
    assert Parse(p, s) == ParseWrapped(p, s);
  }

  /** `then_chain` puts the first value in front of what unpacking the
      second value yields. Misses and errors are those of `then`. */
  lemma ThenChainPrepends<I(!new), E>(a: Parser<I, E>, rest: Parser<I, E>, s: Stream<I>)
    ensures var o := Parse(ThenChain(a, rest), s); var x := Parse(a, s);
      && (o.Match? <==> x.Match? && Parse(rest, x.rest).Match?)
      && (o.Match? ==> var y := Parse(rest, x.rest);
           o == Match(List([x.value] + Unpacked(y.value)), y.rest))
      && (!o.Match? ==> o == Parse(Then(a, rest), s))
  {
    var t := Parse(Then(a, rest), s);
    ThenMatchesBoth(a, rest, s);
    if t.Match? {
      ThenChainOnMatch(a, rest, s, t.value, t.rest);
    } else {
      ThenChainOnFailure(a, rest, s);
    }
  }

  /** The shapes `then_chain` spreads: the elements of a list, the two halves
      of a pair, the items of a literal, each after the first value. */
  lemma ThenChainShapes<I(!new), E>(a: Parser<I, E>, rest: Parser<I, E>, s: Stream<I>)
    requires Parse(ThenChain(a, rest), s).Match?
    ensures var o := Parse(ThenChain(a, rest), s); var x := Parse(a, s);
      && x.Match? && Parse(rest, x.rest).Match? && o.value.List? && 0 < |o.value.elems|
      && var y := Parse(rest, x.rest);
      && (y.value.List? ==> o.value.elems == [x.value] + y.value.elems)
      && (y.value.Pair? ==> o.value.elems == [x.value, y.value.fst, y.value.snd])
      && (y.value.Items? ==> o.value.elems[0] == x.value && o.value.elems[1..] == ItemValues(y.value.items))
  {
    ThenChainPrepends(a, rest, s);
  }
}

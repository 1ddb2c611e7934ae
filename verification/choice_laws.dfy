/** Ordered choice: `Choice` tries its options left to right and the first
    one that does not miss decides; `Alternative` is the two-option case. */
module ChoiceLaws {
  import opened Streams
  import opened Combinators

  /** The option at index `i` decides when every earlier option misses and
      it does not: its outcome (match, error or fault) is the choice's. */
  lemma {:induction false} ChoiceFirstDecisive<I(!new), E>(ps: seq<Parser<I, E>>, i: nat, s: Stream<I>)
    requires i < |ps|
    requires forall j :: 0 <= j < i ==> Parse(ps[j], s) == NoMatch
    requires Parse(ps[i], s) != NoMatch
    ensures Parse(Choice(ps), s) == Parse(ps[i], s)
  {
    ChoiceUnfold(ps, s);
    if i > 0 {
      assert Parse(ps[0], s) == NoMatch;
      ChoiceFirstDecisive(ps[1..], i - 1, s);
      ChoiceUnfold(ps[1..], s);
    }
  }

  /** A choice misses exactly when every option misses. */
  lemma {:induction false} ChoiceMissesIffAllMiss<I(!new), E>(ps: seq<Parser<I, E>>, s: Stream<I>)
    ensures Parse(Choice(ps), s) == NoMatch <==> forall j :: 0 <= j < |ps| ==> Parse(ps[j], s) == NoMatch
  {
    ChoiceUnfold(ps, s);
    if |ps| > 0 {
      ChoiceMissesIffAllMiss(ps[1..], s);
      ChoiceUnfold(ps[1..], s);
      if Parse(ps[0], s) == NoMatch {
        forall j | 1 <= j < |ps|
          ensures Parse(ps[j], s) == Parse(ps[1..][j - 1], s)
        {
        }
      }
    }
  }

  /** Choosing among `ps + qs` is choosing among `ps` and, only when that
      misses, among `qs`. */
  lemma {:induction false} ChoiceAppend<I(!new), E>(ps: seq<Parser<I, E>>, qs: seq<Parser<I, E>>, s: Stream<I>)
    ensures Parse(Choice(ps + qs), s) ==
      if Parse(Choice(ps), s) == NoMatch then Parse(Choice(qs), s) else Parse(Choice(ps), s)
  {
    ChoiceUnfold(ps + qs, s);
    ChoiceUnfold(ps, s);
    ChoiceUnfold(qs, s);
    if |ps| > 0 {
      assert (ps + qs)[0] == ps[0];
      assert (ps + qs)[1..] == ps[1..] + qs;
      ChoiceAppend(ps[1..], qs, s);
      ChoiceUnfold(ps[1..] + qs, s);
      ChoiceUnfold(ps[1..], s);
    } else {
      assert ps + qs == qs;
    }
  }

  /** The right-nested `Alternative` chain over non-empty options. */
  function AlternativeChain<I(!new), E>(ps: seq<Parser<I, E>>): Parser<I, E>
    requires |ps| > 0
  {
    if |ps| == 1 then ps[0] else Alternative(ps[0], AlternativeChain(ps[1..]))
  }

  /** `choice(ps)` behaves as `ps[0] | ps[1] | ...` for non-empty `ps`. */
  lemma {:induction false} ChoiceIsAlternativeChain<I(!new), E>(ps: seq<Parser<I, E>>, s: Stream<I>)
    requires |ps| > 0
    ensures Parse(Choice(ps), s) == Parse(AlternativeChain(ps), s)
  {
    ChoiceUnfold(ps, s);
    if |ps| == 1 {
      ChoiceUnfold(ps[1..], s);
    } else {
      ChoiceIsAlternativeChain(ps[1..], s);
      assert AlternativeChain(ps) == Alternative(ps[0], AlternativeChain(ps[1..]));
    }
  }

  /** `Alternative` is associative, so the grouping of `|` never matters. */
  lemma AlternativeAssociative<I(!new), E>(a: Parser<I, E>, b: Parser<I, E>, c: Parser<I, E>, s: Stream<I>)
    ensures Parse(Alternative(Alternative(a, b), c), s) == Parse(Alternative(a, Alternative(b, c)), s)
  {
    assert Parse(Alternative(a, b), s) == if Parse(a, s) == NoMatch then Parse(b, s) else Parse(a, s);
    assert Parse(Alternative(b, c), s) == if Parse(b, s) == NoMatch then Parse(c, s) else Parse(b, s);
  }

  /** The empty choice always misses, and a one-option choice is its option. */
  lemma ChoiceSmall<I(!new), E>(p: Parser<I, E>, s: Stream<I>)
    ensures Parse<I, E>(Choice([]), s) == NoMatch
    ensures Parse(Choice([p]), s) == Parse(p, s)
  {
    ChoiceUnfold([p], s);
    ChoiceUnfold([p][1..], s);
  }

  /** One step of the choice loop. */
  lemma ChoiceUnfold<I(!new), E>(ps: seq<Parser<I, E>>, s: Stream<I>)
    ensures |ps| == 0 ==> Parse(Choice(ps), s) == NoMatch
    ensures |ps| > 0 ==>
      Parse(Choice(ps), s) == if Parse(ps[0], s) == NoMatch then Parse(Choice(ps[1..]), s) else Parse(ps[0], s)
  {
  }
}

/** The input cursor: an immutable sequence of spanned items and a position.
    Every operation returns a new stream; the items are never changed. */
module Streams {
  import opened Union
  import opened Spans

  /** `file` is the optional source path carried along for diagnostics. */
  datatype Stream<I> = Stream(file: Maybe<string>, spans: seq<Spanned<I>>, position: nat)

  /** The invariant the engine keeps for streams it produces from real input. */
  predicate Valid<I>(s: Stream<I>)
  {
    s.position <= |s.spans|
  }

  /** Indexing with the host language's rules: a negative index counts from
      the end (once), anything else out of range is an IndexError (`Nil`). */
  function PyIndex<T>(xs: seq<T>, i: int): (r: Maybe<T>)
    ensures r.Some? <==> -|xs| <= i < |xs|
    ensures r.Some? ==> r.item == if i < 0 then xs[|xs| + i] else xs[i]
  {
    if 0 <= i < |xs| then Some(xs[i])
    else if -|xs| <= i < 0 then Some(xs[|xs| + i])
    else Nil
  }

  /** The bare items of a sequence of spanned items. */
  function ItemsOf<I>(xs: seq<Spanned<I>>): (r: seq<I>)
    ensures |r| == |xs|
    ensures forall k :: 0 <= k < |xs| ==> r[k] == xs[k].item
  {
    seq(|xs|, k requires 0 <= k < |xs| => xs[k].item)
  }

  /** `__len__`: the number of items, wherever the cursor is. */
  function Len<I>(s: Stream<I>): (n: nat)
    ensures Valid(s) ==> n == s.position + |Remaining(s)|
  {
    |s.spans|
  }

  /** `from_source`: one item per source element, each with a unit span
      numbered from `base`, cursor at the start. */
  function FromSource<I>(source: seq<I>, file: Maybe<string>, base: int): (s: Stream<I>)
    ensures |s.spans| == |source| && s.position == 0 && s.file == file
    ensures ItemsOf(s.spans) == source
    ensures forall k :: 0 <= k < |source| ==> s.spans[k].span == Span(base + k, base + k + 1)
  {
    Stream(file, seq(|source|, k requires 0 <= k < |source| => Spanned(source[k], Span(base + k, base + k + 1))), 0)
  }

  /** `map`: applies `f` to every item, keeps every span, and (as the source
      does) starts the new stream at position 0. */
  function MapItems<I, J>(s: Stream<I>, f: I -> J): (t: Stream<J>)
    ensures Len(t) == Len(s) && t.position == 0 && t.file == s.file
    ensures forall k :: 0 <= k < |s.spans| ==> t.spans[k].span == s.spans[k].span
    ensures ItemsOf(t.spans) == seq(|s.spans|, k requires 0 <= k < |s.spans| => f(s.spans[k].item))
  {
    Stream(s.file, seq(|s.spans|, k requires 0 <= k < |s.spans| => Spanned(f(s.spans[k].item), s.spans[k].span)), 0)
  }

  /** `remaining`: the items from the cursor on (empty past the end). */
  function Remaining<I>(s: Stream<I>): (r: seq<Spanned<I>>)
    ensures |r| == if s.position <= |s.spans| then |s.spans| - s.position else 0
    ensures forall k :: 0 <= k < |r| ==> r[k] == s.spans[s.position + k]
  {
    if s.position <= |s.spans| then s.spans[s.position..] else []
  }

  /** `peek`: the item under the cursor, or `Nil` at the end. */
  function Peek<I>(s: Stream<I>): (m: Maybe<Spanned<I>>)
    ensures m == PyIndex(s.spans, s.position)
    ensures m.Some? <==> |Remaining(s)| > 0
    ensures m.Some? ==> m.item == Remaining(s)[0]
  {
    if s.position < |s.spans| then Some(s.spans[s.position]) else Nil
  }

  /** `advance`: moves the cursor `step` items (`by` in the source), never past the end. */
  function Advance<I>(s: Stream<I>, step: nat): (t: Stream<I>)
    ensures t.spans == s.spans && t.file == s.file
    ensures Valid(t)
    ensures t.position == if s.position + step <= |s.spans| then s.position + step else |s.spans|
  {
    Stream(s.file, s.spans, if s.position + step < |s.spans| then s.position + step else |s.spans|)
  }

  /** The `zip` loop of `startswith`: compares pattern and items pairwise
      over their common length and stops at the shorter one. */
  function ZipAgrees<I(==)>(pattern: seq<I>, items: seq<Spanned<I>>): (r: bool)
    ensures r <==> forall k :: 0 <= k < |pattern| && k < |items| ==> items[k].item == pattern[k]
  {
    if |pattern| == 0 || |items| == 0 then true
    else items[0].item == pattern[0] && ZipAgrees(pattern[1..], items[1..])
  }

  /** `startswith`: false for an empty pattern, false when the whole stream
      (not the remainder) is shorter than the pattern, false when nothing
      remains, otherwise pairwise agreement over the common prefix. */
  function StartsWith<I(==)>(s: Stream<I>, pattern: seq<I>): (r: bool)
    ensures r <==>
      && 0 < |pattern| <= |s.spans|
      && s.position < |s.spans|
      && forall k :: 0 <= k < |pattern| && s.position + k < |s.spans| ==> s.spans[s.position + k].item == pattern[k]
  {
    if |pattern| == 0 then false
    else if |s.spans| < |pattern| then false
    else
      var rest := Remaining(s);
      if |rest| == 0 then false
      else ZipAgrees(pattern, rest)
  }

  /** `end`: the span of the last item (an IndexError on an empty stream). */
  function End<I>(s: Stream<I>): (r: Span)
    requires |s.spans| > 0
    ensures r == s.spans[|s.spans| - 1].span
  {
    Unwrap(PyIndex(s.spans, -1)).span
  }

  // ----------------------------------------------------------------- laws

  /** Advancing twice is advancing by the sum; at the end advancing changes nothing. */
  lemma AdvanceCompose<I>(s: Stream<I>, a: nat, b: nat)
    ensures Advance(Advance(s, a), b) == Advance(s, a + b)
    ensures s.position == |s.spans| ==> Advance(s, a) == s
  {
  }

  /** On a valid stream the cursor never moves backwards. */
  lemma AdvanceMonotone<I>(s: Stream<I>, step: nat)
    requires Valid(s)
    ensures s.position <= Advance(s, step).position <= |s.spans|
    ensures step <= |Remaining(s)| ==> Advance(s, step).position == s.position + step
  {
  }

  /** When enough items remain, `startswith` is the plain prefix test. */
  lemma StartsWithIsPrefixTest<I>(s: Stream<I>, pattern: seq<I>)
    requires |pattern| <= |Remaining(s)|
    ensures StartsWith(s, pattern) <==> 0 < |pattern| && ItemsOf(Remaining(s))[..|pattern|] == pattern
  {
    var rest := ItemsOf(Remaining(s));
    if 0 < |pattern| && StartsWith(s, pattern) {
      assert forall k :: 0 <= k < |pattern| ==> rest[..|pattern|][k] == pattern[k];
    }
  }

  /** A successful `startswith` with the pattern inside the remaining items
      reads the pattern from the items at the cursor. */
  lemma StartsWithWindow<I>(s: Stream<I>, pattern: seq<I>)
    requires |pattern| <= |Remaining(s)| && StartsWith(s, pattern)
    ensures ItemsOf(s.spans[s.position..s.position + |pattern|]) == pattern
  {
    StartsWithIsPrefixTest(s, pattern);
    assert ItemsOf(Remaining(s))[..|pattern|] == ItemsOf(s.spans[s.position..s.position + |pattern|]);
  }

  /** The total-length check lets a pattern run past the end of the input.
      With one item left, a two-item pattern is accepted exactly when its
      first item agrees, provided the whole stream has at least two items;
      on a one-item stream the length check rejects it. */
  lemma StartsWithOverhang<I>(s: Stream<I>, x: I, y: I)
    requires |Remaining(s)| == 1
    ensures 2 <= |s.spans| ==> (StartsWith(s, [x, y]) <==> s.spans[s.position].item == x)
    ensures |s.spans| < 2 ==> !StartsWith(s, [x, y])
  {
    assert s.position + 1 == |s.spans|;
  }

  /** The spans `from_source` builds are contiguous, and joining the spans of
      items `i..j` gives `Span(base + i, base + j + 1)`. */
  lemma FromSourceContiguous<I>(source: seq<I>, file: Maybe<string>, base: int, i: nat, j: nat)
    requires i <= j < |source|
    ensures var s := FromSource(source, file, base);
      && (j + 1 < |source| ==> s.spans[j].span.end == s.spans[j + 1].span.start)
      && Concat(s.spans[i].span, s.spans[j].span) == Span(base + i, base + j + 1)
  {
    var s := FromSource(source, file, base);
    assert s.spans[i].span == Span(base + i, base + i + 1);
    assert s.spans[j].span == Span(base + j, base + j + 1);
    if j + 1 < |source| {
      assert s.spans[j + 1].span == Span(base + j + 1, base + j + 2);
    }
  }

  /** The lookups `Spanned` makes on a stream built by `from_source`: a
      non-empty window of items `i..j-1` spans `Span(base + i, base + j)`,
      an empty window at `i > 0` gets the empty span there, and index -1
      finds the last item. */
  lemma FromSourceLookups<I>(source: seq<I>, file: Maybe<string>, base: int, spans: seq<Spanned<I>>, i: nat, j: nat)
    requires spans == FromSource(source, file, base).spans && i < |source| && 0 < j <= |source|
    ensures PyIndex(spans, i) == Some(spans[i]) && PyIndex(spans, j - 1) == Some(spans[j - 1])
    ensures PyIndex(spans, -1) == Some(spans[|source| - 1])
    ensures Concat(spans[i].span, spans[j - 1].span) == Span(base + i, base + j)
  {
    assert spans[i].span == Span(base + i, base + i + 1);
    assert spans[j - 1].span == Span(base + j - 1, base + j);
  }

  /** Mapping with the identity keeps every item and span and only rewinds the cursor. */
  lemma MapItemsIdentity<I>(s: Stream<I>)
    ensures MapItems(s, x => x) == s.(position := 0)
  {
    var t := MapItems(s, x => x);
    assert forall k :: 0 <= k < |s.spans| ==> t.spans[k] == s.spans[k] by {
      forall k | 0 <= k < |s.spans|
        ensures t.spans[k] == s.spans[k]
      {
        assert t.spans[k].item == ItemsOf(t.spans)[k];
      }
    }
  }

  /** Mapping twice is mapping once with the composition. */
  lemma MapItemsCompose<I, J, K>(s: Stream<I>, f: I -> J, g: J -> K)
    ensures MapItems(MapItems(s, f), g) == MapItems(s, x => g(f(x)))
  {
    var t := MapItems(MapItems(s, f), g);
    var u := MapItems(s, x => g(f(x)));
    forall k | 0 <= k < |s.spans|
      ensures t.spans[k] == u.spans[k]
    {
      assert t.spans[k].item == ItemsOf(t.spans)[k];
      assert u.spans[k].item == ItemsOf(u.spans)[k];
      assert MapItems(s, f).spans[k].item == ItemsOf(MapItems(s, f).spans)[k];
    }
  }
}

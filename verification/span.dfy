/** Source positions: a `Span` is a range of item indices and a `Spanned`
    pairs a value with the span it came from. */
module Spans {

  datatype Span = Span(start: int, end: int)

  datatype Spanned<+T> = Spanned(item: T, span: Span)

  /** `a + b`: the span from the start of `a` to the end of `b`. The result
      depends on the order of the operands only through which span supplies
      which end. */
  function Concat(a: Span, b: Span): (r: Span)
    ensures r.start == a.start && r.end == b.end
  {
    Span(a.start, b.end)
  }

  /** `unpack`: the item and its span as a pair. */
  function Unpack<T>(s: Spanned<T>): (r: (T, Span))
    ensures Spanned(r.0, r.1) == s
  {
    (s.item, s.span)
  }

  /** Concatenation is associative and idempotent. */
  lemma ConcatAssociativeIdempotent(a: Span, b: Span, c: Span)
    ensures Concat(Concat(a, b), c) == Concat(a, Concat(b, c)) == Span(a.start, c.end)
    ensures Concat(a, a) == a
  {
  }

  /** Concatenation is not commutative, for two ordinary unit spans. */
  lemma ConcatNotCommutative()
    ensures Concat(Span(0, 1), Span(1, 2)) != Concat(Span(1, 2), Span(0, 1))
  {
  }

  /** Concatenating in source order keeps the span well formed. */
  lemma ConcatOrdered(a: Span, b: Span)
    requires a.start <= b.end
    ensures Concat(a, b).start <= Concat(a, b).end
  {
  }
}

/** The parser-combinator engine: parse values, the outcome every parser
    returns, the combinators as one deep-embedded datatype, and `Parse`. */
module Combinators {
  import opened Union
  import opened Spans
  import opened Streams

  /** The values parsers produce. The source is dynamically typed; this one
      type holds every shape its combinators build. */
  datatype Value<I> =
    | Item(item: I)                       // Just, OneOf, Filter
    | Items(items: seq<I>)                // StartsWith
    | Bool(truth: bool)                   // Boolean
    | Pair(fst: Value<I>, snd: Value<I>)  // Then, ThenWithContext
    | List(elems: seq<Value<I>>)          // Repeated, SeparatedBy
    | Opt(maybe: Maybe<Value<I>>)         // OrNot, Nothing
    | Located(spanned: Spanned<Value<I>>) // Spanned

  /** A parse that does not return an outcome: an IndexError raised while
      computing a span (`Require`, `Spanned`), or a `Repeated` loop whose
      parser matched without moving and so would repeat forever. */
  datatype Fault = IndexError | Diverges

  /** The three outcomes of the source, plus `Fault` for the runs that never
      return one. `NoMatch` carries no stream: a caller that backtracks can
      only resume from the stream it passed in. */
  datatype Outcome<I, E> =
    | Match(value: Value<I>, rest: Stream<I>)
    | NoMatch
    | Error(kind: E, span: Span)
    | Fault(fault: Fault)
  {
    /** Error and Fault both end the whole parse: no combinator catches them. */
    predicate Terminal()
    {
      Error? || Fault?
    }
  }

  /** How far a stream is from the end, as a natural number; a position past
      the end counts as farther away than any in range. */
  function Measure<I>(s: Stream<I>): nat
  {
    if s.position <= |s.spans| then |s.spans| - s.position else |s.spans| + 1
  }

  /** `t` is a stream a parser may return for input `s`: the same items and
      file, and either the same position or strictly nearer the end. */
  ghost predicate StepsForward<I>(s: Stream<I>, t: Stream<I>)
  {
    && t.spans == s.spans
    && t.file == s.file
    && (t.position == s.position || Measure(t) < Measure(s))
  }

  /** The contract on every parser's result for input `s`. */
  ghost predicate Advances<I, E>(s: Stream<I>, o: Outcome<I, E>)
  {
    o.Match? ==> StepsForward(s, o.rest)
  }

  /** The callback of `ThenWithContext`: given the first parser's value and
      the stream after it, it returns an outcome obeying the parser contract. */
  type Continuation<!I(!new), E> = k: (Value<I>, Stream<I>) -> Outcome<I, E>
    | forall v, s :: Advances(s, k(v, s))
    witness (v: Value<I>, s: Stream<I>) => NoMatch

  /** One constructor per parser class of the source; the fields are the
      dataclass fields. `SeparatedBy` and `Repeated` carry their builder
      settings (`_allow_leading`, `_allow_trailing`, `_at_least`). */
  datatype Parser<!I(!new), E> =
    | Require(required: Parser<I, E>, error: E)
    | Spanned(parser: Parser<I, E>)
    | Alternative(first: Parser<I, E>, second: Parser<I, E>)
    | To(parser: Parser<I, E>, convertTo: Value<I>)
    | Then(first: Parser<I, E>, second: Parser<I, E>)
    | ThenWithContext(first: Parser<I, E>, cont: Continuation<I, E>)
    | IgnoreThen(first: Parser<I, E>, second: Parser<I, E>)
    | ThenIgnore(first: Parser<I, E>, second: Parser<I, E>)
    | SeparatedBy(parser: Parser<I, E>, separator: Parser<I, E>, allowLeading: bool, allowTrailing: bool, atLeast: int)
    | DelimitedBy(parser: Parser<I, E>, start: Parser<I, E>, end: Parser<I, E>)
    | OrNot(parser: Parser<I, E>)
    | OrElse(parser: Parser<I, E>, fallback: Value<I>)
    | Map(parser: Parser<I, E>, mapper: Value<I> -> Value<I>)
    | Filter(func: I -> bool)
    | AndCheck(parser: Parser<I, E>, check: Value<I> -> bool)
    | Repeated(parser: Parser<I, E>, atLeast: int)
    | OneOf(choices: seq<I>)
    | Just(pattern: I)
    | Nothing
    | Boolean(parser: Parser<I, E>)
    | StartsWith(literal: seq<I>)
    | Choice(options: seq<Parser<I, E>>)

  /** A size that shrinks on every parser `Parse` runs, including the
      composite parsers `SeparatedBy` and `DelimitedBy` build. */
  function Size<I(!new), E>(p: Parser<I, E>): nat
    decreases p
  {
    match p
    case Require(q, _) => 1 + Size(q)
    case Spanned(q) => 1 + Size(q)
    case Alternative(a, b) => 1 + Size(a) + Size(b)
    case To(q, _) => 1 + Size(q)
    case Then(a, b) => 1 + Size(a) + Size(b)
    case ThenWithContext(a, _) => 1 + Size(a)
    case IgnoreThen(a, b) => 1 + Size(a) + Size(b)
    case ThenIgnore(a, b) => 1 + Size(a) + Size(b)
    case SeparatedBy(q, sep, _, _, _) => 3 + Size(q) + Size(sep)
    case DelimitedBy(q, a, b) => 3 + Size(q) + Size(a) + Size(b)
    case OrNot(q) => 1 + Size(q)
    case OrElse(q, _) => 1 + Size(q)
    case Map(q, _) => 1 + Size(q)
    case Filter(_) => 1
    case AndCheck(q, _) => 1 + Size(q)
    case Repeated(q, _) => 1 + Size(q)
    case OneOf(_) => 1
    case Just(_) => 1
    case Nothing => 1
    case Boolean(q) => 1 + Size(q)
    case StartsWith(_) => 1
    case Choice(ps) => 1 + SizeAll(ps)
  }

  function SizeAll<I(!new), E>(ps: seq<Parser<I, E>>): nat
    decreases ps
  {
    if |ps| == 0 then 0 else Size(ps[0]) + SizeAll(ps[1..])
  }

  /** `items.insert(0, first)` in `SeparatedBy`, on the list a `Repeated`
      match returns. */
  function Cons<I>(x: Value<I>, xs: Value<I>): Value<I>
    requires xs.List?
  {
    List([x] + xs.elems)
  }

  /** The parse function. Every match returns a stream over the same items
      that is at the input position or strictly nearer the end. */
  function Parse<I(==,!new), E>(p: Parser<I, E>, s: Stream<I>): (o: Outcome<I, E>)
    ensures Advances(s, o)
    ensures p.Repeated? && o.Match? ==> o.value.List?
    decreases Size(p), 1, 0
  {
    match p
    case Require(_, _) => ParseCommitted(p, s)
    case Spanned(_) => ParseCommitted(p, s)
    case Alternative(_, _) => ParseWrapped(p, s)
    case To(_, _) => ParseWrapped(p, s)
    case Then(_, _) => ParseSequence(p, s)
    case ThenWithContext(_, _) => ParseSequence(p, s)
    case IgnoreThen(_, _) => ParseSequence(p, s)
    case ThenIgnore(_, _) => ParseSequence(p, s)
    case SeparatedBy(_, _, _, _, _) => ParseSeparated(p, s)
    case DelimitedBy(_, _, _) => ParseWrapped(p, s)
    case OrNot(_) => ParseWrapped(p, s)
    case OrElse(_, _) => ParseWrapped(p, s)
    case Map(_, _) => ParseWrapped(p, s)
    case Filter(_) => ParsePrimitive(p, s)
    case AndCheck(_, _) => ParseWrapped(p, s)
    case Repeated(q, n) =>
      RepeatFrom(q, n, s, [])
    case OneOf(_) => ParsePrimitive(p, s)
    case Just(_) => ParsePrimitive(p, s)
    case Nothing => ParsePrimitive(p, s)
    case Boolean(_) => ParseWrapped(p, s)
    case StartsWith(_) => ParsePrimitive(p, s)
    case Choice(ps) =>
      ParseChoice(ps, s)
  }

  /** The parsers that look at the items themselves: one item tested by a
      predicate, by membership or by equality, the end of the input, and a
      literal run of items. None of them runs another parser. */
  function ParsePrimitive<I(==,!new), E>(p: Parser<I, E>, s: Stream<I>): (o: Outcome<I, E>)
    requires p.Filter? || p.OneOf? || p.Just? || p.Nothing? || p.StartsWith?
    ensures Advances(s, o)
    ensures o.Match? || o == NoMatch
  {
    match p
    case Filter(f) =>
      (match Peek(s)
       case Some(x) => if f(x.item) then Match(Item(x.item), Advance(s, 1)) else NoMatch
       case Nil => NoMatch)
    case OneOf(cs) =>
      (match Peek(s)
       case Some(x) => if x.item in cs then Match(Item(x.item), Advance(s, 1)) else NoMatch
       case Nil => NoMatch)
    case Just(x) =>
      (match Peek(s)
       case Some(y) => if y.item == x then Match(Item(x), Advance(s, 1)) else NoMatch
       case Nil => NoMatch)
    case Nothing =>
      (match Peek(s)
       case Some(_) => NoMatch
       case Nil => Match(Opt(Nil), Advance(s, 1)))
    case StartsWith(pat) =>
      if Streams.StartsWith(s, pat) then Match(Items(pat), Advance(s, |pat|)) else NoMatch
  }

  /** The combinators that run one inner parser (two for `Alternative`,
      and `DelimitedBy` through the sequence it stands for) on the input
      and rework its outcome. */
  function ParseWrapped<I(==,!new), E>(p: Parser<I, E>, s: Stream<I>): (o: Outcome<I, E>)
    requires p.Alternative? || p.To? || p.DelimitedBy? || p.OrNot? || p.OrElse? || p.Map? || p.AndCheck? || p.Boolean?
    ensures Advances(s, o)
    decreases Size(p), 0, 0
  {
    match p
    case Alternative(a, b) =>
      (match Parse(a, s)
       case NoMatch => Parse(b, s)
       case o => o)
    case To(q, k) =>
      (match Parse(q, s)
       case Match(_, r) => Match(k, r)
       case o => o)
    case DelimitedBy(q, start, end) =>
      assert Size(IgnoreThen(start, q)) == 1 + Size(start) + Size(q);
      Parse(ThenIgnore(IgnoreThen(start, q), end), s)
    case OrNot(q) =>
      (match Parse(q, s)
       case Match(v, r) => Match(Opt(Some(v)), r)
       case NoMatch => Match(Opt(Nil), s)
       case o => o)
    case OrElse(q, d) =>
      (match Parse(q, s)
       case NoMatch => Match(d, s)
       case o => o)
    case Map(q, f) =>
      (match Parse(q, s)
       case Match(v, r) => Match(f(v), r)
       case o => o)
    case AndCheck(q, pred) =>
      (match Parse(q, s)
       case Match(v, r) => if pred(v) then Match(v, r) else NoMatch
       case o => o)
    case Boolean(q) =>
      (match Parse(q, s)
       case Match(_, r) => Match(Bool(true), r)
       case NoMatch => Match(Bool(false), s)
       case o => o)
  }

  /** `Require` and `Spanned`: the two parsers that index the item list to
      find a span, and so can raise an IndexError. `Require` turns a miss
      into an error located at the item before the cursor (index -1, the
      last item, at position 0); `Spanned` joins the span of the item under
      the input cursor with the span of the item before the result cursor. */
  function ParseCommitted<I(==,!new), E>(p: Parser<I, E>, s: Stream<I>): (o: Outcome<I, E>)
    requires p.Require? || p.Spanned?
    ensures Advances(s, o)
    decreases Size(p), 0, 0
  {
    match p
    case Require(q, kind) =>
      (match Parse(q, s)
       case NoMatch =>
         (match PyIndex(s.spans, s.position - 1)
          case Some(last) => Error(kind, last.span)
          case Nil => Fault(IndexError))
       case o => o)
    case Spanned(q) =>
      (match Parse(q, s)
       case Match(v, r) =>
         (match (PyIndex(s.spans, s.position), PyIndex(r.spans, r.position - 1))
          case (Some(first), Some(last)) => Match(Located(Spans.Spanned(v, Concat(first.span, last.span))), r)
          case _ => Fault(IndexError))
       case o => o)
  }

  /** `Then`, `ThenWithContext`, `IgnoreThen` and `ThenIgnore`: run the first
      parser, then the second (or the callback) on the stream it left. */
  function ParseSequence<I(==,!new), E>(p: Parser<I, E>, s: Stream<I>): (o: Outcome<I, E>)
    requires p.Then? || p.ThenWithContext? || p.IgnoreThen? || p.ThenIgnore?
    ensures Advances(s, o)
    decreases Size(p), 0, 0
  {
    match p
    case Then(a, b) =>
      (match Parse(a, s)
       case Match(x, r) =>
         (match Parse(b, r)
          case Match(y, r') => Match(Pair(x, y), r')
          case o => o)
       case o => o)
    case ThenWithContext(a, k) =>
      (match Parse(a, s)
       case Match(x, r) =>
         (match k(x, r)
          case Match(y, r') => Match(Pair(x, y), r')
          case o => o)
       case o => o)
    case IgnoreThen(a, b) =>
      (match Parse(a, s)
       case Match(_, r) => Parse(b, r)
       case o => o)
    case ThenIgnore(a, b) =>
      (match Parse(a, s)
       case Match(x, r) =>
         (match Parse(b, r)
          case Match(_, r') => Match(x, r')
          case o => o)
       case o => o)
  }

  /** `SeparatedBy`: optional leading separator, one item, then the rest as
      `separator.ignore_then(parser).repeated().at_least(n - 1)`, then an
      optional trailing separator. A first-item miss returns the original
      input, dropping a consumed leading separator. */
  function ParseSeparated<I(==,!new), E>(p: Parser<I, E>, s: Stream<I>): (o: Outcome<I, E>)
    requires p.SeparatedBy?
    ensures Advances(s, o)
    decreases Size(p), 0, 0
  {
    var SeparatedBy(q, sep, leading, trailing, n) := p;
    var lead := if leading then Parse(sep, s) else NoMatch;
    if lead.Terminal() then lead
    else
      var pos := if lead.Match? then lead.rest else s;
      match Parse(q, pos)
      case NoMatch => if n > 0 then NoMatch else Match(List([]), s)
      case Match(first, r) =>
        assert Size(IgnoreThen(sep, q)) == 1 + Size(sep) + Size(q);
        (match Parse(Repeated(IgnoreThen(sep, q), n - 1), r)
         case Match(items, r') =>
           var all := Cons(first, items);
           if trailing then
             (match Parse(sep, r')
              case Match(_, r'') => Match(all, r'')
              case NoMatch => Match(all, r')
              case o => o)
           else Match(all, r')
         case o => o)
      case o => o
  }

  /** The loop of `Choice`: the first option that does not miss decides. */
  function ParseChoice<I(==,!new), E>(ps: seq<Parser<I, E>>, s: Stream<I>): (o: Outcome<I, E>)
    ensures Advances(s, o)
    decreases SizeAll(ps), 2, 0
  {
    if |ps| == 0 then NoMatch
    else
      match Parse(ps[0], s)
      case NoMatch => ParseChoice(ps[1..], s)
      case o => o
  }

  /** The loop of `Repeated`, with the items collected so far in `acc`. A
      match that leaves the cursor where it was would be repeated forever. */
  function RepeatFrom<I(==,!new), E>(q: Parser<I, E>, n: int, cur: Stream<I>, acc: seq<Value<I>>): (o: Outcome<I, E>)
    ensures Advances(cur, o)
    ensures o.Match? ==> o.value.List?
    decreases Size(q), 2, Measure(cur)
  {
    match Parse(q, cur)
    case Match(v, r) =>
      if r == cur then Fault(Diverges)
      else RepeatFrom(q, n, r, acc + [v])
    case NoMatch =>
      if |acc| < n then NoMatch else Match(List(acc), cur)
    case o => o
  }

  // ------------------------------------------------------------- builders

  /** `at_least` on `Repeated` or `SeparatedBy`: a copy with a new minimum. */
  function AtLeast<I(!new), E>(p: Parser<I, E>, minimum: int): (r: Parser<I, E>)
    requires p.Repeated? || p.SeparatedBy?
    ensures r.Repeated? == p.Repeated? && r.SeparatedBy? == p.SeparatedBy?
    ensures r.atLeast == minimum && r.(atLeast := p.atLeast) == p
  {
    p.(atLeast := minimum)
  }

  /** `allow_leading` on `SeparatedBy`. */
  function AllowLeading<I(!new), E>(p: Parser<I, E>): (r: Parser<I, E>)
    requires p.SeparatedBy?
    ensures r.SeparatedBy? && r.allowLeading && r.(allowLeading := p.allowLeading) == p
  {
    p.(allowLeading := true)
  }

  /** `allow_trailing` on `SeparatedBy`. */
  function AllowTrailing<I(!new), E>(p: Parser<I, E>): (r: Parser<I, E>)
    requires p.SeparatedBy?
    ensures r.SeparatedBy? && r.allowTrailing && r.(allowTrailing := p.allowTrailing) == p
  {
    p.(allowTrailing := true)
  }

  /** `map_boolean`: `boolean()` followed by a function of the flag. */
  function MapBoolean<I(!new), E>(p: Parser<I, E>, f: bool -> Value<I>): (r: Parser<I, E>)
    ensures r.Map? && r.parser == Boolean(p)
    ensures r.mapper(Bool(true)) == f(true) && r.mapper(Bool(false)) == f(false)
  {
    Map(Boolean(p), (v: Value<I>) => f(v.Bool? && v.truth))
  }

  /** The items of a `StartsWith` literal, each as an item value. */
  function ItemValues<I>(xs: seq<I>): (r: seq<Value<I>>)
    ensures |r| == |xs|
    ensures forall k :: 0 <= k < |xs| ==> r[k] == Item(xs[k])
  {
    seq(|xs|, k requires 0 <= k < |xs| => Item(xs[k]))
  }

  /** What `*v` yields inside a list display: a list's elements, a pair's
      two components, a literal's items. An item stays one element, as a
      one-character string does (a longer string item would be spread into
      its characters). The other values (a flag, an optional, a spanned
      value) are not iterable in the source. */
  function Unpacked<I>(v: Value<I>): seq<Value<I>>
  {
    match v
    case List(es) => es
    case Pair(a, b) => [a, b]
    case Items(xs) => ItemValues(xs)
    case _ => [v]
  }

  /** The function `then_chain` maps over the pair `then` returns:
      `[first, *second]`. A list second value is extended at the front. */
  function ChainValue<I>(v: Value<I>): (r: Value<I>)
    ensures v.Pair? ==> r.List? && |r.elems| > 0 && r.elems[0] == v.fst && r.elems[1..] == Unpacked(v.snd)
    ensures v.Pair? && v.snd.List? ==> r == List([v.fst] + v.snd.elems)
  {
    if v.Pair? then List([v.fst] + Unpacked(v.snd)) else v
  }

  /** `then_chain`: `then` followed by `ChainValue`. */
  function ThenChain<I(!new), E>(p: Parser<I, E>, rest: Parser<I, E>): (r: Parser<I, E>)
    ensures r.Map? && r.parser == Then(p, rest) && r.mapper == ChainValue
  {
    Map(Then(p, rest), ChainValue)
  }
}

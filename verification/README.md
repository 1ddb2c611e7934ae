# compynators in Dafny

A model of the core of compynators, a small parser-combinator library. A
parser reads a `Stream` of spanned items and returns one of three outcomes:
a match (a value plus the stream after it), a miss (`NoMatch`, which carries
no stream, so a caller that backtracks resumes from its own input), or an
error (an error kind plus a span), which no combinator catches. Combinators
build bigger parsers from smaller ones: sequencing, ordered choice,
optional and default values, commitment (`require`), span capture, value
maps and checks, repetition, separated and delimited lists, and the
primitive item matchers.

The model has one module per source file and one module per group of
laws:

- `Union` (`union.py`): `Maybe` and `Result` with their helpers.
- `Spans` (`span.py`): `Span`, `Spanned`, span concatenation.
- `Streams` (`stream.py`): the immutable cursor. It has `from_source`,
  `map`, `remaining`, `peek`, `advance`, `startswith` and `end`, plus
  `PyIndex`, the host language's list indexing: a negative index counts
  from the end once, and anything else out of range is an IndexError.
- `Combinators` (`combinators.py`):
  - the parser classes as one datatype `Parser`, with one constructor per
    class;
  - the outcome type `Outcome`;
  - one function, `Parse`, that does what every class's `parse` method
    does;
  - the builder methods `at_least`, `allow_leading`, `allow_trailing`,
    `map_boolean` and `then_chain`.
- `PrimitiveLaws`, `EngineLaws`, `WrapperLaws`, `SequencingLaws`,
  `ChoiceLaws`, `RepetitionLaws`, `SeparatedLaws`: what each combinator
  does, stated over all parsers and all streams.
- `Examples`: concrete runs on short character inputs.

Values are dynamically typed in the source. Here one datatype `Value`
holds every shape the combinators build: an item, a literal, a flag, a
pair, a list, an optional, a spanned value.

The outcome type has a fourth arm, `Fault`, for the two ways a parse in
the source never returns an outcome:

- `Fault(IndexError)`: `require` and `spanned` index the item list. An
  index out of range raises an IndexError, and no combinator catches it.
- `Fault(Diverges)`: a `repeated` whose inner parser matches without
  moving the cursor loops forever.

`Parse` is total. Every match it returns is over the same items and
file, and its cursor either stays put or moves strictly nearer the end.
That is the contract every parser obeys (`Combinators.Parse`,
`EngineLaws.ParseMonotone`), and it is also what makes the recursion
terminate.

In several places the code does not do what the method names suggest.
The model follows the code:

- `startswith` compares the pattern's length with the length of the
  whole stream, not with what remains. It then compares pairwise with
  `zip`, which stops at the shorter side. So a pattern may run past the
  end: on "abc" at position 2, `"cx"` matches and the cursor is clamped
  to the end (`PrimitiveLaws.StartsWithOverhangMatches`).
- `require` at position 0 locates its error at index `position - 1 = -1`,
  which is the last item of the input, not the start of the input
  (`Examples.RequireAtStartUsesLastSpan`). On an empty input the lookup
  raises an IndexError.
- `spanned` joins the span of the item at the start position with the
  span of the item before the end position. For a match at position `p`
  that consumed nothing, that is
  `Span(spans[p].span.start, spans[p - 1].span.end)`, which may be
  inverted on streams whose items are not adjacent. On a `from_source`
  stream it depends on where the match happened:
  - inside the input, the empty span at the cursor;
  - at position 0, the span of the whole input, because index -1 wraps
    round;
  - at the end, an IndexError (on any stream).
- `separated_by` repeats `separator.ignore_then(parser)` with minimum
  `at_least - 1`. That minimum may be negative, which behaves as 0
  (`RepetitionLaws.NonPositiveMinimumIsZero`). `ignore_then` is `then`
  keeping the second value (`SequencingLaws.IgnoreThenKeepsSecond`).
- `Stream.map` builds a new stream at position 0, whatever the position
  of the stream it maps.

## Model

| member | source | states |
|---|---|---|
| Union.Unwrap | compynators/union.py:46-47 | the item of a `Some` round-trips through `Some`; unwrapping `Nil` is excluded by the precondition |
| Union.Expect | compynators/union.py:49-50 | on a `Some` it agrees with `unwrap`; the message plays no part in the result |
| Union.IsSome | compynators/union.py:13-15 | true exactly when the value is not `Nil` |
| Union.IsNil | compynators/union.py:17-19 | true exactly when `is_some` is false |
| Union.Truthy | compynators/union.py:33-34 | `Nil` is falsy and every `Some` is truthy, whatever it holds |
| Union.MaybeExclusive | compynators/union.py:13-19 | exactly one of `is_some` and `is_nil` holds, and a `Some` is rebuilt from its unwrapped item |
| Union.IsOk | compynators/union.py:67-69 | true exactly when the result is not an `Err` |
| Union.IsErr | compynators/union.py:71-73 | true exactly when `is_ok` is false |
| Union.UnwrapOk | compynators/union.py:79-80 | the item of an `Ok` round-trips through `Ok` |
| Union.UnwrapErr | compynators/union.py:123-124 | the item of an `Err` round-trips through `Err` |
| Union.ExpectOk | compynators/union.py:85-86 | on an `Ok` it agrees with `unwrap` |
| Union.OkOf | compynators/union.py:88-89 | `ok()` is `Some` exactly for an `Ok`, holding its item |
| Union.Map | compynators/union.py:102-103 | `map` keeps the arm, applies the function to an `Ok` item and leaves an `Err` alone |
| Union.MapErr | compynators/union.py:157-158 | `map_err` keeps the arm, leaves an `Ok` alone and applies the function to an `Err` item |
| Union.AndThen | compynators/union.py:91-94 | `and_then` runs the operation on an `Ok` item and passes an `Err` through |
| Union.MapOr | compynators/union.py:105-106 | `map_or` applies the function to an `Ok` item and gives the default for an `Err` |
| Union.MapOrElse | compynators/union.py:152-155 | `map_or_else` applies the function to an `Ok` item and the fallback to an `Err` item |
| Union.AndThenIdentities | compynators/union.py:91-94 | `Ok` is a left and right unit of `and_then` |
| Union.AndThenAssociative | compynators/union.py:135-138 | `and_then` is associative |
| Union.MapLaws | compynators/union.py:146-147 | `map` is `and_then` followed by `Ok`, keeps the identity and composes |
| Union.MapErrLaws | compynators/union.py:113-114 | `map_err` keeps the identity, composes and never changes `ok()` |
| Union.MapOrLaws | compynators/union.py:149-150 | `map_or` is `map_or_else` with a constant fallback and agrees with `map` then `ok` |
| Spans.Concat | compynators/span.py:10-14 | the sum of two spans starts where the left one starts and ends where the right one ends |
| Spans.Unpack | compynators/span.py:22-23 | `unpack` returns the item and the span, and they rebuild the spanned value |
| Spans.ConcatAssociativeIdempotent | compynators/span.py:10-14 | span addition is associative and idempotent |
| Spans.ConcatNotCommutative | compynators/span.py:10-14 | span addition is not commutative |
| Spans.ConcatOrdered | compynators/span.py:10-14 | adding spans in source order gives a span whose start is not after its end |
| Streams.PyIndex | compynators/combinators.py:222 | list indexing succeeds exactly for indices in `-len .. len-1`, and a negative index counts from the end |
| Streams.Len | compynators/stream.py:29-30 | the length of a valid stream is its position plus the number of remaining items |
| Streams.FromSource | compynators/stream.py:32-42 | one item per source element, in order, the element at index k spanning `base+k .. base+k+1`, cursor at 0 |
| Streams.MapItems | compynators/stream.py:44-52 | `map` keeps the length, the spans and the file, maps every item, and starts at position 0 |
| Streams.Remaining | compynators/stream.py:54-55 | the remaining items are exactly the items from the cursor on, none past the end |
| Streams.Peek | compynators/stream.py:57-63 | `peek` is the item at the cursor when items remain and `Nil` otherwise |
| Streams.Advance | compynators/stream.py:65-70 | `advance` keeps items and file and moves the cursor by the step, clamped to the end |
| Streams.ZipAgrees | compynators/stream.py:82-84 | the `zip` loop accepts exactly when pattern and items agree over their common length |
| Streams.StartsWith | compynators/stream.py:72-86 | `startswith` holds exactly for a non-empty pattern no longer than the whole stream, with an item left, agreeing with the items from the cursor where both exist |
| Streams.End | compynators/stream.py:88-89 | `end` is the span of the last item |
| Streams.AdvanceCompose | compynators/stream.py:65-70 | advancing twice is advancing by the sum, and advancing at the end changes nothing |
| Streams.AdvanceMonotone | compynators/stream.py:65-70 | on a valid stream `advance` never moves back or past the end, and moves exactly by the step when enough items remain |
| Streams.StartsWithIsPrefixTest | compynators/stream.py:72-86 | when enough items remain, `startswith` is exactly the prefix test on the remaining items |
| Streams.StartsWithWindow | compynators/stream.py:72-86 | a successful `startswith` inside the remaining items reads the pattern from the items at the cursor |
| Streams.StartsWithOverhang | compynators/stream.py:72-86 | with one item left on a stream of at least two items, a two-item pattern is accepted exactly when its first item agrees, although its second item lies past the end; on a one-item stream the total-length check rejects it |
| Streams.FromSourceContiguous | compynators/stream.py:32-42 | `from_source` spans are contiguous, and joining the spans of items i..j gives `base+i .. base+j+1` |
| Streams.FromSourceLookups | compynators/stream.py:32-42 | on a `from_source` stream the lookups `spanned` makes succeed, index -1 finds the last item, and a window's joined span is its offsets |
| Streams.MapItemsIdentity | compynators/stream.py:44-52 | mapping with the identity only rewinds the cursor |
| Streams.MapItemsCompose | compynators/stream.py:44-52 | mapping twice is mapping once with the composition |
| Combinators.Parse | compynators/combinators.py:114-117 | every parser's match keeps the items and file and leaves the cursor in place or strictly nearer the end, and a `repeated` match is a list |
| Combinators.ParseWrapped | compynators/combinators.py:249-649 | the wrappers `Alternative`, `To`, `DelimitedBy`, `OrNot`, `OrElse`, `Map`, `AndCheck` and `Boolean` obey the same forward-only contract |
| Combinators.ParsePrimitive | compynators/combinators.py:536-662 | `filter`, `one_of`, `just`, `nothing` and `startswith` obey the forward-only contract and never return an error |
| Combinators.ParseCommitted | compynators/combinators.py:211-246 | `require` and `spanned` obey the forward-only contract |
| Combinators.ParseSequence | compynators/combinators.py:291-381 | the sequencing classes obey the forward-only contract |
| Combinators.ParseSeparated | compynators/combinators.py:393-460 | `separated_by` obeys the forward-only contract |
| Combinators.ParseChoice | compynators/combinators.py:663-677 | `choice` obeys the forward-only contract |
| Combinators.RepeatFrom | compynators/combinators.py:574-588 | the repetition loop obeys the forward-only contract, and its match is a list as `Repeated` declares |
| Combinators.AtLeast | compynators/combinators.py:472-593 | `at_least` on `SeparatedBy` (lines 472-475) and on `Repeated` (lines 590-593) sets the minimum, keeps the class and changes nothing else |
| Combinators.AllowLeading | compynators/combinators.py:462-465 | `allow_leading` sets its flag and changes nothing else |
| Combinators.AllowTrailing | compynators/combinators.py:467-470 | `allow_trailing` sets its flag and changes nothing else |
| Combinators.MapBoolean | compynators/combinators.py:184-186 | `map_boolean(f)` is `boolean()` mapped so that the flag `b` becomes `f(b)` |
| Combinators.ChainValue | compynators/combinators.py:196 | the `then_chain` mapper turns a pair `(x, y)` into a list that starts with `x` and continues with what `*y` spreads for a list, a pair or a literal (`Unpacked`: a list's elements, a pair's halves, a literal's items through `ItemValues`); a list `y` is extended at the front |
| Combinators.ThenChain | compynators/combinators.py:192-196 | `then_chain` is `then` followed by the mapper `ChainValue` |
| PrimitiveLaws.FilterMatchesPeek | compynators/combinators.py:540-548 | `filter` matches exactly when the item at the cursor passes, yielding it and moving one item; otherwise it misses |
| PrimitiveLaws.JustIsFilter | compynators/combinators.py:615-623 | `just(x)` is `filter` with equality to `x` |
| PrimitiveLaws.OneOfIsFilter | compynators/combinators.py:600-608 | `one_of(cs)` is `filter` with membership in `cs` |
| PrimitiveLaws.NothingAtEnd | compynators/combinators.py:628-634 | `Nothing` matches exactly at the end, yielding `Nil` without moving a valid cursor |
| PrimitiveLaws.StartsWithMatches | compynators/combinators.py:656-660 | `startswith(pat)` matches exactly when the stream starts with `pat`, yields `pat` and advances by its length |
| PrimitiveLaws.StartsWithConsumesPattern | compynators/combinators.py:656-660 | a match inside the remaining items consumes exactly the pattern's items |
| PrimitiveLaws.StartsWithOverhangMatches | compynators/combinators.py:656-660 | on "abc" at position 2, `startswith("cx")` matches and clamps the cursor to the end |
| PrimitiveLaws.PrimitivesNeverFail | compynators/combinators.py:540-660 | no primitive matcher ever returns an error or a fault |
| EngineLaws.ParseMonotone | compynators/combinators.py:114-117 | on a valid stream a match never moves back or past the end and keeps the items and file |
| EngineLaws.TerminalPropagatesWrappers | compynators/combinators.py:216-566 | every wrapper returns an inner error or fault unchanged |
| EngineLaws.TerminalPropagatesSequences | compynators/combinators.py:254-381 | alternatives, sequences and choices return an error or fault of their first parser unchanged |
| EngineLaws.TerminalPropagatesRepeated | compynators/combinators.py:574-588 | a repetition whose first attempt fails hard returns that failure |
| EngineLaws.SecondTerminalPropagates | compynators/combinators.py:296-381 | an error or fault of the second parser is the sequence's outcome |
| EngineLaws.AlternativeBacktracks | compynators/combinators.py:254-272 | after a miss the second alternative runs on the same input; otherwise the first outcome stands |
| WrapperLaws.OrNotNeverMisses | compynators/combinators.py:493-501 | `or_not` never misses: `Some` on a match, `Nil` at the unchanged input on a miss, errors passed on |
| WrapperLaws.BooleanIsOrNotFlag | compynators/combinators.py:641-649 | `boolean` is `or_not` reporting whether it matched, and never misses |
| WrapperLaws.OrElseIsOrNotDefault | compynators/combinators.py:509-517 | `or_else(d)` is `or_not` with `d` for `Nil`, so a miss yields `d` at the unchanged input |
| WrapperLaws.ToIsConstantMap | compynators/combinators.py:280-288 | `to(k)` is `map` with the constant function `k` |
| WrapperLaws.MapKeepsCursor | compynators/combinators.py:525-533 | `map` changes only a match's value; mapping twice is mapping with the composition; the identity map changes nothing |
| WrapperLaws.AndCheckDemotes | compynators/combinators.py:556-566 | `and_check` keeps exactly the matches whose value passes, demotes the rest to misses, and two checks are one conjoined check |
| WrapperLaws.MapBooleanLaw | compynators/combinators.py:184-186 | `map_boolean(f)` yields `f(true)` after a match and `f(false)` at the unchanged input after a miss |
| WrapperLaws.RequireCommits | compynators/combinators.py:216-224 | `require` never misses: matches and errors pass, and a miss becomes an error at the item before the cursor, the last item at position 0, or an IndexError when there is none |
| WrapperLaws.SpannedLocates | compynators/combinators.py:231-246 | `spanned` joins the span at the input cursor with the span before the result cursor, or raises an IndexError when either lookup fails |
| WrapperLaws.SpannedFromLookups | compynators/combinators.py:231-242 | given the two items its lookups find, `spanned` wraps the match with their joined span |
| WrapperLaws.SpannedCoversConsumed | compynators/combinators.py:231-242 | on a `from_source` stream, `spanned` around a match that consumed items i..j-1 reports `base+i .. base+j` |
| WrapperLaws.SpannedZeroWidthInside | compynators/combinators.py:231-242 | on a `from_source` stream, a zero-width match inside the input gets the empty span at the cursor |
| WrapperLaws.SpannedZeroWidthAtStart | compynators/combinators.py:231-242 | on a `from_source` stream, a zero-width match at position 0 gets the span of the whole input |
| WrapperLaws.SpannedAtEndFaults | compynators/combinators.py:231-242 | a match starting at or past the end raises an IndexError |
| SequencingLaws.ThenMatchesBoth | compynators/combinators.py:296-316 | `then` matches exactly when both halves match in turn, yielding the pair at the second's cursor; a miss of either half is a miss |
| SequencingLaws.IgnoreThenRunsSecond | compynators/combinators.py:357-363 | after a match of the first parser, `ignore_then` is the second parser on the stream the first left |
| SequencingLaws.IgnoreThenKeepsSecond | compynators/combinators.py:357-363 | `ignore_then` is `then` keeping the second value |
| SequencingLaws.ThenIgnoreKeepsFirst | compynators/combinators.py:371-381 | `then_ignore` is `then` keeping the first value |
| SequencingLaws.ThenAssociative | compynators/combinators.py:296-316 | `then` is associative up to the nesting of the pairs |
| SequencingLaws.DelimitedKeepsMiddle | compynators/combinators.py:484-486 | `delimited_by` runs start, parser and end in order and keeps the middle value |
| SequencingLaws.ContextGeneralisesThen | compynators/combinators.py:326-349 | `then_with_ctx` with a callback that ignores the value and runs `b` is `then(b)` |
| SequencingLaws.ContextSeesFirstValue | compynators/combinators.py:326-349 | the callback receives the first value and the stream after it, and its outcome decides the result |
| SequencingLaws.ThenChainOnMatch | compynators/combinators.py:192-196 | after a match of `then`, `then_chain` matches at the same cursor with the mapped value |
| SequencingLaws.ThenChainOnFailure | compynators/combinators.py:192-196 | a miss, error or fault of `then` is the outcome of `then_chain` |
| SequencingLaws.ThenChainPrepends | compynators/combinators.py:192-196 | `then_chain` matches exactly when both parsers match in turn, puts the first value in front of the unpacked second value, and its misses and errors are those of `then` |
| SequencingLaws.ThenChainShapes | compynators/combinators.py:192-196 | after a match of `then_chain`, the list holds the first value followed by the second value's list elements, its two pair halves, or its literal items |
| ChoiceLaws.ChoiceFirstDecisive | compynators/combinators.py:667-677 | the first option that does not miss decides the choice |
| ChoiceLaws.ChoiceMissesIffAllMiss | compynators/combinators.py:667-677 | a choice misses exactly when every option misses |
| ChoiceLaws.ChoiceAppend | compynators/combinators.py:667-677 | choosing among `ps + qs` is choosing among `ps`, then among `qs` only after a miss |
| ChoiceLaws.ChoiceIsAlternativeChain | compynators/combinators.py:667-677 | a non-empty choice behaves as its options joined by `alternative` |
| ChoiceLaws.AlternativeAssociative | compynators/combinators.py:254-272 | `alternative` is associative |
| ChoiceLaws.ChoiceSmall | compynators/combinators.py:667-677 | the empty choice misses and a one-option choice is its option |
| ChoiceLaws.ChoiceUnfold | compynators/combinators.py:668-677 | one step of the choice loop |
| RepetitionLaws.ChainCons | compynators/combinators.py:579-582 | a moving match followed by a run of matches is a run one value longer |
| RepetitionLaws.RepeatAlongChain | compynators/combinators.py:578-582 | along a run of moving matches the loop only collects their values |
| RepetitionLaws.RepeatAtStop | compynators/combinators.py:578-588 | where the parser stops making moving matches the loop ends with the final outcome |
| RepetitionLaws.RepeatedFollowsChain | compynators/combinators.py:575-588 | a repetition's outcome is determined by the run of matches from the input and the parser's outcome where the run stops |
| RepetitionLaws.RepeatedIsLoop | compynators/combinators.py:574-578 | `repeated` starts its loop at the input with no items collected |
| RepetitionLaws.ChainToStopExists | compynators/combinators.py:578-588 | from every stream there is such a run, ending where the loop stops |
| RepetitionLaws.RepeatedMatchIsMaximalChain | compynators/combinators.py:575-588 | every match of a repetition is a maximal run of at least the minimum number of values, ending where the parser misses, and every such run is the repetition's match |
| RepetitionLaws.RepeatedNeverMissesWithoutMinimum | compynators/combinators.py:583-586 | with a minimum of at most 0 a repetition never misses |
| RepetitionLaws.AtLeastMonotone | compynators/combinators.py:583-593 | raising the minimum only turns matches into misses |
| RepetitionLaws.NonPositiveMinimumIsZero | compynators/combinators.py:583-586 | every minimum at or below 0 behaves like 0 |
| RepetitionLaws.MovingParserNeverDiverges | compynators/combinators.py:578-588 | with a parser that always moves, every error or fault of the loop is the parser's own |
| RepetitionLaws.RepeatedNothingDiverges | compynators/combinators.py:578-588 | repeating `Nothing` at the end loops forever |
| RepetitionLaws.RepeatedFirstMiss | compynators/combinators.py:583-586 | a repetition whose first attempt misses yields the empty list in place, or a miss under a positive minimum |
| SeparatedLaws.SeparatedLeadingFails | compynators/combinators.py:416-423 | an error of an allowed leading separator ends the parse |
| SeparatedLaws.SeparatedFirstMiss | compynators/combinators.py:425-433 | a first-item miss gives the empty list at the original input, dropping a leading separator, or a miss under a positive minimum |
| SeparatedLaws.SeparatedAfterFirst | compynators/combinators.py:435-460 | after the first item the rest is the repeated separator-item pair with minimum `at_least - 1` |
| SeparatedLaws.SeparatedFollowsChain | compynators/combinators.py:394-460 | the items are the first item then the values of the maximal run of separator-item pairs, followed by an optional trailing separator |
| SeparatedLaws.SeparatedCount | compynators/combinators.py:394-460 | every match yields a list of at least `at_least` items |
| SeparatedLaws.SeparatedNeverMissesWithoutMinimum | compynators/combinators.py:425-447 | with a minimum of at most 0 the parse never misses |
| SeparatedLaws.SeparatedAtLeastMonotone | compynators/combinators.py:472-475 | raising the minimum only turns matches into misses |
| SeparatedLaws.AllowLeadingSkips | compynators/combinators.py:414-465 | `allow_leading` changes nothing when no separator is at the input; after a separator it gives the plain parse run from behind it, except that an empty match under no minimum is returned at the input |
| SeparatedLaws.AllowTrailingExtends | compynators/combinators.py:451-460 | `allow_trailing` only changes a non-empty match, by reading one more separator |
| Examples.ThenOnAb | compynators/combinators.py:296-316 | `just('a').then(just('b'))` matches "ab" completely |
| Examples.ThenOnAx | compynators/combinators.py:296-316 | `just('a').then(just('b'))` misses "ax" |
| Examples.ThenChainOfPair | compynators/combinators.py:192-196 | `a.then_chain(b.then(c))` after matches of `a`, `b` and `c` yields the three-element list, because the pair is unpacked |
| Examples.ThenChainOnAbc | compynators/combinators.py:192-196 | `just('a').then_chain(just('b').then(just('c')))` on "abc" gives the list of all three items |
| Examples.RepeatedOneOfOnAbcx | compynators/combinators.py:575-588 | `one_of("abc").repeated().at_least(1)` on "abcx" collects three items and leaves the `x` |
| Examples.SeparatedOnDigits | compynators/combinators.py:394-460 | digits separated by commas on "1,2,3" yields the three digits and consumes the input |
| Examples.SeparatedTooFew | compynators/combinators.py:441-445 | with `at_least(2)` a single digit is a miss |
| Examples.RequireAtStartUsesLastSpan | compynators/combinators.py:221-222 | `require` at position 0 reports the span of the last item |

## Left out

- The package re-exports in `__init__.py`: they only rename things.
- `Source.line` (stream.py:14-17): it splits text into lines and is not
  used by the engine.
- `Stream.__iter__`, the `typing` and `dataclass` machinery, and the
  `ParseResult` helper methods (`is_match`, `unwrap`, …): they add no
  behaviour the outcome datatype does not already have.
- The builders that only construct a parser (`then`, `or_not`, `choice`,
  `one_of`, …) are the datatype's constructors. `copy.copy` in the
  `at_least`, `allow_leading` and `allow_trailing` builders is a datatype
  update.
- Streams.Advance: the step is a natural number. The engine only
  advances by 1 and by a pattern's length, so the source's negative
  steps are not modelled.
- `ThenWithContext` takes only callbacks that obey the parser contract:
  every match they return stays on the same items and file and does not
  move backwards. A callback that rewinds the cursor could make the parse
  run forever, and such callbacks are outside the model.
- A `repeated` loop that never ends is the outcome `Fault(Diverges)`, and
  a raised IndexError is `Fault(IndexError)`. The model does not
  distinguish raising from returning.
- Streams.End, Union.Unwrap, Union.Expect, Union.UnwrapOk,
  Union.UnwrapErr and Union.ExpectOk: calling them on an empty stream or
  on the other arm (`Nil`, an `Err` for the `Ok` accessors, an `Ok` for
  `unwrap_err`) fails in the source: a failed assertion (`unwrap` on
  `Nil` asserts false, and `expect` on `Nil` re-raises that failure as an
  AssertionError with its message), and an IndexError for `end`. It is
  excluded by a precondition instead.
- Streams.Stream: the cursor `position` is a natural number. The source
  types it as an integer, and a negative position would make `peek` read
  from the end, but no operation of the engine produces one.
- Combinators.ChainValue, Combinators.Unpacked, Combinators.ThenChain and
  SequencingLaws.ThenChainPrepends: unpacking the second value of
  `then_chain` raises a TypeError in the source when that value is not
  iterable (a flag, an optional, a spanned value, or an item of a
  non-iterable type). The model then puts the value in the list as one
  element, which is what the source does for a one-character string
  item. An item that is a longer string is spread into its characters by
  the source, and is also kept as one element here. The declared type of
  the second parser is a list, so only the list case is promised by the
  library.
- `choice` takes any iterable of parsers in the source and iterates it
  on every parse. The model takes a sequence, so a one-shot generator,
  which is used up after the first parse, is out of scope.
- `one_of` over a string is a substring test in the source (`"" in
  "abc"` holds). The model tests membership of one item in a sequence of
  items, which agrees for single-character items as produced by
  `from_source` over a string.
- Python's `==` on items and membership in a sequence (`one_of`) are
  Dafny's equality and `in`. Items are any type with equality.

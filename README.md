# ICTextView search core in Dafny

This project models the search core of ICTextView. ICTextView is a text view
that finds regular-expression matches and steps through them ("find next /
find previous"). Two parts are modelled.

- **`RangeUtils`** (`range_utils.dfy`) covers the NSRange helpers of
  `ICRangeUtils.h`.
  - `NSUInteger` is a 64-bit unsigned integer: the subset type `0 .. 2^64-1`.
  - C addition on it wraps modulo 2^64; `Add` writes that wrap out.
  - `NSNotFound` is `2^63 - 1`.
  - The three constants are values: `RangeMax` is `{0, NSUIntegerMax}`,
    `RangeNotFound` is `{NSNotFound, 0}` and `RangeZero` is `{0, 0}`.
  - `ContainsIndex`, `ContainsRange` and `Offset` follow the inline functions
    of the header, including what they do when a sum wraps.
  - `Offset` adds with wraparound. So an offset of 2^64 - k moves the range
    k places left: for a location up to `NSNotFound`, `Offset` is a shift by
    the offset read as a signed 64-bit integer (`Signed`). It answers
    `RangeNotFound` when the shifted location would be negative or past
    `NSNotFound`.
- **`Regex`** (`regular_expression.dfy`) covers `ICRegularExpression`, the
  matches of a pattern in a string with a cursor, `indexOfCurrentMatch`.
  - The class `RegularExpression` has the readonly properties as `const`
    fields: `text` (the `string` property), `pattern`, `options` and
    `matches`. So no method can change them.
  - `text` and `pattern` are sequences of UTF-16 code units (`UniChar`),
    as NSString stores them. Match ranges count code units, so a character
    outside the Basic Multilingual Plane spans two of them.
  - `circular` and `indexOfCurrentMatch` are mutable fields. Each navigation
    method may modify only `indexOfCurrentMatch`.
  - `Valid()` holds on every object. It says the match list is what the
    engine guarantees: ascending locations, every match inside the string, a
    count that fits NSUInteger. It also says the cursor is `NSNotFound` or a
    valid index.
  - Stepping is specified by the pure functions `Step`, `After` and `Walk`,
    over the number of matches, the cursor, `circular` and the direction
    (`Direction` is ICTextViewSearchDirection). The lemmas about them state
    how repeated steps behave.
  - The range-restricted queries are specified by `MatchesInRange`. It is an
    in-order subsequence of the matches, picked at the ascending indices that
    `IndicesInRange` gives.

The regular-expression engine is an input. `Create` (initWithString:pattern:
options:error:) receives what the engine reports, either the list of match
ranges or a pattern error. On a pattern error it returns `None`, which stands
for nil.

The header declares the members but leaves open what several of them do. The
model settles each such choice as follows; the comments in the Dafny file
repeat them.
- The cursor starts unset, with the value `NSNotFound`.
- A step forward from the unset cursor goes to the first match. A step
  backward from it goes to the last match.
- A step past either end wraps to the other end only when `circular` is set.
  Otherwise it answers `{NSNotFound, 0}` and leaves the cursor where it was.
- rangeOfFirstMatch, rangeOfLastMatch, rangeOfMatchAtIndex: and the two
  InRange: variants make the match they return the current one. When they
  answer `{NSNotFound, 0}`, the cursor stays where it was.
- An index past the list in rangeOfMatchAtIndex: answers `{NSNotFound, 0}`.
  It is not treated as a fatal error.
- A match is "in" a range when the range contains it (ICRangeContainsRange).
  A match that only overlaps the range is not in it.
- The string must be shorter than `NSNotFound`, so that no match can equal
  `{NSNotFound, 0}`.

## Model

| member | source | states |
|---|---|---|
| `RangeUtils.ContainsIndex` | ICTextView/ICRangeUtils.h:57-60 | for a range whose end does not wrap, the index is contained iff location <= index <= location + length (upper end inclusive); a range whose C end wraps contains no index |
| `RangeUtils.ContainsRange` | ICTextView/ICRangeUtils.h:62-65 | for ranges whose ends do not wrap, range1 contains range2 iff range2's interval lies inside range1's; a range1 whose C end wraps contains no non-wrapping range2 |
| `RangeUtils.Signed` | ICTextView/ICRangeUtils.h:67-69 | an NSUInteger read as a two's-complement signed 64-bit value: the value itself or the value minus 2^64, between -2^63 and 2^63 - 1 |
| `RangeUtils.Offset` | ICTextView/ICRangeUtils.h:67-77 | for a location up to NSNotFound: the range shifted by the signed offset with the same length when the new location is between 0 and NSNotFound, ICRangeNotFound otherwise; in unsigned terms, shifted by offset when the sum is at most NSNotFound and ICRangeNotFound when the sum passes NSNotFound without wrapping |
| `RangeUtils.ZeroLengthContainsLocation` | ICTextView/ICRangeUtils.h:57-60 | a zero-length range contains its own location |
| `RangeUtils.ContainsIndexUpperEnd` | ICTextView/ICRangeUtils.h:57-60 | the end position location + length is contained, the position after it is not |
| `RangeUtils.ContainsRangeReflexive` | ICTextView/ICRangeUtils.h:62-65 | every range contains itself |
| `RangeUtils.ContainsRangeTransitive` | ICTextView/ICRangeUtils.h:62-65 | if range1 contains range2 and range2 contains range3, range1 contains range3 |
| `RangeUtils.ContainsRangeEnds` | ICTextView/ICRangeUtils.h:57-65 | if range1 contains a non-wrapping range2, range1 contains both range2.location and range2.location + range2.length as indices |
| `RangeUtils.ContainsRangeOfWrappingRange` | ICTextView/ICRangeUtils.h:57-65 | the non-wrapping condition above is needed: {0, 2} "contains" {3, NSUIntegerMax} but not the index 3 |
| `RangeUtils.RangeMaxContainsAll` | ICTextView/ICTextView.h:117 | ICRangeMax, the default search range {0, NSUIntegerMax}, contains every non-wrapping range |
| `RangeUtils.OffsetZero` | ICTextView/ICRangeUtils.h:67-77 | offsetting by 0 returns the range unchanged when its location is at most NSNotFound |
| `RangeUtils.OffsetComposes` | ICTextView/ICRangeUtils.h:67-77 | offsetting by a then by b equals offsetting by a + b when the total stays at most NSNotFound |
| `RangeUtils.OffsetNegative` | ICTextView/ICRangeUtils.h:69-72 | an offset of NSUIntegerMax - 4 moves {10, 5} five places left, to {5, 5}; one of NSUIntegerMax - 10 would move it below 0 and gives ICRangeNotFound |
| `RangeUtils.OffsetRoundTrip` | ICTextView/ICRangeUtils.h:67-77 | offsetting by k and then by 2^64 - k (that is, by -k) restores the range, when the first shift stays at most NSNotFound |
| `Regex.Step` | ICTextView/ICRegularExpression.h:71-72 | a step finds an index below the match count; it finds nothing exactly when there are no matches, or circular is off and the cursor is on the end it steps away from |
| `Regex.Walk` | ICTextView/ICRegularExpression.h:53-54 | any number of steps keeps indexOfCurrentMatch either NSNotFound or below numberOfMatches |
| `Regex.StepWithinBounds` | ICTextView/ICRegularExpression.h:71-72 | inside the list, next moves the cursor forward by exactly one and previous backward by exactly one |
| `Regex.StepAtEnds` | ICTextView/ICRegularExpression.h:51 | stepping past the last match (or before the first) wraps to the opposite end iff circular is set, otherwise finds nothing |
| `Regex.NoMatchesNeverFound` | ICTextView/ICRegularExpression.h:71-72 | with zero matches every step finds nothing and the cursor stays NSNotFound |
| `Regex.ForwardFromUnset` | ICTextView/ICRegularExpression.h:71 | from the unset cursor, k <= n forward steps leave the cursor on match k - 1 |
| `Regex.ForwardVisitsInOrder` | ICTextView/ICRegularExpression.h:71 | from the unset cursor, the (k+1)-th forward step finds match k: each match once, in order |
| `Regex.ForwardExhausted` | ICTextView/ICRegularExpression.h:71 | without circular, the (n+1)-th forward step finds nothing and the cursor stays on match n - 1 |
| `Regex.ForwardWraps` | ICTextView/ICRegularExpression.h:71 | with circular, the (n+1)-th forward step finds match 0 again |
| `Regex.StepMirror` | ICTextView/ICRegularExpression.h:71-72 | a previous step is a next step seen from the other end of the list |
| `Regex.WalkMirror` | ICTextView/ICRegularExpression.h:71-72 | k previous steps are the mirror image of k next steps |
| `Regex.BackwardVisitsInReverse` | ICTextView/ICRegularExpression.h:72 | from the unset cursor, the (k+1)-th backward step finds match n - 1 - k |
| `Regex.MatchesInRange` | ICTextView/ICRegularExpression.h:74 | every match in the result is a match the range contains, and there are no more of them than matches |
| `Regex.IndicesInRange` | ICTextView/ICRegularExpression.h:74 | exactly the indices of the matches the range contains, strictly ascending |
| `Regex.MatchesInRangeIsSubsequence` | ICTextView/ICRegularExpression.h:74 | the matches in a range are the match list picked at those ascending indices: an in-order subsequence, complete |
| `Regex.MatchesInRangeEmpty` | ICTextView/ICRegularExpression.h:74 | the result is empty iff the range contains no match |
| `Regex.FirstOfMatchesInRange` | ICTextView/ICRegularExpression.h:67 | the first contained match heads the matches in the range, and its index heads the indices in the range |
| `Regex.LastOfMatchesInRange` | ICTextView/ICRegularExpression.h:69 | the last contained match ends the matches in the range, and its index ends the indices in the range |
| `Regex.WrappingRangeSelectsNothing` | ICTextView/ICRegularExpression.h:74 | a search range whose C end wraps past 2^64 selects no match, since no match wraps |
| `Regex.MatchesInRangeMax` | ICTextView/ICTextView.h:117 | restricting to the default range {0, NSUIntegerMax} keeps every match |
| `Regex.NotFoundIsNoMatch` | ICTextView/ICTextView.h:149 | no match of the string equals {NSNotFound, 0}, so not-found is distinguishable from every match |
| `Regex.Create` | ICTextView/ICRegularExpression.h:63 | nil exactly on a pattern error; otherwise a fresh valid object over the engine's matches, cursor NSNotFound, circular off |
| `Regex.RegularExpression.constructor` | ICTextView/ICRegularExpression.h:63 | stores string, pattern, options and matches; cursor NSNotFound; circular NO |
| `Regex.RegularExpression.NumberOfMatches` | ICTextView/ICRegularExpression.h:54 | numberOfMatches is the length of the found match list and fits below NSNotFound |
| `Regex.RegularExpression.RangeOfCurrentMatch` | ICTextView/ICRegularExpression.h:65 | {NSNotFound, 0} when no match is current, otherwise the match at indexOfCurrentMatch, which is never the not-found value |
| `Regex.RegularExpression.RangeOfMatchAtIndex` | ICTextView/ICRegularExpression.h:70 | match i for i < numberOfMatches, which becomes current; {NSNotFound, 0} and cursor unchanged otherwise |
| `Regex.RegularExpression.RangeOfFirstMatch` | ICTextView/ICRegularExpression.h:66 | match 0 (now current); {NSNotFound, 0} with zero matches |
| `Regex.RegularExpression.RangeOfLastMatch` | ICTextView/ICRegularExpression.h:68 | match numberOfMatches - 1 (now current); {NSNotFound, 0} with zero matches |
| `Regex.RegularExpression.RangeOfNextMatch` | ICTextView/ICRegularExpression.h:71 | the cursor moves as Step forward says and the new current match is returned; when nothing is found the cursor is unchanged and {NSNotFound, 0} is returned |
| `Regex.RegularExpression.RangeOfPreviousMatch` | ICTextView/ICRegularExpression.h:72 | the same for Step backward |
| `Regex.RegularExpression.RangesOfMatchesInRange` | ICTextView/ICRegularExpression.h:74 | returns exactly MatchesInRange of the match list, the in-order subsequence of contained matches |
| `Regex.RegularExpression.RangeOfFirstMatchInRange` | ICTextView/ICRegularExpression.h:67 | the first element of rangesOfMatchesInRange, and the cursor is the smallest index of a contained match; {NSNotFound, 0} with the cursor unchanged when there is none |
| `Regex.RegularExpression.RangeOfLastMatchInRange` | ICTextView/ICRegularExpression.h:69 | the last element of rangesOfMatchesInRange, and the cursor is the largest index of a contained match; {NSNotFound, 0} with the cursor unchanged when there is none |

## Left out

- The ICTextView view itself is not modelled. That covers scrolling, the
  visible rect and range, appearance, animation, the auto-refresh timer and
  the deprecated overloads. They are UIKit geometry, floating point and
  run-loop timing.
- The highlight cache behind `maxHighlightedMatches` is not modelled. Its
  implementation is not part of this model, and the limit is documented only
  as indicative.
- The view's search session is not modelled. That is the logic by which
  repeating the same search advances and a new search restarts. It lives in
  the view's implementation, which is not part of this model.
- Pattern compilation and matching (NSRegularExpression, the option bits,
  NSError) are foreign calls. They are inputs: the match list or a pattern
  error. `options` is stored but never interpreted.
- `matchLocationsRange` is not modelled. The header declares it without saying
  what it holds, and the implementation is not part of this model.
- `ICRangeComparator` is only declared, and its body is not part of this
  model. The order it would give is taken as an assumption: matches sorted
  by ascending location, part of `Valid()`.
- `circular` is set by plain field assignment, which is what its setter does.
- The implementation file ICRegularExpression.m is not part of this model.
  The behaviours listed above under the open choices are the model's
  choices, not observed behaviour.
- ICTextView/ICPreprocessor.h and ICTextViewExample/Preprocessor/Compatibility.h
  hold only SDK version constants, logging macros and a compatibility typedef.
  They have no behaviour.

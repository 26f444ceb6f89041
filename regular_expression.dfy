/**
 * ICRegularExpression: the matches of a pattern in a string, with a cursor
 * (`indexOfCurrentMatch`) that drives "find next / find previous".
 *
 * The regular-expression engine (NSRegularExpression) is not modelled: the
 * object is built from what the engine reports, either the list of match
 * ranges in ascending location order or a pattern error.
 *
 * The header declares the members but not what they do when the list is
 * empty, when the cursor is unset or when a step leaves the list. This model
 * settles those choices as follows; each one is repeated where it applies.
 *   - The cursor starts unset, with the value NSNotFound.
 *   - A step forward from the unset cursor goes to the first match, a step
 *     backward to the last one.
 *   - A step past either end wraps to the other end only when `circular` is
 *     set; otherwise it answers { NSNotFound, 0 } and leaves the cursor.
 *   - rangeOfFirstMatch, rangeOfLastMatch, rangeOfMatchAtIndex: and their
 *     InRange: variants put the cursor on the match they return, and leave it
 *     where it was when they answer { NSNotFound, 0 }.
 *   - "In a range" means contained in it (ICRangeContainsRange), not merely
 *     overlapping it.
 */
module Regex {
  import opened RangeUtils

  datatype Option<T> = None | Some(value: T)

  /** A UTF-16 code unit (unichar): NSString lengths and NSRange locations count these. */
  type UniChar = bv16

  /** ICTextViewSearchDirection. */
  datatype Direction = Forward | Backward

  /** What the regular-expression engine reports for a pattern over a string. */
  datatype EngineResult = Found(matches: seq<NSRange>) | PatternError

  /** Matches in ascending order of location. */
  ghost predicate SortedByLocation(ms: seq<NSRange>)
  {
    forall i, j :: 0 <= i < j < |ms| ==> ms[i].location <= ms[j].location
  }

  /**
   * What the engine guarantees of its match list over a string of the given
   * length: an NSArray count, ascending locations, every match inside the string.
   */
  ghost predicate WellFormedMatches(ms: seq<NSRange>, textLength: nat)
  {
    && |ms| <= NSNotFound
    && SortedByLocation(ms)
    && forall i :: 0 <= i < |ms| ==> ms[i].location + ms[i].length <= textLength
  }

  // ---------------------------------------------------------------------
  // The cursor as a value: stepping through n matches
  // ---------------------------------------------------------------------

  /** A cursor over n matches is unset (NSNotFound) or the index of a match. */
  predicate ValidCursor(n: nat, cursor: NSUInteger)
  {
    cursor == NSNotFound || cursor < n
  }

  /**
   * One step of rangeOfNextMatch (Forward) or rangeOfPreviousMatch
   * (Backward) over n matches: the index of the new current match, or None
   * when the step finds nothing.
   */
  function Step(n: nat, cursor: NSUInteger, circular: bool, dir: Direction): (next: Option<nat>)
    requires n <= NSNotFound && ValidCursor(n, cursor)
    ensures next.Some? ==> next.value < n
    ensures next.None? <==>
      n == 0 ||
      (!circular && cursor != NSNotFound && cursor == (if dir == Forward then n - 1 else 0))
  {
    if n == 0 then None
    else if cursor == NSNotFound then Some(if dir == Forward then 0 else n - 1)
    else match dir
      case Forward =>
        if cursor + 1 < n then Some(cursor + 1) else if circular then Some(0) else None
      case Backward =>
        if cursor > 0 then Some(cursor - 1) else if circular then Some(n - 1) else None
  }

  /** The cursor after one step: the new index, or the old cursor when nothing was found. */
  function After(n: nat, cursor: NSUInteger, circular: bool, dir: Direction): (c: NSUInteger)
    requires n <= NSNotFound && ValidCursor(n, cursor)
  {
    match Step(n, cursor, circular, dir)
    case Some(i) => i
    case None => cursor
  }

  /** The cursor after k steps in the same direction. */
  function Walk(n: nat, cursor: NSUInteger, circular: bool, dir: Direction, k: nat): (c: NSUInteger)
    requires n <= NSNotFound && ValidCursor(n, cursor)
    ensures ValidCursor(n, c)
    decreases k
  {
    if k == 0 then cursor else After(n, Walk(n, cursor, circular, dir, k - 1), circular, dir)
  }

  /** Inside the list, a step moves the cursor by exactly one. */
  lemma StepWithinBounds(n: nat, cursor: NSUInteger, circular: bool)
    requires n <= NSNotFound && cursor < n
    ensures cursor + 1 < n ==> Step(n, cursor, circular, Forward) == Some(cursor + 1)
    ensures cursor > 0 ==> Step(n, cursor, circular, Backward) == Some(cursor - 1)
  {
  }

  /** At either end, a step outward wraps to the other end exactly when `circular` is set. */
  lemma StepAtEnds(n: nat, circular: bool)
    requires 0 < n <= NSNotFound
    ensures Step(n, n - 1, circular, Forward) == if circular then Some(0) else None
    ensures Step(n, 0, circular, Backward) == if circular then Some(n - 1) else None
  {
  }

  /** With no matches, no number of steps finds anything or sets the cursor. */
  lemma NoMatchesNeverFound(circular: bool, dir: Direction, k: nat)
    ensures Walk(0, NSNotFound, circular, dir, k) == NSNotFound
    ensures Step(0, Walk(0, NSNotFound, circular, dir, k), circular, dir) == None
  {
  }

  /** Starting unset, k <= n forward steps leave the cursor on match k - 1. */
  lemma {:induction false} ForwardFromUnset(n: nat, circular: bool, k: nat)
    requires 0 < n <= NSNotFound && k <= n
    ensures Walk(n, NSNotFound, circular, Forward, k) == if k == 0 then NSNotFound else k - 1
  {
    if k > 0 {
      ForwardFromUnset(n, circular, k - 1);
    }
  }

  /** Starting unset, the (k+1)-th forward step finds match k, for every k < n: each match once, in order. */
  lemma ForwardVisitsInOrder(n: nat, circular: bool, k: nat)
    requires 0 < n <= NSNotFound && k < n
    ensures Step(n, Walk(n, NSNotFound, circular, Forward, k), circular, Forward) == Some(k)
  {
    ForwardFromUnset(n, circular, k);
  }

  /** Without wraparound the (n+1)-th forward step finds nothing and the cursor stays on the last match. */
  lemma ForwardExhausted(n: nat)
    requires 0 < n <= NSNotFound
    ensures Step(n, Walk(n, NSNotFound, false, Forward, n), false, Forward) == None
    ensures Walk(n, NSNotFound, false, Forward, n + 1) == n - 1
  {
    ForwardFromUnset(n, false, n);
  }

  /** With wraparound the (n+1)-th forward step comes back to the first match. */
  lemma ForwardWraps(n: nat)
    requires 0 < n <= NSNotFound
    ensures Step(n, Walk(n, NSNotFound, true, Forward, n), true, Forward) == Some(0)
    ensures Walk(n, NSNotFound, true, Forward, n + 1) == 0
  {
    ForwardFromUnset(n, true, n);
  }

  /** The cursor seen from the other end of the list; the unset cursor stays unset. */
  function Mirror(n: nat, cursor: NSUInteger): NSUInteger
    requires n <= NSNotFound && ValidCursor(n, cursor)
  {
    if cursor == NSNotFound then NSNotFound else n - 1 - cursor
  }

  /** A backward step is a forward step seen from the other end. */
  lemma StepMirror(n: nat, cursor: NSUInteger, circular: bool)
    requires n <= NSNotFound && ValidCursor(n, cursor)
    ensures After(n, Mirror(n, cursor), circular, Backward) == Mirror(n, After(n, cursor, circular, Forward))
    ensures Step(n, Mirror(n, cursor), circular, Backward).Some? == Step(n, cursor, circular, Forward).Some?
  {
  }

  /** Any number of backward steps mirror the same number of forward steps. */
  lemma {:induction false} WalkMirror(n: nat, cursor: NSUInteger, circular: bool, k: nat)
    requires n <= NSNotFound && ValidCursor(n, cursor)
    ensures Walk(n, Mirror(n, cursor), circular, Backward, k) == Mirror(n, Walk(n, cursor, circular, Forward, k))
  {
    if k > 0 {
      WalkMirror(n, cursor, circular, k - 1);
      StepMirror(n, Walk(n, cursor, circular, Forward, k - 1), circular);
    }
  }

  /** Starting unset, the (k+1)-th backward step finds match n - 1 - k: the list in reverse. */
  lemma BackwardVisitsInReverse(n: nat, circular: bool, k: nat)
    requires 0 < n <= NSNotFound && k < n
    ensures Step(n, Walk(n, NSNotFound, circular, Backward, k), circular, Backward) == Some(n - 1 - k)
  {
    WalkMirror(n, NSNotFound, circular, k);
    ForwardFromUnset(n, circular, k);
  }

  // ---------------------------------------------------------------------
  // Matches in a range
  // ---------------------------------------------------------------------

  /** The matches that `range` contains, in list order (rangesOfMatchesInRange:). */
  function MatchesInRange(ms: seq<NSRange>, range: NSRange): (res: seq<NSRange>)
    ensures |res| <= |ms|
    ensures forall m :: m in res ==> m in ms && ContainsRange(range, m)
    decreases |ms|
  {
    if ms == [] then []
    else
      var init := MatchesInRange(ms[..|ms| - 1], range);
      if ContainsRange(range, ms[|ms| - 1]) then init + [ms[|ms| - 1]] else init
  }

  /** The indices of the matches that `range` contains: all of them, ascending. */
  function IndicesInRange(ms: seq<NSRange>, range: NSRange): (idx: seq<nat>)
    ensures forall k :: 0 <= k < |idx| ==> idx[k] < |ms| && ContainsRange(range, ms[idx[k]])
    ensures forall k, l :: 0 <= k < l < |idx| ==> idx[k] < idx[l]
    ensures forall i :: 0 <= i < |ms| && ContainsRange(range, ms[i]) ==> i in idx
    decreases |ms|
  {
    if ms == [] then []
    else
      var init := IndicesInRange(ms[..|ms| - 1], range);
      if ContainsRange(range, ms[|ms| - 1]) then init + [|ms| - 1] else init
  }

  /** The matches in a range are the list picked at ascending indices: an in-order subsequence. */
  lemma {:induction false} MatchesInRangeIsSubsequence(ms: seq<NSRange>, range: NSRange)
    ensures |MatchesInRange(ms, range)| == |IndicesInRange(ms, range)|
    ensures forall k :: 0 <= k < |IndicesInRange(ms, range)| ==>
      MatchesInRange(ms, range)[k] == ms[IndicesInRange(ms, range)[k]]
    decreases |ms|
  {
    if ms != [] {
      var init, last := ms[..|ms| - 1], ms[|ms| - 1];
      MatchesInRangeIsSubsequence(init, range);
      var idx0, res0 := IndicesInRange(init, range), MatchesInRange(init, range);
      var idx, res := IndicesInRange(ms, range), MatchesInRange(ms, range);
      assert idx == if ContainsRange(range, last) then idx0 + [|ms| - 1] else idx0;
      assert res == if ContainsRange(range, last) then res0 + [last] else res0;
      forall k | 0 <= k < |idx|
        ensures res[k] == ms[idx[k]]
      {
        if k < |idx0| {
          assert idx[k] == idx0[k] && res[k] == res0[k];
          assert res0[k] == init[idx0[k]];
        }
      }
    }
  }

  /** No match lies in the range exactly when the range holds no match. */
  lemma MatchesInRangeEmpty(ms: seq<NSRange>, range: NSRange)
    ensures MatchesInRange(ms, range) == [] <==>
      forall j :: 0 <= j < |ms| ==> !ContainsRange(range, ms[j])
  {
    MatchesInRangeIsSubsequence(ms, range);
    var idx := IndicesInRange(ms, range);
    if MatchesInRange(ms, range) == [] {
      assert |idx| == 0;
    }
  }

  /** The first match the range contains heads the list of matches in the range. */
  lemma {:induction false} FirstOfMatchesInRange(ms: seq<NSRange>, range: NSRange, i: nat)
    requires i < |ms| && ContainsRange(range, ms[i])
    requires forall j :: 0 <= j < i ==> !ContainsRange(range, ms[j])
    ensures MatchesInRange(ms, range) != []
    ensures MatchesInRange(ms, range)[0] == ms[i]
    ensures IndicesInRange(ms, range) != [] && IndicesInRange(ms, range)[0] == i
    decreases |ms|
  {
    var init := ms[..|ms| - 1];
    if i == |ms| - 1 {
      MatchesInRangeEmpty(init, range);
    } else {
      FirstOfMatchesInRange(init, range, i);
    }
  }

  /** The last match the range contains ends the list of matches in the range. */
  lemma {:induction false} LastOfMatchesInRange(ms: seq<NSRange>, range: NSRange, i: nat)
    requires i < |ms| && ContainsRange(range, ms[i])
    requires forall j :: i < j < |ms| ==> !ContainsRange(range, ms[j])
    ensures MatchesInRange(ms, range) != []
    ensures MatchesInRange(ms, range)[|MatchesInRange(ms, range)| - 1] == ms[i]
    ensures IndicesInRange(ms, range) != []
    ensures IndicesInRange(ms, range)[|IndicesInRange(ms, range)| - 1] == i
    decreases |ms|
  {
    if i < |ms| - 1 {
      LastOfMatchesInRange(ms[..|ms| - 1], range, i);
    }
  }

  /** Restricting to ICRangeMax, the default search range, keeps every match. */
  lemma {:induction false} MatchesInRangeMax(ms: seq<NSRange>)
    requires forall i :: 0 <= i < |ms| ==> NoOverflow(ms[i])
    ensures MatchesInRange(ms, RangeMax) == ms
    decreases |ms|
  {
    if ms != [] {
      MatchesInRangeMax(ms[..|ms| - 1]);
      RangeMaxContainsAll(ms[|ms| - 1]);
    }
  }

  /** A range whose C end wraps past 2^64 contains none of the (non-wrapping) matches. */
  lemma WrappingRangeSelectsNothing(ms: seq<NSRange>, range: NSRange)
    requires !NoOverflow(range)
    requires forall i :: 0 <= i < |ms| ==> NoOverflow(ms[i])
    ensures MatchesInRange(ms, range) == []
  {
    MatchesInRangeEmpty(ms, range);
  }

  /** No match of a string shorter than NSNotFound is ever equal to ICRangeNotFound. */
  lemma NotFoundIsNoMatch(ms: seq<NSRange>, textLength: nat, i: nat)
    requires WellFormedMatches(ms, textLength) && textLength < NSNotFound && i < |ms|
    ensures ms[i] != RangeNotFound
  {
  }

  // ---------------------------------------------------------------------
  // The object
  // ---------------------------------------------------------------------

  class RegularExpression {
    /** The `string` property: the searched text, as UTF-16 code units. */
    const text: seq<UniChar>
    const pattern: seq<UniChar>
    /** NSRegularExpressionOptions, passed through to the engine unread. */
    const options: NSUInteger
    /** The engine's matches, ascending by location. */
    const matches: seq<NSRange>

    /** Wraparound for rangeOfNextMatch and rangeOfPreviousMatch (default NO). */
    var circular: bool
    var indexOfCurrentMatch: NSUInteger

    ghost predicate Valid()
      reads this
    {
      && |text| < NSNotFound
      && WellFormedMatches(matches, |text|)
      && ValidCursor(|matches|, indexOfCurrentMatch)
    }

    /** The object built from a successful compilation; the cursor starts unset. */
    constructor (text: seq<UniChar>, pattern: seq<UniChar>, options: NSUInteger, found: seq<NSRange>)
      requires |text| < NSNotFound && WellFormedMatches(found, |text|)
      ensures Valid()
      ensures this.text == text && this.pattern == pattern && this.options == options
      ensures matches == found
      ensures indexOfCurrentMatch == NSNotFound && !circular
    {
      this.text := text;
      this.pattern := pattern;
      this.options := options;
      matches := found;
      circular := false;
      indexOfCurrentMatch := NSNotFound;
    }

    /** numberOfMatches: the length of the engine's match list. */
    function NumberOfMatches(): (n: NSUInteger)
      reads this
      requires Valid()
      ensures n == |matches| && n <= NSNotFound
    {
      |matches|
    }

    /** rangeOfCurrentMatch: the match under the cursor, { NSNotFound, 0 } when it is unset. */
    function RangeOfCurrentMatch(): (r: NSRange)
      reads this
      requires Valid()
      ensures indexOfCurrentMatch == NSNotFound ==> r == RangeNotFound
      ensures indexOfCurrentMatch != NSNotFound ==>
        indexOfCurrentMatch < |matches| && r == matches[indexOfCurrentMatch] && r != RangeNotFound
    {
      if indexOfCurrentMatch == NSNotFound then RangeNotFound
      else
        NotFoundIsNoMatch(matches, |text|, indexOfCurrentMatch);
        matches[indexOfCurrentMatch]
    }

    /**
     * rangeOfMatchAtIndex: match `index`, which becomes current; an index
     * past the list answers { NSNotFound, 0 } and leaves the cursor.
     */
    method RangeOfMatchAtIndex(index: NSUInteger) returns (r: NSRange)
      requires Valid()
      modifies this`indexOfCurrentMatch
      ensures Valid()
      ensures index < |matches| ==> r == matches[index] && indexOfCurrentMatch == index
      ensures index >= |matches| ==>
        r == RangeNotFound && indexOfCurrentMatch == old(indexOfCurrentMatch)
    {
      if index >= |matches| {
        return RangeNotFound;
      }
      indexOfCurrentMatch := index;
      r := matches[index];
    }

    /** rangeOfFirstMatch: match 0, which becomes current; { NSNotFound, 0 } with no matches. */
    method RangeOfFirstMatch() returns (r: NSRange)
      requires Valid()
      modifies this`indexOfCurrentMatch
      ensures Valid()
      ensures |matches| > 0 ==> r == matches[0] && indexOfCurrentMatch == 0
      ensures |matches| == 0 ==>
        r == RangeNotFound && indexOfCurrentMatch == old(indexOfCurrentMatch)
    {
      r := RangeOfMatchAtIndex(0);
    }

    /** rangeOfLastMatch: the last match, which becomes current; { NSNotFound, 0 } with no matches. */
    method RangeOfLastMatch() returns (r: NSRange)
      requires Valid()
      modifies this`indexOfCurrentMatch
      ensures Valid()
      ensures |matches| > 0 ==>
        r == matches[|matches| - 1] && indexOfCurrentMatch == |matches| - 1
      ensures |matches| == 0 ==>
        r == RangeNotFound && indexOfCurrentMatch == old(indexOfCurrentMatch)
    {
      if |matches| == 0 {
        return RangeNotFound;
      }
      r := RangeOfMatchAtIndex(|matches| - 1);
    }

    /**
     * rangeOfNextMatch: a step forward. From the unset cursor it goes to the
     * first match; past the last match it wraps to the first only when
     * `circular` is set, and otherwise answers { NSNotFound, 0 } with the
     * cursor left on the last match.
     */
    method RangeOfNextMatch() returns (r: NSRange)
      requires Valid()
      modifies this`indexOfCurrentMatch
      ensures Valid()
      ensures var next := Step(|matches|, old(indexOfCurrentMatch), circular, Forward);
        if next.Some? then indexOfCurrentMatch == next.value && r == matches[next.value]
        else indexOfCurrentMatch == old(indexOfCurrentMatch) && r == RangeNotFound
    {
      var n := |matches|;
      if n == 0 {
        return RangeNotFound;
      }
      if indexOfCurrentMatch == NSNotFound {
        indexOfCurrentMatch := 0;
      } else if indexOfCurrentMatch + 1 < n {
        indexOfCurrentMatch := indexOfCurrentMatch + 1;
      } else if circular {
        indexOfCurrentMatch := 0;
      } else {
        return RangeNotFound;
      }
      r := matches[indexOfCurrentMatch];
    }

    /**
     * rangeOfPreviousMatch: a step backward, the mirror of rangeOfNextMatch.
     * From the unset cursor it goes to the last match; before the first
     * match it wraps to the last only when `circular` is set.
     */
    method RangeOfPreviousMatch() returns (r: NSRange)
      requires Valid()
      modifies this`indexOfCurrentMatch
      ensures Valid()
      ensures var next := Step(|matches|, old(indexOfCurrentMatch), circular, Backward);
        if next.Some? then indexOfCurrentMatch == next.value && r == matches[next.value]
        else indexOfCurrentMatch == old(indexOfCurrentMatch) && r == RangeNotFound
    {
      var n := |matches|;
      if n == 0 {
        return RangeNotFound;
      }
      if indexOfCurrentMatch == NSNotFound {
        indexOfCurrentMatch := n - 1;
      } else if indexOfCurrentMatch > 0 {
        indexOfCurrentMatch := indexOfCurrentMatch - 1;
      } else if circular {
        indexOfCurrentMatch := n - 1;
      } else {
        return RangeNotFound;
      }
      r := matches[indexOfCurrentMatch];
    }

    /** rangesOfMatchesInRange: the matches the range contains, in list order. */
    method RangesOfMatchesInRange(range: NSRange) returns (rs: seq<NSRange>)
      requires Valid()
      ensures rs == MatchesInRange(matches, range)
    {
      rs := [];
      var i := 0;
      while i < |matches|
        invariant 0 <= i <= |matches|
        invariant rs == MatchesInRange(matches[..i], range)
      {
        assert matches[..i + 1][..i] == matches[..i];
        if ContainsRange(range, matches[i]) {
          rs := rs + [matches[i]];
        }
        i := i + 1;
      }
      assert matches[..i] == matches;
    }

    /**
     * rangeOfFirstMatchInRange: the first match the range contains, which
     * becomes current; { NSNotFound, 0 } and the cursor left when there is none.
     */
    method RangeOfFirstMatchInRange(range: NSRange) returns (r: NSRange)
      requires Valid()
      modifies this`indexOfCurrentMatch
      ensures Valid()
      ensures var inRange, idx := MatchesInRange(matches, range), IndicesInRange(matches, range);
        if inRange == [] then r == RangeNotFound && indexOfCurrentMatch == old(indexOfCurrentMatch)
        else r == inRange[0] && idx != [] && indexOfCurrentMatch == idx[0] && r == matches[indexOfCurrentMatch]
    {
      var i := 0;
      while i < |matches|
        invariant 0 <= i <= |matches|
        invariant forall j :: 0 <= j < i ==> !ContainsRange(range, matches[j])
      {
        if ContainsRange(range, matches[i]) {
          FirstOfMatchesInRange(matches, range, i);
          indexOfCurrentMatch := i;
          return matches[i];
        }
        i := i + 1;
      }
      MatchesInRangeEmpty(matches, range);
      r := RangeNotFound;
    }

    /**
     * rangeOfLastMatchInRange: the last match the range contains, which
     * becomes current; { NSNotFound, 0 } and the cursor left when there is none.
     */
    method RangeOfLastMatchInRange(range: NSRange) returns (r: NSRange)
      requires Valid()
      modifies this`indexOfCurrentMatch
      ensures Valid()
      ensures var inRange, idx := MatchesInRange(matches, range), IndicesInRange(matches, range);
        if inRange == [] then r == RangeNotFound && indexOfCurrentMatch == old(indexOfCurrentMatch)
        else r == inRange[|inRange| - 1] && idx != [] && indexOfCurrentMatch == idx[|idx| - 1] && r == matches[indexOfCurrentMatch]
    {
      var i := |matches|;
      while i > 0
        invariant 0 <= i <= |matches|
        invariant forall j :: i <= j < |matches| ==> !ContainsRange(range, matches[j])
      {
        i := i - 1;
        if ContainsRange(range, matches[i]) {
          LastOfMatchesInRange(matches, range, i);
          indexOfCurrentMatch := i;
          return matches[i];
        }
      }
      MatchesInRangeEmpty(matches, range);
      r := RangeNotFound;
    }
  }

  /**
   * initWithString:pattern:options:error: — the object over the engine's
   * matches, or nil (None) when the pattern does not compile.
   */
  method Create(text: seq<UniChar>, pattern: seq<UniChar>, options: NSUInteger, engine: EngineResult)
    returns (re: Option<RegularExpression>)
    requires |text| < NSNotFound
    requires engine.Found? ==> WellFormedMatches(engine.matches, |text|)
    ensures re.None? <==> engine.PatternError?
    ensures re.Some? ==>
      && fresh(re.value) && re.value.Valid()
      && re.value.text == text && re.value.pattern == pattern && re.value.options == options
      && re.value.matches == engine.matches
      && re.value.indexOfCurrentMatch == NSNotFound && !re.value.circular
  {
    match engine
    case PatternError =>
      re := None;
    case Found(found) =>
      var r := new RegularExpression(text, pattern, options, found);
      re := Some(r);
  }

  /**
   * A forward search through "ababab" for "ab": matches { 0, 2 }, { 2, 2 }
   * and { 4, 2 } in turn, then not found with the cursor kept on the last
   * one, then, with wraparound switched on, { 0, 2 } again.
   */
  method SearchAbabab()
  {
    var ms := [NSRange(0, 2), NSRange(2, 2), NSRange(4, 2)];
    var text: seq<UniChar> := [0x61, 0x62, 0x61, 0x62, 0x61, 0x62];
    var re := new RegularExpression(text, [0x61, 0x62], 0, ms);
    var r := re.RangeOfNextMatch();
    assert r == NSRange(0, 2);
    r := re.RangeOfNextMatch();
    assert r == NSRange(2, 2);
    r := re.RangeOfNextMatch();
    assert r == NSRange(4, 2);
    r := re.RangeOfNextMatch();
    assert r == RangeNotFound && re.indexOfCurrentMatch == 2;
    re.circular := true;
    r := re.RangeOfNextMatch();
    assert r == NSRange(0, 2);
    r := re.RangeOfPreviousMatch();
    assert r == NSRange(4, 2);
  }

  /**
   * A character outside the Basic Multilingual Plane takes two UTF-16 code
   * units: U+1F600 is the surrogate pair D83D DE00, and the engine reports
   * its match as { 0, 2 }.
   */
  method SearchSurrogatePair()
  {
    var text: seq<UniChar> := [0xD83D, 0xDE00];
    var re := new RegularExpression(text, text, 0, [NSRange(0, 2)]);
    var r := re.RangeOfFirstMatch();
    assert r == NSRange(0, 2) && re.indexOfCurrentMatch == 0;
  }
}

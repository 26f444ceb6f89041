/**
 * NSRange utilities: the range constants and the three inline helpers of
 * ICTextView/ICRangeUtils.h, over 64-bit NSUInteger arithmetic.
 *
 * C adds NSUInteger values modulo 2^64 without any overflow check, so the
 * helpers here add through `Add`, which wraps exactly as the C code does.
 */
module RangeUtils {

  /** 2^64: NSUInteger is a 64-bit unsigned integer. */
  const WORD: int := 0x1_0000_0000_0000_0000

  /** NSUIntegerMax, 2^64 - 1. */
  const NSUIntegerMax: int := 0xFFFF_FFFF_FFFF_FFFF

  type NSUInteger = x: int | 0 <= x < WORD

  /** Foundation's NSNotFound: NSIntegerMax on a 64-bit platform, 2^63 - 1. */
  const NSNotFound: NSUInteger := 0x7FFF_FFFF_FFFF_FFFF

  /** Foundation's NSRange, a value-copied C struct. */
  datatype NSRange = NSRange(location: NSUInteger, length: NSUInteger)

  /** ICRangeMax: the whole index space, { 0, NSUIntegerMax }. */
  const RangeMax: NSRange := NSRange(0, NSUIntegerMax)

  /** ICRangeNotFound: the "no match" answer, { NSNotFound, 0 }. */
  const RangeNotFound: NSRange := NSRange(NSNotFound, 0)

  /** ICRangeZero: { 0, 0 }. */
  const RangeZero: NSRange := NSRange(0, 0)

  /** Unsigned C addition: the mathematical sum, reduced once modulo 2^64. */
  function Add(a: NSUInteger, b: NSUInteger): (s: NSUInteger)
    ensures a + b < WORD ==> s == a + b
    ensures a + b >= WORD ==> s == a + b - WORD
  {
    (a + b) % WORD
  }

  /** The C expression `range.location + range.length`, as the helpers compute it. */
  function End(range: NSRange): NSUInteger
  {
    Add(range.location, range.length)
  }

  /** The end of the range is representable, so `End` does not wrap. */
  predicate NoOverflow(range: NSRange)
  {
    range.location + range.length < WORD
  }

  /**
   * ICRangeContainsIndex. The upper end is inclusive: the index just past
   * the last character of the range counts as contained. A range whose end
   * wraps past 2^64 contains no index at all.
   */
  function ContainsIndex(range: NSRange, index: NSUInteger): (b: bool)
    ensures NoOverflow(range) ==>
      (b <==> range.location <= index <= range.location + range.length)
    ensures !NoOverflow(range) ==> !b
  {
    index >= range.location && index <= End(range)
  }

  /**
   * ICRangeContainsRange: range1 starts no later and ends no earlier than
   * range2; for ranges whose ends do not wrap this is interval inclusion.
   */
  function ContainsRange(range1: NSRange, range2: NSRange): (b: bool)
    ensures NoOverflow(range1) && NoOverflow(range2) ==>
      (b <==> range1.location <= range2.location &&
              range2.location + range2.length <= range1.location + range1.length)
    ensures !NoOverflow(range1) && NoOverflow(range2) ==> !b
  {
    range1.location <= range2.location && End(range1) >= End(range2)
  }

  /**
   * An NSUInteger read as a signed 64-bit two's-complement integer: the
   * value a negative NSInteger has after a cast to NSUInteger.
   */
  function Signed(x: NSUInteger): (s: int)
    ensures -(WORD / 2) <= s < WORD / 2
    ensures s == x || s == x - WORD
  {
    if x <= NSNotFound then x else x - WORD
  }

  /**
   * ICRangeOffset: the location moves by `offset` (a wrapping C addition),
   * and a new location past NSNotFound gives ICRangeNotFound. For a location
   * up to NSNotFound this is exactly a shift by the offset read as a signed
   * integer, which answers ICRangeNotFound when the shifted location would
   * be negative or past NSNotFound.
   */
  function Offset(range: NSRange, offset: NSUInteger): (r: NSRange)
    ensures range.location <= NSNotFound ==>
      r == if 0 <= range.location + Signed(offset) <= NSNotFound
           then NSRange(range.location + Signed(offset), range.length)
           else RangeNotFound
    ensures range.location + offset <= NSNotFound ==>
      r == NSRange(range.location + offset, range.length)
    ensures NSNotFound < range.location + offset < WORD ==> r == RangeNotFound
  {
    var newLocation := Add(range.location, offset);
    if newLocation > NSNotFound then RangeNotFound else range.(location := newLocation)
  }

  // ---------------------------------------------------------------------
  // Index and range containment
  // ---------------------------------------------------------------------

  /** A zero-length range contains its own location (the inclusive end). */
  lemma ZeroLengthContainsLocation(location: NSUInteger)
    ensures ContainsIndex(NSRange(location, 0), location)
  {
  }

  /** The end position of a well-formed range is contained, the one after it is not. */
  lemma ContainsIndexUpperEnd(range: NSRange)
    requires range.location + range.length < NSUIntegerMax
    ensures ContainsIndex(range, range.location + range.length)
    ensures !ContainsIndex(range, range.location + range.length + 1)
  {
  }

  /** Every range contains itself. */
  lemma ContainsRangeReflexive(range: NSRange)
    ensures ContainsRange(range, range)
  {
  }

  /** Containment of ranges is transitive. */
  lemma ContainsRangeTransitive(range1: NSRange, range2: NSRange, range3: NSRange)
    requires ContainsRange(range1, range2) && ContainsRange(range2, range3)
    ensures ContainsRange(range1, range3)
  {
  }

  /** A range contains both ends of every well-formed range it contains. */
  lemma ContainsRangeEnds(range1: NSRange, range2: NSRange)
    requires ContainsRange(range1, range2) && NoOverflow(range2)
    ensures ContainsIndex(range1, range2.location)
    ensures ContainsIndex(range1, range2.location + range2.length)
  {
  }

  /**
   * The well-formedness of range2 is needed above: a range whose C end
   * wraps to 2 is "contained" in { 0, 2 } although its location is not.
   */
  lemma ContainsRangeOfWrappingRange()
    ensures ContainsRange(NSRange(0, 2), NSRange(3, NSUIntegerMax))
    ensures !ContainsIndex(NSRange(0, 2), 3)
  {
  }

  /** ICRangeMax contains every well-formed range, so it restricts nothing. */
  lemma RangeMaxContainsAll(range: NSRange)
    requires NoOverflow(range)
    ensures ContainsRange(RangeMax, range)
  {
  }

  // ---------------------------------------------------------------------
  // Offsetting
  // ---------------------------------------------------------------------

  /** Offsetting by zero changes nothing, as long as the location is not past NSNotFound. */
  lemma OffsetZero(range: NSRange)
    requires range.location <= NSNotFound
    ensures Offset(range, 0) == range
  {
  }

  /** Shifting by a + b is shifting by a and then by b, when nothing passes NSNotFound. */
  lemma OffsetComposes(range: NSRange, a: NSUInteger, b: NSUInteger)
    requires range.location + a + b <= NSNotFound
    ensures Offset(Offset(range, a), b) == Offset(range, a + b)
  {
  }

  /**
   * A huge offset is a negative shift: { 10, 5 } offset by NSUIntegerMax - 4
   * (that is, by -5) is { 5, 5 }, and by NSUIntegerMax - 10 (-11) it is
   * ICRangeNotFound, since the location would be negative.
   */
  lemma OffsetNegative()
    ensures Offset(NSRange(10, 5), NSUIntegerMax - 4) == NSRange(5, 5)
    ensures Offset(NSRange(10, 5), NSUIntegerMax - 10) == RangeNotFound
  {
  }

  /** A shift by k followed by a shift by -k, read as NSUInteger, restores the range. */
  lemma OffsetRoundTrip(range: NSRange, k: NSUInteger)
    requires 0 < k && range.location + k <= NSNotFound
    ensures Offset(Offset(range, k), WORD - k) == range
  {
  }
}

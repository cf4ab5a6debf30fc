/** Alignment records and the three overlap classifiers of main.cpp: each
    decides whether two alignments of one read support joining two contigs at
    a particular pair of ends. */
module Overlaps {

  /** The fixed thresholds (main.cpp, `READ_THRESHOLD`, `CONTIG_THRESHOLD`,
      `MATCH_THRESHOLD`). */
  const ReadThreshold: real := 0.1
  const ContigThreshold: real := 0.4
  const MatchThreshold: real := 0.7

  /** One local alignment of a sequencing read against a contig. */
  datatype Overlap = Overlap(
    readId: string, readLength: int, readStart: int, readEnd: int,
    strand: string,
    contigId: string, contigLength: int, contigStart: int, contigEnd: int,
    numMatches: int, matchLength: int)

  /** The value of `(double) n / d` for integer operands, without rounding:
      exact for a non-zero divisor, and the IEEE results of a division by
      (positive) zero otherwise. */
  datatype Quotient = Finite(value: real) | PlusInfinity | MinusInfinity | NotANumber

  function Divide(n: int, d: int): (q: Quotient)
    ensures d != 0 ==> q == Finite(n as real / d as real)
    ensures d == 0 ==> (q.NotANumber? <==> n == 0) && (q.PlusInfinity? <==> n > 0) && (q.MinusInfinity? <==> n < 0)
  {
    if d != 0 then Finite(n as real / d as real)
    else if n > 0 then PlusInfinity
    else if n < 0 then MinusInfinity
    else NotANumber
  }

  /** `q < t`; every comparison with NaN is false. */
  predicate Below(q: Quotient, t: real)
  {
    match q
    case Finite(v) => v < t
    case PlusInfinity => false
    case MinusInfinity => true
    case NotANumber => false
  }

  /** `q > t`. */
  predicate Above(q: Quotient, t: real)
  {
    match q
    case Finite(v) => v > t
    case PlusInfinity => true
    case MinusInfinity => false
    case NotANumber => false
  }

  /** `q <= t`. */
  predicate AtMost(q: Quotient, t: real)
  {
    match q
    case Finite(v) => v <= t
    case PlusInfinity => false
    case MinusInfinity => true
    case NotANumber => false
  }

  /** The three comparisons as the classifiers use them, `(double) n / d`
      against a threshold, written by cross-multiplication over the sign of
      the divisor; `RatioTestsMatchDivision` shows each equal to the
      comparison of the IEEE quotient. */
  predicate RatioBelow(n: int, d: int, t: real)
  {
    if d > 0 then n as real < t * d as real
    else if d < 0 then n as real > t * d as real
    else n < 0
  }

  predicate RatioAbove(n: int, d: int, t: real)
  {
    if d > 0 then n as real > t * d as real
    else if d < 0 then n as real < t * d as real
    else n > 0
  }

  predicate RatioAtMost(n: int, d: int, t: real)
  {
    if d > 0 then n as real <= t * d as real
    else if d < 0 then n as real >= t * d as real
    else n < 0
  }

  /** `check_overlaps_end_start`: the end of `left`'s contig abuts the start
      of `right`'s contig. Every early `return false` of the source is one
      negated conjunct here, in the same order. */
  predicate OverlapsEndStart(left: Overlap, right: Overlap)
  {
    left.contigId != right.contigId &&
    left.strand == right.strand &&
    !(left.strand == "+" && left.readStart > right.readStart) &&
    !(left.strand == "+" && left.readEnd > right.readEnd) &&
    !(left.strand == "-" && right.readStart > left.readStart) &&
    !(left.strand == "-" && right.readEnd > left.readEnd) &&
    !(left.strand == "+" && right.contigStart + left.contigLength - left.contigEnd > left.readLength) &&
    !(left.strand == "-" && left.contigStart + right.contigLength - right.contigEnd > left.readLength) &&
    !RatioBelow(left.contigEnd, left.contigLength, 1.0 - ContigThreshold) &&
    !RatioAbove(right.contigStart, right.contigLength, ContigThreshold) &&
    !(left.strand == "+" && RatioAbove(left.readStart, left.readLength, ReadThreshold)) &&
    !(left.strand == "+" && RatioBelow(right.readEnd, right.readLength, 1.0 - ReadThreshold)) &&
    !(left.strand == "-" && RatioAbove(right.readStart, right.readLength, ReadThreshold)) &&
    !(left.strand == "-" && RatioBelow(left.readEnd, left.readLength, 1.0 - ReadThreshold))
  }

  /** The two alignments occupy the read in a consistent order: one of them
      starts and ends strictly before the other. */
  predicate Staggered(left: Overlap, right: Overlap)
  {
    (left.readStart < right.readStart && left.readEnd < right.readEnd) ||
    (right.readStart < left.readStart && right.readEnd < left.readEnd)
  }

  /** One alignment is anchored at the start of the read and the other
      reaches its end. */
  predicate AnchoredAtReadEnds(left: Overlap, right: Overlap)
  {
    (RatioAtMost(left.readStart, left.readLength, ReadThreshold) &&
     RatioAbove(right.readEnd, right.readLength, 1.0 - ReadThreshold)) ||
    (RatioAtMost(right.readStart, right.readLength, ReadThreshold) &&
     RatioAbove(left.readEnd, left.readLength, 1.0 - ReadThreshold))
  }

  /** `check_overlaps_end_end`: the ends of both contigs abut. */
  predicate OverlapsEndEnd(left: Overlap, right: Overlap)
  {
    left.contigId != right.contigId &&
    left.strand != right.strand &&
    Staggered(left, right) &&
    !(left.contigLength - left.contigEnd + right.contigLength - right.contigEnd > left.readLength) &&
    !RatioBelow(left.contigEnd, left.contigLength, 1.0 - ContigThreshold) &&
    !RatioBelow(right.contigEnd, right.contigLength, 1.0 - ContigThreshold) &&
    AnchoredAtReadEnds(left, right) &&
    !RatioBelow(left.matchLength + right.matchLength, left.readLength, MatchThreshold)
  }

  /** `check_overlaps_start_start`: the starts of both contigs abut. */
  predicate OverlapsStartStart(left: Overlap, right: Overlap)
  {
    left.contigId != right.contigId &&
    left.strand != right.strand &&
    Staggered(left, right) &&
    !(left.contigStart + right.contigStart > left.readLength) &&
    !RatioAbove(left.contigStart, left.contigLength, ContigThreshold) &&
    !RatioAbove(right.contigStart, right.contigLength, ContigThreshold) &&
    AnchoredAtReadEnds(left, right)
  }

  /** No classifier ever pairs a contig with itself; end-to-start needs equal
      strands, the other two need opposite strands. */
  lemma ClassifierGuards(left: Overlap, right: Overlap)
    ensures left.contigId == right.contigId ==>
              !OverlapsEndStart(left, right) && !OverlapsEndEnd(left, right) && !OverlapsStartStart(left, right)
    ensures OverlapsEndStart(left, right) ==> left.strand == right.strand
    ensures OverlapsEndEnd(left, right) ==> left.strand != right.strand
    ensures OverlapsStartStart(left, right) ==> left.strand != right.strand
  {
  }

  /** End-to-end and start-to-start do not depend on the order of their
      arguments when both alignments report the same read length (only
      `left.read_length` is consulted). */
  lemma SymmetricClassifiers(a: Overlap, b: Overlap)
    requires a.readLength == b.readLength
    ensures OverlapsEndEnd(a, b) == OverlapsEndEnd(b, a)
    ensures OverlapsStartStart(a, b) == OverlapsStartStart(b, a)
  {
    assert a.matchLength + b.matchLength == b.matchLength + a.matchLength;
  }

  /** Each cross-multiplied test is the IEEE comparison of the quotient:
      exact division for a non-zero divisor, infinities and NaN for zero. */
  lemma RatioTestsMatchDivision(n: int, d: int, t: real)
    ensures RatioBelow(n, d, t) == Below(Divide(n, d), t)
    ensures RatioAbove(n, d, t) == Above(Divide(n, d), t)
    ensures RatioAtMost(n, d, t) == AtMost(Divide(n, d), t)
  {
    if d != 0 {
      var x, m := n as real / d as real, d as real;
      assert x * m == n as real;
      if d > 0 {
        ScalingKeepsOrder(x, t, m);
      } else {
        ScalingKeepsOrder(x, t, -m);
      }
    }
  }

  lemma ScalingKeepsOrder(x: real, y: real, m: real)
    requires m > 0.0
    ensures (x < y) <==> x * m < y * m
    ensures (x == y) <==> x * m == y * m
  {
  }

  /** The three classifiers as the source writes them, each ratio test on
      the IEEE quotient `(double) n / d` instead of by cross-multiplication. */
  predicate EndStartByDivision(left: Overlap, right: Overlap)
  {
    left.contigId != right.contigId &&
    left.strand == right.strand &&
    !(left.strand == "+" && left.readStart > right.readStart) &&
    !(left.strand == "+" && left.readEnd > right.readEnd) &&
    !(left.strand == "-" && right.readStart > left.readStart) &&
    !(left.strand == "-" && right.readEnd > left.readEnd) &&
    !(left.strand == "+" && right.contigStart + left.contigLength - left.contigEnd > left.readLength) &&
    !(left.strand == "-" && left.contigStart + right.contigLength - right.contigEnd > left.readLength) &&
    !Below(Divide(left.contigEnd, left.contigLength), 1.0 - ContigThreshold) &&
    !Above(Divide(right.contigStart, right.contigLength), ContigThreshold) &&
    !(left.strand == "+" && Above(Divide(left.readStart, left.readLength), ReadThreshold)) &&
    !(left.strand == "+" && Below(Divide(right.readEnd, right.readLength), 1.0 - ReadThreshold)) &&
    !(left.strand == "-" && Above(Divide(right.readStart, right.readLength), ReadThreshold)) &&
    !(left.strand == "-" && Below(Divide(left.readEnd, left.readLength), 1.0 - ReadThreshold))
  }

  predicate AnchoredByDivision(left: Overlap, right: Overlap)
  {
    (AtMost(Divide(left.readStart, left.readLength), ReadThreshold) &&
     Above(Divide(right.readEnd, right.readLength), 1.0 - ReadThreshold)) ||
    (AtMost(Divide(right.readStart, right.readLength), ReadThreshold) &&
     Above(Divide(left.readEnd, left.readLength), 1.0 - ReadThreshold))
  }

  predicate EndEndByDivision(left: Overlap, right: Overlap)
  {
    left.contigId != right.contigId &&
    left.strand != right.strand &&
    Staggered(left, right) &&
    !(left.contigLength - left.contigEnd + right.contigLength - right.contigEnd > left.readLength) &&
    !Below(Divide(left.contigEnd, left.contigLength), 1.0 - ContigThreshold) &&
    !Below(Divide(right.contigEnd, right.contigLength), 1.0 - ContigThreshold) &&
    AnchoredByDivision(left, right) &&
    !Below(Divide(left.matchLength + right.matchLength, left.readLength), MatchThreshold)
  }

  predicate StartStartByDivision(left: Overlap, right: Overlap)
  {
    left.contigId != right.contigId &&
    left.strand != right.strand &&
    Staggered(left, right) &&
    !(left.contigStart + right.contigStart > left.readLength) &&
    !Above(Divide(left.contigStart, left.contigLength), ContigThreshold) &&
    !Above(Divide(right.contigStart, right.contigLength), ContigThreshold) &&
    AnchoredByDivision(left, right)
  }

  lemma AnchoredMatchesDivision(left: Overlap, right: Overlap)
    ensures AnchoredAtReadEnds(left, right) == AnchoredByDivision(left, right)
  {
    RatioTestsMatchDivision(left.readStart, left.readLength, ReadThreshold);
    RatioTestsMatchDivision(right.readEnd, right.readLength, 1.0 - ReadThreshold);
    RatioTestsMatchDivision(right.readStart, right.readLength, ReadThreshold);
    RatioTestsMatchDivision(left.readEnd, left.readLength, 1.0 - ReadThreshold);
  }

  /** `check_overlaps_end_start` accepts exactly when its tests on the
      quotients pass, division by a zero length included. */
  lemma EndStartMatchesDivision(left: Overlap, right: Overlap)
    ensures OverlapsEndStart(left, right) == EndStartByDivision(left, right)
  {
    RatioTestsMatchDivision(left.contigEnd, left.contigLength, 1.0 - ContigThreshold);
    RatioTestsMatchDivision(right.contigStart, right.contigLength, ContigThreshold);
    RatioTestsMatchDivision(left.readStart, left.readLength, ReadThreshold);
    RatioTestsMatchDivision(right.readEnd, right.readLength, 1.0 - ReadThreshold);
    RatioTestsMatchDivision(right.readStart, right.readLength, ReadThreshold);
    RatioTestsMatchDivision(left.readEnd, left.readLength, 1.0 - ReadThreshold);
  }

  /** `check_overlaps_end_end` accepts exactly when its tests on the
      quotients pass. */
  lemma EndEndMatchesDivision(left: Overlap, right: Overlap)
    ensures OverlapsEndEnd(left, right) == EndEndByDivision(left, right)
  {
    RatioTestsMatchDivision(left.contigEnd, left.contigLength, 1.0 - ContigThreshold);
    RatioTestsMatchDivision(right.contigEnd, right.contigLength, 1.0 - ContigThreshold);
    RatioTestsMatchDivision(left.matchLength + right.matchLength, left.readLength, MatchThreshold);
    AnchoredMatchesDivision(left, right);
  }

  /** `check_overlaps_start_start` accepts exactly when its tests on the
      quotients pass. */
  lemma StartStartMatchesDivision(left: Overlap, right: Overlap)
    ensures OverlapsStartStart(left, right) == StartStartByDivision(left, right)
  {
    RatioTestsMatchDivision(left.contigStart, left.contigLength, ContigThreshold);
    RatioTestsMatchDivision(right.contigStart, right.contigLength, ContigThreshold);
    AnchoredMatchesDivision(left, right);
  }

  /** With positive contig lengths, each classifier accepts only alignments
      near the contig ends it joins: an alignment used at a contig's end
      reaches its last 40%, one used at a contig's start begins in its
      first 40%. */
  lemma ClassifiersUseContigEnds(left: Overlap, right: Overlap)
    requires left.contigLength > 0 && right.contigLength > 0
    ensures OverlapsEndStart(left, right) ==>
              5 * left.contigEnd >= 3 * left.contigLength && 5 * right.contigStart <= 2 * right.contigLength
    ensures OverlapsEndEnd(left, right) ==>
              5 * left.contigEnd >= 3 * left.contigLength && 5 * right.contigEnd >= 3 * right.contigLength
    ensures OverlapsStartStart(left, right) ==>
              5 * left.contigStart <= 2 * left.contigLength && 5 * right.contigStart <= 2 * right.contigLength
  {
  }
}

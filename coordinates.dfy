/** The coordinate model: building positions and ranges, comparing
    positions, half-open range containment, and the `contig:lo-hi` display
    format of an interval. */
module Coordinates {
  import opened Wrappers
  import opened Records
  import opened Text

  function MakePosition(referenceName: string, position: int, reverseStrand: bool := false): (p: Position)
    ensures p.reference_name == referenceName && p.position == position
    ensures p.reverse_strand == reverseStrand
  {
    Position(referenceName, position, reverseStrand)
  }

  function MakeRange(referenceName: string, start: int, end: int): (r: Range)
    ensures r.reference_name == referenceName && r.start == start && r.end == end
  {
    Range(referenceName, start, end)
  }

  /** The position of a variant: its contig and start, on the forward strand;
      the end plays no part. */
  function MakePositionOfVariant(v: Variant): (p: Position)
    ensures p.reference_name == v.reference_name && p.position == v.start && !p.reverse_strand
  {
    MakePosition(v.reference_name, v.start)
  }

  /** The range of a variant: a variant is already half-open and zero-based,
      so start and end are taken as they are. */
  function MakeRangeOfVariant(v: Variant): (r: Range)
    ensures r.reference_name == v.reference_name && r.start == v.start && r.end == v.end
  {
    MakeRange(v.reference_name, v.start, v.end)
  }

  // ---------------------------------------------------------------------
  // Ordering of positions

  /** `a` lies strictly before `b`: on an earlier contig by name, or on the
      same contig at a smaller coordinate. The strand plays no part. */
  predicate PositionLess(a: Position, b: Position)
  {
    LexLess(a.reference_name, b.reference_name)
    || (a.reference_name == b.reference_name && a.position < b.position)
  }

  /** Three-way comparison of positions: contig name first, then coordinate. */
  function ComparePositions(a: Position, b: Position): (r: int)
    ensures r < 0 <==> PositionLess(a, b)
    ensures r == 0 <==> a.reference_name == b.reference_name && a.position == b.position
    ensures r > 0 <==> PositionLess(b, a)
  {
    var byName := CompareStrings(a.reference_name, b.reference_name);
    if byName != 0 then byName
    else if a.position < b.position then -1
    else if b.position < a.position then 1
    else 0
  }

  /** Comparison of variants by the positions they start at. */
  function CompareVariantPositions(v: Variant, w: Variant): (r: int)
    ensures r < 0 <==> LexLess(v.reference_name, w.reference_name)
                       || (v.reference_name == w.reference_name && v.start < w.start)
    ensures r == 0 <==> v.reference_name == w.reference_name && v.start == w.start
  {
    ComparePositions(MakePositionOfVariant(v), MakePositionOfVariant(w))
  }

  /** PositionLess orders positions strictly and totally by (contig, coordinate). */
  lemma PositionLessIsStrictTotalOrder(a: Position, b: Position, c: Position)
    ensures !PositionLess(a, a)
    ensures PositionLess(a, b) ==> !PositionLess(b, a)
    ensures PositionLess(a, b) && PositionLess(b, c) ==> PositionLess(a, c)
    ensures PositionLess(a, b) || PositionLess(b, a)
            || (a.reference_name == b.reference_name && a.position == b.position)
  {
    LexLessIrreflexive(a.reference_name);
    LexLessTrichotomy(a.reference_name, b.reference_name);
    if PositionLess(a, b) && PositionLess(b, c) {
      if LexLess(a.reference_name, b.reference_name) && LexLess(b.reference_name, c.reference_name) {
        LexLessTransitive(a.reference_name, b.reference_name, c.reference_name);
      }
    }
  }

  /** ComparePositions is antisymmetric: swapping its arguments flips the sign. */
  lemma ComparePositionsAntisymmetric(a: Position, b: Position)
    ensures ComparePositions(a, b) < 0 <==> ComparePositions(b, a) > 0
    ensures ComparePositions(a, b) == 0 <==> ComparePositions(b, a) == 0
  {
  }

  /** Two variants that start at the same locus have the same position,
      whatever their ends. */
  lemma MakePositionOfVariantIgnoresEnd(v: Variant, w: Variant)
    requires v.reference_name == w.reference_name && v.start == w.start
    ensures MakePositionOfVariant(v) == MakePositionOfVariant(w)
  {
  }

  /** Comparing two variants ignores their ends. */
  lemma CompareVariantPositionsIgnoresEnd(v: Variant, w: Variant, vEnd: int, wEnd: int)
    ensures CompareVariantPositions(v.(end := vEnd), w.(end := wEnd)) == CompareVariantPositions(v, w)
  {
  }

  // ---------------------------------------------------------------------
  // Containment

  /** `outer` contains `inner`: same contig, and inner's bounds lie within
      outer's. A zero-length range is contained where its bounds lie. */
  predicate RangeContains(outer: Range, inner: Range)
    ensures RangeContains(outer, inner) ==> inner.end - inner.start <= outer.end - outer.start
  {
    outer.reference_name == inner.reference_name
    && outer.start <= inner.start
    && inner.end <= outer.end
  }

  /** The locus `p` on contig `name` lies in the half-open range `r`. */
  predicate CoversLocus(r: Range, name: string, p: int)
  {
    r.reference_name == name && r.start <= p < r.end
  }

  /** For a non-empty inner range, containment means exactly that every locus
      the inner range covers is covered by the outer one. */
  lemma RangeContainsIffCoversLoci(outer: Range, inner: Range)
    requires inner.start < inner.end
    ensures RangeContains(outer, inner) <==>
      forall name, p :: CoversLocus(inner, name, p) ==> CoversLocus(outer, name, p)
  {
    if forall name, p :: CoversLocus(inner, name, p) ==> CoversLocus(outer, name, p) {
      assert CoversLocus(inner, inner.reference_name, inner.start);
      assert CoversLocus(inner, inner.reference_name, inner.end - 1);
    }
  }

  /** Containment is a partial order on ranges: reflexive (also for
      zero-length ranges) and transitive; and a range contains no range that
      sticks out of it on either side or lies on another contig. */
  lemma RangeContainsPartialOrder(a: Range, b: Range, c: Range)
    ensures RangeContains(a, a)
    ensures RangeContains(a, b) && RangeContains(b, c) ==> RangeContains(a, c)
    ensures RangeContains(a, b) && RangeContains(b, a) ==> a == b
    ensures b.start < a.start || a.end < b.end || a.reference_name != b.reference_name ==> !RangeContains(a, b)
    ensures a.reference_name == b.reference_name && a.start <= b.start && b.end <= a.end ==> RangeContains(a, b)
  {
  }

  // ---------------------------------------------------------------------
  // Display format

  /** `contig:lo-hi`, or `contig:lo` when start equals end. With `baseZero`
      (the default) the stored zero-based coordinates are shown one-based,
      that is both shifted by one; otherwise they are shown as stored. */
  function MakeIntervalStr(contig: string, start: int, end: int, baseZero: bool := true): (s: string)
  {
    var offset := if baseZero then 1 else 0;
    if start == end then
      contig + ":" + IntToString(start + offset)
    else
      contig + ":" + IntToString(start + offset) + "-" + IntToString(end + offset)
  }

  /** The interval of a position: the single locus, shown one-based. */
  function MakeIntervalStrOfPosition(p: Position): string
  {
    MakeIntervalStr(p.reference_name, p.position, p.position, true)
  }

  /** The interval of a range, start and end as stored, shown one-based. */
  function MakeIntervalStrOfRange(r: Range): string
  {
    MakeIntervalStr(r.reference_name, r.start, r.end, true)
  }

  /** Reads an interval string back: the contig is everything before the
      last ':', the rest holds the bounds. */
  function ParseIntervalStr(s: string): Option<(string, int, int)>
  {
    var colon := LastIndexOf(s, ':');
    if colon < 0 then None
    else
      match ParseBounds(s[colon + 1..])
      case None => None
      case Some(bounds) => Some((s[..colon], bounds.0, bounds.1))
  }

  /** One decimal number, standing for both bounds, or two separated by '-'. */
  function ParseBounds(tail: string): Option<(int, int)>
  {
    var dash := FirstIndexOf(tail, '-');
    if dash < 0 then
      if |tail| > 0 && AllDigits(tail) then Some((ParseNat(tail) as int, ParseNat(tail) as int))
      else None
    else
      var lo, hi := tail[..dash], tail[dash + 1..];
      if |lo| > 0 && AllDigits(lo) && |hi| > 0 && AllDigits(hi) then
        Some((ParseNat(lo) as int, ParseNat(hi) as int))
      else None
  }

  /** The bounds part of the display string for non-negative shown bounds. */
  function BoundsText(lo: nat, hi: nat): string
  {
    if lo == hi then NatToString(lo) else NatToString(lo) + "-" + NatToString(hi)
  }

  /** The bounds part printed for non-negative shown bounds parses back to them. */
  lemma ParseBoundsRoundTrip(lo: nat, hi: nat)
    ensures ParseBounds(BoundsText(lo, hi)) == Some((lo, hi))
  {
    var l := NatToString(lo);
    ParseNatToString(lo);
    if lo != hi {
      var h := NatToString(hi);
      ParseNatToString(hi);
      var tail := l + "-" + h;
      assert tail[|l|] == '-';
      assert forall k :: 0 <= k < |l| ==> tail[k] == l[k];
      assert FirstIndexOf(tail, '-') == |l|;
      assert tail[..|l|] == l && tail[|l| + 1..] == h;
    }
  }

  /** In `contig:tail` with no ':' in the tail, the contig ends at the last
      ':' and the tail alone decides the bounds. */
  lemma ParseSplitsAtContig(contig: string, tail: string)
    requires forall k :: 0 <= k < |tail| ==> tail[k] != ':'
    ensures ParseBounds(tail).Some? ==>
      ParseIntervalStr(contig + ":" + tail) == Some((contig, ParseBounds(tail).value.0, ParseBounds(tail).value.1))
  {
    var s := contig + ":" + tail;
    assert s[|contig|] == ':';
    assert LastIndexOf(s, ':') == |contig|;
    assert s[..|contig|] == contig && s[|contig| + 1..] == tail;
  }

  /** The printed bounds are digits and at most one '-': never a ':'. */
  lemma BoundsHaveNoColon(lo: nat, hi: nat)
    ensures var tail := BoundsText(lo, hi);
      forall k :: 0 <= k < |tail| ==> tail[k] != ':'
  {
    var l, h := NatToString(lo), NatToString(hi);
    if lo != hi {
      var tail := l + "-" + h;
      forall k | 0 <= k < |tail| ensures tail[k] != ':' {
        if k < |l| {
          assert tail[k] == l[k];
        } else if k > |l| {
          assert tail[k] == h[k - |l| - 1];
        }
      }
    }
  }

  /** A contig, a ':' and printed bounds parse back to the contig and the bounds. */
  lemma ParseOfLayout(contig: string, s: string, lo: nat, hi: nat)
    requires s == contig + ":" + BoundsText(lo, hi)
    ensures ParseIntervalStr(s) == Some((contig, lo as int, hi as int))
  {
    BoundsHaveNoColon(lo, hi);
    ParseBoundsRoundTrip(lo, hi);
    ParseSplitsAtContig(contig, BoundsText(lo, hi));
  }

  /** For non-negative coordinates the display string is the contig, a
      ':', and the shown bounds in decimal. */
  lemma IntervalStrLayout(contig: string, start: int, end: int, baseZero: bool)
    requires start >= 0 && end >= 0
    ensures var k := if baseZero then 1 else 0;
      var lo, hi := start + k, end + k;
      MakeIntervalStr(contig, start, end, baseZero)
      == contig + ":" + BoundsText(lo, hi)
  {
    var k := if baseZero then 1 else 0;
    assert IntToString(start + k) == NatToString(start + k);
    assert IntToString(end + k) == NatToString(end + k);
  }

  /** The display string determines the contig and the shown bounds: for
      non-negative coordinates, parsing it gives back the contig and both
      bounds, shifted by one when `baseZero`, whichever form was printed. */
  lemma IntervalStrRoundTrip(contig: string, start: int, end: int, baseZero: bool)
    requires start >= 0 && end >= 0
    ensures var k := if baseZero then 1 else 0;
      ParseIntervalStr(MakeIntervalStr(contig, start, end, baseZero)) == Some((contig, start + k, end + k))
  {
    var k := if baseZero then 1 else 0;
    IntervalStrLayout(contig, start, end, baseZero);
    ParseOfLayout(contig, MakeIntervalStr(contig, start, end, baseZero), start + k, end + k);
  }

  /** The exact strings of the display format: shown one-based by default
      and as stored when asked. */
  lemma IntervalStrExamples()
    ensures MakeIntervalStr("chr1", 1, 10) == "chr1:2-11"
    ensures MakeIntervalStr("chr1", 1, 10, false) == "chr1:1-10"
  {
    assert MakeIntervalStr("chr1", 1, 10) == "chr1:2-11" by {
      NatToStringStep(11, "1", '1');
    }
    assert MakeIntervalStr("chr1", 1, 10, false) == "chr1:1-10" by {
      NatToStringStep(10, "1", '0');
    }
  }

  /** The interval string of a position names one locus: it parses back to
      the position's contig and its one-based locus as both bounds. */
  lemma PositionIntervalStrRoundTrip(p: Position)
    requires p.position >= 0
    ensures ParseIntervalStr(MakeIntervalStrOfPosition(p)) == Some((p.reference_name, p.position + 1, p.position + 1))
  {
    IntervalStrRoundTrip(p.reference_name, p.position, p.position, true);
  }

  /** The interval string of a range parses back to its contig and its
      bounds, shown one-based. */
  lemma RangeIntervalStrRoundTrip(r: Range)
    requires r.start >= 0 && r.end >= 0
    ensures ParseIntervalStr(MakeIntervalStrOfRange(r)) == Some((r.reference_name, r.start + 1, r.end + 1))
  {
    IntervalStrRoundTrip(r.reference_name, r.start, r.end, true);
  }

  /** A single number when start equals end, for a position as for a range;
      a range one base long still shows both bounds. */
  lemma SingleLocusIntervalStrExamples()
    ensures MakeIntervalStr("chr2", 2, 2, true) == "chr2:3"
    ensures MakeIntervalStr("chr2", 2, 2, false) == "chr2:2"
    ensures MakeIntervalStrOfPosition(MakePosition("chr2", 2)) == "chr2:3"
    ensures MakeIntervalStrOfRange(MakeRange("chr2", 2, 2)) == "chr2:3"
    ensures MakeIntervalStrOfRange(MakeRange("chr2", 2, 3)) == "chr2:3-4"
  {
    assert MakeIntervalStr("chr2", 2, 2, true) == "chr2:3" by {
      assert IntToString(3) == "3";
    }
    assert MakeIntervalStr("chr2", 2, 2, false) == "chr2:2" by {
      assert IntToString(2) == "2";
    }
    assert MakeIntervalStrOfPosition(MakePosition("chr2", 2)) == "chr2:3" by {
      assert IntToString(3) == "3";
      assert MakePosition("chr2", 2) == Position("chr2", 2, false);
    }
    assert MakeIntervalStrOfRange(MakeRange("chr2", 2, 2)) == "chr2:3" by {
      assert IntToString(3) == "3";
      assert MakeRange("chr2", 2, 2) == Range("chr2", 2, 2);
    }
    assert MakeIntervalStrOfRange(MakeRange("chr2", 2, 3)) == "chr2:3-4" by {
      assert MakeRange("chr2", 2, 3) == Range("chr2", 2, 3);
      assert IntToString(3) == "3" && IntToString(4) == "4";
    }
  }
}

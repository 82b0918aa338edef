/** Where an aligned read lies on the reference: its contig, its start, and
    its end as the start plus the reference bases its CIGAR consumes. */
module Alignment {
  import opened Wrappers
  import opened Records
  import opened Coordinates

  /** The operations that consume reference bases, per the "consumes
      reference" column of the CIGAR operation table in section 1.4 of the
      SAMv1 format specification: M, D, N, = and X. I, S, H and P do not. */
  predicate ConsumesReference(op: CigarOperation)
  {
    op == AlignmentMatch || op == Delete || op == Skip
    || op == SequenceMatch || op == SequenceMismatch
  }

  predicate NonNegativeLengths(cigar: seq<CigarUnit>)
  {
    forall i :: 0 <= i < |cigar| ==> cigar[i].operation_length >= 0
  }

  /** The number of reference bases a CIGAR spans: the lengths of its
      reference-consuming units, added up from the left. */
  function ReferenceLength(cigar: seq<CigarUnit>): (n: int)
    ensures NonNegativeLengths(cigar) ==> n >= 0
    ensures (forall i :: 0 <= i < |cigar| ==> !ConsumesReference(cigar[i].operation)) ==> n == 0
    ensures NonNegativeLengths(cigar) ==>
      forall i :: 0 <= i < |cigar| && ConsumesReference(cigar[i].operation) ==> n >= cigar[i].operation_length
    decreases |cigar|
  {
    if |cigar| == 0 then 0
    else
      var rest := cigar[1..];
      assert forall i :: 0 < i < |cigar| ==> cigar[i] == rest[i - 1];
      (if ConsumesReference(cigar[0].operation) then cigar[0].operation_length else 0)
      + ReferenceLength(rest)
  }

  /** A single unit spans its own length when it consumes reference bases
      and nothing otherwise; with ReferenceLengthAppend this fixes the span
      of every CIGAR as the sum of its consuming units' lengths. */
  lemma ReferenceLengthOfUnit(u: CigarUnit)
    ensures ReferenceLength([u]) == if ConsumesReference(u.operation) then u.operation_length else 0
  {
  }

  /** The span of a concatenation is the sum of the spans. */
  lemma {:induction false} ReferenceLengthAppend(a: seq<CigarUnit>, b: seq<CigarUnit>)
    ensures ReferenceLength(a + b) == ReferenceLength(a) + ReferenceLength(b)
    decreases |a|
  {
    if |a| > 0 {
      assert (a + b)[1..] == a[1..] + b;
      ReferenceLengthAppend(a[1..], b);
    } else {
      assert a + b == b;
    }
  }

  /** Units that do not consume reference bases (insertions, clips, pads)
      can be added anywhere without moving the end. */
  lemma ReferenceLengthIgnoresNonConsuming(a: seq<CigarUnit>, u: CigarUnit, b: seq<CigarUnit>)
    requires !ConsumesReference(u.operation)
    ensures ReferenceLength(a + [u] + b) == ReferenceLength(a + b)
  {
    ReferenceLengthAppend(a + [u], b);
    ReferenceLengthAppend(a, [u]);
    ReferenceLengthAppend(a, b);
  }

  /** The contig a read is aligned to, or "" for an unaligned read. */
  function AlignedContig(read: Read): (contig: string)
    ensures read.alignment.None? ==> contig == ""
    ensures read.alignment.Some? ==> contig == read.alignment.value.position.reference_name
  {
    AlignmentOf(read).position.reference_name
  }

  /** The first reference locus of the alignment; clips do not move it. */
  function ReadStart(read: Read): (start: int)
    ensures read.alignment.Some? ==> start == read.alignment.value.position.position
  {
    AlignmentOf(read).position.position
  }

  /** One past the last reference locus the alignment covers. */
  function ReadEnd(read: Read): (end: int)
    ensures NonNegativeLengths(AlignmentOf(read).cigar) ==> end >= ReadStart(read)
  {
    ReadStart(read) + ReferenceLength(AlignmentOf(read).cigar)
  }

  /** The half-open range a read covers on its contig. */
  function MakeRangeOfRead(read: Read): (r: Range)
    ensures r.reference_name == AlignedContig(read)
    ensures r.start == ReadStart(read) && r.end == ReadEnd(read)
  {
    MakeRange(AlignedContig(read), ReadStart(read), ReadEnd(read))
  }

  /** The read with its CIGAR replaced, everything else kept. */
  function WithCigar(read: Read, cigar: seq<CigarUnit>): Read
    requires read.alignment.Some?
  {
    read.(alignment := Some(read.alignment.value.(cigar := cigar)))
  }

  /** The start is the alignment position whatever the CIGAR; the end is
      the start plus what the CIGAR consumes. */
  lemma ReadExtentOfCigar(read: Read, cigar: seq<CigarUnit>)
    requires read.alignment.Some?
    ensures ReadStart(WithCigar(read, cigar)) == ReadStart(read)
    ensures ReadEnd(WithCigar(read, cigar)) == ReadStart(read) + ReferenceLength(cigar)
  {
  }

  /** Extending a CIGAR on the right only extends the read's range: the
      range of the longer alignment contains that of the shorter. */
  lemma ExtendingCigarGrowsRange(read: Read, a: seq<CigarUnit>, b: seq<CigarUnit>)
    requires read.alignment.Some?
    requires NonNegativeLengths(b)
    ensures RangeContains(MakeRangeOfRead(WithCigar(read, a + b)), MakeRangeOfRead(WithCigar(read, a)))
  {
    ReferenceLengthAppend(a, b);
  }

  /** The CIGARs of reads whose ends are pinned: "2D,8M" spans 10 reference
      bases and "1M,3I,4M" spans 5. */
  lemma ReferenceLengthExamples()
    ensures ReferenceLength([CigarUnit(Delete, 2), CigarUnit(AlignmentMatch, 8)]) == 10
    ensures ReferenceLength([CigarUnit(AlignmentMatch, 1), CigarUnit(Insert, 3), CigarUnit(AlignmentMatch, 4)]) == 5
  {
    var c := [CigarUnit(AlignmentMatch, 1), CigarUnit(Insert, 3), CigarUnit(AlignmentMatch, 4)];
    assert c[1..][1..][1..] == [];
  }

  /** Hard and soft clips and insertions leave the end where the matches and
      deletions put it: "5H,1M,3I,19D,1M,3S" spans 21 reference bases. */
  lemma ClippedReferenceLengthExample()
    ensures ReferenceLength([CigarUnit(ClipHard, 5), CigarUnit(AlignmentMatch, 1), CigarUnit(Insert, 3),
                             CigarUnit(Delete, 19), CigarUnit(AlignmentMatch, 1), CigarUnit(ClipSoft, 3)]) == 21
  {
    var c := [CigarUnit(ClipHard, 5), CigarUnit(AlignmentMatch, 1), CigarUnit(Insert, 3),
              CigarUnit(Delete, 19), CigarUnit(AlignmentMatch, 1), CigarUnit(ClipSoft, 3)];
    assert c[1..][1..][1..][1..][1..][1..] == [];
  }
}

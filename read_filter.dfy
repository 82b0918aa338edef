/** Whether a read is properly placed, and whether it satisfies a set of
    read requirements. */
module ReadFilter {
  import opened Wrappers
  import opened Records
  import opened Alignment

  /** A read is properly placed unless it is one of a pair, aligned, has a
      mate position, and that mate lies on another contig. The record's own
      `proper_placement` flag does not enter into it. */
  predicate IsReadProperlyPlaced(read: Read)
  {
    read.number_reads < 2
    || read.alignment.None?
    || read.next_mate_position.None?
    || read.next_mate_position.value.reference_name == AlignedContig(read)
  }

  /** An unaligned read passes exactly when unaligned reads are kept; an
      aligned read must not carry a duplicate, vendor-failed, secondary or
      supplementary flag the requirements do not keep, must be properly
      placed unless improperly placed reads are kept, and must reach the
      minimum mapping quality. */
  predicate ReadSatisfiesRequirements(read: Read, reqs: ReadRequirements)
  {
    if read.alignment.None? then reqs.keep_unaligned
    else
      (reqs.keep_duplicates || !read.duplicate_fragment)
      && (reqs.keep_failed_vendor_quality_checks || !read.failed_vendor_quality_checks)
      && (reqs.keep_secondary_alignments || !read.secondary_alignment)
      && (reqs.keep_supplementary_alignments || !read.supplementary_alignment)
      && (reqs.keep_improperly_placed || IsReadProperlyPlaced(read))
      && read.alignment.value.mapping_quality >= reqs.min_mapping_quality
  }

  /** An unaligned read passes exactly when unaligned reads are kept,
      whatever the other requirements ask, the minimum mapping quality
      included. */
  lemma UnalignedPassesIffKept(read: Read, reqs: ReadRequirements)
    requires read.alignment.None?
    ensures ReadSatisfiesRequirements(read, reqs) <==> reqs.keep_unaligned
  {
  }

  /** Placement depends on pairing, alignment and the mate's contig only:
      neither the `proper_placement` flag nor anything else about the read
      changes it. Unpaired, unaligned and mate-less reads are placed. */
  lemma PlacementIgnoresFlag(read: Read, flag: bool)
    ensures IsReadProperlyPlaced(read.(proper_placement := flag)) == IsReadProperlyPlaced(read)
    ensures read.number_reads < 2 || read.alignment.None? || read.next_mate_position.None? ==>
      IsReadProperlyPlaced(read)
    ensures read.number_reads >= 2 && read.alignment.Some? && read.next_mate_position.Some? ==>
      (IsReadProperlyPlaced(read) <==> read.next_mate_position.value.reference_name == read.alignment.value.position.reference_name)
  {
  }

  /** `weaker` keeps at least every read `stronger` keeps: each keep flag
      of `stronger` is also set in `weaker`, and its minimum mapping quality
      is no higher. */
  predicate Relaxes(weaker: ReadRequirements, stronger: ReadRequirements)
  {
    (stronger.keep_duplicates ==> weaker.keep_duplicates)
    && (stronger.keep_failed_vendor_quality_checks ==> weaker.keep_failed_vendor_quality_checks)
    && (stronger.keep_secondary_alignments ==> weaker.keep_secondary_alignments)
    && (stronger.keep_supplementary_alignments ==> weaker.keep_supplementary_alignments)
    && (stronger.keep_unaligned ==> weaker.keep_unaligned)
    && (stronger.keep_improperly_placed ==> weaker.keep_improperly_placed)
    && weaker.min_mapping_quality <= stronger.min_mapping_quality
  }

  /** The filter is monotone: relaxing the requirements never rejects a read
      that passed before. */
  lemma RelaxingRequirementsKeepsReads(read: Read, weaker: ReadRequirements, stronger: ReadRequirements)
    requires Relaxes(weaker, stronger)
    requires ReadSatisfiesRequirements(read, stronger)
    ensures ReadSatisfiesRequirements(read, weaker)
  {
  }

  /** Under the default requirements an aligned read passes exactly when it
      carries none of the four flags, is properly placed and has a
      non-negative mapping quality; an unaligned read never passes. */
  lemma DefaultRequirementsCharacterised(read: Read)
    ensures read.alignment.None? ==> !ReadSatisfiesRequirements(read, DefaultRequirements)
    ensures read.alignment.Some? ==>
      (ReadSatisfiesRequirements(read, DefaultRequirements) <==>
        !read.duplicate_fragment && !read.failed_vendor_quality_checks
        && !read.secondary_alignment && !read.supplementary_alignment
        && IsReadProperlyPlaced(read) && read.alignment.value.mapping_quality >= 0)
  {
  }

  /** Each flag alone rejects an otherwise passing aligned read, and setting
      the matching keep requirement lets it through again. */
  lemma EachFlagRejectsUnlessKept(read: Read, reqs: ReadRequirements)
    requires read.alignment.Some? && ReadSatisfiesRequirements(read, reqs)
    ensures !reqs.keep_duplicates ==>
      !ReadSatisfiesRequirements(read.(duplicate_fragment := true), reqs)
      && ReadSatisfiesRequirements(read.(duplicate_fragment := true), reqs.(keep_duplicates := true))
    ensures !reqs.keep_failed_vendor_quality_checks ==>
      !ReadSatisfiesRequirements(read.(failed_vendor_quality_checks := true), reqs)
      && ReadSatisfiesRequirements(read.(failed_vendor_quality_checks := true), reqs.(keep_failed_vendor_quality_checks := true))
    ensures !reqs.keep_secondary_alignments ==>
      !ReadSatisfiesRequirements(read.(secondary_alignment := true), reqs)
      && ReadSatisfiesRequirements(read.(secondary_alignment := true), reqs.(keep_secondary_alignments := true))
    ensures !reqs.keep_supplementary_alignments ==>
      !ReadSatisfiesRequirements(read.(supplementary_alignment := true), reqs)
      && ReadSatisfiesRequirements(read.(supplementary_alignment := true), reqs.(keep_supplementary_alignments := true))
  {
  }

  /** The mapping-quality threshold is inclusive: with every other check
      passed, a read passes exactly when its mapping quality reaches the
      minimum; a cleared mapping quality (0) fails any positive minimum. */
  lemma MappingQualityThreshold(read: Read, reqs: ReadRequirements, mapq: int)
    requires read.alignment.Some? && ReadSatisfiesRequirements(read, reqs.(min_mapping_quality := 0))
    ensures var r := read.(alignment := Some(read.alignment.value.(mapping_quality := mapq)));
      ReadSatisfiesRequirements(r, reqs) <==> mapq >= reqs.min_mapping_quality
  {
  }

  /** A read with no field set is unaligned and fails the default
      requirements; giving it an alignment at chr1:1, with every other field
      still unset, makes it pass. */
  lemma EmptyReadNeedsAlignment()
    ensures !ReadSatisfiesRequirements(EmptyRead, DefaultRequirements)
    ensures ReadSatisfiesRequirements(
      EmptyRead.(alignment := Some(DefaultAlignment.(position := Position("chr1", 1, false)))),
      DefaultRequirements)
  {
  }

  /** An aligned read that would pass if its mate position were cleared
      (every check other than placement passes) passes exactly when the
      requirements keep improperly placed reads or the read is properly
      placed: a mate on another contig rejects it unless
      `keep_improperly_placed` is set, and lets it through when it is. */
  lemma ImproperPlacementRejectsUnlessKept(read: Read, reqs: ReadRequirements)
    requires read.alignment.Some? && ReadSatisfiesRequirements(read.(next_mate_position := None), reqs)
    ensures ReadSatisfiesRequirements(read, reqs) <==> reqs.keep_improperly_placed || IsReadProperlyPlaced(read)
  {
  }
}

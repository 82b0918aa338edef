/** The optional value of a record field whose presence matters. */
module Wrappers {
  datatype Option<T> = None | Some(value: T)
}

/** The protocol-buffer records the utilities read and build, as value types.
    Each field keeps the name it has in the record definition; an unset
    integer field reads as 0, an unset string as "", an unset flag as false,
    exactly as the generated accessors do. Message-valued fields whose
    presence the utilities test (`has_alignment`, `has_next_mate_position`)
    are `Option`s. */
module Records {
  import opened Wrappers

  /** A single zero-based locus on a contig, and its strand. */
  datatype Position = Position(reference_name: string, position: int, reverse_strand: bool)

  /** A half-open interval [start, end) on a contig. */
  datatype Range = Range(reference_name: string, start: int, end: int)

  /** The location part of a Variant record (its `info` map is an InfoRecord). */
  datatype Variant = Variant(reference_name: string, start: int, end: int)

  /** The CIGAR operations of the CigarUnit record. */
  datatype CigarOperation =
    | OperationUnspecified
    | AlignmentMatch     // M
    | Insert             // I
    | Delete             // D
    | Skip               // N
    | ClipSoft           // S
    | ClipHard           // H
    | Pad                // P
    | SequenceMatch      // =
    | SequenceMismatch   // X

  datatype CigarUnit = CigarUnit(operation: CigarOperation, operation_length: int)

  datatype LinearAlignment = LinearAlignment(position: Position, mapping_quality: int, cigar: seq<CigarUnit>)

  /** A read; `alignment` is None when the read is unaligned. */
  datatype Read = Read(
    fragment_name: string,
    aligned_sequence: string,
    number_reads: int,
    proper_placement: bool,
    duplicate_fragment: bool,
    failed_vendor_quality_checks: bool,
    secondary_alignment: bool,
    supplementary_alignment: bool,
    alignment: Option<LinearAlignment>,
    next_mate_position: Option<Position>)

  /** Which reads a caller keeps; every flag defaults to false and the
      minimum mapping quality to 0. */
  datatype ReadRequirements = ReadRequirements(
    keep_duplicates: bool,
    keep_failed_vendor_quality_checks: bool,
    keep_secondary_alignments: bool,
    keep_supplementary_alignments: bool,
    keep_unaligned: bool,
    keep_improperly_placed: bool,
    min_mapping_quality: int)

  /** A contig of the reference and its rank in the FASTA file. */
  datatype ContigInfo = ContigInfo(name: string, pos_in_fasta: int)

  const EmptyPosition := Position("", 0, false)

  /** What `read.alignment()` yields on a read without an alignment. */
  const DefaultAlignment := LinearAlignment(EmptyPosition, 0, [])

  /** A read with every field unset. */
  const EmptyRead := Read("", "", 0, false, false, false, false, false, None, None)

  /** Requirements with every field unset. */
  const DefaultRequirements := ReadRequirements(false, false, false, false, false, false, 0)

  /** The alignment of a read, read through the record's accessor: the
      default alignment when none is set. */
  function AlignmentOf(read: Read): (a: LinearAlignment)
    ensures read.alignment.Some? ==> a == read.alignment.value
    ensures read.alignment.None? ==> a.position.reference_name == "" && a.position.position == 0 && a.cigar == []
  {
    match read.alignment
    case None => DefaultAlignment
    case Some(aln) => aln
  }
}

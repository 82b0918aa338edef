# Nucleus genomics utilities, modelled in Dafny

This project models the small deterministic utilities of Nucleus's
`nucleus/util/utils.h`. They work on the genomics protocol-buffer records: positions,
ranges, variants, reads and their alignments, read requirements, and typed
`Value`/`ListValue` fields. The implementation file is not part of this
model. The behaviour modelled is the one that `nucleus/util/utils_test.cc`
asserts, and every contract below is stated against those assertions.

Modules, one per file:

- `Wrappers`, `Records` (`records.dfy`): the records as value types. An unset
  scalar field reads as 0, "" or false. Message fields whose presence
  matters (`alignment`, `next_mate_position`) are `Option`s, and an unset
  alignment reads as the default one.
- `Text` (`text.dfy`): lexicographic string order and three-way string
  comparison. Also decimal rendering and parsing of integers, and
  first/last index of a character.
- `Bases` (`bases.dfy`): canonical-base classification (`ACGT`, `ACGTN`)
  and the left-to-right scan that reports the first bad base.
- `Coordinates` (`coordinates.dfy`):
  - building positions and ranges, from values or from a variant;
  - three-way position comparison;
  - half-open range containment;
  - the `contig:lo-hi` / `contig:lo` interval string and a parser that reads it back.
- `Alignment` (`alignment.dfy`): the contig, start and end of an aligned
  read. The end is the start plus the lengths of the reference-consuming
  CIGAR units.
- `ReadFilter` (`read_filter.dfy`): proper placement and the read
  requirements filter.
- `Quoting` (`quoting.dfy`): removal of one pair of matching quotes.
- `VariantOrder` (`variant_order.dfy`): the contig-name-to-FASTA-rank map,
  built by a loop, and the genome-wide strict order of variants.
- `InfoValues` (`info_values.dfy`): encoding scalars into `Value`, and
  lists of them into a record's `info` map. `SetValuesValue` and
  `SetInfoField` are methods of classes that own the written state, and
  `ListValues` decodes.

On three points the test file settles behaviour that a reading of the
functions' names alone might get wrong:

- `MakeIntervalStr` prints the single-number form exactly when start equals
  end. A one-base range such as (2, 3) prints as `chr2:3-4`
  (`nucleus/util/utils_test.cc:184-185`). It is not printed in the single form.
- Proper placement is decided by pairing, alignment and the mate's contig.
  The read's `proper_placement` flag plays no part
  (`nucleus/util/utils_test.cc:303-307`, `391-396`).
- The minimum mapping quality is a plain integer defaulting to 0. A cleared
  mapping quality (0) fails once a minimum of 10 is set
  (`nucleus/util/utils_test.cc:417-423`). There is no rule that an unset
  quality always passes.

## Model

| member | source | states |
|---|---|---|
| Bases.IsCanonicalBase | nucleus/util/utils_test.cc:94-116 | a character is canonical iff it is one of the letters A, C, G, T, or also N in ACGTN mode (the written-out alphabet of the mode) |
| Bases.CanonicalBasesAreUpperCase | nucleus/util/utils_test.cc:94-116 | a character canonical in either mode is an upper-case letter, so lower-case bases ('a', 'n', …) are never canonical |
| Bases.ModesDifferOnlyAtN | nucleus/util/utils_test.cc:94-116 | ACGT-canonical implies ACGTN-canonical; the two modes differ exactly at upper-case 'N'; the IUPAC 'R' is rejected by both |
| Bases.AreCanonicalBases | nucleus/util/utils_test.cc:54-92 | true iff every base is canonical; on false, the reported position is the first non-canonical index (all earlier bases canonical); on true the position is left as the caller had it; the mode defaults to ACGT; empty input is a caller error |
| Bases.CanonicalBasesExamples | nucleus/util/utils_test.cc:74-87 | "ANC" is rejected in the default mode and accepted in ACGTN mode; an 'R' at index 4 of "ACGTACGTACGT" is reported at index 4 |
| Coordinates.MakePosition | nucleus/util/utils_test.cc:118-124 | the position carries the given contig, coordinate and strand (forward by default) |
| Coordinates.MakeRange | nucleus/util/utils_test.cc:126-131 | the range carries the given contig, start and end |
| Coordinates.MakePositionOfVariant | nucleus/util/utils_test.cc:201-211 | a variant's position is its contig and start on the forward strand |
| Coordinates.MakePositionOfVariantIgnoresEnd | nucleus/util/utils_test.cc:201-211 | variants with the same contig and start have the same position whatever their ends |
| Coordinates.MakeRangeOfVariant | nucleus/util/utils_test.cc:213-219 | a variant's range copies its contig, start and end unchanged |
| Coordinates.RangeContains | nucleus/util/utils_test.cc:134-161 | a contained range is never longer than the range containing it; its meaning, zero-length inner ranges included, is fixed by the two-way statement of RangeContainsPartialOrder |
| Coordinates.RangeContainsIffCoversLoci | nucleus/util/utils_test.cc:134-161 | for a non-empty inner range, containment holds iff every locus of the inner range lies in the outer one |
| Coordinates.RangeContainsPartialOrder | nucleus/util/utils_test.cc:134-161 | containment is reflexive (zero-length ranges included), transitive and antisymmetric; a range on the same contig whose bounds lie within the outer bounds is contained, a zero-length one included, and a range sticking out on either side or on another contig is not |
| Coordinates.ComparePositions | nucleus/util/utils_test.cc:188-199 | negative iff the first position is before the second (contig name first, lexicographically, then coordinate), zero iff contig and coordinate agree, positive iff after |
| Coordinates.PositionLessIsStrictTotalOrder | nucleus/util/utils_test.cc:188-199 | the order compared by ComparePositions is irreflexive, asymmetric, transitive and total up to (contig, coordinate) |
| Coordinates.ComparePositionsAntisymmetric | nucleus/util/utils_test.cc:188-199 | swapping the arguments flips the sign of the comparison |
| Coordinates.CompareVariantPositions | nucleus/util/utils_test.cc:222-241 | two variants compare by contig name and then start; the result is zero iff contig and start agree |
| Coordinates.CompareVariantPositionsIgnoresEnd | nucleus/util/utils_test.cc:222-241 | changing the ends of the variants never changes their comparison |
| Coordinates.MakeIntervalStr | nucleus/util/utils_test.cc:163-186 | prints `contig:lo` when start equals end and `contig:lo-hi` otherwise, both bounds shifted by one unless the shift is turned off; no contract of its own, its layout is IntervalStrLayout and its inverse is ParseIntervalStr by IntervalStrRoundTrip |
| Coordinates.ParseIntervalStr | nucleus/util/utils_test.cc:163-186 | the reading of an interval string that the round trip inverts: the contig is everything before the last ':', then one decimal bound or two separated by '-'; no contract of its own |
| Coordinates.IntervalStrRoundTrip | nucleus/util/utils_test.cc:163-177 | for non-negative coordinates, parsing the interval string gives back the contig and both bounds, shifted by one by default and unshifted when asked, in the single-number form as in the two-number form |
| Coordinates.IntervalStrLayout | nucleus/util/utils_test.cc:163-177 | for non-negative coordinates the interval string is the contig, ':', and the shown bounds in decimal: one number when start equals end, otherwise `lo-hi` |
| Coordinates.IntervalStrExamples | nucleus/util/utils_test.cc:164-169 | (chr1, 1, 10) prints as `chr1:2-11` by default and as `chr1:1-10` without the shift |
| Coordinates.SingleLocusIntervalStrExamples | nucleus/util/utils_test.cc:175-185 | start equal to end prints one number (`chr2:3`, or `chr2:2` unshifted), for a position and for a zero-length range; the range (2, 3) prints `chr2:3-4` |
| Coordinates.MakeIntervalStrOfPosition | nucleus/util/utils_test.cc:180-181 | the interval string of a position uses its coordinate as both start and end, so it has the single-number form; stated by PositionIntervalStrRoundTrip |
| Coordinates.MakeIntervalStrOfRange | nucleus/util/utils_test.cc:182-185 | the interval string of a range passes start and end unchanged; stated by RangeIntervalStrRoundTrip |
| Coordinates.PositionIntervalStrRoundTrip | nucleus/util/utils_test.cc:180-181 | a position's interval string names the single one-based locus of the position |
| Coordinates.RangeIntervalStrRoundTrip | nucleus/util/utils_test.cc:182-185 | a range's interval string names its contig and its start and end, each shown one-based |
| Alignment.ConsumesReference | nucleus/util/utils_test.cc:278-296 | M, D, N, = and X consume reference bases; I, S, H and P do not (M, D, I, S, H as the tests show, the rest from the SAMv1 table) |
| Alignment.ReferenceLength | nucleus/util/utils_test.cc:278-296 | the reference span of a CIGAR is non-negative, is 0 when no unit consumes the reference, and is at least every consuming unit's length |
| Alignment.ReferenceLengthOfUnit | nucleus/util/utils_test.cc:278-296 | one unit spans exactly its length when it consumes the reference and 0 otherwise; with ReferenceLengthAppend the span of any CIGAR is the sum of its consuming units' lengths |
| Alignment.ReferenceLengthAppend | nucleus/util/utils_test.cc:278-296 | the span of a concatenation of CIGARs is the sum of their spans |
| Alignment.ReferenceLengthIgnoresNonConsuming | nucleus/util/utils_test.cc:278-296 | inserting an I, S, H or P unit anywhere does not change the span |
| Alignment.ReferenceLengthExamples | nucleus/util/utils_test.cc:284-288 | "2D,8M" spans 10 reference bases and "1M,3I,4M" spans 5 |
| Alignment.ClippedReferenceLengthExample | nucleus/util/utils_test.cc:287 | "5H,1M,3I,19D,1M,3S" spans 21 reference bases |
| Alignment.AlignedContig | nucleus/util/utils_test.cc:243-258 | the contig of the read's alignment, or "" for an unaligned read |
| Alignment.ReadStart | nucleus/util/utils_test.cc:260-276 | an aligned read starts at its alignment position |
| Alignment.ReadExtentOfCigar | nucleus/util/utils_test.cc:260-296 | the start does not depend on the CIGAR; the end is the start plus the CIGAR's reference span |
| Alignment.ReadEnd | nucleus/util/utils_test.cc:278-296 | with non-negative unit lengths the end is never before the start |
| Alignment.MakeRangeOfRead | nucleus/util/utils_test.cc:291-294 | the read's range is [ReadStart, ReadEnd) on the aligned contig |
| Alignment.ExtendingCigarGrowsRange | nucleus/util/utils_test.cc:278-296 | extending a CIGAR on the right gives a range containing the shorter alignment's range |
| ReadFilter.IsReadProperlyPlaced | nucleus/util/utils_test.cc:298-320 | properly placed unless paired, aligned, with a mate position on another contig; stated case by case by PlacementIgnoresFlag |
| ReadFilter.ReadSatisfiesRequirements | nucleus/util/utils_test.cc:349-437 | the read filter; its behaviour is stated by UnalignedPassesIffKept, DefaultRequirementsCharacterised, EachFlagRejectsUnlessKept, ImproperPlacementRejectsUnlessKept, MappingQualityThreshold and RelaxingRequirementsKeepsReads |
| ReadFilter.UnalignedPassesIffKept | nucleus/util/utils_test.cc:431-436 | an unaligned read passes iff keep_unaligned is set, whatever the other requirements, the minimum mapping quality included |
| ReadFilter.PlacementIgnoresFlag | nucleus/util/utils_test.cc:298-320 | unpaired, unaligned and mate-less reads are properly placed; otherwise placement holds iff the mate is on the read's contig; the `proper_placement` flag never changes it |
| ReadFilter.EmptyReadNeedsAlignment | nucleus/util/utils_test.cc:349-354 | the empty read fails the default requirements, and passes once it has an alignment at chr1:1 |
| ReadFilter.DefaultRequirementsCharacterised | nucleus/util/utils_test.cc:349-437 | under default requirements an unaligned read fails, and an aligned read passes iff it has none of the four flags, is properly placed and has mapping quality at least 0 |
| ReadFilter.EachFlagRejectsUnlessKept | nucleus/util/utils_test.cc:360-386 | setting the duplicate, vendor-failed, secondary or supplementary flag rejects a passing read unless the matching keep requirement is set, which lets it through again |
| ReadFilter.ImproperPlacementRejectsUnlessKept | nucleus/util/utils_test.cc:388-408 | for an aligned read that passes with its mate position cleared (every check but placement passes), the read passes iff it is properly placed or keep_improperly_placed is set, so that flag both admits a read whose mate is on another contig and, when unset, rejects it |
| ReadFilter.MappingQualityThreshold | nucleus/util/utils_test.cc:410-431 | with all other checks passing, a read passes iff its mapping quality reaches the minimum (inclusive) |
| ReadFilter.RelaxingRequirementsKeepsReads | nucleus/util/utils_test.cc:388-437 | setting more keep flags or lowering the minimum quality never rejects a read that passed, e.g. keep_improperly_placed and keep_unaligned |
| Quoting.Unquote | nucleus/util/utils_test.cc:439-464 | the result is shorter iff the input has two or more characters whose two ends are the same quote character, and then the input is that quote, the result, that quote; otherwise the input is returned unchanged |
| Quoting.UnquoteOfQuoted | nucleus/util/utils_test.cc:440-442 | one pair of double or single quotes around any text is removed, giving the text |
| Quoting.UnquoteLeavesOneSided | nucleus/util/utils_test.cc:444-448 | a quote on one side only is left in place |
| Quoting.UnquoteLeavesMismatched | nucleus/util/utils_test.cc:450-452 | quotes of different kinds at the ends are left in place |
| Quoting.UnquoteOfQuotesOnly | nucleus/util/utils_test.cc:454-463 | "", a lone quote, two quotes and three quotes give "", the quote, "", and one quote |
| VariantOrder.MapContigNameToPosInFasta | nucleus/util/utils_test.cc:466-473 | the built map has exactly the contigs' names as keys, maps each name to its rank (unless a later contig reuses the name), and has one entry per contig when names are distinct |
| VariantOrder.RankMapLookup | nucleus/util/utils_test.cc:466-473 | a contig's name maps to its rank unless a later contig reuses the name |
| VariantOrder.RankMapExample | nucleus/util/utils_test.cc:466-473 | chr1 at 1 and chr10 at 1000 give a two-entry map with those ranks |
| VariantOrder.CompareVariants | nucleus/util/utils_test.cc:475-523 | strict order: lower contig rank first across contigs, smaller start first on one contig, ends ignored; stated by CompareVariantsIsKeyOrder |
| VariantOrder.CompareVariantsIsKeyOrder | nucleus/util/utils_test.cc:475-523 | with distinct ranks, a variant comes before another iff (contig rank, start) is lexicographically smaller, and neither comes first iff the keys are equal (the ends are ignored) |
| VariantOrder.CompareVariantsIsStrictWeakOrder | nucleus/util/utils_test.cc:475-523 | with distinct ranks the order is irreflexive and transitive, and incomparability is transitive |
| VariantOrder.SharedRankBreaksWeakOrder | nucleus/util/utils_test.cc:508-523 | two contigs sharing a rank make incomparability intransitive |
| VariantOrder.CompareVariantsExamples | nucleus/util/utils_test.cc:475-523 | xyz:1 is before xyz:3; a variant is not before itself or before one with the same start; abc:100 is before xyz:1 when abc ranks lower |
| InfoValues.Encode | nucleus/util/utils_test.cc:525-544 | the encoded Value has exactly the slot of the scalar's type set |
| InfoValues.Decode | nucleus/util/utils_test.cc:525-544 | reading the set slot yields a scalar of that type whose encoding is the Value |
| InfoValues.DecodeEncode | nucleus/util/utils_test.cc:525-544 | decoding an encoded scalar gives it back |
| InfoValues.ValueCell.SetValuesValue | nucleus/util/utils_test.cc:525-544 | the cell's Value becomes the scalar's encoding and reading that slot gives the scalar back |
| InfoValues.ListValues | nucleus/util/utils_test.cc:546-610 | decoding a list of the requested type gives one scalar of that type per element |
| InfoValues.ListValuesRoundTrip | nucleus/util/utils_test.cc:546-586 | listing the values of an encoded list gives back the same scalars in the same order |
| InfoValues.EncodeAllListValues | nucleus/util/utils_test.cc:546-586 | re-encoding a decoded list gives the list back |
| InfoValues.InfoRecord.SetInfoField | nucleus/util/utils_test.cc:546-565 | the info map gets the encoded list under the key, replacing any old entry and leaving all other keys untouched; listing it as the scalars' type gives the scalars back |
| InfoValues.InfoRecord.SetInfoFieldScalar | nucleus/util/utils_test.cc:567-594 | a single scalar is stored as a one-element list that lists back as that scalar |
| InfoValues.InfoUpdatesCompose | nucleus/util/utils_test.cc:596-610 | after storing under two keys, each distinct key lists back its own scalars, and storing a key again replaces its list |

## Left out

- The implementation file `nucleus/util/utils.h` is not part of this model.
  Neither are the protocol-buffer runtime or the test helpers `MakeRead`,
  `CreateContigInfos`, `MakeVariantAt` and `ReadWithLocation`. Records are
  datatypes, and a CIGAR is a sequence of (operation, length) units. The
  `"8M"` string form is not parsed.
- The test harness (`EXPECT_*`, proto equality, element matchers) and the
  logging line at `nucleus/util/utils_test.cc:592` are not modelled.
- Bases.AreCanonicalBases: the process abort on empty input
  (`nucleus/util/utils_test.cc:90-92`) is the precondition `|bases| > 0`.
  The optional out-pointer for the offending index is an input
  (`priorPosition`) that is returned unchanged on success.
- Alignment.ConsumesReference: the tests show only M, D, I, S and H. The
  consuming status of N, = and X comes from the "consumes reference"
  column of the CIGAR operation table in section 1.4 of the SAMv1 format
  specification. P is taken as non-consuming from the same table.
- Coordinates.ComparePositions: only the sign of the result is specified.
  The tests fix nothing more, and the function returns -1, 0 or 1.
- Coordinates.IntervalStrRoundTrip: the round trip is stated for
  non-negative coordinates only. A negative coordinate would print a '-'
  that the parser cannot tell apart from the separator.
- The interval string for coordinates beyond 32 bits
  (`nucleus/util/utils_test.cc:171-174`) is not reproduced as a literal.
  Integers are unbounded, so `IntervalStrRoundTrip` covers those values too.
  The literal rendering of a 15-digit number is too expensive for the
  verifier to evaluate.
- Machine-integer widths (int, int64) and overflow are not modelled.
- InfoValues.Number: floating-point values (`number_value`) are opaque
  64-bit patterns with no arithmetic and no float/double conversion.
  Precision of `1.01`, `2.02` and `3.12` is therefore not modelled.
- InfoValues.ListValues: asking for a type other than the stored one is a
  precondition. C++ template dispatch for unsupported types is a
  compile-time matter and is not modelled.
- VariantOrder.CompareVariants: a contig missing from the map, when the
  contigs differ, is a precondition. Duplicate contig names in the map
  builder follow "last write wins", which the tests do not exercise.

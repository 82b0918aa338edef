/** The genome-wide order of variants: contigs ranked by their position in
    the reference FASTA, then variants on one contig by start. */
module VariantOrder {
  import opened Records

  /** The name-to-rank map that assigning each contig's rank in turn builds:
      a later contig of the same name overwrites an earlier one. */
  function RankMap(contigs: seq<ContigInfo>): (m: map<string, int>)
    ensures forall name :: name in m <==> exists i :: 0 <= i < |contigs| && contigs[i].name == name
    decreases |contigs|
  {
    if |contigs| == 0 then map[]
    else
      var last := contigs[|contigs| - 1];
      var prefix := contigs[..|contigs| - 1];
      assert forall i :: 0 <= i < |prefix| ==> prefix[i] == contigs[i];
      RankMap(prefix)[last.name := last.pos_in_fasta]
  }

  /** Each contig's name maps to its rank, unless a later contig reuses
      the name. */
  lemma {:induction false} RankMapLookup(contigs: seq<ContigInfo>, i: nat)
    requires i < |contigs|
    requires forall j :: i < j < |contigs| ==> contigs[j].name != contigs[i].name
    ensures contigs[i].name in RankMap(contigs)
    ensures RankMap(contigs)[contigs[i].name] == contigs[i].pos_in_fasta
    decreases |contigs|
  {
    if i < |contigs| - 1 {
      var prefix := contigs[..|contigs| - 1];
      assert forall j :: i < j < |prefix| ==> prefix[j] == contigs[j];
      RankMapLookup(prefix, i);
    }
  }

  predicate DistinctNames(contigs: seq<ContigInfo>)
  {
    forall i, j :: 0 <= i < j < |contigs| ==> contigs[i].name != contigs[j].name
  }

  /** With distinct names there is one entry per contig. */
  lemma {:induction false} RankMapSize(contigs: seq<ContigInfo>)
    requires DistinctNames(contigs)
    ensures |RankMap(contigs)| == |contigs|
    decreases |contigs|
  {
    if |contigs| > 0 {
      var prefix := contigs[..|contigs| - 1];
      var last := contigs[|contigs| - 1];
      assert DistinctNames(prefix) by {
        assert forall i :: 0 <= i < |prefix| ==> prefix[i] == contigs[i];
      }
      RankMapSize(prefix);
      assert last.name !in RankMap(prefix);
    }
  }

  /** Builds the name-to-rank map of the reference's contigs, one entry
      at a time. */
  method MapContigNameToPosInFasta(contigs: seq<ContigInfo>) returns (m: map<string, int>)
    ensures m == RankMap(contigs)
    ensures forall name :: name in m <==> exists i :: 0 <= i < |contigs| && contigs[i].name == name
    ensures forall i :: 0 <= i < |contigs| && (forall j :: i < j < |contigs| ==> contigs[j].name != contigs[i].name) ==>
      m[contigs[i].name] == contigs[i].pos_in_fasta
    ensures DistinctNames(contigs) ==> |m| == |contigs|
  {
    m := map[];
    var k := 0;
    while k < |contigs|
      invariant 0 <= k <= |contigs|
      invariant m == RankMap(contigs[..k])
    {
      assert contigs[..k + 1][..k] == contigs[..k];
      m := m[contigs[k].name := contigs[k].pos_in_fasta];
      k := k + 1;
    }
    assert contigs[..k] == contigs;
    forall i | 0 <= i < |contigs| && (forall j :: i < j < |contigs| ==> contigs[j].name != contigs[i].name)
      ensures m[contigs[i].name] == contigs[i].pos_in_fasta
    {
      RankMapLookup(contigs, i);
    }
    if DistinctNames(contigs) {
      RankMapSize(contigs);
    }
  }

  /** `lhs` comes strictly before `rhs`: on different contigs the contig of
      smaller rank comes first, whatever the coordinates; on the same contig
      the smaller start comes first, and the end is never looked at. A
      contig missing from the map, when the contigs differ, is a caller
      error. */
  predicate CompareVariants(lhs: Variant, rhs: Variant, order: map<string, int>)
    requires lhs.reference_name != rhs.reference_name ==>
      lhs.reference_name in order && rhs.reference_name in order
  {
    if lhs.reference_name != rhs.reference_name then
      order[lhs.reference_name] < order[rhs.reference_name]
    else lhs.start < rhs.start
  }

  /** No two contigs share a rank, as when ranks are positions in a file. */
  predicate InjectiveRanks(order: map<string, int>)
  {
    forall x, y :: x in order && y in order && x != y ==> order[x] != order[y]
  }

  /** The sort key of a variant: the rank of its contig, then its start. */
  function SortKey(v: Variant, order: map<string, int>): (int, int)
    requires v.reference_name in order
  {
    (order[v.reference_name], v.start)
  }

  predicate KeyLess(a: (int, int), b: (int, int))
  {
    a.0 < b.0 || (a.0 == b.0 && a.1 < b.1)
  }

  /** With distinct ranks, CompareVariants is exactly the lexicographic
      order on (contig rank, start), and two variants compare as equal
      (neither before the other) exactly when those keys agree. */
  lemma CompareVariantsIsKeyOrder(lhs: Variant, rhs: Variant, order: map<string, int>)
    requires lhs.reference_name in order && rhs.reference_name in order
    requires InjectiveRanks(order)
    ensures CompareVariants(lhs, rhs, order) <==> KeyLess(SortKey(lhs, order), SortKey(rhs, order))
    ensures !CompareVariants(lhs, rhs, order) && !CompareVariants(rhs, lhs, order) <==>
      SortKey(lhs, order) == SortKey(rhs, order)
  {
  }

  /** With distinct ranks, CompareVariants is a strict weak order, the
      contract a sort relies on: irreflexive, transitive, and with
      transitive incomparability. */
  lemma CompareVariantsIsStrictWeakOrder(a: Variant, b: Variant, c: Variant, order: map<string, int>)
    requires a.reference_name in order && b.reference_name in order && c.reference_name in order
    requires InjectiveRanks(order)
    ensures !CompareVariants(a, a, order)
    ensures CompareVariants(a, b, order) && CompareVariants(b, c, order) ==> CompareVariants(a, c, order)
    ensures !CompareVariants(a, b, order) && !CompareVariants(b, a, order)
            && !CompareVariants(b, c, order) && !CompareVariants(c, b, order) ==>
            !CompareVariants(a, c, order) && !CompareVariants(c, a, order)
  {
    CompareVariantsIsKeyOrder(a, b, order);
    CompareVariantsIsKeyOrder(b, c, order);
    CompareVariantsIsKeyOrder(a, c, order);
    CompareVariantsIsKeyOrder(c, a, order);
  }

  /** Without distinct ranks the order is not a strict weak order: two
      contigs sharing a rank make incomparability intransitive. */
  lemma SharedRankBreaksWeakOrder()
    ensures var order := map["x" := 1, "y" := 1];
      var a, b, c := Variant("x", 1, 2), Variant("y", 5, 6), Variant("x", 3, 4);
      !CompareVariants(a, b, order) && !CompareVariants(b, a, order)
      && !CompareVariants(b, c, order) && !CompareVariants(c, b, order)
      && CompareVariants(a, c, order)
  {
  }

  /** The contigs chr1 at rank 1 and chr10 at rank 1000 give a two-entry map
      holding those ranks. */
  lemma RankMapExample()
    ensures var m := RankMap([ContigInfo("chr1", 1), ContigInfo("chr10", 1000)]);
      |m| == 2 && m["chr1"] == 1 && m["chr10"] == 1000
  {
    var contigs := [ContigInfo("chr1", 1), ContigInfo("chr10", 1000)];
    assert contigs[..1] == [ContigInfo("chr1", 1)];
    assert "chr1" != "chr10" by {
      assert |"chr1"| != |"chr10"|;
    }
  }

  /** On one contig a smaller start comes first and a variant is not before
      itself nor before one with the same start; across contigs the lower
      rank comes first whatever the starts. */
  lemma CompareVariantsExamples()
    ensures var order := map["xyz" := 1];
      CompareVariants(Variant("xyz", 1, 2), Variant("xyz", 3, 4), order)
      && !CompareVariants(Variant("xyz", 1, 2), Variant("xyz", 1, 2), order)
      && !CompareVariants(Variant("xyz", 1, 10), Variant("xyz", 1, 2), order)
    ensures var order := map["abc" := 1, "xyz" := 1000];
      CompareVariants(Variant("abc", 100, 101), Variant("xyz", 1, 11), order)
  {
    assert "abc" != "xyz" by {
      assert "abc"[0] != "xyz"[0];
    }
  }
}

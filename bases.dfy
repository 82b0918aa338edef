/** Classification of nucleotide bases as canonical. */
module Bases {

  /** Which upper-case letters count as canonical: A, C, G, T, and in the
      second mode also N. */
  datatype CanonicalBases = ACGT | ACGTN

  /** The letters a mode accepts, written out. */
  function CanonicalLetters(canon: CanonicalBases): string
  {
    match canon
    case ACGT => "ACGT"
    case ACGTN => "ACGTN"
  }

  /** `c` is one of the mode's canonical letters. */
  predicate IsCanonicalBase(c: char, canon: CanonicalBases)
    ensures IsCanonicalBase(c, canon) <==> c in CanonicalLetters(canon)
  {
    match canon
    case ACGT => c == 'A' || c == 'C' || c == 'G' || c == 'T'
    case ACGTN => c == 'A' || c == 'C' || c == 'G' || c == 'T' || c == 'N'
  }

  /** A base canonical in either mode is an upper-case letter: no lower-case
      letter, 'n' included, is ever canonical. */
  lemma CanonicalBasesAreUpperCase(c: char, canon: CanonicalBases)
    requires IsCanonicalBase(c, canon)
    ensures 'A' <= c <= 'Z'
  {
  }

  /** The two modes differ in exactly one letter, the upper-case N; every
      other character (the IUPAC code R among them) is classified alike. */
  lemma ModesDifferOnlyAtN(c: char)
    ensures IsCanonicalBase(c, ACGT) ==> IsCanonicalBase(c, ACGTN)
    ensures IsCanonicalBase(c, ACGTN) && !IsCanonicalBase(c, ACGT) <==> c == 'N'
    ensures !IsCanonicalBase('R', ACGT) && !IsCanonicalBase('R', ACGTN)
  {
  }

  /** Scans `bases` from the left and answers whether every character is
      canonical. On failure the index of the first offending character is
      written to `problematicPosition`; on success that variable keeps the
      value `priorPosition` it had. The mode defaults to ACGT. An empty
      sequence is a caller error. */
  method AreCanonicalBases(bases: string, canon: CanonicalBases := ACGT, priorPosition: nat := 0)
    returns (ok: bool, problematicPosition: nat)
    requires |bases| > 0
    ensures ok <==> forall i :: 0 <= i < |bases| ==> IsCanonicalBase(bases[i], canon)
    ensures ok ==> problematicPosition == priorPosition
    ensures !ok ==> problematicPosition < |bases| && !IsCanonicalBase(bases[problematicPosition], canon)
    ensures !ok ==> forall i :: 0 <= i < problematicPosition ==> IsCanonicalBase(bases[i], canon)
  {
    problematicPosition := priorPosition;
    var i := 0;
    while i < |bases|
      invariant 0 <= i <= |bases|
      invariant forall j :: 0 <= j < i ==> IsCanonicalBase(bases[j], canon)
    {
      if !IsCanonicalBase(bases[i], canon) {
        ok, problematicPosition := false, i;
        return;
      }
      i := i + 1;
    }
    ok := true;
  }

  /** The default mode rejects an upper-case N that ACGTN accepts, and an
      'R' placed at index 4 of "ACGTACGTACGT" is reported at index 4. */
  method CanonicalBasesExamples() returns (defaultAcceptsN: bool, acgtnAcceptsN: bool, badPosition: nat)
    ensures !defaultAcceptsN && acgtnAcceptsN && badPosition == 4
  {
    var unusedPosition;
    defaultAcceptsN, unusedPosition := AreCanonicalBases("ANC");
    assert !IsCanonicalBase("ANC"[1], ACGT);
    acgtnAcceptsN, unusedPosition := AreCanonicalBases("ANC", ACGTN);
    var ok;
    ok, badPosition := AreCanonicalBases("ACGTRCGTACGT", ACGT);
    assert !IsCanonicalBase("ACGTRCGTACGT"[4], ACGT);
  }
}

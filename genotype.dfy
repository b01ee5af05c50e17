/** Reading a VCF genotype call ("0/1", "1|1", "./.", …) the way the
    haplotype matcher does: split on "|" when the call is phased, on "/"
    otherwise, and look at the allele tokens. */
module Genotype {
  import opened Text

  /** "|" for a phased call, "/" otherwise. */
  function Separator(gt: string): char {
    if '|' in gt then '|' else '/'
  }

  /** The allele tokens of a call (`genotype.split(sep)`). */
  function Tokens(gt: string): (ts: seq<string>)
    ensures |ts| >= 1
  {
    Split(gt, Separator(gt))
  }

  /** A token other than the reference "0" and the no-call ".". */
  predicate IsAltToken(a: string) {
    a != "0" && a != "."
  }

  /** `_genotype_has_alt`: the call carries some non-reference allele. The
      two ALT arguments are accepted and not consulted. */
  predicate GenotypeHasAlt(gt: string, vcfAlt: string, expectedAlt: string) {
    if gt == "" || gt == "." then false
    else exists a :: a in Tokens(gt) && IsAltToken(a)
  }

  /** `_is_homozygous_gt`: exactly two equal tokens, the first not "0". */
  predicate IsHomozygousGt(gt: string) {
    if gt == "" || gt == "." then false
    else
      var ts := Tokens(gt);
      |ts| == 2 && ts[0] == ts[1] && ts[0] != "0"
  }

  /** An allele written without either separator. */
  predicate PlainAllele(a: string) {
    '/' !in a && '|' !in a
  }

  /** A call written as two or more plain alleles joined by "/" or "|" reads
      back as exactly those alleles. */
  lemma {:induction false} TokensOfCall(alleles: seq<string>, sep: char)
    requires |alleles| >= 2 && (sep == '/' || sep == '|')
    requires forall a :: a in alleles ==> PlainAllele(a)
    ensures Tokens(Join(alleles, sep)) == alleles
  {
    var gt := Join(alleles, sep);
    SeparatorInJoin(alleles, sep);
    if sep == '/' {
      CharInJoin(alleles, sep, '|');
    }
    assert Separator(gt) == sep;
    SplitJoin(alleles, sep);
  }

  /** A written call has an alternate allele exactly when one of its alleles
      is neither "0" nor ".", whatever the ALT columns say. */
  lemma HasAltIffAltAllele(alleles: seq<string>, sep: char, vcfAlt: string, expectedAlt: string)
    requires |alleles| >= 2 && (sep == '/' || sep == '|')
    requires forall a :: a in alleles ==> PlainAllele(a)
    ensures GenotypeHasAlt(Join(alleles, sep), vcfAlt, expectedAlt)
            <==> exists a :: a in alleles && IsAltToken(a)
  {
    TokensOfCall(alleles, sep);
    SeparatorInJoin(alleles, sep);
  }

  /** A written call is homozygous exactly when it has two equal alleles and
      the first is not "0" (so "./." counts). */
  lemma HomozygousIffTwoEqual(alleles: seq<string>, sep: char)
    requires |alleles| >= 2 && (sep == '/' || sep == '|')
    requires forall a :: a in alleles ==> PlainAllele(a)
    ensures IsHomozygousGt(Join(alleles, sep))
            <==> |alleles| == 2 && alleles[0] == alleles[1] && alleles[0] != "0"
  {
    TokensOfCall(alleles, sep);
    SeparatorInJoin(alleles, sep);
  }

  /** A homozygous call whose allele is not the no-call carries the
      alternate allele. */
  lemma HomozygousCarriesAlt(gt: string, vcfAlt: string, expectedAlt: string)
    requires IsHomozygousGt(gt) && Tokens(gt)[0] != "."
    ensures GenotypeHasAlt(gt, vcfAlt, expectedAlt)
  {
    assert Tokens(gt)[0] in Tokens(gt);
  }

  /** "1/1" and "2/2" are homozygous calls. */
  lemma UnphasedHomozygousExamples()
    ensures IsHomozygousGt("1/1") && IsHomozygousGt("2/2")
  {
    HomozygousIffTwoEqual(["1", "1"], '/');
    assert Join(["1", "1"], '/') == "1/1";
    HomozygousIffTwoEqual(["2", "2"], '/');
    assert Join(["2", "2"], '/') == "2/2";
  }

  /** The phased call "1|1" is homozygous. */
  lemma PhasedHomozygousExample()
    ensures IsHomozygousGt("1|1")
  {
    HomozygousIffTwoEqual(["1", "1"], '|');
    assert Join(["1", "1"], '|') == "1|1";
  }

  /** "0/1" carries the alternate allele without being homozygous. */
  lemma HeterozygousExample()
    ensures GenotypeHasAlt("0/1", "", "") && !IsHomozygousGt("0/1")
  {
    HomozygousIffTwoEqual(["0", "1"], '/');
    HasAltIffAltAllele(["0", "1"], '/', "", "");
    assert "1" in ["0", "1"];
    assert Join(["0", "1"], '/') == "0/1";
  }

  /** "0/0" and the bare no-call "." are neither homozygous nor carriers. */
  lemma ReferenceExamples()
    ensures !GenotypeHasAlt("0/0", "", "") && !IsHomozygousGt("0/0")
    ensures !GenotypeHasAlt(".", "", "") && !IsHomozygousGt(".")
  {
    HomozygousIffTwoEqual(["0", "0"], '/');
    HasAltIffAltAllele(["0", "0"], '/', "", "");
    assert Join(["0", "0"], '/') == "0/0";
  }

  /** The no-call "./." passes the homozygosity test as written, while it
      carries no alternate allele. */
  lemma NoCallCountsAsHomozygous()
    ensures IsHomozygousGt("./.") && !GenotypeHasAlt("./.", "", "")
  {
    HomozygousIffTwoEqual([".", "."], '/');
    HasAltIffAltAllele([".", "."], '/', "", "");
    assert Join([".", "."], '/') == "./.";
  }
}

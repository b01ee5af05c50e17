/** The haplotype matcher: for each gene of the star-allele catalog, score
    every star allele against the patient's genotype calls, rank the scored
    alleles, choose the two alleles of the diplotype, write its "A/B" label,
    add up the activity scores and read the phenotype off the gene's score
    windows.

    The catalog is a parameter (the JSON file it is loaded from is not part
    of the model). Its dictionaries are lists of (key, value) pairs in file
    order; a lookup takes the last pair with the key, as a dictionary built
    by assignment does. */
module HaplotypeMatcher {
  import opened Common
  import opened Text
  import opened Genotype
  import opened AlleleRanking
  import VcfParser

  /** A normalised variant as the VCF parser produces it. */
  type Variant = VcfParser.ParsedVariant

  // ---------------------------------------------------------------------
  // Catalog and results

  /** One defining variant of a star allele; a missing key reads as "". */
  datatype DefiningVariant = DefiningVariant(rsid: string, alt: string)

  /** A star allele's definition; `activityScore` and `name` are None when
      the catalog omits them. */
  datatype AlleleDef = AlleleDef(
    defining: seq<DefiningVariant>,
    activityScore: Option<real>,
    name: Option<string>)

  /** The definition read for an allele name the catalog lacks (`{}`). */
  const NoAlleleDef := AlleleDef([], None, None)

  /** The text of the IndexError raised by indexing an empty list. */
  const IndexError := "list index out of range"

  /** A phenotype's activity-score window; both bounds are inclusive. */
  datatype Window = Window(minScore: real, maxScore: real, labelText: Option<string>)

  /** A gene's catalog entry: its star alleles and its phenotype windows, in
      file order. */
  datatype GeneDef = GeneDef(
    alleles: seq<(string, AlleleDef)>,
    phenotypeMap: seq<(string, Window)>)

  datatype DiplotypeResult = DiplotypeResult(
    gene: string,
    allele1: AlleleCall,
    allele2: AlleleCall,
    diplotype: string,
    activityScoreTotal: real,
    phenotype: string,
    phenotypeLabel: string,
    matchedRsids: seq<string>)

  /** `geneResults` lists the genes in the order they were analysed. */
  datatype HaplotypeResult = HaplotypeResult(
    geneResults: seq<(string, DiplotypeResult)>,
    genesAnalysed: nat,
    errors: seq<string>)

  // ---------------------------------------------------------------------
  // Patient index

  /** The variants keyed by rsID, in input order. */
  function Keyed(variants: seq<Variant>): seq<(string, Variant)> {
    seq(|variants|, i requires 0 <= i < |variants| => (variants[i].rsid, variants[i]))
  }

  /** `patient_variants.get(rsid)`: variants without an rsID are not
      indexed, and a later variant with the same rsID replaces an earlier
      one. */
  function PatientVariant(variants: seq<Variant>, rsid: string): Option<Variant> {
    if rsid == "" then None else LookupLast(Keyed(variants), rsid)
  }

  /** The index answers an rsID with the last variant carrying it, and has
      nothing for the empty rsID. */
  lemma PatientVariantIsLast(variants: seq<Variant>, rsid: string, v: Variant)
    ensures PatientVariant(variants, rsid) == Some(v) <==>
              rsid != "" && exists i :: 0 <= i < |variants| && variants[i] == v && v.rsid == rsid
                                        && forall j :: i < j < |variants| ==> variants[j].rsid != rsid
  {
    var keyed := Keyed(variants);
    if rsid != "" {
      if exists i :: 0 <= i < |variants| && variants[i] == v && v.rsid == rsid
                     && forall j :: i < j < |variants| ==> variants[j].rsid != rsid {
        var i :| 0 <= i < |variants| && variants[i] == v && v.rsid == rsid
                 && forall j :: i < j < |variants| ==> variants[j].rsid != rsid;
        assert keyed[i] == (rsid, v);
        LookupLastAt(keyed, i);
      }
      if PatientVariant(variants, rsid) == Some(v) {
        var i :| 0 <= i < |keyed| && keyed[i] == (rsid, v)
                 && forall j :: i < j < |keyed| ==> keyed[j].0 != rsid;
        assert variants[i] == v;
        forall j | i < j < |variants| ensures variants[j].rsid != rsid {
          assert keyed[j].0 == variants[j].rsid;
        }
      }
    }
  }

  /** Building `patient_variants` (lines 153-158). */
  method IndexPatientVariants(variants: seq<Variant>) returns (index: map<string, Variant>)
    ensures forall rsid :: PatientVariant(variants, rsid)
                           == (if rsid in index then Some(index[rsid]) else None)
  {
    index := map[];
    for i := 0 to |variants|
      invariant forall rsid :: PatientVariant(variants[..i], rsid)
                               == (if rsid in index then Some(index[rsid]) else None)
    {
      var v := variants[i];
      var before := index;
      assert Keyed(variants[..i + 1]) == Keyed(variants[..i]) + [(v.rsid, v)];
      if v.rsid != "" {
        index := index[v.rsid := v];
      }
      forall rsid
        ensures PatientVariant(variants[..i + 1], rsid)
                == (if rsid in index then Some(index[rsid]) else None)
      {
        LookupLastSnoc(Keyed(variants[..i]), v.rsid, v, rsid);
      }
    }
    assert variants[..|variants|] == variants;
  }

  // ---------------------------------------------------------------------
  // Scoring

  /** The patient carries the ALT allele of a defining variant: the rsID is
      indexed and its genotype has an alternate allele. */
  predicate Carries(variants: seq<Variant>, dv: DefiningVariant) {
    var pv := PatientVariant(variants, dv.rsid);
    pv.Some? && GenotypeHasAlt(pv.value.genotype, pv.value.alt, dv.alt)
  }

  /** How many of the defining variants the patient carries. */
  function MatchCount(variants: seq<Variant>, defining: seq<DefiningVariant>): (m: nat)
    ensures m <= |defining|
  {
    if defining == [] then 0
    else
      var n := |defining| - 1;
      MatchCount(variants, defining[..n]) + (if Carries(variants, defining[n]) then 1 else 0)
  }

  /** The rsIDs of the carried defining variants, in order, repeats kept. */
  function HitRsids(variants: seq<Variant>, defining: seq<DefiningVariant>): seq<string> {
    if defining == [] then []
    else
      var n := |defining| - 1;
      HitRsids(variants, defining[..n]) + (if Carries(variants, defining[n]) then [defining[n].rsid] else [])
  }

  /** The call for one catalog allele: an allele without defining variants is
      a wild-type call (activity 1.0 by default); any other allele is
      called only when some defining variant is carried (activity 0.0 by
      default). */
  function ScoreAllele(variants: seq<Variant>, name: string, info: AlleleDef): Option<AlleleCall> {
    if info.defining == [] then
      Some(AlleleCall(name, info.activityScore.GetOr(1.0), info.name.GetOr(""), 0, 0))
    else
      var m := MatchCount(variants, info.defining);
      if m > 0 then
        Some(AlleleCall(name, info.activityScore.GetOr(0.0), info.name.GetOr(""), m, |info.defining|))
      else None
  }

  /** `allele_scores` before sorting: the calls in catalog order. */
  function Scores(variants: seq<Variant>, alleles: seq<(string, AlleleDef)>): seq<AlleleCall> {
    if alleles == [] then []
    else
      var n := |alleles| - 1;
      Scores(variants, alleles[..n])
        + (match ScoreAllele(variants, alleles[n].0, alleles[n].1)
           case Some(c) => [c]
           case None => [])
  }

  /** Every carried defining variant's rsID, allele by allele. */
  function AllHits(variants: seq<Variant>, alleles: seq<(string, AlleleDef)>): seq<string> {
    if alleles == [] then []
    else
      var n := |alleles| - 1;
      AllHits(variants, alleles[..n]) + HitRsids(variants, alleles[n].1.defining)
  }

  /** `matched_rsids`: each carried rsID once, in the order first matched. */
  function MatchedRsids(variants: seq<Variant>, alleles: seq<(string, AlleleDef)>): seq<string> {
    Dedup(AllHits(variants, alleles))
  }

  /** Scoring one allele's defining variants (lines 180-196), extending the
      running `matched_rsids`. */
  method CountMatches(variants: seq<Variant>, index: map<string, Variant>,
                      defining: seq<DefiningVariant>, hits: seq<string>, matchedIn: seq<string>)
    returns (matched: nat, matchedOut: seq<string>)
    requires forall rsid :: PatientVariant(variants, rsid)
                            == (if rsid in index then Some(index[rsid]) else None)
    requires matchedIn == Dedup(hits)
    ensures matched == MatchCount(variants, defining)
    ensures matchedOut == Dedup(hits + HitRsids(variants, defining))
  {
    matched := 0;
    matchedOut := matchedIn;
    assert hits + HitRsids(variants, defining[..0]) == hits;
    for k := 0 to |defining|
      invariant matched == MatchCount(variants, defining[..k])
      invariant matchedOut == Dedup(hits + HitRsids(variants, defining[..k]))
    {
      var dv := defining[k];
      assert defining[..k + 1][..k] == defining[..k];
      var before := hits + HitRsids(variants, defining[..k]);
      if dv.rsid in index {
        var pv := index[dv.rsid];
        assert PatientVariant(variants, dv.rsid) == Some(pv);
        if GenotypeHasAlt(pv.genotype, pv.alt, dv.alt) {
          matched := matched + 1;
          DedupSnoc(before, dv.rsid);
          assert hits + HitRsids(variants, defining[..k + 1]) == before + [dv.rsid];
          if dv.rsid !in matchedOut {
            matchedOut := matchedOut + [dv.rsid];
          }
        } else {
          assert hits + HitRsids(variants, defining[..k + 1]) == before;
        }
      } else {
        assert PatientVariant(variants, dv.rsid) == None;
        assert hits + HitRsids(variants, defining[..k + 1]) == before;
      }
    }
    assert defining[..|defining|] == defining;
  }

  /** The scoring loop over the catalog's alleles (lines 160-208). */
  method ScoreAlleles(variants: seq<Variant>, index: map<string, Variant>, alleles: seq<(string, AlleleDef)>)
    returns (scores: seq<AlleleCall>, matchedRsids: seq<string>)
    requires forall rsid :: PatientVariant(variants, rsid)
                            == (if rsid in index then Some(index[rsid]) else None)
    ensures scores == Scores(variants, alleles)
    ensures matchedRsids == MatchedRsids(variants, alleles)
  {
    scores := [];
    matchedRsids := [];
    for i := 0 to |alleles|
      invariant scores == Scores(variants, alleles[..i])
      invariant matchedRsids == Dedup(AllHits(variants, alleles[..i]))
    {
      var (name, info) := alleles[i];
      assert alleles[..i + 1][..i] == alleles[..i];
      assert AllHits(variants, alleles[..i + 1])
             == AllHits(variants, alleles[..i]) + HitRsids(variants, info.defining);
      if info.defining == [] {
        scores := scores + [AlleleCall(name, info.activityScore.GetOr(1.0), info.name.GetOr(""), 0, 0)];
        assert AllHits(variants, alleles[..i]) + HitRsids(variants, info.defining)
               == AllHits(variants, alleles[..i]);
      } else {
        var matched;
        matched, matchedRsids := CountMatches(variants, index, info.defining,
                                              AllHits(variants, alleles[..i]), matchedRsids);
        if matched > 0 {
          scores := scores + [AlleleCall(name, info.activityScore.GetOr(0.0), info.name.GetOr(""),
                                         matched, |info.defining|)];
        }
      }
    }
    assert alleles[..|alleles|] == alleles;
  }

  /** The scores are well formed: wild-type calls match nothing, and every
      variant call matches between one and all of its defining variants. */
  lemma {:induction false} ScoresWellFormed(variants: seq<Variant>, alleles: seq<(string, AlleleDef)>)
    ensures WellScored(Scores(variants, alleles))
    ensures forall c :: c in Scores(variants, alleles) ==> c.matchedVariants <= c.totalDefining
  {
    if alleles != [] {
      var n := |alleles| - 1;
      ScoresWellFormed(variants, alleles[..n]);
    }
  }

  /** The wild-type calls of a catalog, in catalog order; they do not
      depend on the patient. */
  function WildCalls(alleles: seq<(string, AlleleDef)>): seq<AlleleCall> {
    if alleles == [] then []
    else
      var n := |alleles| - 1;
      var (name, info) := alleles[n];
      WildCalls(alleles[..n])
        + (if info.defining == [] then [AlleleCall(name, info.activityScore.GetOr(1.0), info.name.GetOr(""), 0, 0)]
           else [])
  }

  /** Scoring keeps exactly the catalog's wild-type calls. */
  lemma {:induction false} WildsOfScores(variants: seq<Variant>, alleles: seq<(string, AlleleDef)>)
    ensures Wilds(Scores(variants, alleles)) == WildCalls(alleles)
  {
    if alleles != [] {
      var n := |alleles| - 1;
      WildsOfScores(variants, alleles[..n]);
      var last := match ScoreAllele(variants, alleles[n].0, alleles[n].1)
                  case Some(c) => [c]
                  case None => [];
      WildsAppend(Scores(variants, alleles[..n]), last);
      if last != [] {
        assert Wilds(last) == (if IsWild(last[0]) then [last[0]] else []) + Wilds(last[1..]);
      }
    }
  }

  // ---------------------------------------------------------------------
  // Choosing the diplotype

  /** Splitting the ranked calls (lines 219-228): the first wild-type call,
      and the variant calls in ranked order. */
  method SeparateWildType(ranked: seq<AlleleCall>) returns (wild: Option<AlleleCall>, variantAlleles: seq<AlleleCall>)
    ensures wild == if Wilds(ranked) == [] then None else Some(Wilds(ranked)[0])
    ensures variantAlleles == Variants(ranked)
  {
    wild := None;
    variantAlleles := [];
    for i := 0 to |ranked|
      invariant wild == if Wilds(ranked[..i]) == [] then None else Some(Wilds(ranked[..i])[0])
      invariant variantAlleles == Variants(ranked[..i])
    {
      var call := ranked[i];
      assert ranked[..i + 1] == ranked[..i] + [call];
      WildsAppend(ranked[..i], [call]);
      VariantsAppend(ranked[..i], [call]);
      assert [call][1..] == [];
      if call.totalDefining == 0 {
        if wild.None? {
          wild := Some(call);
        }
      } else {
        variantAlleles := variantAlleles + [call];
      }
    }
    assert ranked[..|ranked|] == ranked;
  }

  /** The wild-type used when the catalog has no empty-definition allele
      (lines 231-240): "*1" if the catalog names it, else its first allele;
      an empty catalog raises IndexError. */
  function DefaultWildType(alleles: seq<(string, AlleleDef)>): Result<AlleleCall> {
    if alleles == [] then Err(IndexError)
    else
      var name := if HasKey(alleles, "*1") then "*1" else alleles[0].0;
      var info := LookupLast(alleles, name).GetOr(NoAlleleDef);
      Ok(AlleleCall(name, info.activityScore.GetOr(1.0), info.name.GetOr("Normal function"), 0, 0))
  }

  /** `_is_homozygous_for_allele`: the allele has defining variants, and
      every one of them is indexed (here the empty rsID is indexed too) with
      a homozygous genotype. */
  predicate HomozygousFor(call: AlleleCall, variants: seq<Variant>, alleles: seq<(string, AlleleDef)>) {
    var defining := LookupLast(alleles, call.alleleName).GetOr(NoAlleleDef).defining;
    && defining != []
    && forall k :: 0 <= k < |defining| ==>
         LookupLast(Keyed(variants), defining[k].rsid).Some?
         && IsHomozygousGt(LookupLast(Keyed(variants), defining[k].rsid).value.genotype)
  }

  /** The three-branch pair policy (lines 242-260). */
  function ChoosePair(wild: AlleleCall, variantAlleles: seq<AlleleCall>, variants: seq<Variant>,
                      alleles: seq<(string, AlleleDef)>): (AlleleCall, AlleleCall) {
    if variantAlleles == [] then (wild, wild)
    else if |variantAlleles| == 1 then
      if HomozygousFor(variantAlleles[0], variants, alleles) then (variantAlleles[0], variantAlleles[0])
      else (wild, variantAlleles[0])
    else (variantAlleles[0], variantAlleles[1])
  }

  // ---------------------------------------------------------------------
  // Phenotype

  predicate InWindow(score: real, w: Window) {
    w.minScore <= score <= w.maxScore
  }

  /** Window `i` is the first one holding `score`. */
  predicate FirstWindow(score: real, windows: seq<(string, Window)>, i: int) {
    && 0 <= i < |windows| && InWindow(score, windows[i].1)
    && forall j :: 0 <= j < i ==> !InWindow(score, windows[j].1)
  }

  /** Python's `str(float)` for the short decimals activity scores are made
      of: sign, integer part, ".", fractional digits ("0" when there are
      none). */
  function ScoreText(x: real): string {
    var a := if x < 0.0 then -x else x;
    var whole := a.Floor;
    (if x < 0.0 then "-" else "") + NatToString(whole) + "."
      + (if a == whole as real then "0" else FractionDigits(a - whole as real, 17))
  }

  function FractionDigits(f: real, fuel: nat): string
    requires 0.0 <= f < 1.0
    decreases fuel
  {
    if f == 0.0 || fuel == 0 then ""
    else
      var d := (f * 10.0).Floor;
      [DigitChar(d)] + FractionDigits(f * 10.0 - d as real, fuel - 1)
  }

  /** The label when no window holds the score. */
  function UnknownLabel(score: real): string {
    "Activity score " + ScoreText(score) + " \U{2014} no matching phenotype"
  }

  /** `_score_to_phenotype`: the first window, in catalog order, holding the
      score gives the phenotype and its label (the phenotype again when the
      window has none); no window gives "Unknown". */
  function ScoreToPhenotype(score: real, windows: seq<(string, Window)>): (string, string) {
    if windows == [] then ("Unknown", UnknownLabel(score))
    else if InWindow(score, windows[0].1) then
      (windows[0].0, windows[0].1.labelText.GetOr(windows[0].0))
    else ScoreToPhenotype(score, windows[1..])
  }

  /** The first window holding the score names the phenotype. */
  lemma {:induction false} ScoreToPhenotypeFirst(score: real, windows: seq<(string, Window)>, i: nat)
    requires FirstWindow(score, windows, i)
    ensures ScoreToPhenotype(score, windows) == (windows[i].0, windows[i].1.labelText.GetOr(windows[i].0))
  {
    if i > 0 {
      assert !InWindow(score, windows[0].1);
      assert FirstWindow(score, windows[1..], i - 1);
      ScoreToPhenotypeFirst(score, windows[1..], i - 1);
    }
  }

  /** A score no window holds is "Unknown". */
  lemma {:induction false} ScoreToPhenotypeNone(score: real, windows: seq<(string, Window)>)
    requires forall i :: 0 <= i < |windows| ==> !InWindow(score, windows[i].1)
    ensures ScoreToPhenotype(score, windows) == ("Unknown", UnknownLabel(score))
  {
    if windows != [] {
      assert !InWindow(score, windows[0].1);
      ScoreToPhenotypeNone(score, windows[1..]);
    }
  }

  /** With windows that do not overlap, the phenotype is the window holding
      the score, wherever it is listed. */
  lemma ScoreToPhenotypeDisjoint(score: real, windows: seq<(string, Window)>, i: nat)
    requires i < |windows| && InWindow(score, windows[i].1)
    requires forall j, k :: 0 <= j < k < |windows| ==>
               windows[j].1.maxScore < windows[k].1.minScore || windows[k].1.maxScore < windows[j].1.minScore
    ensures ScoreToPhenotype(score, windows) == (windows[i].0, windows[i].1.labelText.GetOr(windows[i].0))
  {
    assert FirstWindow(score, windows, i);
    ScoreToPhenotypeFirst(score, windows, i);
  }

  // ---------------------------------------------------------------------
  // One gene

  /** The wild-type of a gene (lines 219-240): the first wild-type call in
      rank order, else the catalog default. */
  function WildTypeOf(ranked: seq<AlleleCall>, alleles: seq<(string, AlleleDef)>): Result<AlleleCall> {
    var found := Wilds(ranked);
    if found != [] then Ok(found[0]) else DefaultWildType(alleles)
  }

  /** The record written for a chosen pair (lines 262-281). */
  function Assemble(gene: string, allele1: AlleleCall, allele2: AlleleCall, diplotype: string,
                    windows: seq<(string, Window)>, matchedRsids: seq<string>): DiplotypeResult {
    var total := allele1.activityScore + allele2.activityScore;
    var phenotype := ScoreToPhenotype(total, windows);
    DiplotypeResult(gene, allele1, allele2, diplotype, total, phenotype.0, phenotype.1, matchedRsids)
  }

  /** `_assign_diplotype`, as a value: an error text where the source
      raises. */
  function Diplotype(gene: string, def: GeneDef, variants: seq<Variant>): Result<DiplotypeResult> {
    var ranked := RankSort(Scores(variants, def.alleles));
    match WildTypeOf(ranked, def.alleles)
    case Err(e) => Err(e)
    case Ok(wild) =>
      var pair := ChoosePair(wild, Variants(ranked), variants, def.alleles);
      Ok(Assemble(gene, pair.0, pair.1, DiplotypeLabel(pair.0.alleleName, pair.1.alleleName),
                  def.phenotypeMap, MatchedRsids(variants, def.alleles)))
  }

  /** `_assign_diplotype` (lines 133-281). */
  method AssignDiplotype(gene: string, def: GeneDef, variants: seq<Variant>) returns (r: Result<DiplotypeResult>)
    ensures r == Diplotype(gene, def, variants)
  {
    var index := IndexPatientVariants(variants);
    var scores, matchedRsids := ScoreAlleles(variants, index, def.alleles);
    var ranked := RankSort(scores);
    var wild, variantAlleles := SeparateWildType(ranked);
    var wildtype := ChooseWildType(wild, def.alleles);
    assert wildtype == WildTypeOf(ranked, def.alleles);
    if wildtype.Err? {
      return Err(wildtype.error);
    }
    var allele1, allele2 := ChooseAlleles(wildtype.value, variantAlleles, variants, def.alleles);
    var diplotype := WriteDiplotype(allele1.alleleName, allele2.alleleName);
    var res := AssembleResult(gene, allele1, allele2, diplotype, def.phenotypeMap, matchedRsids);
    r := Ok(res);
  }

  /** The wild-type once the ranked calls are separated (lines 229-240). */
  method ChooseWildType(wild: Option<AlleleCall>, alleles: seq<(string, AlleleDef)>) returns (r: Result<AlleleCall>)
    ensures wild.Some? ==> r == Ok(wild.value)
    ensures wild.None? ==> r == DefaultWildType(alleles)
  {
    if wild.Some? {
      return Ok(wild.value);
    }
    if alleles == [] {
      return Err(IndexError);
    }
    var name := if HasKey(alleles, "*1") then "*1" else alleles[0].0;
    var info := LookupLast(alleles, name).GetOr(NoAlleleDef);
    r := Ok(AlleleCall(name, info.activityScore.GetOr(1.0), info.name.GetOr("Normal function"), 0, 0));
  }

  /** The pair policy (lines 242-260). */
  method ChooseAlleles(wild: AlleleCall, variantAlleles: seq<AlleleCall>, variants: seq<Variant>,
                       alleles: seq<(string, AlleleDef)>) returns (allele1: AlleleCall, allele2: AlleleCall)
    ensures (allele1, allele2) == ChoosePair(wild, variantAlleles, variants, alleles)
  {
    if variantAlleles == [] {
      allele1, allele2 := wild, wild;
    } else if |variantAlleles| == 1 {
      var va := variantAlleles[0];
      if HomozygousFor(va, variants, alleles) {
        allele1, allele2 := va, va;
      } else {
        allele1, allele2 := wild, va;
      }
    } else {
      allele1, allele2 := variantAlleles[0], variantAlleles[1];
    }
  }

  /** The record for the chosen pair and its label (lines 266-281). */
  method AssembleResult(gene: string, allele1: AlleleCall, allele2: AlleleCall, diplotype: string,
                        windows: seq<(string, Window)>, matchedRsids: seq<string>) returns (r: DiplotypeResult)
    ensures r == Assemble(gene, allele1, allele2, diplotype, windows, matchedRsids)
  {
    var total := allele1.activityScore + allele2.activityScore;
    var phenotype := ScoreToPhenotype(total, windows);
    r := DiplotypeResult(gene, allele1, allele2, diplotype, total, phenotype.0, phenotype.1, matchedRsids);
  }

  /** The label (lines 262-264): the two names sorted by their keys, joined
      by "/". */
  method WriteDiplotype(name1: string, name2: string) returns (diplotype: string)
    ensures diplotype == DiplotypeLabel(name1, name2)
  {
    var num1, suffix1 := AlleleSortKey(name1);
    var num2, suffix2 := AlleleSortKey(name2);
    var names := if KeyLess((num2, suffix2), (num1, suffix1)) then [name2, name1] else [name1, name2];
    diplotype := names[0] + "/" + names[1];
  }

  /** A gene fails exactly when its catalog entry lists no allele: choosing
      the default wild-type then indexes an empty list. */
  lemma DiplotypeFailsOnlyWithoutAlleles(gene: string, def: GeneDef, variants: seq<Variant>)
    ensures Diplotype(gene, def, variants).Err? <==> def.alleles == []
    ensures def.alleles == [] ==> Diplotype(gene, def, variants) == Err(IndexError)
  {
    if def.alleles == [] {
      assert Scores(variants, def.alleles) == [];
    }
  }

  /** The diplotype in catalog terms: the wild-type is the first
      empty-definition allele in catalog order (else the default), and the
      candidates are the variant calls in rank order; each candidate matched
      between one and all of its defining variants. */
  lemma DiplotypeAlleles(gene: string, def: GeneDef, variants: seq<Variant>)
    requires Diplotype(gene, def, variants).Ok?
    ensures var d := Diplotype(gene, def, variants).value;
            var wild := if WildCalls(def.alleles) != [] then WildCalls(def.alleles)[0]
                        else DefaultWildType(def.alleles).value;
            var candidates := RankSort(Variants(Scores(variants, def.alleles)));
            && (d.allele1, d.allele2) == ChoosePair(wild, candidates, variants, def.alleles)
            && (forall c :: c in candidates ==> 0 < c.matchedVariants <= c.totalDefining)
            && Ranked(candidates)
  {
    var s := Scores(variants, def.alleles);
    ScoresWellFormed(variants, def.alleles);
    RankSortKeepsWildOrder(s);
    WildsOfScores(variants, def.alleles);
    var candidates := RankSort(Variants(s));
    SplitMembers(s);
    RankSortPermutes(Variants(s));
    forall c | c in candidates ensures 0 < c.matchedVariants <= c.totalDefining {
      assert c in multiset(Variants(s));
    }
    RankSortRanked(Variants(s));
  }

  /** The diplotype's totals: the activity score is the sum of the two
      alleles' scores, the label lists both names in key order, and the
      phenotype comes from that sum. */
  lemma DiplotypeTotals(gene: string, def: GeneDef, variants: seq<Variant>)
    requires Diplotype(gene, def, variants).Ok?
    ensures var d := Diplotype(gene, def, variants).value;
            && d.gene == gene
            && d.activityScoreTotal == d.allele1.activityScore + d.allele2.activityScore
            && d.diplotype == DiplotypeLabel(d.allele1.alleleName, d.allele2.alleleName)
            && (d.phenotype, d.phenotypeLabel) == ScoreToPhenotype(d.activityScoreTotal, def.phenotypeMap)
  {
    var ranked := RankSort(Scores(variants, def.alleles));
    var wild := WildTypeOf(ranked, def.alleles).value;
    var pair := ChoosePair(wild, Variants(ranked), variants, def.alleles);
    assert Diplotype(gene, def, variants).value
        == Assemble(gene, pair.0, pair.1, DiplotypeLabel(pair.0.alleleName, pair.1.alleleName),
                    def.phenotypeMap, MatchedRsids(variants, def.alleles));
  }

  /** `matchedRsids` lists every carried rsID once, in the order first
      matched. */
  lemma DiplotypeMatchedRsids(gene: string, def: GeneDef, variants: seq<Variant>)
    requires Diplotype(gene, def, variants).Ok?
    ensures var m := Diplotype(gene, def, variants).value.matchedRsids;
            var hits := AllHits(variants, def.alleles);
            && (forall x :: x in m <==> x in hits)
            && (forall i, j :: 0 <= i < j < |m| ==> m[i] != m[j])
            && (forall i, j :: 0 <= i < j < |m| ==> FirstAt(hits, m[i]) < FirstAt(hits, m[j]))
  {
    assert Diplotype(gene, def, variants).value.matchedRsids == Dedup(AllHits(variants, def.alleles));
    DedupSpec(AllHits(variants, def.alleles));
  }

  /** Nothing is carried without variants. */
  lemma {:induction false} NoMatchWithoutVariants(defining: seq<DefiningVariant>)
    ensures MatchCount([], defining) == 0 && HitRsids([], defining) == []
  {
    if defining != [] {
      NoMatchWithoutVariants(defining[..|defining| - 1]);
      assert Keyed([]) == [];
    }
  }

  lemma {:induction false} ScoresWithoutVariants(alleles: seq<(string, AlleleDef)>)
    ensures Scores([], alleles) == WildCalls(alleles)
    ensures AllHits([], alleles) == []
  {
    if alleles != [] {
      var n := |alleles| - 1;
      ScoresWithoutVariants(alleles[..n]);
      NoMatchWithoutVariants(alleles[n].1.defining);
    }
  }

  /** A gene without variants comes out homozygous wild-type, with no
      matched rsIDs. */
  lemma NoVariantsWildType(gene: string, def: GeneDef)
    requires def.alleles != []
    ensures Diplotype(gene, def, []).Ok?
    ensures var d := Diplotype(gene, def, []).value;
            d.allele1 == d.allele2 && IsWild(d.allele1) && d.matchedRsids == []
  {
    var s := Scores([], def.alleles);
    ScoresWithoutVariants(def.alleles);
    ScoresWellFormed([], def.alleles);
    RankSortKeepsWildOrder(s);
    WildsOfScores([], def.alleles);
    SplitMembers(s);
    assert Variants(s) == [] by {
      WildsOfAllWildCalls(def.alleles);
      WildsOfAllWild(s);
    }
    var found := Wilds(RankSort(s));
    if found != [] {
      SplitMembers(RankSort(s));
      assert found[0] in found;
    }
  }

  /** Without variants, and with no catalog allele free of defining
      variants, the patient is homozygous for the default wild-type: "*1"
      when the catalog names it, else the catalog's first allele, scored
      from its catalog entry (1.0 when the entry has no score). */
  lemma NoVariantsDefaultWildType(gene: string, def: GeneDef)
    requires def.alleles != []
    requires forall i :: 0 <= i < |def.alleles| ==> def.alleles[i].1.defining != []
    ensures Diplotype(gene, def, []).Ok?
    ensures var d := Diplotype(gene, def, []).value;
            var name := if HasKey(def.alleles, "*1") then "*1" else def.alleles[0].0;
            && d.allele1 == d.allele2
            && d.allele1.alleleName == name
            && d.allele1.activityScore == LookupLast(def.alleles, name).GetOr(NoAlleleDef).activityScore.GetOr(1.0)
            && d.allele1.matchedVariants == 0
            && d.diplotype == name + "/" + name
            && d.matchedRsids == []
  {
    ScoresWithoutVariants(def.alleles);
    NoWildCalls(def.alleles);
    assert Scores([], def.alleles) == [];
    assert RankSort([]) == [];
    assert Wilds([]) == [] && Variants([]) == [];
    var name := if HasKey(def.alleles, "*1") then "*1" else def.alleles[0].0;
    DiplotypeLabelOrdered(name, name);
  }

  /** A catalog whose every allele has defining variants has no wild-type
      call. */
  lemma {:induction false} NoWildCalls(alleles: seq<(string, AlleleDef)>)
    requires forall i :: 0 <= i < |alleles| ==> alleles[i].1.defining != []
    ensures WildCalls(alleles) == []
  {
    if alleles != [] {
      NoWildCalls(alleles[..|alleles| - 1]);
    }
  }

  lemma {:induction false} WildsOfAllWildCalls(alleles: seq<(string, AlleleDef)>)
    ensures forall c :: c in WildCalls(alleles) ==> IsWild(c)
  {
    if alleles != [] {
      WildsOfAllWildCalls(alleles[..|alleles| - 1]);
    }
  }

  // ---------------------------------------------------------------------
  // All genes

  /** Line 104: a variant is grouped when it has a gene and the gene is
      targeted (no target set means every gene). */
  predicate Grouped(target: Option<set<string>>, gene: string) {
    gene != "" && (target.None? || gene in target.value)
  }

  /** Line 109: a catalog gene is analysed unless a non-empty target set
      leaves it out. */
  predicate Analysed(target: Option<set<string>>, gene: string) {
    target.None? || target.value == {} || gene in target.value
  }

  /** The variants tagged with `gene`, in input order. */
  function OfGene(variants: seq<Variant>, gene: string): seq<Variant> {
    if variants == [] then []
    else
      var n := |variants| - 1;
      OfGene(variants[..n], gene) + (if variants[n].gene == gene then [variants[n]] else [])
  }

  /** `gene_variants.get(gene, [])` */
  function GeneVariants(variants: seq<Variant>, target: Option<set<string>>, gene: string): seq<Variant> {
    if Grouped(target, gene) then OfGene(variants, gene) else []
  }

  /** `match_haplotypes` as a value: the catalog genes analysed in order,
      each adding a result or an error. */
  function MatchAll(catalog: seq<(string, GeneDef)>, variants: seq<Variant>, target: Option<set<string>>): HaplotypeResult {
    if catalog == [] then HaplotypeResult([], 0, [])
    else
      var n := |catalog| - 1;
      var prev := MatchAll(catalog[..n], variants, target);
      var (gene, def) := catalog[n];
      if !Analysed(target, gene) then prev
      else
        match Diplotype(gene, def, GeneVariants(variants, target, gene))
        case Ok(d) => prev.(geneResults := prev.geneResults + [(gene, d)], genesAnalysed := prev.genesAnalysed + 1)
        case Err(e) => prev.(errors := prev.errors + [ErrorText(gene, e)])
  }

  /** Grouping the variants by gene (lines 100-105). */
  method GroupByGene(variants: seq<Variant>, target: Option<set<string>>) returns (groups: map<string, seq<Variant>>)
    ensures forall gene :: GeneVariants(variants, target, gene)
                           == (if gene in groups then groups[gene] else [])
  {
    groups := map[];
    for i := 0 to |variants|
      invariant forall gene :: GeneVariants(variants[..i], target, gene)
                               == (if gene in groups then groups[gene] else [])
    {
      var v := variants[i];
      assert variants[..i + 1][..i] == variants[..i];
      ghost var before := groups;
      if v.gene != "" && (target.None? || v.gene in target.value) {
        var group := if v.gene in groups then groups[v.gene] else [];
        groups := groups[v.gene := group + [v]];
      }
      forall gene
        ensures GeneVariants(variants[..i + 1], target, gene)
                == (if gene in groups then groups[gene] else [])
      {
        assert OfGene(variants[..i + 1], gene)
               == OfGene(variants[..i], gene) + (if v.gene == gene then [v] else []);
      }
    }
    assert variants[..|variants|] == variants;
  }

  /** `match_haplotypes` (lines 82-122). */
  method MatchHaplotypes(catalog: seq<(string, GeneDef)>, variants: seq<Variant>, target: Option<set<string>>)
    returns (result: HaplotypeResult)
    ensures result == MatchAll(catalog, variants, target)
  {
    var groups := GroupByGene(variants, target);
    var geneResults: seq<(string, DiplotypeResult)> := [];
    var genesAnalysed := 0;
    var errors: seq<string> := [];
    for i := 0 to |catalog|
      invariant HaplotypeResult(geneResults, genesAnalysed, errors) == MatchAll(catalog[..i], variants, target)
    {
      var (gene, def) := catalog[i];
      assert catalog[..i + 1][..i] == catalog[..i];
      if !(target.Some? && target.value != {} && gene !in target.value) {
        var gv := if gene in groups then groups[gene] else [];
        var d := AssignDiplotype(gene, def, gv);
        match d {
          case Ok(res) =>
            geneResults := geneResults + [(gene, res)];
            genesAnalysed := genesAnalysed + 1;
          case Err(e) =>
            errors := errors + [ErrorText(gene, e)];
        }
      }
    }
    assert catalog[..|catalog|] == catalog;
    result := HaplotypeResult(geneResults, genesAnalysed, errors);
  }

  /** `match_single_gene` (lines 125-128). */
  method MatchSingleGene(catalog: seq<(string, GeneDef)>, gene: string, variants: seq<Variant>)
    returns (r: Option<DiplotypeResult>)
    ensures r == LookupLast(MatchAll(catalog, variants, Some({gene})).geneResults, gene)
  {
    var hr := MatchHaplotypes(catalog, variants, Some({gene}));
    r := LookupLast(hr.geneResults, gene);
  }

  /** The catalog genes that pass the target filter, in order. */
  function AnalysedGenes(catalog: seq<(string, GeneDef)>, target: Option<set<string>>): seq<string> {
    if catalog == [] then []
    else
      var n := |catalog| - 1;
      AnalysedGenes(catalog[..n], target) + (if Analysed(target, catalog[n].0) then [catalog[n].0] else [])
  }

  /** The analysed genes whose catalog entry lists no allele. */
  function EmptyGenes(catalog: seq<(string, GeneDef)>, target: Option<set<string>>): seq<string> {
    if catalog == [] then []
    else
      var n := |catalog| - 1;
      EmptyGenes(catalog[..n], target)
        + (if Analysed(target, catalog[n].0) && catalog[n].1.alleles == [] then [catalog[n].0] else [])
  }

  /** An error line of the result: the gene, ": ", the exception text. */
  function ErrorText(gene: string, message: string): string {
    gene + ": " + message
  }

  /** The error line of each gene whose allele list is empty. */
  function ErrorTexts(genes: seq<string>): (r: seq<string>)
    ensures |r| == |genes|
    ensures forall i :: 0 <= i < |genes| ==> r[i] == ErrorText(genes[i], IndexError)
  {
    if genes == [] then []
    else
      var n := |genes| - 1;
      var r := ErrorTexts(genes[..n]) + [ErrorText(genes[n], IndexError)];
      assert forall i :: 0 <= i < n ==> genes[..n][i] == genes[i];
      r
  }

  /** `genesAnalysed` counts the results. */
  lemma {:induction false} MatchAllCountsResults(catalog: seq<(string, GeneDef)>, variants: seq<Variant>,
                                                 target: Option<set<string>>)
    ensures MatchAll(catalog, variants, target).genesAnalysed == |MatchAll(catalog, variants, target).geneResults|
  {
    if catalog != [] {
      MatchAllCountsResults(catalog[..|catalog| - 1], variants, target);
    }
  }

  /** Every analysed gene yields either a result or an error. */
  lemma {:induction false} MatchAllCoversAnalysed(catalog: seq<(string, GeneDef)>, variants: seq<Variant>,
                                                  target: Option<set<string>>)
    ensures var r := MatchAll(catalog, variants, target);
            |r.geneResults| + |r.errors| == |AnalysedGenes(catalog, target)|
  {
    if catalog != [] {
      MatchAllCoversAnalysed(catalog[..|catalog| - 1], variants, target);
    }
  }

  /** The errors are exactly the analysed genes with an empty allele list,
      in catalog order, each reported as "gene: message". */
  lemma {:induction false} MatchAllErrors(catalog: seq<(string, GeneDef)>, variants: seq<Variant>,
                                          target: Option<set<string>>)
    ensures MatchAll(catalog, variants, target).errors == ErrorTexts(EmptyGenes(catalog, target))
  {
    if catalog != [] {
      var n := |catalog| - 1;
      MatchAllErrors(catalog[..n], variants, target);
      var gene := catalog[n].0;
      var def := catalog[n].1;
      DiplotypeFailsOnlyWithoutAlleles(gene, def, GeneVariants(variants, target, gene));
      if Analysed(target, gene) && def.alleles == [] {
        assert EmptyGenes(catalog, target) == EmptyGenes(catalog[..n], target) + [gene];
      }
    }
  }

  /** Only catalog genes get results. */
  lemma {:induction false} MatchAllKeys(catalog: seq<(string, GeneDef)>, variants: seq<Variant>,
                                        target: Option<set<string>>, gene: string)
    requires HasKey(MatchAll(catalog, variants, target).geneResults, gene)
    ensures HasKey(catalog, gene)
  {
    var n := |catalog| - 1;
    var prev := MatchAll(catalog[..n], variants, target);
    if HasKey(prev.geneResults, gene) {
      MatchAllKeys(catalog[..n], variants, target, gene);
      var i :| 0 <= i < n && catalog[..n][i].0 == gene;
      assert catalog[i].0 == gene;
    } else {
      assert catalog[n].0 == gene;
    }
  }

  /** With distinct catalog genes, a gene's entry in the results is its
      diplotype when it is analysed and has alleles, and absent otherwise. */
  lemma {:induction false} MatchAllLookup(catalog: seq<(string, GeneDef)>, variants: seq<Variant>,
                                          target: Option<set<string>>, gene: string)
    requires DistinctKeys(catalog)
    ensures LookupLast(MatchAll(catalog, variants, target).geneResults, gene)
            == match LookupLast(catalog, gene)
               case None => None
               case Some(def) =>
                 if Analysed(target, gene) && def.alleles != []
                 then Some(Diplotype(gene, def, GeneVariants(variants, target, gene)).value)
                 else None
  {
    if catalog != [] {
      var n := |catalog| - 1;
      var prefix := catalog[..n];
      assert DistinctKeys(prefix) by {
        forall i, j | 0 <= i < j < n ensures prefix[i].0 != prefix[j].0 {
          assert prefix[i] == catalog[i] && prefix[j] == catalog[j];
        }
      }
      MatchAllLookup(prefix, variants, target, gene);
      var prev := MatchAll(prefix, variants, target);
      var g := catalog[n].0;
      var def := catalog[n].1;
      assert catalog == prefix + [catalog[n]];
      LookupLastSnoc(prefix, g, def, gene);
      if g == gene {
        forall i | 0 <= i < n ensures prefix[i].0 != gene {
          assert prefix[i] == catalog[i];
        }
      }
      if Analysed(target, g) {
        DiplotypeFailsOnlyWithoutAlleles(g, def, GeneVariants(variants, target, g));
        if def.alleles != [] {
          LookupLastSnoc(prev.geneResults, g, Diplotype(g, def, GeneVariants(variants, target, g)).value, gene);
        }
      }
    }
  }

  /** `match_single_gene` returns the gene's diplotype when the catalog has
      the gene with at least one allele, and None otherwise. */
  lemma MatchSingleGeneResult(catalog: seq<(string, GeneDef)>, gene: string, variants: seq<Variant>)
    requires DistinctKeys(catalog)
    ensures LookupLast(MatchAll(catalog, variants, Some({gene})).geneResults, gene)
            == match LookupLast(catalog, gene)
               case None => None
               case Some(def) =>
                 if def.alleles != []
                 then Some(Diplotype(gene, def, if gene == "" then [] else OfGene(variants, gene)).value)
                 else None
  {
    MatchAllLookup(catalog, variants, Some({gene}), gene);
  }

  /** An empty target set groups no variant but still analyses every
      catalog gene, so every gene is matched as if the patient had no
      variants. */
  lemma {:induction false} EmptyTargetIgnoresVariants(catalog: seq<(string, GeneDef)>, variants: seq<Variant>)
    ensures MatchAll(catalog, variants, Some({})) == MatchAll(catalog, [], None)
  {
    if catalog != [] {
      var n := |catalog| - 1;
      EmptyTargetIgnoresVariants(catalog[..n], variants);
      assert GeneVariants(variants, Some({}), catalog[n].0) == [];
      assert GeneVariants([], None, catalog[n].0) == [];
    }
  }

  // ---------------------------------------------------------------------
  // Worked example

  /** A heterozygous call at a site, as the parser would tag it for CYP2D6. */
  function HetCall(rsid: string): Variant {
    VcfParser.ParsedVariant("chr22", 42_130_000, rsid, "C", "T", "0/1", ".", 0, 0.0, "CYP2D6", true)
  }

  /** CYP2D6 with the wild type "*1" (score 1.0) and "*4" defined by two
      variants (score 0.0), and one phenotype window [0.5, 1.0]. */
  function ExampleGene(): GeneDef {
    GeneDef([("*1", AlleleDef([], Some(1.0), Some("Normal function"))),
             ("*4", AlleleDef([DefiningVariant("rsA", "T"), DefiningVariant("rsB", "T")], Some(0.0), Some("No function")))],
            [("IM", Window(0.5, 1.0, Some("Intermediate Metabolizer")))])
  }

  /** Both "*4" variants called "0/1": one variant allele, not homozygous,
      so the diplotype pairs the wild type with "*4" (label "*1", "/",
      "*4"), the total score is 1.0 and the phenotype is IM. */
  lemma HeterozygousCarrierExample()
    ensures var r := Diplotype("CYP2D6", ExampleGene(), [HetCall("rsA"), HetCall("rsB")]);
            && r.Ok?
            && r.value.diplotype == "*1/*4"
            && r.value.activityScoreTotal == 1.0
            && r.value.phenotype == "IM" && r.value.phenotypeLabel == "Intermediate Metabolizer"
            && r.value.matchedRsids == ["rsA", "rsB"]
  {
    var vs := [HetCall("rsA"), HetCall("rsB")];
    var def := ExampleGene();
    var wild, star4 := ExampleWild(), ExampleStar4();
    ExampleScores();
    ExampleRanking();
    var ranked := RankSort(Scores(vs, def.alleles));
    assert ranked == [star4, wild];
    assert Wilds(ranked) == [wild] && Variants(ranked) == [star4] by {
      assert ranked == [star4] + [wild] && [wild] == [wild] + [];
      WildsCons(star4, [wild]);
      WildsCons(wild, []);
      VariantsCons(star4, [wild]);
      VariantsCons(wild, []);
    }
    assert WildTypeOf(ranked, def.alleles) == Ok(wild);
    ExampleNotHomozygous();
    assert ChoosePair(wild, [star4], vs, def.alleles) == (wild, star4);
    ExampleLabel();
    assert ScoreToPhenotype(1.0, def.phenotypeMap) == ("IM", "Intermediate Metabolizer");
  }

  lemma ExampleScores()
    ensures var vs, alleles := [HetCall("rsA"), HetCall("rsB")], ExampleGene().alleles;
            && Scores(vs, alleles) == [ExampleWild(), ExampleStar4()]
            && MatchedRsids(vs, alleles) == ["rsA", "rsB"]
  {
    var vs := [HetCall("rsA"), HetCall("rsB")];
    var alleles := ExampleGene().alleles;
    ExampleMatches();
    assert alleles[..1] == [alleles[0]];
    assert ScoreAllele(vs, alleles[0].0, alleles[0].1) == Some(ExampleWild());
    assert ScoreAllele(vs, alleles[1].0, alleles[1].1) == Some(ExampleStar4());
    assert Scores(vs, alleles[..1]) == [ExampleWild()];
    assert AllHits(vs, alleles[..1]) == [];
    assert AllHits(vs, alleles) == ["rsA", "rsB"];
    assert ["rsA", "rsB"][..1] == ["rsA"];
    assert Dedup(["rsA"]) == ["rsA"];
  }

  lemma ExampleMatches()
    ensures var vs, defining := [HetCall("rsA"), HetCall("rsB")], ExampleGene().alleles[1].1.defining;
            MatchCount(vs, defining) == 2 && HitRsids(vs, defining) == ["rsA", "rsB"]
  {
    var vs := [HetCall("rsA"), HetCall("rsB")];
    var defining := ExampleGene().alleles[1].1.defining;
    ExampleCarries();
    assert defining[..1] == [defining[0]];
    assert MatchCount(vs, defining[..1]) == 1;
    assert HitRsids(vs, defining[..1]) == ["rsA"];
  }

  lemma ExampleCarries()
    ensures var vs, defining := [HetCall("rsA"), HetCall("rsB")], ExampleGene().alleles[1].1.defining;
            Carries(vs, defining[0]) && Carries(vs, defining[1])
  {
    var vs := [HetCall("rsA"), HetCall("rsB")];
    HeterozygousExample();
    assert Keyed(vs) == [("rsA", vs[0]), ("rsB", vs[1])];
    LookupLastAt(Keyed(vs), 0);
    LookupLastAt(Keyed(vs), 1);
  }

  function ExampleWild(): AlleleCall {
    AlleleCall("*1", 1.0, "Normal function", 0, 0)
  }

  function ExampleStar4(): AlleleCall {
    AlleleCall("*4", 0.0, "No function", 2, 2)
  }

  lemma ExampleRanking()
    ensures RankSort([ExampleWild(), ExampleStar4()]) == [ExampleStar4(), ExampleWild()]
  {
    var wild, star4 := ExampleWild(), ExampleStar4();
    assert Den(star4) == 2 && Den(wild) == 1;
    assert Frac(star4) == 2.0 / 2.0 == 1.0;
    assert Frac(wild) == 0.0 / 1.0 == 0.0;
    assert RankBefore(star4, wild);
    assert [wild, star4][1..] == [star4];
    assert RankSort([star4]) == [star4];
    assert Insert(wild, [star4]) == [star4] + Insert(wild, []);
  }

  lemma ExampleNotHomozygous()
    ensures !HomozygousFor(ExampleStar4(), [HetCall("rsA"), HetCall("rsB")], ExampleGene().alleles)
  {
    var vs := [HetCall("rsA"), HetCall("rsB")];
    var alleles := ExampleGene().alleles;
    HeterozygousExample();
    LookupLastAt(alleles, 1);
    var defining := alleles[1].1.defining;
    assert LookupLast(alleles, ExampleStar4().alleleName).GetOr(NoAlleleDef).defining == defining;
    assert Keyed(vs) == [("rsA", vs[0]), ("rsB", vs[1])];
    LookupLastAt(Keyed(vs), 0);
    assert defining[0].rsid == "rsA";
    assert LookupLast(Keyed(vs), defining[0].rsid) == Some(vs[0]);
    assert !IsHomozygousGt(vs[0].genotype);
  }

  lemma ExampleLabel()
    ensures DiplotypeLabel("*1", "*4") == "*1/*4"
  {
    ExampleSortKey(1);
    ExampleSortKey(4);
    assert !KeyLess(SortKeyOf("*4"), SortKeyOf("*1"));
  }

  /** The sort key of a one-digit star name. */
  lemma ExampleSortKey(d: nat)
    requires d < 10
    ensures SortKeyOf("*" + [DigitChar(d)]) == (d, "")
  {
    assert NatToString(d) == [DigitChar(d)];
    assert Stars(1) == "*";
    SortKeyOfStarName(1, d, "");
    assert Stars(1) + NatToString(d) + "" == "*" + [DigitChar(d)];
  }
}

/** The clinical decision engine: a (gene, phenotype, drug) triple is looked
    up, case-insensitively, in a table of CPIC guidelines; each drug of a
    request is checked against the genes relevant to it, and a drug with no
    guideline gets one fallback record and one warning. The guideline table
    is a parameter (the source loads it from JSON or SQLite into a cache). */
module ClinicalEngine {
  import opened Common
  import opened Text

  /** A row of the guideline table. `severity` and `source` may be absent. */
  datatype Guideline = Guideline(gene: string, phenotype: string, drug: string, riskLabel: string,
                                 severity: Option<string>, recommendation: string, source: Option<string>)

  /** `ClinicalRecommendation` */
  datatype Recommendation = Recommendation(gene: string, phenotype: string, drug: string, riskLabel: string,
                                           severity: string, recommendation: string, confidence: real,
                                           source: string, found: bool)

  /** `ClinicalResult` */
  datatype ClinicalResult = ClinicalResult(recommendations: seq<Recommendation>, drugsAssessed: nat,
                                           warnings: seq<string>)

  type Key = (string, string, string)

  /** The cache key of a triple: all three parts uppercased. */
  function KeyOf(gene: string, phenotype: string, drug: string): Key {
    (Upper(gene), Upper(phenotype), Upper(drug))
  }

  function RowKey(row: Guideline): Key {
    KeyOf(row.gene, row.phenotype, row.drug)
  }

  /** `_CACHE.get(key)` for the cache built by assigning every row under its
      key in table order: the last row with that key. */
  function FindRow(table: seq<Guideline>, key: Key): Option<Guideline> {
    if table == [] then None
    else
      var n := |table| - 1;
      if RowKey(table[n]) == key then Some(table[n]) else FindRow(table[..n], key)
  }

  // ---------------------------------------------------------------------
  // One triple

  /** `SEVERITY_CONFIDENCE.get(severity, 0.75)` */
  function SeverityConfidence(severity: string): real {
    if severity == "critical" then 0.95
    else if severity == "high" then 0.90
    else if severity == "moderate" then 0.80
    else if severity == "low" then 0.70
    else 0.75
  }

  function MissText(gene: string, phenotype: string, drug: string): string {
    "No CPIC guideline found for " + drug + " with " + gene + " " + phenotype + ". "
      + "Standard dosing may be appropriate \U{2014} consult clinical pharmacist."
  }

  /** The recommendation read from a guideline row, under the caller's names. */
  function FromRow(gene: string, phenotype: string, drug: string, row: Guideline): Recommendation {
    var severity := row.severity.GetOr("moderate");
    Recommendation(gene, phenotype, drug, row.riskLabel, severity, row.recommendation,
                   SeverityConfidence(severity), row.source.GetOr("CPIC"), true)
  }

  /** The default returned when no guideline matches. */
  function Miss(gene: string, phenotype: string, drug: string): Recommendation {
    Recommendation(gene, phenotype, drug, "Unknown", "low", MissText(gene, phenotype, drug), 0.3, "none", false)
  }

  /** `assess_risk` */
  function AssessRisk(table: seq<Guideline>, gene: string, phenotype: string, drug: string): Recommendation {
    match FindRow(table, KeyOf(gene, phenotype, drug))
    case Some(row) => FromRow(gene, phenotype, drug, row)
    case None => Miss(gene, phenotype, drug)
  }

  /** Some row has the triple's uppercased key. */
  predicate Listed(table: seq<Guideline>, key: Key) {
    exists i :: 0 <= i < |table| && RowKey(table[i]) == key
  }

  /** The cache finds a key exactly when some row has it. */
  lemma {:induction false} FindRowFound(table: seq<Guideline>, key: Key)
    ensures FindRow(table, key).Some? <==> Listed(table, key)
  {
    if table != [] {
      var n := |table| - 1;
      FindRowFound(table[..n], key);
      if Listed(table[..n], key) {
        var i :| 0 <= i < n && RowKey(table[..n][i]) == key;
        assert RowKey(table[i]) == key;
      }
      if Listed(table, key) && RowKey(table[n]) != key {
        var i :| 0 <= i < |table| && RowKey(table[i]) == key;
        assert RowKey(table[..n][i]) == key;
      }
    }
  }

  /** The cache holds, under a key, the last row that has it. */
  lemma {:induction false} FindRowLast(table: seq<Guideline>, i: nat)
    requires i < |table|
    requires forall j :: i < j < |table| ==> RowKey(table[j]) != RowKey(table[i])
    ensures FindRow(table, RowKey(table[i])) == Some(table[i])
  {
    var n := |table| - 1;
    if i < n {
      assert table[..n][i] == table[i];
      FindRowLast(table[..n], i);
    }
  }

  /** A guideline is found exactly when some row matches the uppercased
      triple; a miss is the "Unknown", low, 0.3, "none" default. */
  lemma AssessRiskFound(table: seq<Guideline>, gene: string, phenotype: string, drug: string)
    ensures AssessRisk(table, gene, phenotype, drug).found <==> Listed(table, KeyOf(gene, phenotype, drug))
    ensures !Listed(table, KeyOf(gene, phenotype, drug)) ==>
              AssessRisk(table, gene, phenotype, drug) == Miss(gene, phenotype, drug)
  {
    FindRowFound(table, KeyOf(gene, phenotype, drug));
  }

  /** On a hit, the last matching row of the table decides: its risk label,
      text, severity (default "moderate"), source (default "CPIC") and the
      confidence of that severity; the names are the caller's. */
  lemma AssessRiskLastRow(table: seq<Guideline>, gene: string, phenotype: string, drug: string, i: nat)
    requires i < |table| && RowKey(table[i]) == KeyOf(gene, phenotype, drug)
    requires forall j :: i < j < |table| ==> RowKey(table[j]) != RowKey(table[i])
    ensures var r := AssessRisk(table, gene, phenotype, drug);
            && r.found
            && r.gene == gene && r.phenotype == phenotype && r.drug == drug
            && r.riskLabel == table[i].riskLabel && r.recommendation == table[i].recommendation
            && r.severity == table[i].severity.GetOr("moderate")
            && r.confidence == SeverityConfidence(r.severity)
            && r.source == table[i].source.GetOr("CPIC")
  {
    FindRowLast(table, i);
  }

  /** Lookup ignores case: triples that agree once uppercased find the same
      guideline, and a found recommendation differs only in the names. */
  lemma AssessRiskCaseInsensitive(table: seq<Guideline>, gene: string, phenotype: string, drug: string,
                                  gene2: string, phenotype2: string, drug2: string)
    requires KeyOf(gene, phenotype, drug) == KeyOf(gene2, phenotype2, drug2)
    ensures AssessRisk(table, gene, phenotype, drug).found == AssessRisk(table, gene2, phenotype2, drug2).found
    ensures AssessRisk(table, gene, phenotype, drug).found ==>
              AssessRisk(table, gene, phenotype, drug).(gene := gene2, phenotype := phenotype2, drug := drug2)
              == AssessRisk(table, gene2, phenotype2, drug2)
  {
  }

  /** Every confidence lies between 0 and 1. */
  lemma SeverityConfidenceInRange(severity: string)
    ensures 0.0 < SeverityConfidence(severity) <= 1.0
    ensures SeverityConfidence(severity) >= 0.90 <==> severity == "critical" || severity == "high"
  {
  }

  // ---------------------------------------------------------------------
  // The drug to gene map

  /** `_get_drug_gene_map` */
  function DrugGeneMap(): seq<(string, seq<string>)> {
    [ ("CODEINE", ["CYP2D6"]), ("TRAMADOL", ["CYP2D6"]), ("ONDANSETRON", ["CYP2D6"]),
      ("TAMOXIFEN", ["CYP2D6"]), ("HYDROCODONE", ["CYP2D6"]), ("OXYCODONE", ["CYP2D6"]),
      ("ATOMOXETINE", ["CYP2D6"]), ("DEXTROMETHORPHAN", ["CYP2D6"]),
      ("CLOPIDOGREL", ["CYP2C19"]), ("OMEPRAZOLE", ["CYP2C19"]), ("PANTOPRAZOLE", ["CYP2C19"]),
      ("LANSOPRAZOLE", ["CYP2C19"]), ("ESOMEPRAZOLE", ["CYP2C19"]), ("VORICONAZOLE", ["CYP2C19"]),
      ("CITALOPRAM", ["CYP2C19"]), ("ESCITALOPRAM", ["CYP2C19"]), ("SERTRALINE", ["CYP2C19"]),
      ("WARFARIN", ["CYP2C9"]), ("PHENYTOIN", ["CYP2C9"]), ("CELECOXIB", ["CYP2C9"]),
      ("FLURBIPROFEN", ["CYP2C9"]),
      ("FLUOROURACIL", ["DPYD"]), ("5-FLUOROURACIL", ["DPYD"]), ("5-FU", ["DPYD"]),
      ("CAPECITABINE", ["DPYD"]), ("TEGAFUR", ["DPYD"]),
      ("AZATHIOPRINE", ["TPMT"]), ("MERCAPTOPURINE", ["TPMT"]), ("6-MERCAPTOPURINE", ["TPMT"]),
      ("THIOGUANINE", ["TPMT"]),
      ("TACROLIMUS", ["CYP3A5"]),
      ("SIMVASTATIN", ["SLCO1B1"]), ("ATORVASTATIN", ["SLCO1B1"]), ("LOVASTATIN", ["SLCO1B1"]),
      ("PRAVASTATIN", ["SLCO1B1"]), ("ROSUVASTATIN", ["SLCO1B1"]), ("FLUVASTATIN", ["SLCO1B1"]) ]
  }

  /** The map lists 37 drugs, each with exactly one gene. */
  lemma DrugGeneMapShape()
    ensures |DrugGeneMap()| == 37
    ensures forall i :: 0 <= i < |DrugGeneMap()| ==> |DrugGeneMap()[i].1| == 1
  {
  }

  // ---------------------------------------------------------------------
  // Many drugs

  /** The genes checked for a drug (lines 169-173): those the map lists under
      the uppercased drug, else every gene of the patient's profile. */
  function RelevantGenes(drugGenes: seq<(string, seq<string>)>, genePhenotypes: seq<(string, string)>,
                         drugUpper: string): seq<string> {
    var listed := LookupLast(drugGenes, drugUpper).GetOr([]);
    if listed != [] then listed else Dedup(Keys(genePhenotypes))
  }

  /** The found recommendations for one drug, in gene order (lines 176-184):
      genes with a missing or empty phenotype are skipped. */
  function FoundRecs(table: seq<Guideline>, genePhenotypes: seq<(string, string)>, genes: seq<string>,
                     drugUpper: string): seq<Recommendation> {
    if genes == [] then []
    else
      var n := |genes| - 1;
      FoundRecs(table, genePhenotypes, genes[..n], drugUpper) + FoundFor(table, genePhenotypes, genes[n], drugUpper)
  }

  /** The recommendation one gene contributes, if any. */
  function FoundFor(table: seq<Guideline>, genePhenotypes: seq<(string, string)>, gene: string,
                    drugUpper: string): seq<Recommendation> {
    var phenotype := LookupLast(genePhenotypes, gene).GetOr("");
    if phenotype == "" then []
    else
      var rec := AssessRisk(table, gene, phenotype, drugUpper);
      if rec.found then [rec] else []
  }

  function FallbackText(drugUpper: string): string {
    "No pharmacogenomic interaction found for " + drugUpper + " with "
      + "the patient's detected gene variants. Standard dosing is likely appropriate."
  }

  /** The record added for a drug with no guideline (lines 188-203). */
  function Fallback(drugUpper: string): Recommendation {
    Recommendation("N/A", "N/A", drugUpper, "Unknown", "low", FallbackText(drugUpper), 0.3, "none", false)
  }

  function NoGuidelineWarning(drugUpper: string): string {
    "No CPIC guideline for " + drugUpper + " with detected pharmacogenes."
  }

  /** What one drug adds: its found recommendations, or the fallback and a
      warning. */
  function AssessDrug(table: seq<Guideline>, drugGenes: seq<(string, seq<string>)>,
                      genePhenotypes: seq<(string, string)>, drug: string): (seq<Recommendation>, seq<string>) {
    var drugUpper := Upper(drug);
    var found := FoundRecs(table, genePhenotypes, RelevantGenes(drugGenes, genePhenotypes, drugUpper), drugUpper);
    if found == [] then ([Fallback(drugUpper)], [NoGuidelineWarning(drugUpper)]) else (found, [])
  }

  /** `assess_drugs` as a value, over a given drug to gene map. */
  function AssessAll(table: seq<Guideline>, drugGenes: seq<(string, seq<string>)>,
                     genePhenotypes: seq<(string, string)>, drugs: seq<string>): ClinicalResult {
    if drugs == [] then ClinicalResult([], 0, [])
    else
      var n := |drugs| - 1;
      var prev := AssessAll(table, drugGenes, genePhenotypes, drugs[..n]);
      var added := AssessDrug(table, drugGenes, genePhenotypes, drugs[n]);
      ClinicalResult(prev.recommendations + added.0, prev.drugsAssessed + 1, prev.warnings + added.1)
  }

  /** `assess_drugs` (lines 148-210). */
  method AssessDrugs(table: seq<Guideline>, genePhenotypes: seq<(string, string)>, drugs: seq<string>)
    returns (result: ClinicalResult)
    ensures result == AssessAll(table, DrugGeneMap(), genePhenotypes, drugs)
  {
    var drugGeneMap := DrugGeneMap();
    result := AssessDrugsWith(table, drugGeneMap, genePhenotypes, drugs);
  }

  /** The loop over the drugs (lines 162-210), given the drug to gene map. */
  method AssessDrugsWith(table: seq<Guideline>, drugGeneMap: seq<(string, seq<string>)>,
                         genePhenotypes: seq<(string, string)>, drugs: seq<string>)
    returns (result: ClinicalResult)
    ensures result == AssessAll(table, drugGeneMap, genePhenotypes, drugs)
  {
    var recommendations: seq<Recommendation> := [];
    var drugsAssessed := 0;
    var warnings: seq<string> := [];
    for i := 0 to |drugs|
      invariant ClinicalResult(recommendations, drugsAssessed, warnings)
                == AssessAll(table, drugGeneMap, genePhenotypes, drugs[..i])
    {
      assert drugs[..i + 1][..i] == drugs[..i];
      var recs, warns := AssessOneDrug(table, drugGeneMap, genePhenotypes, drugs[i]);
      recommendations := recommendations + recs;
      warnings := warnings + warns;
      drugsAssessed := drugsAssessed + 1;
    }
    assert drugs[..|drugs|] == drugs;
    result := ClinicalResult(recommendations, drugsAssessed, warnings);
  }

  /** The body of the drug loop (lines 168-206): what one drug adds. */
  method AssessOneDrug(table: seq<Guideline>, drugGeneMap: seq<(string, seq<string>)>,
                       genePhenotypes: seq<(string, string)>, drug: string)
    returns (recs: seq<Recommendation>, warns: seq<string>)
    ensures (recs, warns) == AssessDrug(table, drugGeneMap, genePhenotypes, drug)
  {
    var drugUpper := Upper(drug);
    var relevantGenes := LookupLast(drugGeneMap, drugUpper).GetOr([]);
    if relevantGenes == [] {
      relevantGenes := Dedup(Keys(genePhenotypes));
    }
    assert relevantGenes == RelevantGenes(drugGeneMap, genePhenotypes, drugUpper);
    var found := CollectFound(table, genePhenotypes, relevantGenes, drugUpper);
    if found == [] {
      recs, warns := [Fallback(drugUpper)], [NoGuidelineWarning(drugUpper)];
    } else {
      recs, warns := found, [];
    }
  }

  /** The inner loop over the relevant genes (lines 175-184). */
  method CollectFound(table: seq<Guideline>, genePhenotypes: seq<(string, string)>, genes: seq<string>,
                      drugUpper: string) returns (found: seq<Recommendation>)
    ensures found == FoundRecs(table, genePhenotypes, genes, drugUpper)
  {
    found := [];
    for j := 0 to |genes|
      invariant found == FoundRecs(table, genePhenotypes, genes[..j], drugUpper)
    {
      FoundRecsStep(table, genePhenotypes, genes, drugUpper, j);
      ghost var before := found;
      var phenotype := LookupLast(genePhenotypes, genes[j]).GetOr("");
      if phenotype != "" {
        var rec := AssessRisk(table, genes[j], phenotype, drugUpper);
        if rec.found {
          found := found + [rec];
        }
      }
      assert found == before + FoundFor(table, genePhenotypes, genes[j], drugUpper);
    }
    assert genes[..|genes|] == genes;
  }

  /** One more gene of the loop adds that gene's contribution. */
  lemma FoundRecsStep(table: seq<Guideline>, genePhenotypes: seq<(string, string)>, genes: seq<string>,
                      drugUpper: string, j: nat)
    requires j < |genes|
    ensures FoundRecs(table, genePhenotypes, genes[..j + 1], drugUpper)
            == FoundRecs(table, genePhenotypes, genes[..j], drugUpper)
               + FoundFor(table, genePhenotypes, genes[j], drugUpper)
  {
    assert genes[..j + 1][..j] == genes[..j];
  }

  /** Every found recommendation is a hit for one of the checked genes, with
      that gene's non-empty phenotype and the uppercased drug. */
  lemma {:induction false} FoundRecsSpec(table: seq<Guideline>, genePhenotypes: seq<(string, string)>,
                                         genes: seq<string>, drugUpper: string)
    ensures forall r :: r in FoundRecs(table, genePhenotypes, genes, drugUpper) ==>
              && r.found && r.drug == drugUpper && r.gene in genes && r.phenotype != ""
              && LookupLast(genePhenotypes, r.gene) == Some(r.phenotype)
              && r == AssessRisk(table, r.gene, r.phenotype, drugUpper)
  {
    if genes != [] {
      var n := |genes| - 1;
      FoundRecsSpec(table, genePhenotypes, genes[..n], drugUpper);
      forall r | r in FoundRecs(table, genePhenotypes, genes, drugUpper)
        ensures r.gene in genes
      {
        if r in FoundRecs(table, genePhenotypes, genes[..n], drugUpper) {
          assert r.gene in genes[..n];
        }
      }
    }
  }

  /** A gene with a non-empty phenotype whose triple has a guideline
      contributes a recommendation. */
  lemma {:induction false} FoundRecsComplete(table: seq<Guideline>, genePhenotypes: seq<(string, string)>,
                                             genes: seq<string>, drugUpper: string, k: nat)
    requires k < |genes|
    requires LookupLast(genePhenotypes, genes[k]).Some? && LookupLast(genePhenotypes, genes[k]).value != ""
    requires Listed(table, KeyOf(genes[k], LookupLast(genePhenotypes, genes[k]).value, drugUpper))
    ensures AssessRisk(table, genes[k], LookupLast(genePhenotypes, genes[k]).value, drugUpper)
            in FoundRecs(table, genePhenotypes, genes, drugUpper)
  {
    var n := |genes| - 1;
    var prev := FoundRecs(table, genePhenotypes, genes[..n], drugUpper);
    assert FoundRecs(table, genePhenotypes, genes, drugUpper)
           == prev + FoundFor(table, genePhenotypes, genes[n], drugUpper);
    if k < n {
      assert genes[..n][k] == genes[k];
      FoundRecsComplete(table, genePhenotypes, genes[..n], drugUpper, k);
    } else {
      FoundForHit(table, genePhenotypes, genes[n], drugUpper);
    }
  }

  /** A gene with a non-empty phenotype and a guideline contributes its
      recommendation. */
  lemma FoundForHit(table: seq<Guideline>, genePhenotypes: seq<(string, string)>, gene: string, drugUpper: string)
    requires LookupLast(genePhenotypes, gene).Some? && LookupLast(genePhenotypes, gene).value != ""
    requires Listed(table, KeyOf(gene, LookupLast(genePhenotypes, gene).value, drugUpper))
    ensures FoundFor(table, genePhenotypes, gene, drugUpper)
            == [AssessRisk(table, gene, LookupLast(genePhenotypes, gene).value, drugUpper)]
  {
    AssessRiskFound(table, gene, LookupLast(genePhenotypes, gene).value, drugUpper);
  }

  /** One drug adds at least one record, all under its uppercased name; it
      adds a warning, exactly one, when and only when nothing was found, and
      then its only record is the fallback. */
  lemma AssessDrugShape(table: seq<Guideline>, drugGenes: seq<(string, seq<string>)>,
                        genePhenotypes: seq<(string, string)>, drug: string)
    ensures var (recs, warns) := AssessDrug(table, drugGenes, genePhenotypes, drug);
            && |recs| >= 1 && |warns| <= 1
            && (forall r :: r in recs ==> r.drug == Upper(drug))
            && (warns != [] <==> exists r :: r in recs && !r.found)
            && (warns != [] ==> recs == [Fallback(Upper(drug))] && warns == [NoGuidelineWarning(Upper(drug))])
  {
    var drugUpper := Upper(drug);
    var found := FoundRecs(table, genePhenotypes, RelevantGenes(drugGenes, genePhenotypes, drugUpper), drugUpper);
    FoundRecsSpec(table, genePhenotypes, RelevantGenes(drugGenes, genePhenotypes, drugUpper), drugUpper);
    if found == [] {
      assert Fallback(drugUpper) in [Fallback(drugUpper)];
    } else {
      assert forall r :: r in found ==> r.found;
    }
  }

  /** The recommendations follow the order of the checked genes. */
  lemma {:induction false} FoundRecsAppend(table: seq<Guideline>, genePhenotypes: seq<(string, string)>,
                                           genes1: seq<string>, genes2: seq<string>, drugUpper: string)
    ensures FoundRecs(table, genePhenotypes, genes1 + genes2, drugUpper)
            == FoundRecs(table, genePhenotypes, genes1, drugUpper) + FoundRecs(table, genePhenotypes, genes2, drugUpper)
    decreases |genes2|
  {
    if genes2 == [] {
      assert genes1 + genes2 == genes1;
    } else {
      var n := |genes2| - 1;
      var all := genes1 + genes2;
      assert all[..|all| - 1] == genes1 + genes2[..n];
      assert all[|all| - 1] == genes2[n];
      var last := FoundFor(table, genePhenotypes, genes2[n], drugUpper);
      var f1 := FoundRecs(table, genePhenotypes, genes1, drugUpper);
      var f2 := FoundRecs(table, genePhenotypes, genes2[..n], drugUpper);
      assert FoundRecs(table, genePhenotypes, all, drugUpper)
             == FoundRecs(table, genePhenotypes, genes1 + genes2[..n], drugUpper) + last;
      assert FoundRecs(table, genePhenotypes, genes2, drugUpper) == f2 + last;
      FoundRecsAppend(table, genePhenotypes, genes1, genes2[..n], drugUpper);
      assert (f1 + f2) + last == f1 + (f2 + last);
    }
  }

  /** The result follows the order of the input drugs: assessing two lists
      one after the other is assessing their concatenation. */
  lemma {:induction false} AssessAllAppend(table: seq<Guideline>, drugGenes: seq<(string, seq<string>)>,
                                           genePhenotypes: seq<(string, string)>, drugs1: seq<string>,
                                           drugs2: seq<string>)
    ensures var r, r1, r2 := AssessAll(table, drugGenes, genePhenotypes, drugs1 + drugs2),
                            AssessAll(table, drugGenes, genePhenotypes, drugs1),
                            AssessAll(table, drugGenes, genePhenotypes, drugs2);
            && r.recommendations == r1.recommendations + r2.recommendations
            && r.drugsAssessed == r1.drugsAssessed + r2.drugsAssessed
            && r.warnings == r1.warnings + r2.warnings
    decreases |drugs2|
  {
    if drugs2 == [] {
      assert drugs1 + drugs2 == drugs1;
    } else {
      var n := |drugs2| - 1;
      var d, init := drugs2[n], drugs2[..n];
      var added := AssessDrug(table, drugGenes, genePhenotypes, d);
      var r1 := AssessAll(table, drugGenes, genePhenotypes, drugs1);
      var p2 := AssessAll(table, drugGenes, genePhenotypes, init);
      FrontLast(drugs2);
      AppendAssoc(drugs1, init, [d]);
      AssessAllSnoc(table, drugGenes, genePhenotypes, init, d);
      AssessAllSnoc(table, drugGenes, genePhenotypes, drugs1 + init, d);
      AssessAllAppend(table, drugGenes, genePhenotypes, drugs1, init);
      AppendAssoc(r1.recommendations, p2.recommendations, added.0);
      AppendAssoc(r1.warnings, p2.warnings, added.1);
    }
  }

  lemma AssessAllSnoc(table: seq<Guideline>, drugGenes: seq<(string, seq<string>)>,
                      genePhenotypes: seq<(string, string)>, drugs: seq<string>, d: string)
    ensures var r, added := AssessAll(table, drugGenes, genePhenotypes, drugs),
                            AssessDrug(table, drugGenes, genePhenotypes, d);
            AssessAll(table, drugGenes, genePhenotypes, drugs + [d])
            == ClinicalResult(r.recommendations + added.0, r.drugsAssessed + 1, r.warnings + added.1)
  {
    var all := drugs + [d];
    assert all[..|all| - 1] == drugs;
    assert all[|all| - 1] == d;
  }

  /** The drugs, uppercased, for which no guideline was found, in order. */
  function Unmatched(table: seq<Guideline>, drugGenes: seq<(string, seq<string>)>,
                     genePhenotypes: seq<(string, string)>, drugs: seq<string>): seq<string> {
    if drugs == [] then []
    else
      var n := |drugs| - 1;
      Unmatched(table, drugGenes, genePhenotypes, drugs[..n])
        + (if AssessDrug(table, drugGenes, genePhenotypes, drugs[n]).1 != [] then [Upper(drugs[n])] else [])
  }

  /** Every drug is counted, duplicates included; there are at least as many
      records as drugs; the warnings name exactly the unmatched drugs. */
  lemma {:induction false} AssessAllCounts(table: seq<Guideline>, drugGenes: seq<(string, seq<string>)>,
                                           genePhenotypes: seq<(string, string)>, drugs: seq<string>)
    ensures var r := AssessAll(table, drugGenes, genePhenotypes, drugs);
            && r.drugsAssessed == |drugs|
            && |r.recommendations| >= |drugs|
            && |r.warnings| == |Unmatched(table, drugGenes, genePhenotypes, drugs)|
            && forall k :: 0 <= k < |r.warnings| ==>
                 r.warnings[k] == NoGuidelineWarning(Unmatched(table, drugGenes, genePhenotypes, drugs)[k])
  {
    if drugs != [] {
      var n := |drugs| - 1;
      AssessAllCounts(table, drugGenes, genePhenotypes, drugs[..n]);
      AssessDrugShape(table, drugGenes, genePhenotypes, drugs[n]);
    }
  }

  /** The input drugs, uppercased. */
  function Uppers(drugs: seq<string>): seq<string> {
    if drugs == [] then [] else Uppers(drugs[..|drugs| - 1]) + [Upper(drugs[|drugs| - 1])]
  }

  /** Every record carries the uppercased name of an input drug. */
  lemma {:induction false} AssessAllDrugs(table: seq<Guideline>, drugGenes: seq<(string, seq<string>)>,
                                          genePhenotypes: seq<(string, string)>, drugs: seq<string>)
    ensures forall r :: r in AssessAll(table, drugGenes, genePhenotypes, drugs).recommendations ==>
              r.drug in Uppers(drugs)
  {
    if drugs != [] {
      var n := |drugs| - 1;
      AssessAllDrugs(table, drugGenes, genePhenotypes, drugs[..n]);
      AssessDrugShape(table, drugGenes, genePhenotypes, drugs[n]);
    }
  }

  /** Every confidence in the result lies between 0 and 1. */
  lemma {:induction false} AssessAllConfidence(table: seq<Guideline>, drugGenes: seq<(string, seq<string>)>,
                                               genePhenotypes: seq<(string, string)>, drugs: seq<string>)
    ensures forall r :: r in AssessAll(table, drugGenes, genePhenotypes, drugs).recommendations ==>
              0.0 <= r.confidence <= 1.0
  {
    if drugs != [] {
      var n := |drugs| - 1;
      AssessAllConfidence(table, drugGenes, genePhenotypes, drugs[..n]);
      AssessDrugConfidence(table, drugGenes, genePhenotypes, drugs[n]);
    }
  }

  lemma AssessDrugConfidence(table: seq<Guideline>, drugGenes: seq<(string, seq<string>)>,
                             genePhenotypes: seq<(string, string)>, drug: string)
    ensures forall r :: r in AssessDrug(table, drugGenes, genePhenotypes, drug).0 ==> 0.0 <= r.confidence <= 1.0
  {
    var drugUpper := Upper(drug);
    var found := FoundRecs(table, genePhenotypes, RelevantGenes(drugGenes, genePhenotypes, drugUpper), drugUpper);
    FoundRecsConfidence(table, genePhenotypes, RelevantGenes(drugGenes, genePhenotypes, drugUpper), drugUpper);
    assert AssessDrug(table, drugGenes, genePhenotypes, drug).0 == if found == [] then [Fallback(drugUpper)] else found;
  }

  lemma {:induction false} FoundRecsConfidence(table: seq<Guideline>, genePhenotypes: seq<(string, string)>,
                                               genes: seq<string>, drugUpper: string)
    ensures forall r :: r in FoundRecs(table, genePhenotypes, genes, drugUpper) ==> 0.0 <= r.confidence <= 1.0
  {
    if genes != [] {
      var n := |genes| - 1;
      FoundRecsConfidence(table, genePhenotypes, genes[..n], drugUpper);
      AssessRiskConfidence(table, genes[n], LookupLast(genePhenotypes, genes[n]).GetOr(""), drugUpper);
    }
  }

  lemma AssessRiskConfidence(table: seq<Guideline>, gene: string, phenotype: string, drug: string)
    ensures 0.0 <= AssessRisk(table, gene, phenotype, drug).confidence <= 1.0
  {
    SeverityConfidenceInRange(AssessRisk(table, gene, phenotype, drug).severity);
  }

  /** Drugs the map does not list are checked against every gene of the
      profile, each once, in profile order. */
  lemma UnlistedDrugUsesProfile(drugGenes: seq<(string, seq<string>)>, genePhenotypes: seq<(string, string)>,
                                drugUpper: string)
    requires !HasKey(drugGenes, drugUpper)
    ensures var genes := RelevantGenes(drugGenes, genePhenotypes, drugUpper);
            && (forall g :: g in genes <==> HasKey(genePhenotypes, g))
            && (forall i, j :: 0 <= i < j < |genes| ==> genes[i] != genes[j])
  {
    var ks := Keys(genePhenotypes);
    DedupSpec(ks);
    forall g ensures g in ks <==> HasKey(genePhenotypes, g) {
      if g in ks {
        var i :| 0 <= i < |ks| && ks[i] == g;
      }
    }
  }

  // ---------------------------------------------------------------------
  // Listing the table

  /** Strictly increasing in Python's string order, hence without repeats. */
  predicate StrictlySorted(s: seq<string>) {
    forall i, j :: 0 <= i < j < |s| ==> StrLess(s[i], s[j])
  }

  /** The least string of a non-empty set. */
  method SetMinimum(s: set<string>) returns (m: string)
    requires s != {}
    ensures m in s && forall y :: y in s && y != m ==> StrLess(m, y)
  {
    var x :| x in s;
    m := x;
    var rest := s - {x};
    while rest != {}
      invariant m in s && rest <= s
      invariant forall y :: y in s && y !in rest && y != m ==> StrLess(m, y)
      decreases |rest|
    {
      var y :| y in rest;
      StrLessTotal(m, y);
      if StrLess(y, m) {
        forall z | z in s && z !in rest - {y} && z != y ensures StrLess(y, z) {
          if z != m {
            StrLessTransitive(y, m, z);
          }
        }
        m := y;
      }
      rest := rest - {y};
    }
  }

  /** `sorted(s)` for a set of strings. */
  method SortSet(s: set<string>) returns (r: seq<string>)
    ensures StrictlySorted(r)
    ensures forall x :: x in r <==> x in s
  {
    r := [];
    var rest := s;
    while rest != {}
      invariant StrictlySorted(r)
      invariant rest <= s
      invariant forall x :: x in s <==> x in r || x in rest
      invariant forall x, y :: x in r && y in rest ==> StrLess(x, y)
      decreases |rest|
    {
      var m := SetMinimum(rest);
      forall i | 0 <= i < |r| ensures StrLess(r[i], m) {
        assert r[i] in r;
      }
      r := r + [m];
      rest := rest - {m};
    }
  }

  /** `get_available_drugs` (lines 274-280): the table's drugs, uppercased,
      sorted, each once. */
  method AvailableDrugs(table: seq<Guideline>) returns (drugs: seq<string>)
    ensures StrictlySorted(drugs)
    ensures forall d :: d in drugs <==> exists i :: 0 <= i < |table| && Upper(table[i].drug) == d
  {
    var seen: set<string> := {};
    for i := 0 to |table|
      invariant forall d :: d in seen <==> exists k :: 0 <= k < i && Upper(table[k].drug) == d
    {
      seen := seen + {Upper(table[i].drug)};
    }
    drugs := SortSet(seen);
  }

  /** `get_available_genes` (lines 283-289): the table's genes, uppercased,
      sorted, each once. */
  method AvailableGenes(table: seq<Guideline>) returns (genes: seq<string>)
    ensures StrictlySorted(genes)
    ensures forall g :: g in genes <==> exists i :: 0 <= i < |table| && Upper(table[i].gene) == g
  {
    var seen: set<string> := {};
    for i := 0 to |table|
      invariant forall g :: g in seen <==> exists k :: 0 <= k < i && Upper(table[k].gene) == g
    {
      seen := seen + {Upper(table[i].gene)};
    }
    genes := SortSet(seen);
  }

  // ---------------------------------------------------------------------
  // The most severe recommendation of a drug

  /** The order the report uses to pick a drug's primary recommendation. */
  function SeverityRank(severity: string): nat {
    if severity == "critical" then 4
    else if severity == "high" then 3
    else if severity == "moderate" then 2
    else if severity == "low" then 1
    else 0
  }

  /** The first element of a stable sort by descending rank. */
  function MostSevere(recs: seq<Recommendation>): (r: Recommendation)
    requires recs != []
  {
    if |recs| == 1 then recs[0]
    else
      var best := MostSevere(recs[1..]);
      if SeverityRank(recs[0].severity) >= SeverityRank(best.severity) then recs[0] else best
  }

  /** The primary recommendation has the highest rank, and it is the first
      one with that rank. */
  lemma {:induction false} MostSevereSpec(recs: seq<Recommendation>)
    requires recs != []
    ensures exists k :: 0 <= k < |recs| && recs[k] == MostSevere(recs)
              && (forall j :: 0 <= j < k ==> SeverityRank(recs[j].severity) < SeverityRank(recs[k].severity))
    ensures forall j :: 0 <= j < |recs| ==> SeverityRank(recs[j].severity) <= SeverityRank(MostSevere(recs).severity)
  {
    if |recs| == 1 {
      assert recs[0] == MostSevere(recs);
    } else {
      var tail := recs[1..];
      MostSevereSpec(tail);
      var best := MostSevere(tail);
      var k :| 0 <= k < |tail| && tail[k] == best
               && (forall j :: 0 <= j < k ==> SeverityRank(tail[j].severity) < SeverityRank(tail[k].severity));
      if SeverityRank(recs[0].severity) < SeverityRank(best.severity) {
        assert recs[k + 1] == best;
        forall j | 0 <= j < k + 1 ensures SeverityRank(recs[j].severity) < SeverityRank(recs[k + 1].severity) {
          if j > 0 {
            assert recs[j] == tail[j - 1];
          }
        }
      } else {
        assert recs[0] == MostSevere(recs);
      }
      forall j | 0 <= j < |recs| ensures SeverityRank(recs[j].severity) <= SeverityRank(MostSevere(recs).severity) {
        if j > 0 {
          assert recs[j] == tail[j - 1];
        }
      }
    }
  }
}

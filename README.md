# PharmaGuard pipeline core in Dafny

This project models the three service modules at the heart of the
PharmaGuard pharmacogenomics backend and proves properties about them.
They turn a patient's VCF file into per-gene diplotypes and phenotypes, and
then into CPIC drug recommendations.

- **VCF parser** (`vcf_parser.dfy`, module `VcfParser`):
  - header validation (`##fileformat=VCFv4.2` on the first line and a `#CHROM` line);
  - the record loop that normalises each record into a `ParsedVariant` with its defaults;
  - tagging a variant with a pharmacogene by GRCh38 region, falling back to the rsID map for a known rsID;
  - the region table extended with bare chromosome names (`"10"` beside `"chr10"`).
- **Haplotype matcher** (`haplotype_matcher.dfy`, `genotype.dfy`, `allele_ranking.dfy`):
  - indexing the patient's variants by rsID;
  - scoring each star allele by the defining variants whose genotype carries an alternate allele;
  - the stable sort by match fraction and then match count;
  - choosing the wild type, choosing the diplotype's two alleles with the homozygosity test, and writing the `A/B` label with the numeric star-allele order;
  - adding up the activity scores and reading the phenotype off the first window that contains the total;
  - the per-gene loop with its target filter and error list.
- **Clinical engine** (`clinical_engine.dfy`, module `ClinicalEngine`):
  - the case-insensitive guideline lookup and the severity-to-confidence table;
  - the drug-to-gene map and the fallback to every detected gene;
  - the per-drug loop with its fallback record and warning;
  - the sorted drug and gene listings;
  - the severity ranking that the analysis router uses to pick one recommendation per drug.

`common.dfy` (`Common`) and `text.dfy` (`Text`) model the Python building
blocks the three modules rely on:
- a dictionary is a list of (key, value) pairs in insertion order, and a lookup returns the last pair with that key;
- a list deduplicated in first-seen order;
- `str.split`, `str.join`, `str.strip`, `str.upper`, `str.isdigit`, `int` on a digit string, and the ordering `sorted` uses for strings.

The data files are parameters, not module state:
- the star-allele catalog (`GeneDef`);
- the CPIC guideline table (`seq<Guideline>`);
- the chromosome region table.

Loops that update variables in the source are methods with loop invariants. Each method is proved equal to a recursive specification function. Examples:
- `CollectVariants` is proved equal to `PharmacogeneVariants`;
- `CountMatches` is proved equal to `MatchCount`, and also proves the running deduplicated rsID list;
- `CollectFound` is proved equal to `FoundRecs`;
- `AssessDrugsWith` is proved equal to `AssessAll`;
- `SplitDigits` is proved to return the leading digit run.

The properties are lemmas about those functions.

`IsHomozygousGt` keeps a quirk of the source's homozygosity test: the
no-call `./.` passes it, because only "0" is excluded as the first allele
(`NoCallCountsAsHomozygous`).

## Model

| member | source | states |
|---|---|---|
| VcfParser.AddBareNames | backend01/app/services/vcf_parser.py:53-58 | the table after the update is the table followed by one entry per chromosome, named without "chr" and holding the same regions |
| VcfParser.BareNamesAnswerAlike | backend01/app/services/vcf_parser.py:53-58 | after the update, both "chrN" and "N" look up exactly the regions written for "chrN" |
| VcfParser.BareNamesDistinct | backend01/app/services/vcf_parser.py:55-57 | distinct "chr" names give distinct bare names, so no bare entry overwrites another |
| VcfParser.PrefixedNameNotBare | backend01/app/services/vcf_parser.py:55-58 | no bare name equals a "chr" name, so the update never replaces a "chr" entry |
| VcfParser.RemoveChrPrefixedDigits | backend01/app/services/vcf_parser.py:56 | `replace("chr", "")` on "chr" followed by digits leaves exactly the digits |
| VcfParser.BaseRegionsWellNamed | backend01/app/services/vcf_parser.py:27-51 | the written table has distinct "chr"+digits names and tags only the eight pharmacogenes |
| VcfParser.ImportedRegionTable | backend01/app/services/vcf_parser.py:27-58 | the table as the module leaves it tags only pharmacogenes, and every chromosome answers alike under its "chr" and bare names |
| VcfParser.BareNamesKeepGenes | backend01/app/services/vcf_parser.py:53-58 | the update adds no gene to the table |
| VcfParser.KnownRsidsMapped | backend01/app/services/vcf_parser.py:267-292 | the fallback rsID map has exactly the known rsIDs as keys, and each maps to a pharmacogene |
| VcfParser.KnownRsidGene | backend01/app/services/vcf_parser.py:254-256 | a known rsID outside every region still gets a pharmacogene |
| VcfParser.RegionHit | backend01/app/services/vcf_parser.py:251-253 | the scan returns no gene exactly when no region covers the position; otherwise it returns the gene of the first covering region (inclusive bounds) |
| VcfParser.FirstCovering | backend01/app/services/vcf_parser.py:260-262 | if some region covers the position, there is a first one that does |
| VcfParser.MapToPharmacogene | backend01/app/services/vcf_parser.py:241-264 | a covering region on the chromosome decides the gene, whether or not the rsID is known |
| VcfParser.MapToPharmacogeneTagged | backend01/app/services/vcf_parser.py:241-264 | a variant is tagged exactly when its rsID is known or a region of its chromosome covers it, and the tag is always a pharmacogene |
| VcfParser.BareChromosomeSameTag | backend01/app/services/vcf_parser.py:250 | a variant on "N" is tagged exactly as the same variant on "chrN" |
| VcfParser.ValidateVcfContent | backend01/app/services/vcf_parser.py:113-142 | the text is valid exactly when the error message is empty |
| VcfParser.ValidateVcfContentAccepts | backend01/app/services/vcf_parser.py:123-142 | the text is accepted exactly when its first line, stripped, is "##fileformat=VCFv4.2" and some stripped line starts with "#CHROM" |
| VcfParser.FileformatVersion | backend01/app/services/vcf_parser.py:130-135 | after the "##fileformat=" prefix, the version is the rest of the line, and it equals "VCFv4.2" exactly when the line is the 4.2 header |
| VcfParser.VcfVersion | backend01/app/services/vcf_parser.py:164-167 | for an accepted text, the recorded version is "VCFv4.2" |
| VcfParser.VariantId | backend01/app/services/vcf_parser.py:183 | the variant identifier is never empty |
| VcfParser.Normalise | backend01/app/services/vcf_parser.py:181-226 | a variant keeps its record's CHROM, POS and REF; it carries the gene the mapper gives its identifier, and it is flagged exactly when that gene is non-empty |
| VcfParser.NormaliseDefaults | backend01/app/services/vcf_parser.py:183-207 | missing fields take their defaults: "chrom:pos" for a missing or empty ID, "." for ALT, GT and AD, 0 for DP and 0.0 for QUAL; several ALTs and a depth list are joined with "," |
| VcfParser.ReadFirstSample | backend01/app/services/vcf_parser.py:189-207 | the GT, AD and DP read from the first sample are the normalised defaults or the values found |
| VcfParser.NormaliseRecord | backend01/app/services/vcf_parser.py:181-226 | the method builds the specified normalised variant |
| VcfParser.PharmacogeneVariants | backend01/app/services/vcf_parser.py:210-228 | no more variants are kept than records read, and each kept variant is flagged and carries a gene |
| VcfParser.PharmacogeneVariantsExact | backend01/app/services/vcf_parser.py:210-228 | the kept variants are exactly the normalised records that carry a gene |
| VcfParser.CollectVariants | backend01/app/services/vcf_parser.py:178-228 | the loop counts every record, keeps the tagged variants in record order, and collects exactly their genes |
| VcfParser.GenesOfSnoc | backend01/app/services/vcf_parser.py:227-228 | appending a variant adds exactly its gene to the gene set |
| VcfParser.GenesBound | backend01/app/services/vcf_parser.py:227-228 | there are never more genes found than variants kept |
| VcfParser.ParseCounts | backend01/app/services/vcf_parser.py:178-228 | genes found ≤ variants kept ≤ records read |
| VcfParser.ParseVcf | backend01/app/services/vcf_parser.py:145-236 | for a rejected text: one error, no success. For a reader that fails on the header: version set, one "VCF parsing error" message. Otherwise: the sample ID, the variants and genes of the records processed in full, success exactly when no exception was raised, and a count of every record the loop began, including one whose body raised |
| Genotype.TokensOfCall | backend01/app/services/haplotype_matcher.py:294-295 | a call written with "/" or "|" between plain alleles splits back into exactly those alleles |
| Genotype.HasAltIffAltAllele | backend01/app/services/haplotype_matcher.py:286-298 | a call carries the alternate allele exactly when some allele is neither "0" nor ".", whatever the ALT columns say |
| Genotype.HomozygousIffTwoEqual | backend01/app/services/haplotype_matcher.py:327-333 | a call is homozygous exactly when it has two equal alleles and the first is not "0" |
| Genotype.HomozygousCarriesAlt | backend01/app/services/haplotype_matcher.py:327-333 | a homozygous call whose first allele is not "." carries the alternate allele |
| Genotype.UnphasedHomozygousExamples | backend01/app/services/haplotype_matcher.py:328 | "1/1" and "2/2" are homozygous |
| Genotype.PhasedHomozygousExample | backend01/app/services/haplotype_matcher.py:331 | "1\|1" is homozygous |
| Genotype.HeterozygousExample | backend01/app/services/haplotype_matcher.py:286-298 | "0/1" carries the alternate allele and is not homozygous |
| Genotype.ReferenceExamples | backend01/app/services/haplotype_matcher.py:291-292 | "0/0" and "." neither carry the alternate allele nor are homozygous |
| Genotype.NoCallCountsAsHomozygous | backend01/app/services/haplotype_matcher.py:329-333 | "./." passes the homozygosity test while carrying no alternate allele |
| HaplotypeMatcher.PatientVariantIsLast | backend01/app/services/haplotype_matcher.py:153-158 | the index maps an rsID to the last variant carrying it; empty rsIDs are skipped |
| HaplotypeMatcher.IndexPatientVariants | backend01/app/services/haplotype_matcher.py:153-158 | the map built by the loop answers every rsID as the specified index does |
| HaplotypeMatcher.MatchCount | backend01/app/services/haplotype_matcher.py:180-194 | an allele never matches more variants than define it |
| HaplotypeMatcher.CountMatches | backend01/app/services/haplotype_matcher.py:180-196 | the loop counts the carried defining variants and extends the matched-rsID list without repeats, in first-seen order |
| HaplotypeMatcher.ScoreAlleles | backend01/app/services/haplotype_matcher.py:160-208 | the loop produces the specified allele calls in catalog order and the deduplicated matched rsIDs |
| HaplotypeMatcher.ScoresWellFormed | backend01/app/services/haplotype_matcher.py:163-208 | wild-type calls have no matches; every other call has at least one match and no more matches than defining variants |
| HaplotypeMatcher.WildsOfScores | backend01/app/services/haplotype_matcher.py:166-178 | the wild-type calls are exactly the alleles without defining variants, in catalog order, with default score 1.0 |
| HaplotypeMatcher.NoMatchWithoutVariants | backend01/app/services/haplotype_matcher.py:185-194 | without patient variants nothing matches |
| HaplotypeMatcher.ScoresWithoutVariants | backend01/app/services/haplotype_matcher.py:163-208 | without patient variants only the wild-type calls are scored, and no rsID is matched |
| HaplotypeMatcher.DiplotypeMatchedRsids | backend01/app/services/haplotype_matcher.py:195-196 | the matched rsIDs are exactly the carried defining rsIDs, without repeats, in first-seen order |
| AlleleRanking.RankBeforeCrossMultiplied | backend01/app/services/haplotype_matcher.py:211-216 | the ranking key compares match fractions, then match counts, which is the integer cross-multiplied comparison |
| AlleleRanking.RankSortPermutes | backend01/app/services/haplotype_matcher.py:211-216 | sorting permutes the calls |
| AlleleRanking.RankSortRanked | backend01/app/services/haplotype_matcher.py:211-216 | after sorting, no call outranks an earlier one |
| AlleleRanking.RankSortStable | backend01/app/services/haplotype_matcher.py:211-216 | calls with equal keys keep their catalog order (stable sort) |
| AlleleRanking.RankSortSplits | backend01/app/services/haplotype_matcher.py:211-228 | for scored calls, the sort puts every variant call, ranked, before the wild-type calls, which keep catalog order |
| AlleleRanking.RankSortKeepsWildOrder | backend01/app/services/haplotype_matcher.py:211-228 | separating the sorted calls gives the wild calls in catalog order and the variant calls sorted |
| AlleleRanking.SplitMembers | backend01/app/services/haplotype_matcher.py:223-228 | the separation puts each call on the wild-type side exactly when it has no defining variants |
| HaplotypeMatcher.SeparateWildType | backend01/app/services/haplotype_matcher.py:220-228 | the loop keeps the first wild-type call and every variant call in order |
| HaplotypeMatcher.DiplotypeFailsOnlyWithoutAlleles | backend01/app/services/haplotype_matcher.py:231-232 | a gene's assignment raises exactly when its allele catalog is empty, and the error is "list index out of range" |
| HaplotypeMatcher.DiplotypeAlleles | backend01/app/services/haplotype_matcher.py:218-260 | the chosen pair comes from the first wild-type allele (or the default) and the ranked variant calls, each of which matched at least one and at most all of its defining variants |
| HaplotypeMatcher.NoVariantsDefaultWildType | backend01/app/services/haplotype_matcher.py:223-264 | without variants and without an allele free of defining variants, the patient is homozygous for "*1" when the catalog names it, else for the first catalog allele, scored from its entry (1.0 by default), labelled "name/name", with no matched rsIDs |
| HaplotypeMatcher.NoVariantsWildType | backend01/app/services/haplotype_matcher.py:243-246 | a patient without variants is homozygous for a wild-type allele, with no matched rsIDs |
| HaplotypeMatcher.WriteDiplotype | backend01/app/services/haplotype_matcher.py:262-264 | the label is the two names in sort-key order, joined by "/" |
| AlleleRanking.DiplotypeLabelOrdered | backend01/app/services/haplotype_matcher.py:263-264 | the label holds both names, and the second never sorts before the first |
| AlleleRanking.DiplotypeLabelSymmetric | backend01/app/services/haplotype_matcher.py:263 | the label does not depend on which allele came first, when the names' keys differ or the names are equal |
| AlleleRanking.NumericLabelExample | backend01/app/services/haplotype_matcher.py:263-264 | "*2" sorts before "*10" |
| HaplotypeMatcher.DiplotypeTotals | backend01/app/services/haplotype_matcher.py:266-281 | the total score is the sum of the two alleles' scores, the label is written from their names, and the phenotype is read from that total |
| HaplotypeMatcher.AssignDiplotype | backend01/app/services/haplotype_matcher.py:133-281 | the method returns the specified diplotype result or error |
| HaplotypeMatcher.HeterozygousCarrierExample | backend01/app/services/haplotype_matcher.py:133-281 | two heterozygous "*4" variants with "*1" as wild type give "*1/*4", total score 1.0 and the phenotype whose window holds 1.0 |
| HaplotypeMatcher.ScoreToPhenotypeFirst | backend01/app/services/haplotype_matcher.py:336-340 | the phenotype is the first window holding the score, with its label or, when there is none, its name |
| HaplotypeMatcher.ScoreToPhenotypeNone | backend01/app/services/haplotype_matcher.py:342-343 | a score outside every window gives "Unknown" and the "no matching phenotype" label |
| HaplotypeMatcher.ScoreToPhenotypeDisjoint | backend01/app/services/haplotype_matcher.py:336-340 | with pairwise disjoint windows, any window holding the score decides it |
| AlleleRanking.AlleleSortKey | backend01/app/services/haplotype_matcher.py:346-358 | the loop computes the specified key: leading stars removed, then the leading digits as a number (999 when there are none) and the rest |
| AlleleRanking.SplitDigits | backend01/app/services/haplotype_matcher.py:352-357 | the loop stops at the first non-digit: digits before it, the suffix from it |
| AlleleRanking.SortKeyOfStarName | backend01/app/services/haplotype_matcher.py:346-358 | stars, then a number, then a suffix that does not start with a digit, give the key (number, suffix) |
| AlleleRanking.StripStarsSpec | backend01/app/services/haplotype_matcher.py:348 | `lstrip("*")` removes exactly the leading stars |
| AlleleRanking.StripStarsPrefix | backend01/app/services/haplotype_matcher.py:348 | any number of stars before a star-free start is removed |
| AlleleRanking.DigitRunPrefix | backend01/app/services/haplotype_matcher.py:352-357 | the digit run of digits followed by a non-digit is exactly those digits |
| HaplotypeMatcher.GroupByGene | backend01/app/services/haplotype_matcher.py:100-105 | each gene's group is its variants in input order, when the gene is non-empty and targeted, and empty otherwise |
| HaplotypeMatcher.MatchHaplotypes | backend01/app/services/haplotype_matcher.py:82-122 | the loop returns the specified per-gene results, count and errors |
| HaplotypeMatcher.MatchAllCountsResults | backend01/app/services/haplotype_matcher.py:115-117 | genes_analysed equals the number of gene results |
| HaplotypeMatcher.MatchAllCoversAnalysed | backend01/app/services/haplotype_matcher.py:108-120 | every catalog gene the filter lets through gives either a result or an error |
| HaplotypeMatcher.MatchAllErrors | backend01/app/services/haplotype_matcher.py:118-120 | the errors are exactly "gene: list index out of range" for the analysed genes with an empty allele catalog, in catalog order |
| HaplotypeMatcher.MatchAllKeys | backend01/app/services/haplotype_matcher.py:108-116 | every result belongs to a catalog gene |
| HaplotypeMatcher.MatchAllLookup | backend01/app/services/haplotype_matcher.py:108-116 | a gene's result is its diplotype over its grouped variants when it is in the catalog, is analysed and has alleles; otherwise there is none |
| HaplotypeMatcher.EmptyTargetIgnoresVariants | backend01/app/services/haplotype_matcher.py:104-110 | an empty target set groups no variant yet analyses every gene, as if the patient had no variants |
| HaplotypeMatcher.MatchSingleGene | backend01/app/services/haplotype_matcher.py:125-128 | the result is the gene's entry in the results of a match targeted at that gene |
| HaplotypeMatcher.MatchSingleGeneResult | backend01/app/services/haplotype_matcher.py:125-128 | the single-gene match is the gene's diplotype over its own variants, or none when the gene is missing or has no alleles |
| HaplotypeMatcher.ErrorTexts | backend01/app/services/haplotype_matcher.py:120 | one "gene: message" text per failing gene, in order |
| ClinicalEngine.FindRowFound | backend01/app/services/clinical_engine.py:43-45 | the cache has an entry for a key exactly when some row has that uppercased key |
| ClinicalEngine.FindRowLast | backend01/app/services/clinical_engine.py:43-45 | a row that no later row shares its key with is the cached row |
| ClinicalEngine.AssessRiskFound | backend01/app/services/clinical_engine.py:114-145 | a recommendation is found exactly when the uppercased triple is in the table; otherwise it is the "No CPIC guideline" default |
| ClinicalEngine.AssessRiskLastRow | backend01/app/services/clinical_engine.py:117-129 | a hit copies the row's risk label and text; the severity defaults to "moderate" and the source to "CPIC"; the confidence comes from the severity; the caller's spelling of gene, phenotype and drug is kept |
| ClinicalEngine.AssessRiskCaseInsensitive | backend01/app/services/clinical_engine.py:114 | triples that agree once uppercased are found alike, and when found get the same recommendation apart from the echoed names |
| ClinicalEngine.SeverityConfidenceInRange | backend01/app/services/clinical_engine.py:91-96 | every confidence is in (0, 1], and it is at least 0.90 exactly for "critical" and "high" |
| ClinicalEngine.AssessRiskConfidence | backend01/app/services/clinical_engine.py:117-145 | every assessment's confidence is in [0, 1] |
| ClinicalEngine.DrugGeneMapShape | backend01/app/services/clinical_engine.py:215-271 | the map lists 37 drugs, each with exactly one gene |
| ClinicalEngine.UnlistedDrugUsesProfile | backend01/app/services/clinical_engine.py:169-173 | a drug outside the map is checked against every detected gene, each once |
| ClinicalEngine.CollectFound | backend01/app/services/clinical_engine.py:175-184 | the loop keeps the found recommendations of the genes with a phenotype, in gene order |
| ClinicalEngine.FoundRecsSpec | backend01/app/services/clinical_engine.py:176-184 | each kept recommendation is a hit for a checked gene with its non-empty phenotype and the uppercased drug |
| ClinicalEngine.FoundRecsComplete | backend01/app/services/clinical_engine.py:176-184 | every checked gene with a phenotype and a guideline contributes its recommendation |
| ClinicalEngine.FoundForHit | backend01/app/services/clinical_engine.py:177-184 | a gene with a phenotype and a guideline contributes exactly that recommendation |
| ClinicalEngine.FoundRecsAppend | backend01/app/services/clinical_engine.py:176-184 | checking two gene lists one after the other gives their recommendations concatenated |
| ClinicalEngine.AssessOneDrug | backend01/app/services/clinical_engine.py:168-206 | one drug gives its found recommendations, or else one fallback record and one warning |
| ClinicalEngine.AssessDrugShape | backend01/app/services/clinical_engine.py:175-206 | a drug gives at least one record, all for the uppercased drug, and at most one warning; there is a warning exactly when a record is not found, and then the drug has only the fallback |
| ClinicalEngine.AssessDrugsWith | backend01/app/services/clinical_engine.py:162-210 | the drug loop returns the specified result |
| ClinicalEngine.AssessDrugs | backend01/app/services/clinical_engine.py:148-210 | the result is the assessment against the built-in drug-gene map |
| ClinicalEngine.AssessAllCounts | backend01/app/services/clinical_engine.py:167-208 | every drug is counted, duplicates included; there are at least as many records as drugs; the warnings name exactly the unmatched drugs, in order |
| ClinicalEngine.AssessAllDrugs | backend01/app/services/clinical_engine.py:168-203 | every record is for one of the requested drugs, uppercased |
| ClinicalEngine.AssessAllConfidence | backend01/app/services/clinical_engine.py:167-208 | every record's confidence is in [0, 1] |
| ClinicalEngine.AssessAllAppend | backend01/app/services/clinical_engine.py:167-208 | assessing two drug lists one after the other concatenates the records and the warnings and adds the counts |
| ClinicalEngine.SortSet | backend01/app/services/clinical_engine.py:280 | `sorted` of a set gives its members in strictly increasing order |
| ClinicalEngine.AvailableDrugs | backend01/app/services/clinical_engine.py:274-280 | the drugs are listed once each, sorted, and are exactly the uppercased drugs of the table |
| ClinicalEngine.AvailableGenes | backend01/app/services/clinical_engine.py:283-289 | the genes are listed once each, sorted, and are exactly the uppercased genes of the table |
| ClinicalEngine.MostSevereSpec | backend01/app/routers/analysis.py:176-178 | the chosen recommendation is the first of the highest severity rank (critical 4, high 3, moderate 2, low 1, other 0), as a stable descending sort puts it first |
| Common.LookupLastAppend | backend01/app/services/vcf_parser.py:58 | after `update`, a key of the added dictionary answers from it, and any other key from the original |
| Common.DedupSpec | backend01/app/services/haplotype_matcher.py:195-196 | the deduplicated list has the same members, no repeats, in first-seen order |
| Text.JoinSplit | backend01/app/services/haplotype_matcher.py:295 | joining the split parts gives the text back |
| Text.SplitJoin | backend01/app/services/haplotype_matcher.py:295 | splitting a join of parts free of the separator gives the parts back |
| Text.StripIsTrimmedSlice | backend01/app/services/vcf_parser.py:129 | `strip()` is a slice of the text with only whitespace cut off both ends |
| Text.StripEnds | backend01/app/services/vcf_parser.py:129 | a stripped text is empty or starts and ends with non-whitespace |
| Text.Take | backend01/app/services/vcf_parser.py:131 | `[:60]` gives a prefix of at most 60 characters, the whole text when it is shorter |
| Text.UpperIdempotent | backend01/app/services/clinical_engine.py:114 | uppercasing the already uppercased drug changes nothing |
| Text.NatToStringRoundTrip | backend01/app/services/haplotype_matcher.py:358 | `int` of a number's decimal digits is the number |
| Text.StrLessTransitive | backend01/app/services/clinical_engine.py:280 | the string order `sorted` uses is transitive |
| Text.StrLessTotal | backend01/app/services/clinical_engine.py:280 | any two distinct strings are ordered |

## Left out

- Loading the data files is not modelled: `_load_definitions`, `_load_cache` (JSON or SQLite), their caches and logging. The catalog, the guideline table and the region table are parameters.
- The VCF reader itself is not modelled. A `RecordStream` stands for what it yields: the sample names, the records whose loop bodies complete, and an optional exception, raised either by the reader or in the body of the next record (after it is counted). An unreadable header is a separate case. The `str`, `int` and `float` conversions of the fields are taken to succeed; one that raises is a failure in the record's body.
- Byte decoding is not modelled: `ValidateVcfContent` and `ParseVcf` take the decoded text. The `errors="replace"` decoding never raises, so the "could not be decoded" branch cannot be reached.
- The "VCF file is empty." branch is not modelled, because `split` always returns at least one part, so it cannot be reached.
- Floating point: activity scores, scores, windows and QUAL are exact reals, so the ranking compares exact match fractions.
- ScoreText: the score in the "no matching phenotype" label is written as a decimal expansion of the exact real (at most 17 fraction digits). It is not Python's shortest `repr` of the float.
- A catalog threshold row without `min_score` or `max_score`, and a guideline row without `risk_label` or `recommendation`, raise `KeyError` in the source. The model gives every row those fields.
- A JSON `null` severity or source is not told apart from a missing one.
- FindRow: the `if rec:` test treats an empty row as missing; the model's rows always have fields, so every stored row counts as present.
- `str.upper` and `str.isdigit` are modelled for ASCII letters and digits only.
- The per-gene results are a list of (gene, result) pairs. The catalog is a dictionary, so its genes are distinct.
- MatchAllLookup and MatchSingleGeneResult: require distinct catalog genes, which a dictionary loaded from a JSON object always has.
- `sorted` over a set is modelled by repeated minimum selection; only the resulting order is claimed.
- The rest of the repository is not part of this model: the RAG and LLM services, the routers (except the severity ranking at `analysis.py:176-178`), configuration and schemas.

/** The variant normaliser: VCF 4.2 header validation, the record loop that
    turns reader records into gene-tagged `ParsedVariant`s, and the
    coordinate-region / rsID tables used to tag a variant with a
    pharmacogene.

    The VCF reader itself is abstract: a `RecordStream` is what the reader
    yields (sample names, then records), and where, if anywhere, the record
    loop stops with an exception. */
module VcfParser {
  import opened Common
  import opened Text

  // ---------------------------------------------------------------------
  // Pharmacogene coordinate table

  /** A GRCh38 locus; both ends are inclusive. */
  datatype Region = Region(start: int, end: int, gene: string)

  predicate Covers(r: Region, pos: int) {
    r.start <= pos <= r.end
  }

  /** The coordinate table as written, with "chr"-prefixed chromosome names,
      in declaration order. */
  const BaseRegions: seq<(string, seq<Region>)> := [
    ("chr10", [Region(94_727_000, 94_833_000, "CYP2C9"), Region(96_445_000, 96_615_000, "CYP2C19")]),
    ("chr13", [Region(48_004_000, 48_101_000, "DPYD")]),
    ("chr16", [Region(31_090_000, 31_120_000, "VKORC1")]),
    ("chr22", [Region(42_120_000, 42_140_000, "CYP2D6")]),
    ("chr7", [Region(99_648_000, 99_700_000, "CYP3A5")]),
    ("chr6", [Region(18_128_000, 18_155_000, "TPMT")]),
    ("chr12", [Region(21_130_000, 21_240_000, "SLCO1B1")])
  ]

  /** `s.replace("chr", "")`: every non-overlapping "chr", left to right. */
  function RemoveChr(s: string): string {
    if StartsWith(s, "chr") then RemoveChr(s[3..])
    else if s == [] then []
    else [s[0]] + RemoveChr(s[1..])
  }

  /** The bare-name copy of every table entry, in table order. */
  function BareAliases(entries: seq<(string, seq<Region>)>): (aliases: seq<(string, seq<Region>)>)
    ensures |aliases| == |entries|
    ensures forall i :: 0 <= i < |entries| ==> aliases[i] == (RemoveChr(entries[i].0), entries[i].1)
  {
    if entries == [] then []
    else [(RemoveChr(entries[0].0), entries[0].1)] + BareAliases(entries[1..])
  }

  /** The genes the normaliser can ever assign. */
  const Pharmacogenes: set<string> :=
    {"CYP2C9", "CYP2C19", "DPYD", "VKORC1", "CYP2D6", "CYP3A5", "TPMT", "SLCO1B1"}

  /** The import-time extension of the table (lines 53-58): a copy of every
      entry under its bare chromosome name is assigned after the entries as
      written. */
  method AddBareNames(table: seq<(string, seq<Region>)>) returns (updated: seq<(string, seq<Region>)>)
    ensures updated == table + BareAliases(table)
  {
    var extra: seq<(string, seq<Region>)> := [];
    for i := 0 to |table|
      invariant |extra| == i
      invariant forall k :: 0 <= k < i ==> extra[k] == (RemoveChr(table[k].0), table[k].1)
    {
      extra := extra + [(RemoveChr(table[i].0), table[i].1)];
    }
    updated := table + extra;
  }

  /** `PHARMACOGENE_REGIONS.get(chrom, [])`: the table is built by
      assignments, so the last one to a key is the one kept. */
  function ChromRegions(table: seq<(string, seq<Region>)>, chrom: string): seq<Region> {
    LookupLast(table, chrom).GetOr([])
  }

  /** Every chromosome name is "chr" followed by digits, and no name is
      written twice. */
  predicate WellNamed(table: seq<(string, seq<Region>)>) {
    && DistinctKeys(table)
    && forall i :: 0 <= i < |table| ==> StartsWith(table[i].0, "chr") && AllDigits(table[i].0[3..])
  }

  /** Every region of the table names one of `genes`. */
  predicate GenesAmong(table: seq<(string, seq<Region>)>, genes: set<string>) {
    forall i, k :: 0 <= i < |table| && 0 <= k < |table[i].1| ==> table[i].1[k].gene in genes
  }

  lemma BaseRegionsWellNamed()
    ensures WellNamed(BaseRegions)
    ensures GenesAmong(BaseRegions, Pharmacogenes)
  {
  }

  /** `"chr" + digits` loses exactly its prefix. */
  lemma RemoveChrPrefixedDigits(name: string)
    requires StartsWith(name, "chr") && AllDigits(name[3..])
    ensures RemoveChr(name) == name[3..]
  {
    RemoveChrNoC(name[3..]);
  }

  lemma {:induction false} RemoveChrNoC(s: string)
    requires 'c' !in s
    ensures RemoveChr(s) == s
  {
    if s != [] {
      RemoveChrNoC(s[1..]);
      assert s == [s[0]] + s[1..];
    }
  }

  /** The bare name of a well-named entry is its digits: never
      "chr"-prefixed, and equal only for equal names. */
  lemma BareKey(table: seq<(string, seq<Region>)>, j: nat)
    requires WellNamed(table) && j < |table|
    ensures BareAliases(table)[j].0 == table[j].0[3..]
    ensures AllDigits(BareAliases(table)[j].0)
  {
    RemoveChrPrefixedDigits(table[j].0);
  }

  /** No bare name repeats a "chr" name. */
  lemma PrefixedNameNotBare(table: seq<(string, seq<Region>)>, i: nat)
    requires WellNamed(table) && i < |table|
    ensures !HasKey(BareAliases(table), table[i].0)
  {
    var bare := BareAliases(table);
    forall j | 0 <= j < |bare| ensures bare[j].0 != table[i].0 {
      BareKeyNotPrefixed(table, i, j);
    }
  }

  lemma BareKeyNotPrefixed(table: seq<(string, seq<Region>)>, i: nat, j: nat)
    requires WellNamed(table) && i < |table| && j < |table|
    ensures BareAliases(table)[j].0 != table[i].0
  {
    BareKey(table, j);
    assert StartsWith(table[i].0, "chr");
    DigitsNotPrefixed(BareAliases(table)[j].0, table[i].0);
  }

  lemma DigitsNotPrefixed(key: string, name: string)
    requires AllDigits(key) && StartsWith(name, "chr")
    ensures key != name
  {
    assert name[..3] == "chr" && name[0] == 'c';
    if key != [] {
      assert IsDigit(key[0]);
    }
  }

  lemma BareNamesDistinct(table: seq<(string, seq<Region>)>)
    requires WellNamed(table)
    ensures DistinctKeys(BareAliases(table))
  {
    var bare := BareAliases(table);
    forall i, k | 0 <= i < k < |table| ensures bare[i].0 != bare[k].0 {
      BareKey(table, i);
      BareKey(table, k);
      if bare[k].0 == bare[i].0 {
        SamePrefixedSuffix(table[k].0, table[i].0);
      }
    }
  }

  lemma SamePrefixedSuffix(a: string, b: string)
    requires StartsWith(a, "chr") && StartsWith(b, "chr") && a[3..] == b[3..]
    ensures a == b
  {
    assert a == a[..3] + a[3..] && b == b[..3] + b[3..];
  }

  /** Once the bare names are added, "chrN" still answers the regions
      written for it. */
  lemma PrefixedNameAnswers(table: seq<(string, seq<Region>)>, i: nat)
    requires WellNamed(table) && i < |table|
    ensures ChromRegions(table + BareAliases(table), table[i].0) == table[i].1
  {
    PrefixedNameNotBare(table, i);
    LookupLastAppend(table, BareAliases(table), table[i].0);
    LookupLastAt(table, i);
  }

  /** Once the bare names are added, "N" answers the regions written for
      "chrN". */
  lemma BareNameAnswers(table: seq<(string, seq<Region>)>, i: nat)
    requires WellNamed(table) && i < |table|
    ensures ChromRegions(table + BareAliases(table), RemoveChr(table[i].0)) == table[i].1
  {
    var bare := BareAliases(table);
    BareNamesDistinct(table);
    LookupLastAt(bare, i);
    assert HasKey(bare, bare[i].0);
    LookupLastAppend(table, bare, RemoveChr(table[i].0));
  }

  /** Once the bare names are added, "chrN" and "N" both answer the regions
      written for "chrN". */
  lemma BareNamesAnswerAlike(table: seq<(string, seq<Region>)>, i: nat)
    requires WellNamed(table) && i < |table|
    ensures ChromRegions(table + BareAliases(table), table[i].0) == table[i].1
    ensures ChromRegions(table + BareAliases(table), RemoveChr(table[i].0)) == table[i].1
  {
    PrefixedNameAnswers(table, i);
    BareNameAnswers(table, i);
  }

  /** The extension adds no gene. */
  lemma BareNamesKeepGenes(table: seq<(string, seq<Region>)>, genes: set<string>)
    requires GenesAmong(table, genes)
    ensures GenesAmong(table + BareAliases(table), genes)
  {
    var all := table + BareAliases(table);
    forall i, k | 0 <= i < |all| && 0 <= k < |all[i].1| ensures all[i].1[k].gene in genes {
      if i >= |table| {
        assert all[i].1 == table[i - |table|].1;
      }
    }
  }

  /** Every gene a table lookup can return lies among the table's genes. */
  lemma ChromRegionGenes(table: seq<(string, seq<Region>)>, genes: set<string>, chrom: string)
    requires GenesAmong(table, genes)
    ensures forall k :: 0 <= k < |ChromRegions(table, chrom)| ==> ChromRegions(table, chrom)[k].gene in genes
  {
  }

  // ---------------------------------------------------------------------
  // Known rsIDs

  const KnownPgxRsids: set<string> := {
    "rs3892097", "rs1065852", "rs1135840", "rs16947", "rs28371725",
    "rs5030655", "rs5030656", "rs28371706", "rs59421388",
    "rs12248560", "rs4244285", "rs4986893", "rs28399504", "rs56337013",
    "rs1799853", "rs1057910", "rs28371686", "rs7900194", "rs9332131",
    "rs776746",
    "rs3918290", "rs55886062", "rs67376798", "rs75017182",
    "rs1142345", "rs1800460", "rs1800462",
    "rs4149056", "rs2306283",
    "rs9923231", "rs116855232"
  }

  const RsidGeneMap: map<string, string> := map[
    "rs3892097" := "CYP2D6", "rs1065852" := "CYP2D6", "rs1135840" := "CYP2D6",
    "rs16947" := "CYP2D6", "rs28371725" := "CYP2D6", "rs5030655" := "CYP2D6",
    "rs5030656" := "CYP2D6", "rs28371706" := "CYP2D6", "rs59421388" := "CYP2D6",
    "rs12248560" := "CYP2C19", "rs4244285" := "CYP2C19",
    "rs4986893" := "CYP2C19", "rs28399504" := "CYP2C19", "rs56337013" := "CYP2C19",
    "rs1799853" := "CYP2C9", "rs1057910" := "CYP2C9", "rs28371686" := "CYP2C9",
    "rs7900194" := "CYP2C9", "rs9332131" := "CYP2C9",
    "rs776746" := "CYP3A5",
    "rs3918290" := "DPYD", "rs55886062" := "DPYD",
    "rs67376798" := "DPYD", "rs75017182" := "DPYD",
    "rs1142345" := "TPMT", "rs1800460" := "TPMT", "rs1800462" := "TPMT",
    "rs4149056" := "SLCO1B1", "rs2306283" := "SLCO1B1",
    "rs9923231" := "VKORC1", "rs116855232" := "VKORC1"
  ]

  /** `_rsid_to_gene`: the gene of a known rsID, "" for any other. */
  function RsidToGene(rsid: string): string {
    if rsid in RsidGeneMap then RsidGeneMap[rsid] else ""
  }

  /** The rsID map covers exactly the known rsIDs, and maps each of them to a
      pharmacogene, so a known rsID never falls back to "". */
  lemma KnownRsidsMapped()
    ensures RsidGeneMap.Keys == KnownPgxRsids
    ensures forall r :: r in KnownPgxRsids ==> RsidToGene(r) in Pharmacogenes
  {
  }

  // ---------------------------------------------------------------------
  // Gene tagging

  /** The gene of the first region that covers `pos`, if any. */
  function RegionHit(regions: seq<Region>, pos: int): (hit: Option<string>)
    ensures hit.None? <==> forall i :: 0 <= i < |regions| ==> !Covers(regions[i], pos)
    ensures forall i :: 0 <= i < |regions| && Covers(regions[i], pos)
                        && (forall j :: 0 <= j < i ==> !Covers(regions[j], pos)) ==>
              hit == Some(regions[i].gene)
  {
    if regions == [] then None
    else if Covers(regions[0], pos) then Some(regions[0].gene)
    else
      var hit := RegionHit(regions[1..], pos);
      assert forall i :: 1 <= i < |regions| ==> regions[i] == regions[1..][i - 1];
      hit
  }

  /** `_map_to_pharmacogene`: a region hit on the exact chromosome key wins;
      otherwise a known rsID falls back to the rsID map; otherwise "". */
  function MapToPharmacogene(table: seq<(string, seq<Region>)>, chrom: string, pos: int, rsid: string): (gene: string)
    ensures RegionHit(ChromRegions(table, chrom), pos).Some? ==> gene == RegionHit(ChromRegions(table, chrom), pos).value
  {
    if rsid in KnownPgxRsids then
      match RegionHit(ChromRegions(table, chrom), pos)
      case Some(g) => g
      case None => RsidToGene(rsid)
    else
      RegionHit(ChromRegions(table, chrom), pos).GetOr("")
  }

  /** A known rsID is mapped to a pharmacogene by the rsID map. */
  lemma KnownRsidGene(rsid: string)
    requires rsid in KnownPgxRsids
    ensures RsidToGene(rsid) in Pharmacogenes
  {
    KnownRsidsMapped();
  }

  /** A variant is tagged exactly when its position lies in a region of its
      chromosome or its rsID is known, and the tag is always one of the
      table's genes or a pharmacogene of the rsID map. */
  lemma MapToPharmacogeneTagged(table: seq<(string, seq<Region>)>, chrom: string, pos: int, rsid: string)
    requires GenesAmong(table, Pharmacogenes)
    ensures var gene := MapToPharmacogene(table, chrom, pos, rsid);
            && (gene != "" <==> (rsid in KnownPgxRsids || exists i :: 0 <= i < |ChromRegions(table, chrom)| && Covers(ChromRegions(table, chrom)[i], pos)))
            && (gene == "" || gene in Pharmacogenes)
  {
    var regions := ChromRegions(table, chrom);
    var hit := RegionHit(regions, pos);
    if hit.Some? {
      var i :| 0 <= i < |regions| && Covers(regions[i], pos);
      var first := FirstCovering(regions, pos, i);
      ChromRegionGenes(table, Pharmacogenes, chrom);
      assert hit.value == regions[first].gene;
    } else if rsid in KnownPgxRsids {
      KnownRsidGene(rsid);
    }
  }

  /** The earliest region covering `pos`, given that region `i` covers it. */
  lemma {:induction false} FirstCovering(regions: seq<Region>, pos: int, i: nat) returns (first: nat)
    requires i < |regions| && Covers(regions[i], pos)
    ensures first <= i && Covers(regions[first], pos)
    ensures forall j :: 0 <= j < first ==> !Covers(regions[j], pos)
  {
    if exists j :: 0 <= j < i && Covers(regions[j], pos) {
      var j :| 0 <= j < i && Covers(regions[j], pos);
      first := FirstCovering(regions, pos, j);
    } else {
      first := i;
    }
  }

  /** With the table as extended at import, "chrN" and "N" tag every
      variant identically. */
  lemma BareChromosomeSameTag(table: seq<(string, seq<Region>)>, i: nat, pos: int, rsid: string)
    requires WellNamed(table) && i < |table|
    ensures var updated := table + BareAliases(table);
            MapToPharmacogene(updated, RemoveChr(table[i].0), pos, rsid)
            == MapToPharmacogene(updated, table[i].0, pos, rsid)
  {
    BareNamesAnswerAlike(table, i);
  }

  /** The table the normaliser uses, the written one extended at import,
      answers both spellings alike and tags only pharmacogenes. */
  lemma ImportedRegionTable()
    ensures var updated := BaseRegions + BareAliases(BaseRegions);
            && GenesAmong(updated, Pharmacogenes)
            && forall i :: 0 <= i < |BaseRegions| ==>
                 && ChromRegions(updated, BaseRegions[i].0) == BaseRegions[i].1
                 && ChromRegions(updated, RemoveChr(BaseRegions[i].0)) == BaseRegions[i].1
  {
    BaseRegionsWellNamed();
    BareNamesKeepGenes(BaseRegions, Pharmacogenes);
    forall i | 0 <= i < |BaseRegions|
      ensures ChromRegions(BaseRegions + BareAliases(BaseRegions), BaseRegions[i].0) == BaseRegions[i].1
      ensures ChromRegions(BaseRegions + BareAliases(BaseRegions), RemoveChr(BaseRegions[i].0)) == BaseRegions[i].1
    {
      BareNamesAnswerAlike(BaseRegions, i);
    }
  }

  // ---------------------------------------------------------------------
  // Header validation

  /** The text before the first newline (`text.split("\n")[0]`). */
  function FirstLine(text: string): string {
    if '\n' in text then text[..IndexOf(text, '\n')] else text
  }

  /** Some line, once stripped, starts with "#CHROM". */
  predicate HasChromHeader(text: string) {
    exists line :: line in Split(text, '\n') && StartsWith(Strip(line), "#CHROM")
  }

  /** `validate_vcf_content` on the decoded text: (is_valid, error_message).
      The checks run in order and the first failing one names the problem. */
  function ValidateVcfContent(text: string): (r: (bool, string))
    ensures r.0 <==> r.1 == ""
  {
    var lines := Split(text, '\n');
    var firstLine := Strip(lines[0]);
    if !StartsWith(firstLine, "##fileformat=") then
      (false, "Missing ##fileformat header. Got: " + Take(firstLine, 60))
    else
      FileformatVersion(firstLine);
      var version := AfterFirst(firstLine, '=');
      if version != "VCFv4.2" then
        (false, "Unsupported VCF version: " + version + ". Expected VCFv4.2.")
      else if !(exists line :: line in lines && StartsWith(Strip(line), "#CHROM")) then
        (false, "Missing #CHROM header line.")
      else
        (true, "")
  }

  /** A text is accepted exactly when its first line, stripped, is the
      VCF 4.2 fileformat line and some line is the #CHROM header. */
  lemma ValidateVcfContentAccepts(text: string)
    ensures ValidateVcfContent(text).0 <==>
              Strip(FirstLine(text)) == "##fileformat=VCFv4.2" && HasChromHeader(text)
  {
    var lines := Split(text, '\n');
    assert lines[0] == FirstLine(text);
    var firstLine := Strip(lines[0]);
    if StartsWith(firstLine, "##fileformat=") {
      FileformatVersion(firstLine);
    }
  }

  /** After the "##fileformat=" prefix, the text after the first "=" is the
      rest of the line, so the version check is a whole-line check. */
  lemma FileformatVersion(line: string)
    requires StartsWith(line, "##fileformat=")
    ensures '=' in line
    ensures AfterFirst(line, '=') == line[13..]
    ensures AfterFirst(line, '=') == "VCFv4.2" <==> line == "##fileformat=VCFv4.2"
  {
    assert line[12] == '=';
    assert line[..12] == "##fileformat";
    IndexOfFirst(line, '=', 12);
    assert line == "##fileformat=" + line[13..];
  }

  // ---------------------------------------------------------------------
  // Records

  /** The AD field of a sample: a list of per-allele depths (already
      rendered with `str`) or a single value. */
  datatype AlleleDepth = DepthList(items: seq<string>) | DepthText(text: string)

  /** The first sample's GT, AD and DP fields; None where a field is absent
      or None. */
  datatype SampleData = SampleData(gt: Option<string>, ad: Option<AlleleDepth>, dp: Option<int>)

  /** One record as the reader yields it; `id` None for ".", `alts` empty
      when there is no ALT, `firstSample` None when the record has no
      sample columns. */
  datatype VcfRecord = VcfRecord(
    chrom: string, pos: int, id: Option<string>, ref: string,
    alts: seq<string>, qual: Option<real>, firstSample: Option<SampleData>)

  /** Where a run of the record loop stops with an exception: in the reader,
      while it reads the next record, or in the loop body of a record just
      yielded, after line 179 counted it and before its variant is kept
      (`int(gt_data.DP)` on a value that is not an integer, say). */
  datatype Failure = ReaderFailure(message: string) | BodyFailure(message: string)

  /** What the reader does: fail while reading the header, or yield sample
      names and the records whose loop bodies complete, and then either stop
      or raise `failure`. */
  datatype RecordStream =
    | Unreadable(reason: string)
    | Records(samples: seq<string>, records: seq<VcfRecord>, failure: Option<Failure>)

  datatype ParsedVariant = ParsedVariant(
    chrom: string, pos: int, rsid: string, ref: string, alt: string,
    genotype: string, allelicDepth: string, readDepth: int, quality: real,
    gene: string, isPharmacogene: bool)

  datatype VcfParseResult = VcfParseResult(
    success: bool, vcfVersion: string, sampleId: string, totalVariants: nat,
    pharmacogeneVariants: seq<ParsedVariant>, genesFound: set<string>,
    errors: seq<string>)

  /** `record.ID or f"{chrom}:{pos}"` */
  function VariantId(rec: VcfRecord): (rsid: string)
    ensures rsid != ""
  {
    if rec.id.Some? && rec.id.value != "" then rec.id.value
    else rec.chrom + ":" + IntToString(rec.pos)
  }

  /** The ALT column joined with ",", or "." when there is none. */
  function AltText(alts: seq<string>): string {
    if alts == [] then "." else Join(alts, ',')
  }

  function GenotypeOf(sample: Option<SampleData>): string {
    if sample.Some? then sample.value.gt.GetOr(".") else "."
  }

  function AllelicDepthOf(sample: Option<SampleData>): string {
    if sample.Some? && sample.value.ad.Some? then
      match sample.value.ad.value
      case DepthList(items) => Join(items, ',')
      case DepthText(t) => t
    else "."
  }

  function ReadDepthOf(sample: Option<SampleData>): int {
    if sample.Some? then sample.value.dp.GetOr(0) else 0
  }

  /** The variant built from one record (lines 181-226), tagged with its gene. */
  function Normalise(table: seq<(string, seq<Region>)>, rec: VcfRecord): (v: ParsedVariant)
    ensures v.chrom == rec.chrom && v.pos == rec.pos && v.ref == rec.ref
    ensures v.rsid != ""
    ensures v.gene == MapToPharmacogene(table, rec.chrom, rec.pos, v.rsid)
    ensures v.isPharmacogene <==> v.gene != ""
  {
    var rsid := VariantId(rec);
    var gene := MapToPharmacogene(table, rec.chrom, rec.pos, rsid);
    ParsedVariant(rec.chrom, rec.pos, rsid, rec.ref, AltText(rec.alts),
                  GenotypeOf(rec.firstSample), AllelicDepthOf(rec.firstSample),
                  ReadDepthOf(rec.firstSample), rec.qual.GetOr(0.0), gene, gene != "")
  }

  /** The defaults a record's missing fields take: "chrom:pos" for a missing
      or empty ID, "." for a missing ALT, genotype or allelic depth, 0 for a missing
      read depth, 0.0 for a missing QUAL; a list of depths is joined with
      ",". */
  lemma NormaliseDefaults(table: seq<(string, seq<Region>)>, rec: VcfRecord)
    ensures var v := Normalise(table, rec);
            && (rec.id.None? || rec.id.value == "" ==> v.rsid == rec.chrom + ":" + IntToString(rec.pos))
            && (rec.id.Some? && rec.id.value != "" ==> v.rsid == rec.id.value)
            && (rec.alts == [] ==> v.alt == ".")
            && (rec.alts != [] ==> v.alt == Join(rec.alts, ','))
            && (rec.qual.None? ==> v.quality == 0.0)
            && (rec.firstSample.None? ==> v.genotype == "." && v.allelicDepth == "." && v.readDepth == 0)
            && (rec.firstSample.Some? ==>
                  && (rec.firstSample.value.gt.None? ==> v.genotype == ".")
                  && (rec.firstSample.value.ad.None? ==> v.allelicDepth == ".")
                  && (rec.firstSample.value.dp.None? ==> v.readDepth == 0)
                  && (forall items :: rec.firstSample.value.ad == Some(DepthList(items)) ==>
                        v.allelicDepth == Join(items, ',')))
  {
  }

  /** The variants kept from `records`: those with a gene, in input order. */
  function PharmacogeneVariants(table: seq<(string, seq<Region>)>, records: seq<VcfRecord>): (vs: seq<ParsedVariant>)
    ensures |vs| <= |records|
    ensures forall v :: v in vs ==> v.isPharmacogene && v.gene != ""
  {
    if records == [] then []
    else
      var n := |records| - 1;
      var v := Normalise(table, records[n]);
      PharmacogeneVariants(table, records[..n]) + (if v.gene != "" then [v] else [])
  }

  function GenesOf(vs: seq<ParsedVariant>): set<string> {
    set v | v in vs :: v.gene
  }

  /** `sample_id or samples[0]`, and only when the reader saw samples. */
  function SampleIdOf(samples: seq<string>, sampleId: string): string {
    if samples == [] then "" else if sampleId != "" then sampleId else samples[0]
  }

  /** The GT, AD and DP of the first sample, each starting from its default
      and replaced when the sample carries the field. */
  method ReadFirstSample(sample: Option<SampleData>) returns (gt: string, ad: string, dp: int)
    ensures gt == GenotypeOf(sample) && ad == AllelicDepthOf(sample) && dp == ReadDepthOf(sample)
  {
    gt, ad, dp := ".", ".", 0;
    if sample.Some? {
      var data := sample.value;
      if data.gt.Some? {
        gt := data.gt.value;
      }
      if data.ad.Some? {
        match data.ad.value
        case DepthList(items) => ad := Join(items, ',');
        case DepthText(t) => ad := t;
      }
      if data.dp.Some? {
        dp := data.dp.value;
      }
    }
  }

  /** One pass of the record loop (lines 181-226): read the fields of a
      record with their defaults and tag it with its gene. */
  method NormaliseRecord(table: seq<(string, seq<Region>)>, record: VcfRecord) returns (variant: ParsedVariant)
    ensures variant == Normalise(table, record)
  {
    var chrom := record.chrom;
    var pos := record.pos;
    var rsid := if record.id.Some? && record.id.value != "" then record.id.value
                else chrom + ":" + IntToString(pos);
    var ref := record.ref;
    var alt := if record.alts != [] then Join(record.alts, ',') else ".";
    var quality := if record.qual.Some? then record.qual.value else 0.0;

    var gt, ad, dp := ReadFirstSample(record.firstSample);

    var gene := MapToPharmacogene(table, chrom, pos, rsid);
    variant := ParsedVariant(chrom, pos, rsid, ref, alt, gt, ad, dp, quality, gene, gene != "");
  }

  /** `parse_vcf` over the decoded text and the reader's record stream. */
  method ParseVcf(table: seq<(string, seq<Region>)>, text: string, stream: RecordStream, sampleId: string) returns (result: VcfParseResult)
    ensures !ValidateVcfContent(text).0 ==>
              result == VcfParseResult(false, "", "", 0, [], {}, [ValidateVcfContent(text).1])
    ensures ValidateVcfContent(text).0 && stream.Unreadable? ==>
              result == VcfParseResult(false, "VCFv4.2", "", 0, [], {},
                                       ["VCF parsing error: " + stream.reason])
    ensures ValidateVcfContent(text).0 && stream.Records? ==>
              result == VcfParseResult(
                stream.failure.None?, "VCFv4.2", SampleIdOf(stream.samples, sampleId),
                |stream.records| + (if stream.failure.Some? && stream.failure.value.BodyFailure? then 1 else 0),
                PharmacogeneVariants(table, stream.records),
                GenesOf(PharmacogeneVariants(table, stream.records)),
                if stream.failure.Some? then ["VCF parsing error: " + stream.failure.value.message] else [])
  {
    var (isValid, error) := ValidateVcfContent(text);
    if !isValid {
      return VcfParseResult(false, "", "", 0, [], {}, [error]);
    }

    var version := VcfVersion(text);

    match stream
    case Unreadable(reason) =>
      result := VcfParseResult(false, version, "", 0, [], {}, ["VCF parsing error: " + reason]);
    case Records(samples, records, failure) =>
      var sample := "";
      if samples != [] {
        sample := if sampleId != "" then sampleId else samples[0];
      }
      var total, variants, genes := CollectVariants(table, records);
      match failure
      case None =>
        result := VcfParseResult(true, version, sample, total, variants, genes, []);
      case Some(ReaderFailure(message)) =>
        result := VcfParseResult(false, version, sample, total, variants, genes,
                                 ["VCF parsing error: " + message]);
      case Some(BodyFailure(message)) =>
        // the failing record was counted but its variant never kept
        result := VcfParseResult(false, version, sample, total + 1, variants, genes,
                                 ["VCF parsing error: " + message]);
  }

  /** The record loop: count every record and keep the tagged variants. */
  method CollectVariants(table: seq<(string, seq<Region>)>, records: seq<VcfRecord>) returns (total: nat, variants: seq<ParsedVariant>, genes: set<string>)
    ensures total == |records|
    ensures variants == PharmacogeneVariants(table, records)
    ensures genes == GenesOf(variants)
  {
    total, variants, genes := 0, [], {};
    while total < |records|
      invariant total <= |records|
      invariant variants == PharmacogeneVariants(table, records[..total])
      invariant genes == GenesOf(variants)
    {
      var record := records[total];
      var variant := NormaliseRecord(table, record);
      PharmacogeneVariantsStep(table, records, total);
      if variant.isPharmacogene {
        GenesOfSnoc(variants, variant);
        variants := variants + [variant];
        genes := genes + {variant.gene};
      }
      total := total + 1;
    }
    assert records[..total] == records;
  }

  /** One more record of the loop adds its variant when it carries a gene. */
  lemma PharmacogeneVariantsStep(table: seq<(string, seq<Region>)>, records: seq<VcfRecord>, k: nat)
    requires k < |records|
    ensures var v := Normalise(table, records[k]);
            PharmacogeneVariants(table, records[..k + 1])
            == PharmacogeneVariants(table, records[..k]) + (if v.gene != "" then [v] else [])
  {
    assert records[..k + 1][..k] == records[..k];
  }

  lemma GenesOfSnoc(vs: seq<ParsedVariant>, v: ParsedVariant)
    ensures GenesOf(vs + [v]) == GenesOf(vs) + {v.gene}
  {
    forall g | g in GenesOf(vs + [v]) ensures g in GenesOf(vs) + {v.gene} {
      var w :| w in vs + [v] && w.gene == g;
      if w != v { assert w in vs; }
    }
  }

  /** The version recorded for an accepted text: the part of the first line
      after "=". */
  function VcfVersion(text: string): (version: string)
    requires ValidateVcfContent(text).0
    ensures version == "VCFv4.2"
  {
    ValidateVcfContentAccepts(text);
    var firstLine := Strip(Split(text, '\n')[0]);
    assert Split(text, '\n')[0] == FirstLine(text);
    FileformatVersion(firstLine);
    AfterFirst(firstLine, '=')
  }

  /** No more genes than variants carrying them. */
  lemma {:induction false} GenesBound(vs: seq<ParsedVariant>)
    ensures |GenesOf(vs)| <= |vs|
  {
    if vs != [] {
      var n := |vs| - 1;
      GenesBound(vs[..n]);
      assert vs == vs[..n] + [vs[n]];
      assert GenesOf(vs) == GenesOf(vs[..n]) + {vs[n].gene};
    }
  }

  /** The kept variants are exactly the normalised records that carry a
      gene. */
  lemma {:induction false} PharmacogeneVariantsExact(table: seq<(string, seq<Region>)>, records: seq<VcfRecord>)
    ensures var vs := PharmacogeneVariants(table, records);
            forall v :: v in vs <==> exists r :: r in records && v == Normalise(table, r) && v.gene != ""
  {
    if records != [] {
      var n := |records| - 1;
      PharmacogeneVariantsExact(table, records[..n]);
      assert records == records[..n] + [records[n]];
    }
  }

  /** No more genes than kept variants, and no more kept variants than
      records. */
  lemma ParseCounts(table: seq<(string, seq<Region>)>, records: seq<VcfRecord>)
    ensures var vs := PharmacogeneVariants(table, records);
            |GenesOf(vs)| <= |vs| <= |records|
  {
    GenesBound(PharmacogeneVariants(table, records));
  }
}

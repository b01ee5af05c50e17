/** Star-allele calls and the two orders the haplotype matcher puts them in:
    the ranking of scored alleles (match fraction descending, then matched
    count descending, ties kept in catalog order by a stable sort) and the
    numeric order of allele names used to write a diplotype "A/B". */
module AlleleRanking {
  import opened Text

  /** One star allele assigned to one haplotype. */
  datatype AlleleCall = AlleleCall(
    alleleName: string,
    activityScore: real,
    functionName: string,
    matchedVariants: nat,
    totalDefining: nat)

  /** An allele with no defining variants (the reference, usually "*1"). */
  predicate IsWild(c: AlleleCall) {
    c.totalDefining == 0
  }

  // ---------------------------------------------------------------------
  // Ranking

  /** `max(total_defining, 1)` */
  function Den(c: AlleleCall): (d: nat)
    ensures d >= 1
  {
    if c.totalDefining == 0 then 1 else c.totalDefining
  }

  /** The match fraction `matched_variants / max(total_defining, 1)`. */
  function Frac(c: AlleleCall): real {
    c.matchedVariants as real / Den(c) as real
  }

  /** `a` sorts strictly before `b` under the key
      `(-fraction, -matched_variants)`. */
  predicate RankBefore(a: AlleleCall, b: AlleleCall) {
    Frac(a) > Frac(b) || (Frac(a) == Frac(b) && a.matchedVariants > b.matchedVariants)
  }

  /** `a` and `b` have the same sort key. */
  predicate SameRank(a: AlleleCall, b: AlleleCall) {
    Frac(a) == Frac(b) && a.matchedVariants == b.matchedVariants
  }

  /** The ranking compares match fractions exactly as the cross-multiplied
      counts `m1 * max(t2, 1)` and `m2 * max(t1, 1)` do. */
  lemma RankBeforeCrossMultiplied(a: AlleleCall, b: AlleleCall)
    ensures RankBefore(a, b) <==>
              a.matchedVariants * Den(b) > b.matchedVariants * Den(a)
              || (a.matchedVariants * Den(b) == b.matchedVariants * Den(a)
                  && a.matchedVariants > b.matchedVariants)
  {
    var p := (Den(a) * Den(b)) as real;
    assert p > 0.0;
    assert (a.matchedVariants * Den(b)) as real == Frac(a) * p;
    assert (b.matchedVariants * Den(a)) as real == Frac(b) * p;
    FractionOrder(Frac(a), Frac(b), p);
  }

  lemma FractionOrder(x: real, y: real, p: real)
    requires p > 0.0
    ensures x > y <==> x * p > y * p
    ensures x == y <==> x * p == y * p
  {
    assert x * p - y * p == (x - y) * p;
  }

  /** Inserting `c` into a ranked list: it goes after everything that ranks
      strictly before it, and before everything else. */
  function Insert(c: AlleleCall, ranked: seq<AlleleCall>): seq<AlleleCall> {
    if ranked == [] || !RankBefore(ranked[0], c) then [c] + ranked
    else [ranked[0]] + Insert(c, ranked[1..])
  }

  /** `allele_scores.sort(key=...)`: Python's stable sort by the rank key. */
  function RankSort(s: seq<AlleleCall>): seq<AlleleCall> {
    if s == [] then [] else Insert(s[0], RankSort(s[1..]))
  }

  lemma {:induction false} InsertPermutes(c: AlleleCall, ranked: seq<AlleleCall>)
    ensures multiset(Insert(c, ranked)) == multiset(ranked) + multiset{c}
  {
    if ranked != [] && RankBefore(ranked[0], c) {
      InsertPermutes(c, ranked[1..]);
      assert ranked == [ranked[0]] + ranked[1..];
    }
  }

  /** The sort keeps every call, each as often as it occurs. */
  lemma {:induction false} RankSortPermutes(s: seq<AlleleCall>)
    ensures multiset(RankSort(s)) == multiset(s)
  {
    if s != [] {
      RankSortPermutes(s[1..]);
      InsertPermutes(s[0], RankSort(s[1..]));
      assert s == [s[0]] + s[1..];
    }
  }

  /** No element ranks strictly before an earlier one. */
  predicate Ranked(s: seq<AlleleCall>) {
    forall i, j :: 0 <= i < j < |s| ==> !RankBefore(s[j], s[i])
  }

  lemma {:induction false} InsertMembers(c: AlleleCall, ranked: seq<AlleleCall>)
    ensures forall x :: x in Insert(c, ranked) <==> x == c || x in ranked
  {
    if ranked != [] && RankBefore(ranked[0], c) {
      InsertMembers(c, ranked[1..]);
      assert ranked == [ranked[0]] + ranked[1..];
    }
  }

  lemma RankedTail(ranked: seq<AlleleCall>)
    requires ranked != [] && Ranked(ranked)
    ensures Ranked(ranked[1..])
    ensures forall x :: x in ranked[1..] ==> !RankBefore(x, ranked[0])
  {
    var t := ranked[1..];
    forall i, j | 0 <= i < j < |t| ensures !RankBefore(t[j], t[i]) {
      assert t[j] == ranked[j + 1] && t[i] == ranked[i + 1];
    }
    forall x | x in t ensures !RankBefore(x, ranked[0]) {
      var k :| 0 <= k < |t| && t[k] == x;
      assert ranked[k + 1] == x;
    }
  }

  lemma {:induction false} InsertRanked(c: AlleleCall, ranked: seq<AlleleCall>)
    requires Ranked(ranked)
    ensures Ranked(Insert(c, ranked))
  {
    if ranked == [] || !RankBefore(ranked[0], c) {
      var r := [c] + ranked;
      assert Insert(c, ranked) == r;
      forall i, j | 0 <= i < j < |r| ensures !RankBefore(r[j], r[i]) {
        assert r[j] == ranked[j - 1];
        if i > 0 {
          assert r[i] == ranked[i - 1];
        } else if j > 1 {
          assert !RankBefore(ranked[j - 1], ranked[0]);
        }
      }
    } else {
      var h := ranked[0];
      var tail := Insert(c, ranked[1..]);
      RankedTail(ranked);
      InsertRanked(c, ranked[1..]);
      InsertMembers(c, ranked[1..]);
      forall x | x in tail ensures !RankBefore(x, h) {
        if x == c {
          assert RankBefore(h, c);
        } else {
          assert x in ranked[1..];
        }
      }
      var r := [h] + tail;
      assert Insert(c, ranked) == r;
      forall i, j | 0 <= i < j < |r| ensures !RankBefore(r[j], r[i]) {
        assert r[j] == tail[j - 1] && r[j] in tail;
        if i > 0 {
          assert r[i] == tail[i - 1];
        }
      }
    }
  }

  /** The sort puts every list in rank order. */
  lemma {:induction false} RankSortRanked(s: seq<AlleleCall>)
    ensures Ranked(RankSort(s))
  {
    if s != [] {
      RankSortRanked(s[1..]);
      InsertRanked(s[0], RankSort(s[1..]));
    }
  }

  /** The elements of `s` with the same key as `x`, in their order in `s`. */
  function TiedWith(s: seq<AlleleCall>, x: AlleleCall): (r: seq<AlleleCall>)
    ensures forall c :: c in r ==> c in s && SameRank(c, x)
  {
    if s == [] then []
    else (if SameRank(s[0], x) then [s[0]] else []) + TiedWith(s[1..], x)
  }

  lemma TiedWithCons(h: AlleleCall, t: seq<AlleleCall>, x: AlleleCall)
    ensures TiedWith([h] + t, x) == (if SameRank(h, x) then [h] else []) + TiedWith(t, x)
  {
    assert ([h] + t)[0] == h && ([h] + t)[1..] == t;
  }

  lemma {:induction false} InsertStable(c: AlleleCall, ranked: seq<AlleleCall>, x: AlleleCall)
    ensures TiedWith(Insert(c, ranked), x)
            == (if SameRank(c, x) then [c] else []) + TiedWith(ranked, x)
  {
    if ranked == [] || !RankBefore(ranked[0], c) {
      TiedWithCons(c, ranked, x);
    } else {
      var h, ins := ranked[0], Insert(c, ranked[1..]);
      InsertStable(c, ranked[1..], x);
      TiedWithCons(h, ins, x);
      TiedWithCons(h, ranked[1..], x);
      assert ranked == [h] + ranked[1..];
      // `h` ranks strictly before `c`, so they cannot both tie with `x`
      assert !(SameRank(h, x) && SameRank(c, x));
    }
  }

  /** Stability: alleles with equal keys come out in the order they went in
      (catalog order). */
  lemma {:induction false} RankSortStable(s: seq<AlleleCall>, x: AlleleCall)
    ensures TiedWith(RankSort(s), x) == TiedWith(s, x)
  {
    if s != [] {
      RankSortStable(s[1..], x);
      InsertStable(s[0], RankSort(s[1..]), x);
    }
  }

  /** The wild-type calls of `s`, in order. */
  function Wilds(s: seq<AlleleCall>): seq<AlleleCall> {
    if s == [] then []
    else (if IsWild(s[0]) then [s[0]] else []) + Wilds(s[1..])
  }

  /** The variant-allele calls of `s`, in order. */
  function Variants(s: seq<AlleleCall>): seq<AlleleCall> {
    if s == [] then []
    else (if IsWild(s[0]) then [] else [s[0]]) + Variants(s[1..])
  }

  /** Splitting a list into wild-type and variant calls loses and invents
      nothing. */
  lemma {:induction false} SplitMembers(s: seq<AlleleCall>)
    ensures forall c :: c in Wilds(s) <==> c in s && IsWild(c)
    ensures forall c :: c in Variants(s) <==> c in s && !IsWild(c)
  {
    if s != [] {
      SplitMembers(s[1..]);
      assert s == [s[0]] + s[1..];
    }
  }

  /** The scores the matcher builds: a wild-type call matches nothing, a
      variant-allele call matches at least one defining variant. */
  predicate WellScored(s: seq<AlleleCall>) {
    forall c :: c in s ==>
      (IsWild(c) ==> c.matchedVariants == 0) && (!IsWild(c) ==> c.matchedVariants > 0)
  }

  lemma WildsCons(h: AlleleCall, t: seq<AlleleCall>)
    ensures Wilds([h] + t) == (if IsWild(h) then [h] else []) + Wilds(t)
  {
    assert ([h] + t)[0] == h && ([h] + t)[1..] == t;
  }

  lemma VariantsCons(h: AlleleCall, t: seq<AlleleCall>)
    ensures Variants([h] + t) == (if IsWild(h) then [] else [h]) + Variants(t)
  {
    assert ([h] + t)[0] == h && ([h] + t)[1..] == t;
  }

  lemma {:induction false} WildsAppend(a: seq<AlleleCall>, b: seq<AlleleCall>)
    ensures Wilds(a + b) == Wilds(a) + Wilds(b)
  {
    if a == [] {
      assert a + b == b;
    } else {
      var h, t := a[0], a[1..];
      var w := if IsWild(h) then [h] else [];
      assert a == [h] + t;
      assert a + b == [h] + (t + b);
      WildsCons(h, t + b);
      WildsCons(h, t);
      WildsAppend(t, b);
      assert w + (Wilds(t) + Wilds(b)) == (w + Wilds(t)) + Wilds(b);
    }
  }

  lemma {:induction false} VariantsAppend(a: seq<AlleleCall>, b: seq<AlleleCall>)
    ensures Variants(a + b) == Variants(a) + Variants(b)
  {
    if a == [] {
      assert a + b == b;
    } else {
      var h, t := a[0], a[1..];
      var v := if IsWild(h) then [] else [h];
      assert a == [h] + t;
      assert a + b == [h] + (t + b);
      VariantsCons(h, t + b);
      VariantsCons(h, t);
      VariantsAppend(t, b);
      assert v + (Variants(t) + Variants(b)) == (v + Variants(t)) + Variants(b);
    }
  }

  lemma {:induction false} WildsOfAllWild(w: seq<AlleleCall>)
    requires forall c :: c in w ==> IsWild(c)
    ensures Wilds(w) == w && Variants(w) == []
  {
    if w != [] {
      WildsOfAllWild(w[1..]);
    }
  }

  lemma {:induction false} WildsOfNoWild(v: seq<AlleleCall>)
    requires forall c :: c in v ==> !IsWild(c)
    ensures Wilds(v) == [] && Variants(v) == v
  {
    if v != [] {
      WildsOfNoWild(v[1..]);
    }
  }

  /** A wild-type call lands after every variant call and before the other
      wild-type calls. */
  lemma {:induction false} InsertWild(c: AlleleCall, a: seq<AlleleCall>, w: seq<AlleleCall>)
    requires IsWild(c) && c.matchedVariants == 0
    requires forall x :: x in a ==> Frac(x) > 0.0
    requires forall x :: x in w ==> IsWild(x) && x.matchedVariants == 0
    ensures Insert(c, a + w) == a + [c] + w
  {
    if a == [] {
      if w != [] {
        assert w[0] in w;
      }
    } else {
      assert a[0] in a;
      assert (a + w)[0] == a[0] && (a + w)[1..] == a[1..] + w;
      InsertWild(c, a[1..], w);
    }
  }

  /** A variant call never moves past a wild-type call. */
  lemma {:induction false} InsertVariant(c: AlleleCall, a: seq<AlleleCall>, w: seq<AlleleCall>)
    requires Frac(c) > 0.0
    requires forall x :: x in w ==> IsWild(x) && x.matchedVariants == 0
    ensures Insert(c, a + w) == Insert(c, a) + w
  {
    if a == [] {
      if w != [] {
        assert w[0] in w;
      }
    } else {
      assert (a + w)[0] == a[0] && (a + w)[1..] == a[1..] + w;
      InsertVariant(c, a[1..], w);
    }
  }

  lemma WellScoredTail(s: seq<AlleleCall>)
    requires s != [] && WellScored(s)
    ensures WellScored(s[1..])
  {
    forall x | x in s[1..] ensures x in s {
      var k :| 0 <= k < |s[1..]| && s[1..][k] == x;
      assert s[k + 1] == x;
    }
  }

  /** A call that matched something has a positive match fraction. */
  lemma FracPositive(c: AlleleCall)
    requires c.matchedVariants > 0
    ensures Frac(c) > 0.0
  {
    var m, d := c.matchedVariants as real, Den(c) as real;
    assert Frac(c) == m / d;
    assert (m / d) * d == m;
  }

  /** Every ranked variant call has a positive match fraction. */
  lemma RankedVariantsPositive(s: seq<AlleleCall>)
    requires WellScored(s)
    ensures forall x :: x in RankSort(Variants(s)) ==> Frac(x) > 0.0
  {
    var v := Variants(s);
    SplitMembers(s);
    RankSortPermutes(v);
    forall x | x in RankSort(v) ensures Frac(x) > 0.0 {
      assert x in multiset(RankSort(v));
      assert x in multiset(v);
      assert x in v;
      assert x in s && !IsWild(x);
      assert x.matchedVariants > 0;
      FracPositive(x);
    }
  }

  /** Every wild-type call of a well-scored list matched nothing. */
  lemma WildsUnmatched(s: seq<AlleleCall>)
    requires WellScored(s)
    ensures forall x :: x in Wilds(s) ==> IsWild(x) && x.matchedVariants == 0
  {
    SplitMembers(s);
  }

  /** The ranking of well-scored calls is the ranking of the variant calls
      followed by the wild-type calls in catalog order. */
  lemma {:induction false} RankSortSplits(s: seq<AlleleCall>)
    requires WellScored(s)
    ensures RankSort(s) == RankSort(Variants(s)) + Wilds(s)
  {
    if s != [] {
      var c, rest := s[0], s[1..];
      assert c in s;
      WellScoredTail(s);
      RankSortSplits(rest);
      RankedVariantsPositive(rest);
      WildsUnmatched(rest);
      var a := RankSort(Variants(rest));
      assert RankSort(s) == Insert(c, RankSort(rest));
      if IsWild(c) {
        InsertWild(c, a, Wilds(rest));
        assert Variants(s) == Variants(rest);
        assert Wilds(s) == [c] + Wilds(rest);
      } else {
        InsertVariant(c, a, Wilds(rest));
        assert Variants(s) == [c] + Variants(rest);
        assert ([c] + Variants(rest))[1..] == Variants(rest);
        assert Wilds(s) == Wilds(rest);
      }
    }
  }

  /** So the first wild-type call of the ranking is the first empty-definition
      allele in catalog order, and the variant calls keep their own ranking. */
  lemma RankSortKeepsWildOrder(s: seq<AlleleCall>)
    requires WellScored(s)
    ensures Wilds(RankSort(s)) == Wilds(s)
    ensures Variants(RankSort(s)) == RankSort(Variants(s))
  {
    RankSortSplits(s);
    var v := RankSort(Variants(s));
    SplitMembers(s);
    RankSortPermutes(Variants(s));
    forall x | x in v ensures !IsWild(x) {
      assert x in multiset(Variants(s));
    }
    WildsAppend(v, Wilds(s));
    VariantsAppend(v, Wilds(s));
    WildsOfNoWild(v);
    WildsOfAllWild(Wilds(s));
  }

  // ---------------------------------------------------------------------
  // Allele-name order for diplotype labels

  /** `name.lstrip("*")`: every leading star goes. */
  function StripStars(name: string): string {
    if name != [] && name[0] == '*' then StripStars(name[1..]) else name
  }

  /** What `lstrip("*")` leaves: a suffix of the name that does not start
      with a star, after a prefix made only of stars. */
  lemma {:induction false} StripStarsSpec(name: string)
    ensures var r := StripStars(name);
            && (r == [] || r[0] != '*')
            && |r| <= |name| && r == name[|name| - |r|..]
            && forall i :: 0 <= i < |name| - |r| ==> name[i] == '*'
  {
    if name != [] && name[0] == '*' {
      StripStarsSpec(name[1..]);
      var r := StripStars(name[1..]);
      assert name[1..][|name| - 1 - |r|..] == name[|name| - |r|..];
      forall i | 0 <= i < |name| - |r| ensures name[i] == '*' {
        if i > 0 {
          assert name[i] == name[1..][i - 1];
        }
      }
    }
  }

  /** Length of the run of digits at the start of `s`. */
  function DigitRun(s: string): (n: nat)
    ensures n <= |s| && AllDigits(s[..n])
    ensures n < |s| ==> !IsDigit(s[n])
  {
    if s != [] && IsDigit(s[0]) then
      var n := 1 + DigitRun(s[1..]);
      assert forall i :: 1 <= i < n ==> s[..n][i] == s[1..][..n - 1][i - 1];
      n
    else 0
  }

  /** `_allele_sort_key`: the leading number after the stars (999 when there
      is none) and the text from the first non-digit on. */
  function SortKeyOf(name: string): (int, string) {
    var clean := StripStars(name);
    var n := DigitRun(clean);
    (if n == 0 then 999 else DigitsValue(clean[..n]), clean[n..])
  }

  /** The key of "*<number><suffix>" is that number and that suffix when the
      suffix does not start with a digit; extra leading stars change nothing. */
  lemma SortKeyOfStarName(stars: nat, n: nat, suffix: string)
    requires suffix == [] || !IsDigit(suffix[0])
    ensures SortKeyOf(Stars(stars) + NatToString(n) + suffix) == (n, suffix)
  {
    var digits := NatToString(n);
    var clean := digits + suffix;
    var name := Stars(stars) + digits + suffix;
    assert name == Stars(stars) + clean;
    assert clean[0] == digits[0] && IsDigit(digits[0]);
    StripStarsPrefix(stars, clean);
    assert clean[..|digits|] == digits;
    assert clean[|digits|..] == suffix;
    SortKeyOfDigitRun(name, |digits|);
    NatToStringRoundTrip(n);
  }

  /** `k` stars. */
  function Stars(k: nat): (s: string)
    ensures |s| == k
  {
    if k == 0 then [] else "*" + Stars(k - 1)
  }

  lemma {:induction false} StripStarsPrefix(k: nat, s: string)
    requires s == [] || s[0] != '*'
    ensures StripStars(Stars(k) + s) == s
  {
    if k > 0 {
      var rest := Stars(k - 1) + s;
      assert Stars(k) + s == "*" + rest;
      StripStarsCons(rest);
      StripStarsPrefix(k - 1, s);
      assert StripStars(rest) == s;
    } else {
      assert Stars(k) + s == s;
      assert StripStars(s) == s;
    }
  }

  lemma StripStarsCons(rest: string)
    ensures StripStars("*" + rest) == StripStars(rest)
  {
    assert ("*" + rest)[1..] == rest;
  }

  lemma {:induction false} DigitRunPrefix(digits: string, rest: string)
    requires AllDigits(digits)
    requires rest == [] || !IsDigit(rest[0])
    ensures DigitRun(digits + rest) == |digits|
  {
    if digits != [] {
      assert (digits + rest)[1..] == digits[1..] + rest;
      DigitRunPrefix(digits[1..], rest);
    }
  }

  /** `_allele_sort_key`, as the source computes it: strip the stars, then
      collect digits until the first non-digit. */
  method AlleleSortKey(name: string) returns (num: int, suffix: string)
    ensures (num, suffix) == SortKeyOf(name)
  {
    var clean := StripStars(name);
    var digits, i;
    digits, suffix, i := SplitDigits(clean);
    SortKeyOfDigitRun(name, i);
    num := if digits != "" then DigitsValue(digits) else 999;
  }

  /** The loop of `_allele_sort_key`: collect digits until the first
      non-digit, which starts the suffix. */
  method SplitDigits(clean: string) returns (digits: string, suffix: string, i: nat)
    ensures i <= |clean| && digits == clean[..i] && AllDigits(digits)
    ensures i < |clean| ==> !IsDigit(clean[i])
    ensures suffix == clean[i..]
  {
    digits, suffix, i := "", "", 0;
    while i < |clean|
      invariant i <= |clean|
      invariant digits == clean[..i] && AllDigits(digits) && suffix == ""
    {
      var ch := clean[i];
      if IsDigit(ch) {
        AllDigitsSnoc(digits, ch);
        assert clean[..i + 1] == clean[..i] + [ch];
        digits := digits + [ch];
        i := i + 1;
      } else {
        suffix := clean[i..];
        break;
      }
    }
  }

  lemma AllDigitsSnoc(s: string, c: char)
    requires AllDigits(s) && IsDigit(c)
    ensures AllDigits(s + [c])
  {
    assert forall k :: 0 <= k < |s| ==> (s + [c])[k] == s[k];
  }

  /** Once the digits after the stars have been read up to the first
      non-digit, the key is determined. */
  lemma SortKeyOfDigitRun(name: string, i: nat)
    requires i <= |StripStars(name)| && AllDigits(StripStars(name)[..i])
    requires i == |StripStars(name)| || !IsDigit(StripStars(name)[i])
    ensures var clean := StripStars(name);
            SortKeyOf(name) == (if i == 0 then 999 else DigitsValue(clean[..i]), clean[i..])
  {
    var clean := StripStars(name);
    assert clean[..i] + clean[i..] == clean;
    DigitRunPrefix(clean[..i], clean[i..]);
  }

  /** Tuple order on sort keys: by number, then by suffix. */
  predicate KeyLess(k1: (int, string), k2: (int, string)) {
    k1.0 < k2.0 || (k1.0 == k2.0 && StrLess(k1.1, k2.1))
  }

  /** `sorted([a, b], key=_allele_sort_key)`, a stable two-element sort. */
  function OrderedPair(a: string, b: string): (string, string) {
    if KeyLess(SortKeyOf(b), SortKeyOf(a)) then (b, a) else (a, b)
  }

  /** The diplotype text "A/B". */
  function DiplotypeLabel(a: string, b: string): string {
    var p := OrderedPair(a, b);
    p.0 + "/" + p.1
  }

  /** The label lists both names, the one with the smaller key first. */
  lemma DiplotypeLabelOrdered(a: string, b: string)
    ensures var p := OrderedPair(a, b);
            && ((p.0 == a && p.1 == b) || (p.0 == b && p.1 == a))
            && !KeyLess(SortKeyOf(p.1), SortKeyOf(p.0))
            && DiplotypeLabel(a, b) == p.0 + "/" + p.1
  {
    var ka, kb := SortKeyOf(a), SortKeyOf(b);
    if KeyLess(kb, ka) {
      if ka.0 == kb.0 {
        StrLessAsymmetric(kb.1, ka.1);
      }
    }
  }

  /** The label does not depend on which slot an allele came from, unless
      the two names share a key without being equal. */
  lemma DiplotypeLabelSymmetric(a: string, b: string)
    requires a == b || SortKeyOf(a) != SortKeyOf(b)
    ensures DiplotypeLabel(a, b) == DiplotypeLabel(b, a)
  {
    var ka, kb := SortKeyOf(a), SortKeyOf(b);
    if a != b {
      StrLessTotal(ka.1, kb.1);
      if ka.0 == kb.0 && StrLess(ka.1, kb.1) {
        StrLessAsymmetric(ka.1, kb.1);
      }
      if ka.0 == kb.0 && StrLess(kb.1, ka.1) {
        StrLessAsymmetric(kb.1, ka.1);
      }
    }
  }

  // Numeric, not textual, order: "*10" and "*2" give "*2/*10".
  lemma NumericLabelExample()
    ensures DiplotypeLabel("*10", "*2") == "*2/*10"
  {
    SortKeyOfStarName(1, 10, "");
    SortKeyOfStarName(1, 2, "");
    assert Stars(1) + NatToString(10) + "" == "*10";
    assert Stars(1) + NatToString(2) + "" == "*2";
  }
}

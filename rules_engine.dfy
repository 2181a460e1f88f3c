/** The risk resolver of backend/rules_engine.py: a drug's rule, the phenotype
    of each matching variant, and the recommendation and confidence they give. */
module RulesEngine {
  import opened Wrappers
  import opened Parser

  /** PHENOTYPE_MAP as loaded from rules.json: gene -> star allele -> phenotype. */
  type PhenotypeMap = map<string, map<string, string>>

  /** One entry of DRUG_RULES: the required genes, the risk phenotype `risk_if`
      and the recommendation `result` given on a risk match. */
  datatype DrugRule = DrugRule(genes: seq<string>, riskIf: string, result: string)

  /** DRUG_RULES. */
  const DrugRules: map<string, DrugRule> := map[
    "Codeine" := DrugRule(["CYP2D6"], "Poor metabolizer", "Ineffective"),
    "Warfarin" := DrugRule(["CYP2C9"], "Poor metabolizer", "Reduce dose"),
    "Simvastatin" := DrugRule(["SLCO1B1"], "High toxicity risk", "Toxic risk")
  ]

  const UnknownDrug: string := "Unknown drug"
  const GeneNotFound: string := "Unknown risk (gene not found)"
  const UnknownRisk: string := "Unknown risk"
  const Safe: string := "Safe"

  /** The dictionary evaluate returns: either the two-key form
      `{recommendation, confidence}` or the four-key form that adds `gene` and
      `phenotype` (the latter possibly null). */
  datatype Evaluation =
    | Unresolved(recommendation: string, confidence: real)
    | Resolved(gene: string, phenotype: Option<string>, recommendation: string, confidence: real)

  /** `PHENOTYPE_MAP.get(gene, {}).get(star)`: absent when the gene, the star
      annotation or the allele is missing. */
  function Lookup(phenotypes: PhenotypeMap, gene: string, star: Option<string>): Option<string>
  {
    if gene in phenotypes && star.Some? && star.value in phenotypes[gene]
    then Some(phenotypes[gene][star.value])
    else None
  }

  /** Python truthiness of a looked-up phenotype: present and non-empty. */
  predicate Known(p: Option<string>)
  {
    p.Some? && p.value != ""
  }

  /** The record matches `gene` and its phenotype is the rule's risk phenotype. */
  predicate IsRisk(rule: DrugRule, phenotypes: PhenotypeMap, gene: string, v: Variant)
  {
    v.gene == gene && Lookup(phenotypes, gene, v.star) == Some(rule.riskIf)
  }

  /** No record of `vs` is a risk match for `gene`. */
  predicate NoRisk(rule: DrugRule, phenotypes: PhenotypeMap, gene: string, vs: seq<Variant>)
  {
    forall i | 0 <= i < |vs| :: !IsRisk(rule, phenotypes, gene, vs[i])
  }

  /** No record of `vs` carries any of `genes`. */
  predicate NoneMatch(vs: seq<Variant>, genes: seq<string>)
  {
    forall i | 0 <= i < |vs| :: vs[i].gene !in genes
  }

  /** The mutable locals of evaluate: `found_genes`, `phenotype_result` and
      `recommendation` (None while it is still unbound). */
  datatype Scan = Scan(found: nat, phenotype: Option<string>, recommendation: Option<string>)

  /** The recommendation has been bound, to one of the three values a matching
      record can give. */
  predicate Recommends(rule: DrugRule, st: Scan)
  {
    st.recommendation.Some? && st.recommendation.value in {rule.result, Safe, UnknownRisk}
  }

  /** The effect of one record whose gene matches: count it, then a risk match,
      a known phenotype ("Safe") or an unknown one ("Unknown risk", which keeps
      the earlier phenotype). */
  function Visit(rule: DrugRule, p: Option<string>, st: Scan): Scan
  {
    if p == Some(rule.riskIf) then Scan(st.found + 1, p, Some(rule.result))
    else if Known(p) then Scan(st.found + 1, p, Some(Safe))
    else Scan(st.found + 1, st.phenotype, Some(UnknownRisk))
  }

  /** The inner loop over the variants for one required gene, from state `st`;
      a risk match ends it (the `break`). */
  function ScanGene(rule: DrugRule, phenotypes: PhenotypeMap, gene: string, vs: seq<Variant>, st: Scan): (r: Scan)
    ensures r.found >= st.found
    ensures r.found == st.found <==> NoneMatch(vs, [gene])
    ensures r.found == st.found ==> r == st
    ensures r.found > st.found ==> Recommends(rule, r)
    decreases |vs|
  {
    if vs == [] then st
    else if vs[0].gene != gene then
      assert NoneMatch(vs, [gene]) <==> NoneMatch(vs[1..], [gene]) by {
        assert forall i | 1 <= i < |vs| :: vs[i] == vs[1..][i - 1];
      }
      ScanGene(rule, phenotypes, gene, vs[1..], st)
    else
      var p := Lookup(phenotypes, gene, vs[0].star);
      var next := Visit(rule, p, st);
      if p == Some(rule.riskIf) then next
      else ScanGene(rule, phenotypes, gene, vs[1..], next)
  }

  /** The outer loop over the required genes, from state `st`. */
  function ScanGenes(rule: DrugRule, phenotypes: PhenotypeMap, genes: seq<string>, vs: seq<Variant>, st: Scan): (r: Scan)
    ensures r.found >= st.found
    ensures r.found == st.found <==> NoneMatch(vs, genes)
    ensures r.found == st.found ==> r == st
    ensures r.found > st.found ==> Recommends(rule, r)
    decreases |genes|
  {
    if genes == [] then st
    else
      assert NoneMatch(vs, genes) <==> NoneMatch(vs, [genes[0]]) && NoneMatch(vs, genes[1..]) by {
        assert forall g :: g in genes <==> g == genes[0] || g in genes[1..];
      }
      ScanGenes(rule, phenotypes, genes[1..], vs, ScanGene(rule, phenotypes, genes[0], vs, st))
  }

  /** The part of evaluate after the rule lookup. The returned gene is the loop
      variable left over from the outer loop: the last required gene. */
  function Resolve(rule: DrugRule, vs: seq<Variant>, phenotypes: PhenotypeMap): (r: Evaluation)
    requires rule.genes != []
    ensures r.Resolved? <==> !NoneMatch(vs, rule.genes)
    ensures r.Unresolved? ==> r == Unresolved(GeneNotFound, 0.0)
    ensures r.Resolved? ==>
      r.gene == rule.genes[|rule.genes| - 1] &&
      r.recommendation in {rule.result, Safe, UnknownRisk} &&
      r.confidence > 0.0
  {
    var st := ScanGenes(rule, phenotypes, rule.genes, vs, Scan(0, None, None));
    if st.found == 0 then Unresolved(GeneNotFound, 0.0)
    else Resolved(rule.genes[|rule.genes| - 1], st.phenotype, st.recommendation.value,
                  st.found as real / |rule.genes| as real)
  }

  /** evaluate(drug, variants) against the phenotype table `phenotypes`. */
  function Outcome(drug: string, vs: seq<Variant>, phenotypes: PhenotypeMap): Evaluation
  {
    if drug !in DrugRules then Unresolved(UnknownDrug, 0.0)
    else Resolve(DrugRules[drug], vs, phenotypes)
  }

  /** evaluate, as the nested loops of the source: the outer loop over the
      rule's genes, the inner one over the variants with its `break`. */
  method Evaluate(drug: string, variants: seq<Variant>, phenotypes: PhenotypeMap) returns (r: Evaluation)
    ensures r == Outcome(drug, variants, phenotypes)
  {
    if drug !in DrugRules {
      return Unresolved(UnknownDrug, 0.0);
    }
    var rule := DrugRules[drug];
    var requiredGenes := rule.genes;
    var foundGenes: nat := 0;
    var phenotypeResult: Option<string> := None;
    var recommendation: Option<string> := None;
    var gene: Option<string> := None;
    ghost var total := ScanGenes(rule, phenotypes, requiredGenes, variants, Scan(0, None, None));
    var j := 0;
    while j < |requiredGenes|
      invariant 0 <= j <= |requiredGenes|
      invariant gene == if j == 0 then None else Some(requiredGenes[j - 1])
      invariant ScanGenes(rule, phenotypes, requiredGenes[j..], variants,
                          Scan(foundGenes, phenotypeResult, recommendation)) == total
    {
      var g := requiredGenes[j];
      gene := Some(g);
      assert requiredGenes[j..][1..] == requiredGenes[j + 1..];
      var i := 0;
      while i < |variants|
        invariant 0 <= i <= |variants|
        invariant ScanGenes(rule, phenotypes, requiredGenes[j + 1..], variants,
                            ScanGene(rule, phenotypes, g, variants[i..],
                                     Scan(foundGenes, phenotypeResult, recommendation))) == total
      {
        var v := variants[i];
        assert variants[i..][1..] == variants[i + 1..];
        if v.gene == g {
          foundGenes := foundGenes + 1;
          var star := v.star;
          var phenotype := Lookup(phenotypes, g, star);
          if phenotype == Some(rule.riskIf) {
            phenotypeResult := phenotype;
            recommendation := Some(rule.result);
            break;
          } else if Known(phenotype) {
            phenotypeResult := phenotype;
            recommendation := Some(Safe);
          } else {
            recommendation := Some(UnknownRisk);
          }
        }
        i := i + 1;
      }
      j := j + 1;
    }
    assert requiredGenes[j..] == [];
    var confidence := foundGenes as real / |requiredGenes| as real;
    if foundGenes == 0 {
      return Unresolved(GeneNotFound, 0.0);
    }
    return Resolved(gene.value, phenotypeResult, recommendation.value, confidence);
  }

  // ---------------------------------------------------------------------------
  // Reference definitions, read from the end of the variant list

  /** The number of records of `vs` that carry `gene`. */
  function Matches(vs: seq<Variant>, gene: string): nat
  {
    if vs == [] then 0
    else Matches(vs[..|vs| - 1], gene) + (if vs[|vs| - 1].gene == gene then 1 else 0)
  }

  /** The last record of `vs` that carries `gene`, if any. */
  function LastMatch(vs: seq<Variant>, gene: string): (r: Option<Variant>)
    ensures r.Some? <==> Matches(vs, gene) > 0
    ensures r.Some? ==> r.value in vs && r.value.gene == gene
  {
    if vs == [] then None
    else if vs[|vs| - 1].gene == gene then Some(vs[|vs| - 1])
    else LastMatch(vs[..|vs| - 1], gene)
  }

  /** The phenotype of the last record of `vs` that carries `gene` and has a
      known (present, non-empty) phenotype, if any. */
  function LastKnown(phenotypes: PhenotypeMap, gene: string, vs: seq<Variant>): Option<string>
  {
    if vs == [] then None
    else
      var p := Lookup(phenotypes, gene, vs[|vs| - 1].star);
      if vs[|vs| - 1].gene == gene && Known(p) then p
      else LastKnown(phenotypes, gene, vs[..|vs| - 1])
  }

  /** The recommendation a matching record gives when it is not a risk match. */
  function Verdict(phenotypes: PhenotypeMap, gene: string, v: Variant): string
  {
    if Known(Lookup(phenotypes, gene, v.star)) then Safe else UnknownRisk
  }

  // ---------------------------------------------------------------------------
  // The inner loop

  /** Before any risk match the scan is a left-to-right fold: scanning `a + b`
      scans `a`, then `b` from where `a` left off. */
  lemma {:induction false} ScanAppend(rule: DrugRule, phenotypes: PhenotypeMap, gene: string,
                                      a: seq<Variant>, b: seq<Variant>, st: Scan)
    requires NoRisk(rule, phenotypes, gene, a)
    ensures ScanGene(rule, phenotypes, gene, a + b, st) ==
            ScanGene(rule, phenotypes, gene, b, ScanGene(rule, phenotypes, gene, a, st))
  {
    if a == [] {
      assert a + b == b;
    } else {
      assert (a + b)[0] == a[0];
      assert (a + b)[1..] == a[1..] + b;
      assert !IsRisk(rule, phenotypes, gene, a[0]);
      assert NoRisk(rule, phenotypes, gene, a[1..]) by {
        forall i | 0 <= i < |a[1..]| ensures !IsRisk(rule, phenotypes, gene, a[1..][i]) {
          assert a[1..][i] == a[i + 1];
        }
      }
      var next := if a[0].gene == gene then Visit(rule, Lookup(phenotypes, gene, a[0].star), st) else st;
      ScanAppend(rule, phenotypes, gene, a[1..], b, next);
    }
  }

  /** Without a risk match: `found_genes` grows by the number of matching
      records, the recommendation is decided by the last matching record, and
      the phenotype is that of the last matching record with a known one (an
      "Unknown risk" record never clears it). */
  lemma {:induction false} ScanNoRisk(rule: DrugRule, phenotypes: PhenotypeMap, gene: string,
                                      vs: seq<Variant>, st: Scan)
    requires NoRisk(rule, phenotypes, gene, vs)
    ensures ScanGene(rule, phenotypes, gene, vs, st) ==
      Scan(st.found + Matches(vs, gene),
           LastKnown(phenotypes, gene, vs).OrElse(st.phenotype),
           if LastMatch(vs, gene).Some? then Some(Verdict(phenotypes, gene, LastMatch(vs, gene).value))
           else st.recommendation)
  {
    if vs != [] {
      var init, last := vs[..|vs| - 1], vs[|vs| - 1];
      assert vs == init + [last];
      assert NoRisk(rule, phenotypes, gene, init) by {
        forall i | 0 <= i < |init| ensures !IsRisk(rule, phenotypes, gene, init[i]) {
          assert init[i] == vs[i];
        }
      }
      assert !IsRisk(rule, phenotypes, gene, last);
      ScanAppend(rule, phenotypes, gene, init, [last], st);
      ScanNoRisk(rule, phenotypes, gene, init, st);
      assert [last][1..] == [];
    }
  }

  /** The first risk match ends the scan with the risk phenotype and the rule's
      result, having counted every matching record up to and including it. */
  lemma {:induction false} ScanRisk(rule: DrugRule, phenotypes: PhenotypeMap, gene: string,
                                    vs: seq<Variant>, k: nat, st: Scan)
    requires k < |vs| && IsRisk(rule, phenotypes, gene, vs[k])
    requires NoRisk(rule, phenotypes, gene, vs[..k])
    ensures ScanGene(rule, phenotypes, gene, vs, st) ==
            Scan(st.found + Matches(vs[..k + 1], gene), Some(rule.riskIf), Some(rule.result))
  {
    assert vs == vs[..k] + vs[k..];
    ScanAppend(rule, phenotypes, gene, vs[..k], vs[k..], st);
    ScanNoRisk(rule, phenotypes, gene, vs[..k], st);
    assert vs[k..][0] == vs[k];
    assert vs[..k + 1][..k] == vs[..k];
    assert vs[..k + 1][k] == vs[k];
  }

  /** Records after the first risk match change nothing, not even the count. */
  lemma {:induction false} ScanRiskAbsorbs(rule: DrugRule, phenotypes: PhenotypeMap, gene: string,
                                           vs: seq<Variant>, k: nat, rest: seq<Variant>, st: Scan)
    requires k < |vs| && IsRisk(rule, phenotypes, gene, vs[k])
    requires NoRisk(rule, phenotypes, gene, vs[..k])
    ensures ScanGene(rule, phenotypes, gene, vs + rest, st) == ScanGene(rule, phenotypes, gene, vs, st)
  {
    var whole := vs + rest;
    assert whole[k] == vs[k];
    assert whole[..k] == vs[..k];
    assert whole[..k + 1] == vs[..k + 1];
    ScanRisk(rule, phenotypes, gene, vs, k, st);
    ScanRisk(rule, phenotypes, gene, whole, k, st);
  }

  // ---------------------------------------------------------------------------
  // evaluate as a whole

  /** Every shipped rule requires exactly one gene, and that gene is on the
      extractor's allow-list. */
  lemma ShippedRulesSingleGene(drug: string)
    requires drug in DrugRules
    ensures |DrugRules[drug].genes| == 1
    ensures DrugRules[drug].genes[0] in TargetGenes
  {
  }

  /** With one required gene the outer loop runs once. */
  lemma {:induction false} SingleGeneScan(rule: DrugRule, phenotypes: PhenotypeMap, vs: seq<Variant>, st: Scan)
    requires |rule.genes| == 1
    ensures ScanGenes(rule, phenotypes, rule.genes, vs, st) == ScanGene(rule, phenotypes, rule.genes[0], vs, st)
  {
    var next := ScanGene(rule, phenotypes, rule.genes[0], vs, st);
    assert rule.genes[1..] == [];
    assert ScanGenes(rule, phenotypes, rule.genes[1..], vs, next) == next;
  }

  /** An unrecognised drug gives "Unknown drug" with confidence 0 and no gene or
      phenotype, whatever the variants and the phenotype table. */
  lemma UnknownDrugResult(drug: string, vs: seq<Variant>, phenotypes: PhenotypeMap)
    requires drug !in DrugRules
    ensures Outcome(drug, vs, phenotypes) == Unresolved(UnknownDrug, 0.0)
  {
  }

  /** For a recognised drug the result lacks the gene exactly when no record
      carries a required gene, and then it is "Unknown risk (gene not found)"
      with confidence 0. */
  lemma GeneNotFoundIff(drug: string, vs: seq<Variant>, phenotypes: PhenotypeMap)
    requires drug in DrugRules
    ensures Outcome(drug, vs, phenotypes) == Unresolved(GeneNotFound, 0.0) <==> NoneMatch(vs, DrugRules[drug].genes)
    ensures Outcome(drug, vs, phenotypes).Resolved? <==> !NoneMatch(vs, DrugRules[drug].genes)
  {
  }

  /** Every recommendation evaluate can produce, over the whole shipped table. */
  lemma {:induction false} RecommendationRange(drug: string, vs: seq<Variant>, phenotypes: PhenotypeMap)
    ensures Outcome(drug, vs, phenotypes).recommendation in
      {UnknownDrug, GeneNotFound, Safe, UnknownRisk, "Ineffective", "Reduce dose", "Toxic risk"}
    ensures Outcome(drug, vs, phenotypes).confidence >= 0.0
    ensures Outcome(drug, vs, phenotypes).Resolved? ==>
      drug in DrugRules &&
      Outcome(drug, vs, phenotypes).recommendation in {DrugRules[drug].result, Safe, UnknownRisk}
  {
    if drug in DrugRules {
      var r := Resolve(DrugRules[drug], vs, phenotypes);
      assert r.Resolved? ==> r.recommendation in {DrugRules[drug].result, Safe, UnknownRisk};
    }
  }

  /** On the first risk-matching record for a shipped drug the result is fixed:
      the rule's gene, the risk phenotype, the rule's result, and a confidence
      equal to the matching records up to and including that one. */
  lemma {:induction false} RiskMatchResult(drug: string, vs: seq<Variant>, phenotypes: PhenotypeMap, k: nat)
    requires drug in DrugRules
    requires k < |vs| && IsRisk(DrugRules[drug], phenotypes, DrugRules[drug].genes[0], vs[k])
    requires NoRisk(DrugRules[drug], phenotypes, DrugRules[drug].genes[0], vs[..k])
    ensures Outcome(drug, vs, phenotypes) ==
      Resolved(DrugRules[drug].genes[0], Some(DrugRules[drug].riskIf), DrugRules[drug].result,
               Matches(vs[..k + 1], DrugRules[drug].genes[0]) as real / |DrugRules[drug].genes| as real)
  {
    var rule := DrugRules[drug];
    SingleGeneScan(rule, phenotypes, vs, Scan(0, None, None));
    ScanRisk(rule, phenotypes, rule.genes[0], vs, k, Scan(0, None, None));
  }

  /** Records after the first risk match leave the whole result unchanged. */
  lemma {:induction false} RiskMatchIgnoresLater(drug: string, vs: seq<Variant>, phenotypes: PhenotypeMap,
                                                 k: nat, rest: seq<Variant>)
    requires drug in DrugRules
    requires k < |vs| && IsRisk(DrugRules[drug], phenotypes, DrugRules[drug].genes[0], vs[k])
    requires NoRisk(DrugRules[drug], phenotypes, DrugRules[drug].genes[0], vs[..k])
    ensures Outcome(drug, vs + rest, phenotypes) == Outcome(drug, vs, phenotypes)
  {
    var rule := DrugRules[drug];
    SingleGeneScan(rule, phenotypes, vs, Scan(0, None, None));
    SingleGeneScan(rule, phenotypes, vs + rest, Scan(0, None, None));
    ScanRiskAbsorbs(rule, phenotypes, rule.genes[0], vs, k, rest, Scan(0, None, None));
  }

  /** Without a risk match for a shipped drug and with at least one matching
      record: the last matching record decides the recommendation, the
      phenotype is the last known one (or null), and the confidence is the
      number of matching records. */
  lemma {:induction false} NoRiskResult(drug: string, vs: seq<Variant>, phenotypes: PhenotypeMap)
    requires drug in DrugRules
    requires NoRisk(DrugRules[drug], phenotypes, DrugRules[drug].genes[0], vs)
    requires Matches(vs, DrugRules[drug].genes[0]) > 0
    ensures LastMatch(vs, DrugRules[drug].genes[0]).Some?
    ensures Outcome(drug, vs, phenotypes) ==
      Resolved(DrugRules[drug].genes[0],
               LastKnown(phenotypes, DrugRules[drug].genes[0], vs),
               Verdict(phenotypes, DrugRules[drug].genes[0], LastMatch(vs, DrugRules[drug].genes[0]).value),
               Matches(vs, DrugRules[drug].genes[0]) as real / |DrugRules[drug].genes| as real)
  {
    var rule := DrugRules[drug];
    SingleGeneScan(rule, phenotypes, vs, Scan(0, None, None));
    ScanNoRisk(rule, phenotypes, rule.genes[0], vs, Scan(0, None, None));
  }

  /** Some record carries `gene` exactly when the count of such records is
      positive. */
  lemma {:induction false} MatchesIffSome(vs: seq<Variant>, gene: string)
    ensures Matches(vs, gene) > 0 <==> !NoneMatch(vs, [gene])
  {
    if vs != [] {
      var init := vs[..|vs| - 1];
      MatchesIffSome(init, gene);
      assert NoneMatch(vs, [gene]) <==> NoneMatch(init, [gene]) && vs[|vs| - 1].gene != gene by {
        assert forall i | 0 <= i < |init| :: init[i] == vs[i];
      }
    }
  }

  /** When some record is a risk match, there is a first one. */
  lemma {:induction false} FirstRisk(rule: DrugRule, phenotypes: PhenotypeMap, gene: string, vs: seq<Variant>)
    requires !NoRisk(rule, phenotypes, gene, vs)
    ensures exists k | 0 <= k < |vs| :: IsRisk(rule, phenotypes, gene, vs[k]) && NoRisk(rule, phenotypes, gene, vs[..k])
  {
    if IsRisk(rule, phenotypes, gene, vs[0]) {
      assert vs[..0] == [];
      assert NoRisk(rule, phenotypes, gene, vs[..0]);
    } else {
      var rest := vs[1..];
      assert !NoRisk(rule, phenotypes, gene, rest) by {
        var i :| 0 <= i < |vs| && IsRisk(rule, phenotypes, gene, vs[i]);
        assert rest[i - 1] == vs[i];
      }
      FirstRisk(rule, phenotypes, gene, rest);
      var j :| 0 <= j < |rest| && IsRisk(rule, phenotypes, gene, rest[j]) && NoRisk(rule, phenotypes, gene, rest[..j]);
      assert rest[j] == vs[j + 1];
      var prefix := vs[..j + 1];
      assert NoRisk(rule, phenotypes, gene, prefix) by {
        forall i | 0 <= i < |prefix| ensures !IsRisk(rule, phenotypes, gene, prefix[i]) {
          if i > 0 {
            assert prefix[i] == rest[..j][i - 1];
          }
        }
      }
    }
  }

  /** For a shipped drug the three cases above cover every input: no matching
      record, matching records without a risk match, or a first risk match. */
  lemma {:induction false} ShippedOutcomeCases(drug: string, vs: seq<Variant>, phenotypes: PhenotypeMap)
    requires drug in DrugRules
    ensures NoneMatch(vs, DrugRules[drug].genes) ==> Outcome(drug, vs, phenotypes) == Unresolved(GeneNotFound, 0.0)
    ensures !NoneMatch(vs, DrugRules[drug].genes) && NoRisk(DrugRules[drug], phenotypes, DrugRules[drug].genes[0], vs) ==>
      LastMatch(vs, DrugRules[drug].genes[0]).Some? &&
      Outcome(drug, vs, phenotypes) ==
        Resolved(DrugRules[drug].genes[0],
                 LastKnown(phenotypes, DrugRules[drug].genes[0], vs),
                 Verdict(phenotypes, DrugRules[drug].genes[0], LastMatch(vs, DrugRules[drug].genes[0]).value),
                 Matches(vs, DrugRules[drug].genes[0]) as real / |DrugRules[drug].genes| as real)
    ensures !NoRisk(DrugRules[drug], phenotypes, DrugRules[drug].genes[0], vs) ==>
      exists k | 0 <= k < |vs| ::
        IsRisk(DrugRules[drug], phenotypes, DrugRules[drug].genes[0], vs[k]) &&
        NoRisk(DrugRules[drug], phenotypes, DrugRules[drug].genes[0], vs[..k]) &&
        Outcome(drug, vs, phenotypes) ==
          Resolved(DrugRules[drug].genes[0], Some(DrugRules[drug].riskIf), DrugRules[drug].result,
                   Matches(vs[..k + 1], DrugRules[drug].genes[0]) as real / |DrugRules[drug].genes| as real)
  {
    var rule := DrugRules[drug];
    var g := rule.genes[0];
    assert rule.genes == [g];
    GeneNotFoundIff(drug, vs, phenotypes);
    MatchesIffSome(vs, g);
    if NoRisk(rule, phenotypes, g, vs) {
      if !NoneMatch(vs, rule.genes) {
        NoRiskResult(drug, vs, phenotypes);
      }
    } else {
      FirstRisk(rule, phenotypes, g, vs);
      var k :| 0 <= k < |vs| && IsRisk(rule, phenotypes, g, vs[k]) && NoRisk(rule, phenotypes, g, vs[..k]);
      RiskMatchResult(drug, vs, phenotypes, k);
    }
  }

  // ---------------------------------------------------------------------------
  // The break leaves only the inner loop

  /** The reading in which a risk match stops the whole scan, over every
      remaining required gene as well. */
  function ScanGenesHalting(rule: DrugRule, phenotypes: PhenotypeMap, genes: seq<string>, vs: seq<Variant>, st: Scan): Scan
    decreases |genes|
  {
    if genes == [] then st
    else
      var next := ScanGene(rule, phenotypes, genes[0], vs, st);
      if !NoRisk(rule, phenotypes, genes[0], vs) then next
      else ScanGenesHalting(rule, phenotypes, genes[1..], vs, next)
  }

  /** For every shipped rule the inner-loop break is the same as stopping the
      whole scan. */
  lemma {:induction false} ShippedBreakStopsAll(drug: string, vs: seq<Variant>, phenotypes: PhenotypeMap, st: Scan)
    requires drug in DrugRules
    ensures ScanGenes(DrugRules[drug], phenotypes, DrugRules[drug].genes, vs, st) ==
            ScanGenesHalting(DrugRules[drug], phenotypes, DrugRules[drug].genes, vs, st)
  {
    var rule := DrugRules[drug];
    SingleGeneScan(rule, phenotypes, vs, st);
    assert rule.genes[1..] == [];
  }

  /** A two-gene rule, not in the shipped table, on which the two readings
      differ: the break only ends the first gene's scan, so a safe record of
      the second gene overwrites the risk result. */
  lemma BreakIsInnerOnly(rule: DrugRule, phenotypes: PhenotypeMap, vs: seq<Variant>)
    requires rule == DrugRule(["CYP2D6", "CYP2C19"], "Poor metabolizer", "Ineffective")
    requires phenotypes == map["CYP2D6" := map["*4/*4" := "Poor metabolizer"],
                               "CYP2C19" := map["*1/*1" := "Normal metabolizer"]]
    requires vs == [Variant("CYP2D6", "rs1", Some("*4/*4")), Variant("CYP2C19", "rs2", Some("*1/*1"))]
    ensures ScanGenes(rule, phenotypes, rule.genes, vs, Scan(0, None, None)) ==
            Scan(2, Some("Normal metabolizer"), Some(Safe))
    ensures ScanGenesHalting(rule, phenotypes, rule.genes, vs, Scan(0, None, None)) ==
            Scan(1, Some("Poor metabolizer"), Some("Ineffective"))
  {
    var first := Scan(1, Some("Poor metabolizer"), Some("Ineffective"));
    var second := Scan(2, Some("Normal metabolizer"), Some(Safe));
    assert IsRisk(rule, phenotypes, "CYP2D6", vs[0]);
    assert ScanGene(rule, phenotypes, "CYP2D6", vs, Scan(0, None, None)) == first;
    assert vs[1..] == [vs[1]] && vs[1..][1..] == [];
    assert Lookup(phenotypes, "CYP2C19", vs[1].star) == Some("Normal metabolizer");
    assert ScanGene(rule, phenotypes, "CYP2C19", vs[1..], first) == second;
    assert ScanGene(rule, phenotypes, "CYP2C19", vs, first) == second;
    assert rule.genes[1..] == ["CYP2C19"];
    assert rule.genes[1..][1..] == [];
    assert ScanGenes(rule, phenotypes, rule.genes[1..], vs, first) == second;
  }

  // ---------------------------------------------------------------------------
  // Worked cases

  /** Codeine with one CYP2D6 record whose star allele the table maps to the
      rule's risk phenotype, "Poor metabolizer". */
  lemma CodeinePoorMetabolizer(rsid: string, phenotypes: PhenotypeMap)
    requires "CYP2D6" in phenotypes && "*4/*4" in phenotypes["CYP2D6"]
    requires phenotypes["CYP2D6"]["*4/*4"] == "Poor metabolizer"
    ensures Outcome("Codeine", [Variant("CYP2D6", rsid, Some("*4/*4"))], phenotypes) ==
            Resolved("CYP2D6", Some("Poor metabolizer"), "Ineffective", 1.0)
  {
    var vs := [Variant("CYP2D6", rsid, Some("*4/*4"))];
    RiskMatchResult("Codeine", vs, phenotypes, 0);
    assert vs[..1] == vs;
    assert vs[..1][..0] == [];
  }

  /** Two CYP2D6 records with a safe phenotype give Codeine a confidence of 2:
      the counter counts records, not genes. */
  lemma ConfidenceCountsRecords(phenotypes: PhenotypeMap)
    requires phenotypes == map["CYP2D6" := map["*1/*1" := "Normal metabolizer"]]
    ensures Outcome("Codeine", [Variant("CYP2D6", "rs1", Some("*1/*1")), Variant("CYP2D6", "rs2", Some("*1/*1"))], phenotypes) ==
            Resolved("CYP2D6", Some("Normal metabolizer"), Safe, 2.0)
  {
    var vs := [Variant("CYP2D6", "rs1", Some("*1/*1")), Variant("CYP2D6", "rs2", Some("*1/*1"))];
    assert vs[..1] == [vs[0]];
    assert vs[..1][..0] == [];
    NoRiskResult("Codeine", vs, phenotypes);
  }

  /** Warfarin without any CYP2C9 record. */
  lemma WarfarinGeneMissing(vs: seq<Variant>, phenotypes: PhenotypeMap)
    requires forall i | 0 <= i < |vs| :: vs[i].gene != "CYP2C9"
    ensures Outcome("Warfarin", vs, phenotypes) == Unresolved(GeneNotFound, 0.0)
  {
    GeneNotFoundIff("Warfarin", vs, phenotypes);
  }

  /** Simvastatin with one SLCO1B1 record whose allele the table does not know:
      "Unknown risk", confidence 1, phenotype null. */
  lemma SimvastatinUnknownAllele(rsid: string, star: Option<string>, phenotypes: PhenotypeMap)
    requires Lookup(phenotypes, "SLCO1B1", star) == None
    ensures Outcome("Simvastatin", [Variant("SLCO1B1", rsid, star)], phenotypes) ==
            Resolved("SLCO1B1", None, UnknownRisk, 1.0)
  {
    var vs := [Variant("SLCO1B1", rsid, star)];
    assert vs[..0] == [];
    NoRiskResult("Simvastatin", vs, phenotypes);
  }

  /** Azathioprine has no rule, so variants are never consulted. */
  lemma AzathioprineUnknown(vs: seq<Variant>, phenotypes: PhenotypeMap)
    ensures Outcome("Azathioprine", vs, phenotypes) == Unresolved(UnknownDrug, 0.0)
  {
  }
}

/** The decision logic of frontend/app.py: the severity colour of the risk card,
    the defaults read from the response, and whether genetic findings are shown. */
module Severity {
  import opened Wrappers
  import opened RulesEngine

  /** The three risk-card styles: risk-green, risk-yellow and risk-red. */
  datatype CardStyle = Green | Yellow | Red

  /** Python's `sub in s` on strings, by scanning the start positions of `s`. */
  function Contains(s: string, sub: string): bool
    decreases |s|
  {
    sub <= s || (s != [] && Contains(s[1..], sub))
  }

  /** `sub` occurs in `s` starting at position `i`. */
  ghost predicate OccursAt(s: string, sub: string, i: int)
  {
    0 <= i && i + |sub| <= |s| && s[i..i + |sub|] == sub
  }

  /** `sub` is a substring of `s`. */
  ghost predicate Occurs(s: string, sub: string)
  {
    exists i :: OccursAt(s, sub, i)
  }

  /** The scan agrees with the definition of substring. */
  lemma {:induction false} ContainsIff(s: string, sub: string)
    ensures Contains(s, sub) <==> Occurs(s, sub)
  {
    assert OccursAt(s, sub, 0) <==> sub <= s;
    if sub <= s {
      assert OccursAt(s, sub, 0);
    } else if s == [] {
      assert forall i :: !OccursAt(s, sub, i);
    } else {
      ContainsIff(s[1..], sub);
      forall i | OccursAt(s[1..], sub, i) ensures OccursAt(s, sub, i + 1) {
        assert s[1..][i..i + |sub|] == s[i + 1..i + 1 + |sub|];
      }
      forall i | OccursAt(s, sub, i) ensures OccursAt(s[1..], sub, i - 1) {
        assert s[1..][i - 1..i - 1 + |sub|] == s[i..i + |sub|];
      }
    }
  }

  /** A string without the first character of `sub` does not contain `sub`. */
  lemma {:induction false} NotContainsWithoutFirst(s: string, sub: string)
    requires sub != [] && sub[0] !in s
    ensures !Contains(s, sub)
  {
    if s != [] {
      assert sub[0] !in s[1..] by {
        forall k | 0 <= k < |s[1..]| ensures s[1..][k] != sub[0] {
          assert s[1..][k] == s[k + 1];
        }
      }
      NotContainsWithoutFirst(s[1..], sub);
    }
  }

  /** The risk card's colour: "Safe" first, then "Reduce" or "Adjust", else red. */
  function SeverityOf(recommendation: string): CardStyle
  {
    if Contains(recommendation, "Safe") then Green
    else if Contains(recommendation, "Reduce") || Contains(recommendation, "Adjust") then Yellow
    else Red
  }

  /** The colour in terms of substrings: green exactly when "Safe" occurs
      (whatever else does), yellow exactly when "Safe" does not but "Reduce" or
      "Adjust" does, red exactly when none of the three occurs. */
  lemma SeverityOfSpec(recommendation: string)
    ensures SeverityOf(recommendation) == Green <==> Occurs(recommendation, "Safe")
    ensures SeverityOf(recommendation) == Yellow <==>
      !Occurs(recommendation, "Safe") &&
      (Occurs(recommendation, "Reduce") || Occurs(recommendation, "Adjust"))
    ensures SeverityOf(recommendation) == Red <==>
      !Occurs(recommendation, "Safe") && !Occurs(recommendation, "Reduce") && !Occurs(recommendation, "Adjust")
  {
    ContainsIff(recommendation, "Safe");
    ContainsIff(recommendation, "Reduce");
    ContainsIff(recommendation, "Adjust");
  }

  /** `result.get("recommendation", "Unknown")`, where `result` is None when the
      response has no "result" entry. */
  function ShownRecommendation(result: Option<Evaluation>): string
  {
    if result.Some? then result.value.recommendation else "Unknown"
  }

  /** `result.get("confidence", 0)`. */
  function ShownConfidence(result: Option<Evaluation>): real
  {
    if result.Some? then result.value.confidence else 0.0
  }

  /** `if result.get("gene")`: a gene is present and non-empty. */
  predicate ShowsFindings(result: Option<Evaluation>)
  {
    result.Some? && result.value.Resolved? && result.value.gene != ""
  }

  /** A response without a result shows "Unknown" in red at confidence 0. */
  lemma MissingResultDefaults()
    ensures ShownRecommendation(None) == "Unknown"
    ensures ShownConfidence(None) == 0.0
    ensures SeverityOf(ShownRecommendation(None)) == Red
  {
    RedWithoutCapitals("Unknown");
  }

  /** A recommendation without any of the capitals S, R and A is red. */
  lemma {:induction false} RedWithoutCapitals(recommendation: string)
    requires 'S' !in recommendation && 'R' !in recommendation && 'A' !in recommendation
    ensures SeverityOf(recommendation) == Red
  {
    NotContainsWithoutFirst(recommendation, "Safe");
    NotContainsWithoutFirst(recommendation, "Reduce");
    NotContainsWithoutFirst(recommendation, "Adjust");
  }

  /** The colour of each recommendation string the resolver emits. */
  lemma {:induction false} ResolverStringSeverity(recommendation: string)
    requires recommendation in
      {UnknownDrug, GeneNotFound, Safe, UnknownRisk, "Ineffective", "Reduce dose", "Toxic risk"}
    ensures SeverityOf(recommendation) ==
      if recommendation == Safe then Green
      else if recommendation == "Reduce dose" then Yellow
      else Red
  {
    if recommendation == Safe {
      assert "Safe" <= recommendation;
    } else if recommendation == "Reduce dose" {
      assert "Reduce" <= recommendation;
      NotContainsWithoutFirst(recommendation, "Safe");
    } else {
      RedWithoutCapitals(recommendation);
    }
  }

  /** Composed with the resolver: "Safe" is green, Warfarin's "Reduce dose"
      yellow, and every other result evaluate can give is red. */
  lemma EvaluationSeverity(drug: string, vs: seq<Parser.Variant>, phenotypes: PhenotypeMap)
    ensures SeverityOf(Outcome(drug, vs, phenotypes).recommendation) ==
      if Outcome(drug, vs, phenotypes).recommendation == Safe then Green
      else if Outcome(drug, vs, phenotypes).recommendation == "Reduce dose" then Yellow
      else Red
  {
    RecommendationRange(drug, vs, phenotypes);
    ResolverStringSeverity(Outcome(drug, vs, phenotypes).recommendation);
  }

  /** The genetic-findings section appears exactly for a recognised drug with at
      least one record of a required gene. */
  lemma FindingsShownIff(drug: string, vs: seq<Parser.Variant>, phenotypes: PhenotypeMap)
    ensures ShowsFindings(Some(Outcome(drug, vs, phenotypes))) <==>
      drug in DrugRules && !NoneMatch(vs, DrugRules[drug].genes)
  {
    if drug in DrugRules {
      ShippedRulesSingleGene(drug);
      GeneNotFoundIff(drug, vs, phenotypes);
    }
  }
}

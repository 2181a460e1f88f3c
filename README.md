# PharmaGuard decision core in Dafny

PharmaGuard maps a patient's genetic variants to a risk recommendation for one drug. It works in two stages, and a small presentation step follows:

- **Variant extractor** (`parse_vcf`, module `Parser`). It reads a VCF record stream and keeps the records annotated with a gene from a fixed allow-list of six pharmacogenes. Each kept record becomes `{gene, rsid, star}`.
- **Risk resolver** (`evaluate`, module `RulesEngine`). It looks the drug up in a constant three-drug rule table. It then resolves each matching record's star allele to a phenotype through the phenotype table, and produces a recommendation and a confidence.
- **Severity** (module `Severity`). The web page colours that recommendation green, yellow or red by substring tests. It shows the genetic findings only when the result names a gene.

The files:

- `wrappers.dfy` holds `Option` and `Result`.
- `parser.dfy` holds the extractor. The method `ParseVcf` is the source's loop. It is proved equal to the record-by-record function `Extract`, and lemmas state what `Extract` keeps.
- `rules_engine.dfy` holds the resolver. The method `Evaluate` is the source's two nested loops, with the inner `break`, over the locals `found_genes`, `phenotype_result` and `recommendation`. It is proved equal to `Outcome`. `Outcome` is built from the accumulator functions `ScanGene` (the inner loop) and `ScanGenes` (the outer loop). Lemmas relate these functions to independent reference definitions that read the variant list from its end (`Matches`, `LastMatch` and `LastKnown`) and to `Verdict`, the recommendation a single non-risk record gives.
- `severity.dfy` holds the colour classification. It uses Python's substring test (`Contains`), which is proved equal to the quantified definition `Occurs`. Lemmas compose the classification with every string `evaluate` can return.

Inputs the source gets from outside become parameters:

- The phenotype table comes from `rules.json` at load time. It is the parameter `phenotypes: map<string, map<string, string>>`.
- The decoded VCF stream is an abstract `seq<RawRecord>`. A record is either `Malformed`, when reading its annotations raises, or `Entry(gene, id, star)`, with the `GENE` and `STAR` annotations optional.
- Opening the file gives a `Result`. `Failure(msg)` stands for the reader's exception.

The model follows the code on four points where a reader might expect otherwise:

- `found_genes` grows once per matching *record*, not once per gene. So the confidence is the number of matching records scanned divided by the number of required genes. It can exceed 1: two safe CYP2D6 records give Codeine a confidence of 2.0 (`ConfidenceCountsRecords`).
- `break` leaves only the inner loop over the variants. For the shipped table, where every rule has one gene, this is the same as stopping the whole scan (`ShippedBreakStopsAll`). For a two-gene rule the two readings differ (`BreakIsInnerOnly`).
- `elif phenotype:` is Python truthiness. A phenotype that is present but empty counts as unknown. It gives "Unknown risk" and leaves the earlier phenotype in place.
- The returned `gene` is the loop variable left over from the outer loop: the last required gene. It is not necessarily the gene that decided the recommendation.

## Model

| member | source | states |
|---|---|---|
| `Parser.ParseVcf` | backend/parser.py:12-35 | If the file cannot be opened, the result is the failure `"Invalid VCF file: " + message` and no records. Otherwise the result is exactly `Extract` of the record stream, built by the filtering loop. |
| `Parser.ExtractAppend` | backend/parser.py:20-30 | Extraction distributes over concatenation. The output is therefore the kept records in input order, with one output per kept input record. |
| `Parser.ExtractMembers` | backend/parser.py:22-29 | A variant is in the output if and only if its gene is in `TARGET_GENES` and some input record is a well-formed entry with that gene, `rsid == ID` and that `STAR` annotation (possibly null). |
| `Parser.ExtractOnlyTargets` | backend/parser.py:3-25 | Every output record's gene is on the allow-list and comes from an entry whose `GENE` annotation is present, so a record with no gene is never extracted. |
| `Parser.ExtractSkipsMalformed` | backend/parser.py:20-33 | A malformed record in any position is dropped. The records before and after it are extracted as if it were absent, so extraction is never aborted. |
| `Parser.ExtractKeepsEntry` | backend/parser.py:25-30 | A well-formed allow-listed record yields exactly one output record `{gene, ID, STAR}` in its own position, whatever surrounds it. Duplicates are therefore all kept. |
| `Parser.ExtractSkipsUnlisted` | backend/parser.py:22-25 | A well-formed entry whose `GENE` is missing or not on the allow-list is dropped in any position, and the records on both sides are extracted as if it were absent. |
| `RulesEngine.ScanGene` | backend/rules_engine.py:38-52 | Over one gene's inner loop, the counter never decreases. It stays the same exactly when no record carries the gene, and then nothing changes. Once it has grown, `recommendation` is bound to the rule's result, "Safe" or "Unknown risk". |
| `RulesEngine.ScanGenes` | backend/rules_engine.py:37-52 | The same facts for the outer loop over all required genes. The counter stays 0 exactly when no record carries any required gene. |
| `RulesEngine.Resolve` | backend/rules_engine.py:31-67 | For a rule with genes, the result carries a gene exactly when some record matches a required gene. Otherwise it is `"Unknown risk (gene not found)"` with confidence 0. A resolved result names the last required gene, has one of the three recommendations and has a positive confidence. |
| `RulesEngine.Evaluate` | backend/rules_engine.py:24-67 | The nested loops, with the inner `break`, the counter and the never-unbound `recommendation`, compute exactly `Outcome`. |
| `RulesEngine.Lookup` | backend/rules_engine.py:41-42 | `PHENOTYPE_MAP.get(gene, {}).get(star)`: absent when the gene, the star annotation or the allele is missing. It has no contract of its own. `ScanNoRisk`, through `LastKnown` and `Verdict`, and `ScanRisk`, through `IsRisk`, state what the lookup decides. |
| `RulesEngine.ScanAppend` | backend/rules_engine.py:38-52 | Before any risk match, the inner loop is a left-to-right fold: scanning `a + b` is scanning `b` from the state `a` leaves. |
| `RulesEngine.ScanNoRisk` | backend/rules_engine.py:40-52 | Without a risk match: the counter grows by the number of matching records, and the last matching record decides between "Safe" and "Unknown risk". The phenotype is that of the last matching record with a known phenotype, or the earlier value, so an "Unknown risk" record never clears it. |
| `RulesEngine.ScanRisk` | backend/rules_engine.py:40-47 | At the first risk-matching record the scan stops with `phenotype = risk_if` and `recommendation = result`. The counter has counted the matching records up to and including that one. |
| `RulesEngine.ScanRiskAbsorbs` | backend/rules_engine.py:44-47 | Records appended after the first risk match change neither the fields nor the counter. |
| `RulesEngine.ShippedRulesSingleGene` | backend/rules_engine.py:6-22 | Each drug in `DRUG_RULES` requires exactly one gene, and that gene is on the extractor's allow-list. |
| `RulesEngine.SingleGeneScan` | backend/rules_engine.py:37-38 | With a single required gene the outer loop is one run of the inner loop. |
| `RulesEngine.UnknownDrugResult` | backend/rules_engine.py:25-29 | A drug that is not in the table gives `{"Unknown drug", 0}` with no gene or phenotype, for all variants and all phenotype tables. |
| `RulesEngine.GeneNotFoundIff` | backend/rules_engine.py:34-60 | For a known drug, the result is `{"Unknown risk (gene not found)", 0}` if and only if no record carries a required gene. Otherwise it is the four-field result. |
| `RulesEngine.RecommendationRange` | backend/rules_engine.py:25-67 | Every recommendation is one of the seven strings the resolver can produce. The confidence is never negative. A resolved result's recommendation is the rule's result, "Safe" or "Unknown risk". |
| `RulesEngine.RiskMatchResult` | backend/rules_engine.py:40-67 | For a shipped drug, once the first risk-matching record is reached the result is `{gene, risk_if, result, c / len(genes)}`, where `c` counts the matching records up to and including it (the divisor is 1 for every shipped rule). |
| `RulesEngine.RiskMatchIgnoresLater` | backend/rules_engine.py:44-47 | For a shipped drug, records after the first risk match leave the whole result unchanged. |
| `RulesEngine.NoRiskResult` | backend/rules_engine.py:44-67 | Take a shipped drug with at least one matching record and no risk match. The recommendation is decided by the last matching record, the phenotype is the last known one or null, and the confidence is the number of matching records divided by `len(genes)`, which is 1. |
| `RulesEngine.MatchesIffSome` | backend/rules_engine.py:38-40 | The number of records carrying a gene is positive if and only if some record carries it. This joins the counter of `NoRiskResult` to the condition of `GeneNotFoundIff`. |
| `RulesEngine.FirstRisk` | backend/rules_engine.py:38-47 | If some record is a risk match for a gene, there is a first one: a risk match at `k` with no risk match before it. |
| `RulesEngine.ShippedOutcomeCases` | backend/rules_engine.py:31-67 | For a shipped drug every input falls in one of three cases. With no matching record the result is gene-not-found with 0. With matching records but no risk match it is the `NoRiskResult` form. Otherwise, at the first risk match `k`, it is the `RiskMatchResult` form. |
| `RulesEngine.ShippedBreakStopsAll` | backend/rules_engine.py:37-47 | For every shipped rule, the inner-loop `break` gives the same scan as stopping all scanning. |
| `RulesEngine.BreakIsInnerOnly` | backend/rules_engine.py:37-47 | For a hypothetical two-gene rule, a safe record of the second gene overwrites the first gene's risk result, which stopping all scanning would have kept. |
| `RulesEngine.CodeinePoorMetabolizer` | backend/rules_engine.py:7-67 | Codeine with one CYP2D6 record whose allele maps to "Poor metabolizer" gives `{CYP2D6, "Poor metabolizer", "Ineffective", 1.0}`. |
| `RulesEngine.ConfidenceCountsRecords` | backend/rules_engine.py:40-54 | Two safe CYP2D6 records give Codeine `{CYP2D6, "Normal metabolizer", "Safe", 2.0}`: the counter counts records. |
| `RulesEngine.WarfarinGeneMissing` | backend/rules_engine.py:12-60 | Warfarin with no CYP2C9 record gives `{"Unknown risk (gene not found)", 0}`. |
| `RulesEngine.SimvastatinUnknownAllele` | backend/rules_engine.py:17-67 | Simvastatin with one SLCO1B1 record whose allele is missing from the table gives "Unknown risk" with confidence 1.0 and a null phenotype. |
| `RulesEngine.AzathioprineUnknown` | backend/rules_engine.py:25-29 | Azathioprine is not in the table, so it gives `{"Unknown drug", 0}` whatever the variants. |
| `Severity.ContainsIff` | frontend/app.py:62-64 | Python's `"x" in s` used by the colour tests holds exactly when `x` occurs in `s` at some position. |
| `Severity.SeverityOf` | frontend/app.py:62-67 | The if/elif/else colour chain: "Safe" first, then "Reduce" or "Adjust", else red. It has no contract of its own. `SeverityOfSpec` states its meaning in terms of substrings. |
| `Severity.SeverityOfSpec` | frontend/app.py:62-67 | Green if and only if "Safe" occurs, whatever else does. Yellow if and only if "Safe" does not occur but "Reduce" or "Adjust" does. Red if and only if none of the three occurs. |
| `Severity.RedWithoutCapitals` | frontend/app.py:62-67 | A recommendation that contains none of the letters `S`, `R`, `A` is red. |
| `Severity.ShownRecommendation` | frontend/app.py:53-54 | `result.get("recommendation", "Unknown")`, with a missing `result` as the empty dictionary. It has no contract of its own. `MissingResultDefaults` states the default. |
| `Severity.ShownConfidence` | frontend/app.py:53-55 | `result.get("confidence", 0)`. It has no contract of its own. `MissingResultDefaults` states the default. |
| `Severity.MissingResultDefaults` | frontend/app.py:53-67 | A response without a result shows "Unknown" at confidence 0, and "Unknown" is red. |
| `Severity.ResolverStringSeverity` | frontend/app.py:62-67 | Of the resolver's seven strings, "Safe" is green and "Reduce dose" is yellow. "Ineffective", "Toxic risk", "Unknown risk", "Unknown risk (gene not found)" and "Unknown drug" are red. |
| `Severity.EvaluationSeverity` | frontend/app.py:62-67 | For every input to `evaluate`, the card is green exactly for "Safe", yellow exactly for "Reduce dose", and red otherwise. |
| `Severity.ShowsFindings` | frontend/app.py:75 | The guard `if result.get("gene")`: a gene is present and non-empty. It has no contract of its own. `FindingsShownIff` states when it holds. |
| `Severity.FindingsShownIff` | frontend/app.py:75-78 | The genetic-findings section appears if and only if the drug is in the table and some record carries a required gene. |

## Left out

- The OpenAI explanation call (backend/llm.py) is not modelled. It is a network call with a template fallback and has no decision logic.
- The API endpoint (backend/main.py) is not modelled: temporary files, uuid names, PDF generation, base64 encoding and file removal are all I/O. The endpoint requests an explanation only when `result.get("gene")` is truthy. That is the condition `ShowsFindings` captures, so `FindingsShownIff` also says when an explanation is requested.
- VCF decoding by cyvcf2 is abstracted as a `seq<RawRecord>`. Not modelled: an error raised while iterating the stream itself (outside the per-record `try`), `INFO` values that are not strings, and `variant.ID` being `None` for a `.` identifier.
- The contents of `rules.json` are a parameter. The model assumes the shape gene → allele → phenotype string and does not model other JSON values.
- `round(..., 2)` and floating point are not modelled. Confidence is the exact ratio `found_genes / len(genes)`, which is what rounding gives for the shipped one-gene rules. For rules with several genes the two-place rounding is left out.
- A rule with an empty gene list would raise `ZeroDivisionError` in the source. The shipped table has none, and `Resolve` requires a non-empty gene list.
- A variant dictionary without a `gene` key would raise `KeyError` in the source. This is not modelled, because every extracted record has one.
- RiskMatchResult, RiskMatchIgnoresLater, NoRiskResult and ShippedOutcomeCases are stated for the shipped single-gene rules only. For a multi-gene rule the per-gene facts (`ScanRisk`, `ScanRiskAbsorbs`, `ScanNoRisk`) hold, but later genes can overwrite the result, as `BreakIsInnerOnly` shows.
- The Streamlit rendering is not modelled: HTML and CSS, `st.progress`, `int(confidence*100)`, `requests.post`, the drug selector, the upload check and the download buttons. Of frontend/app.py, only the severity choice, the `.get` defaults and the findings guard are modelled.
- The source has no concurrency or initialisation mechanism, so none is modelled. Its tables are module-level constants: `DrugRules`, `TargetGenes`, and the phenotype parameter.

/** The variant extractor of backend/parser.py: it filters a decoded VCF record
    stream down to the pharmacogenes of an allow-list. */
module Parser {
  import opened Wrappers

  /** The allow-list of pharmacogenes the extractor keeps. */
  const TargetGenes: seq<string> := ["CYP2D6", "CYP2C19", "CYP2C9", "SLCO1B1", "TPMT", "DPYD"]

  /** Prefix of the message raised when the VCF reader cannot open the file. */
  const InvalidVcf: string := "Invalid VCF file: "

  /** One record of the decoded stream. `Malformed` is a record whose INFO or ID
      access raises; otherwise the `GENE` and `STAR` annotations may be absent. */
  datatype RawRecord =
    | Malformed
    | Entry(gene: Option<string>, id: string, star: Option<string>)

  /** One extracted record: the dictionary `{"gene", "rsid", "star"}`. */
  datatype Variant = Variant(gene: string, rsid: string, star: Option<string>)

  /** What a single input record contributes to the output: itself as a Variant
      when it is well formed and annotated with an allow-listed gene, else nothing. */
  function Kept(r: RawRecord): seq<Variant>
  {
    match r
    case Malformed => []
    case Entry(gene, id, star) =>
      if gene.Some? && gene.value in TargetGenes then [Variant(gene.value, id, star)] else []
  }

  /** The extraction of a whole stream, record by record in input order. */
  function Extract(records: seq<RawRecord>): seq<Variant>
    decreases |records|
  {
    if records == [] then [] else Kept(records[0]) + Extract(records[1..])
  }

  /** parse_vcf. `file` is the result of opening the VCF: the decoded record
      stream, or the message of the exception the reader raised. */
  method ParseVcf(file: Result<seq<RawRecord>, string>) returns (r: Result<seq<Variant>, string>)
    ensures file.Failure? ==> r == Failure(InvalidVcf + file.error)
    ensures file.Success? ==> r == Success(Extract(file.value))
  {
    if file.Failure? {
      return Failure(InvalidVcf + file.error);
    }
    var records := file.value;
    var extracted: seq<Variant> := [];
    var i := 0;
    while i < |records|
      invariant 0 <= i <= |records|
      invariant extracted == Extract(records[..i])
    {
      var variant := records[i];
      match variant {
        case Malformed =>
          // the annotation access raised: skip the record and continue
        case Entry(gene, id, star) =>
          if gene.Some? && gene.value in TargetGenes {
            extracted := extracted + [Variant(gene.value, id, star)];
          }
      }
      assert records[..i + 1] == records[..i] + [variant];
      ExtractAppend(records[..i], [variant]);
      i := i + 1;
    }
    assert records[..i] == records;
    return Success(extracted);
  }

  /** Extraction works record by record: it distributes over concatenation, so
      the output keeps input order and one entry per kept record. */
  lemma {:induction false} ExtractAppend(a: seq<RawRecord>, b: seq<RawRecord>)
    ensures Extract(a + b) == Extract(a) + Extract(b)
  {
    if a == [] {
      assert a + b == b;
    } else {
      assert (a + b)[0] == a[0];
      assert (a + b)[1..] == a[1..] + b;
      ExtractAppend(a[1..], b);
    }
  }

  /** A variant is extracted exactly when some input record is a well-formed
      entry carrying its allow-listed gene, its ID and its STAR annotation. */
  lemma {:induction false} ExtractMembers(records: seq<RawRecord>, v: Variant)
    ensures v in Extract(records) <==>
      v.gene in TargetGenes &&
      exists i | 0 <= i < |records| :: records[i] == Entry(Some(v.gene), v.rsid, v.star)
  {
    if records != [] {
      ExtractMembers(records[1..], v);
      assert Extract(records) == Kept(records[0]) + Extract(records[1..]);
      if v in Extract(records[1..]) {
        var i :| 0 <= i < |records[1..]| && records[1..][i] == Entry(Some(v.gene), v.rsid, v.star);
        assert records[i + 1] == records[1..][i];
      }
      if exists i | 0 <= i < |records| :: records[i] == Entry(Some(v.gene), v.rsid, v.star) {
        var i :| 0 <= i < |records| && records[i] == Entry(Some(v.gene), v.rsid, v.star);
        if i > 0 {
          assert records[1..][i - 1] == records[i];
        }
      }
    }
  }

  /** Every extracted record's gene is on the allow-list; a record without a
      GENE annotation, or a malformed one, never yields an output record. */
  lemma {:induction false} ExtractOnlyTargets(records: seq<RawRecord>)
    ensures forall v | v in Extract(records) :: v.gene in TargetGenes
    ensures forall v | v in Extract(records) ::
      exists i | 0 <= i < |records| :: records[i].Entry? && records[i].gene == Some(v.gene)
  {
    forall v | v in Extract(records)
      ensures v.gene in TargetGenes
      ensures exists i | 0 <= i < |records| :: records[i].Entry? && records[i].gene == Some(v.gene)
    {
      ExtractMembers(records, v);
    }
  }

  /** A malformed record is dropped without aborting: the records on both sides
      of it are extracted as if it were not there. */
  lemma {:induction false} ExtractSkipsMalformed(before: seq<RawRecord>, after: seq<RawRecord>)
    ensures Extract(before + [Malformed] + after) == Extract(before) + Extract(after)
  {
    var single: seq<RawRecord> := [Malformed];
    assert single[1..] == [];
    assert Extract(single) == Kept(Malformed) + Extract([]);
    ExtractAppend(before + single, after);
    ExtractAppend(before, single);
  }

  /** A well-formed record annotated with an allow-listed gene yields exactly one
      output record, in its own position, whatever surrounds it; equal records
      are therefore each kept, never merged. */
  lemma {:induction false} ExtractKeepsEntry(before: seq<RawRecord>, gene: string, id: string,
                                             star: Option<string>, after: seq<RawRecord>)
    requires gene in TargetGenes
    ensures Extract(before + [Entry(Some(gene), id, star)] + after) ==
            Extract(before) + [Variant(gene, id, star)] + Extract(after)
  {
    var single: seq<RawRecord> := [Entry(Some(gene), id, star)];
    assert single[1..] == [];
    assert Extract(single) == Kept(single[0]) + Extract([]);
    ExtractAppend(before + single, after);
    ExtractAppend(before, single);
  }

  /** A well-formed record whose GENE annotation is missing or not on the
      allow-list is dropped: the records on both sides of it are extracted as
      if it were not there. */
  lemma {:induction false} ExtractSkipsUnlisted(before: seq<RawRecord>, gene: Option<string>, id: string,
                                                star: Option<string>, after: seq<RawRecord>)
    requires gene.None? || gene.value !in TargetGenes
    ensures Extract(before + [Entry(gene, id, star)] + after) == Extract(before) + Extract(after)
  {
    var single: seq<RawRecord> := [Entry(gene, id, star)];
    assert single[1..] == [];
    assert Extract(single) == Kept(single[0]) + Extract([]);
    ExtractAppend(before + single, after);
    ExtractAppend(before, single);
  }
}

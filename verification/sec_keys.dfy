/**
 * The names the stages agree on without ever passing them to one another:
 * the submissions object written by company-ingest and read by company-proc,
 * the filing-text object written by filings-ingest and parsed back by
 * embeddings, and the EDGAR archive URL company-proc records for each filing.
 */
module SecKeys {
  import opened Wrappers
  import opened Text

  /** CIKs are left-padded with zeros to this width (`cik.zfill(10)`). */
  const CikWidth: nat := 10

  /** The zero-padded CIK used in submissions URLs and keys. */
  function PaddedCik(cik: string): string {
    Zfill(cik, CikWidth)
  }

  /** The object key company-ingest writes and company-proc reads for one company. */
  function SubmissionsKey(cik: string): string {
    "submissions/CIK" + PaddedCik(cik) + ".json"
  }

  /** The EDGAR submissions document company-ingest fetches for one company. */
  function SubmissionsUrl(cik: string): string {
    "https://data.sec.gov/submissions/CIK" + PaddedCik(cik) + ".json"
  }

  /** A CIK as EDGAR writes it: decimal digits only. */
  predicate DigitString(s: string) {
    forall i :: 0 <= i < |s| ==> '0' <= s[i] <= '9'
  }

  /**
   * For a CIK of at most ten digits the submissions key is the fixed-width
   * "submissions/CIK" + ten characters + ".json", the CIK sits right-aligned in
   * the ten, everything to its left is '0', and the fetch URL is the key under
   * the data.sec.gov origin.
   */
  lemma SubmissionsKeyShape(cik: string)
    requires DigitString(cik) && |cik| <= CikWidth
    ensures |SubmissionsKey(cik)| == 15 + CikWidth + 5
    ensures SubmissionsKey(cik)[..15] == "submissions/CIK"
    ensures SubmissionsKey(cik)[15 + CikWidth - |cik|..15 + CikWidth] == cik
    ensures forall i :: 15 <= i < 15 + CikWidth - |cik| ==> SubmissionsKey(cik)[i] == '0'
    ensures SubmissionsKey(cik)[15 + CikWidth..] == ".json"
    ensures SubmissionsUrl(cik) == "https://data.sec.gov/" + SubmissionsKey(cik)
  {
    var p := PaddedCik(cik);
    PaddedShape(cik);
    ThreeParts("submissions/CIK", p, ".json");
    var key := SubmissionsKey(cik);
    assert key[15..15 + CikWidth] == p;
    forall i | 15 <= i < 15 + CikWidth - |cik| ensures key[i] == '0' {
      assert key[i] == p[i - 15];
    }
    assert "https://data.sec.gov/submissions/CIK" == "https://data.sec.gov/" + "submissions/CIK";
  }

  /** A CIK of at most ten digits is right-aligned in ten characters, zeros to its left. */
  lemma PaddedShape(cik: string)
    requires DigitString(cik) && |cik| <= CikWidth
    ensures |PaddedCik(cik)| == CikWidth
    ensures PaddedCik(cik)[CikWidth - |cik|..] == cik
    ensures forall i :: 0 <= i < CikWidth - |cik| ==> PaddedCik(cik)[i] == '0'
  {
    assert !Signed(cik);
  }

  /** The three parts of a concatenation, read back by position. */
  lemma ThreeParts(a: string, p: string, b: string)
    ensures |a + p + b| == |a| + |p| + |b|
    ensures (a + p + b)[..|a|] == a
    ensures (a + p + b)[|a|..|a| + |p|] == p
    ensures (a + p + b)[|a| + |p|..] == b
  {
  }

  // ---------------------------------------------------------------------------
  // Filing-text objects
  // ---------------------------------------------------------------------------

  /** The identity of one filing as the key of its text object spells it out. */
  datatype FilingRef = FilingRef(cik: string, form: string, accession: string)

  /** `f"filings/{cik}/{form}_{accession_number}.txt"` */
  function FilingKey(cik: string, form: string, accession: string): string {
    "filings/" + cik + "/" + form + "_" + accession + ".txt"
  }

  /**
   * How embeddings reads a key back: the second '/'-separated part is the CIK,
   * the third must split on '_' into exactly the form and the rest, and the
   * accession number is that rest up to its first '.'. Any other shape makes
   * the Python code raise (IndexError or ValueError), modelled as `None`.
   * The first part is not looked at.
   */
  function ParseFilingKey(key: string): (r: Option<FilingRef>)
    ensures r.Some? <==>
      |Split(key, '/')| >= 3 && |Split(Split(key, '/')[2], '_')| == 2
    ensures r.Some? ==> r.value.cik == Split(key, '/')[1]
  {
    var parts := Split(key, '/');
    if |parts| < 3 then None
    else
      var halves := Split(parts[2], '_');
      if |halves| != 2 then None
      else Some(FilingRef(parts[1], halves[0], Split(halves[1], '.')[0]))
  }

  /** The components a key can carry and still be read back unchanged. */
  predicate KeySafe(cik: string, form: string, accession: string) {
    && !Contains(cik, '/')
    && !Contains(form, '/') && !Contains(form, '_')
    && !Contains(accession, '/') && !Contains(accession, '_') && !Contains(accession, '.')
  }

  /** Reading back a key filings-ingest wrote gives back the filing it names. */
  lemma ParseFilingKeyRoundTrip(cik: string, form: string, accession: string)
    requires KeySafe(cik, form, accession)
    ensures ParseFilingKey(FilingKey(cik, form, accession)) == Some(FilingRef(cik, form, accession))
  {
    var name := form + "_" + accession + ".txt";
    assert !Contains(".txt", '/') && !Contains(".txt", '_');
    assert !Contains("txt", '.');
    assert !Contains("filings", '/');
    assert !Contains(accession + ".txt", '_') by {
      var t := accession + ".txt";
      forall i | 0 <= i < |t| ensures t[i] != '_' {
        if i < |accession| { assert t[i] == accession[i]; } else { assert t[i] == ".txt"[i - |accession|]; }
      }
    }
    assert !Contains(name, '/') by {
      forall i | 0 <= i < |name| ensures name[i] != '/' {
        if i < |form| { assert name[i] == form[i]; }
        else if i == |form| { assert name[i] == '_'; }
        else if i < |form| + 1 + |accession| { assert name[i] == accession[i - |form| - 1]; }
        else { assert name[i] == ".txt"[i - |form| - 1 - |accession|]; }
      }
    }
    JoinThree("filings", cik, name, '/');
    assert FilingKey(cik, form, accession) == "filings" + ['/'] + cik + ['/'] + name;
    SplitJoin(["filings", cik, name], '/');
    JoinTwo(form, accession + ".txt", '_');
    assert name == form + ['_'] + (accession + ".txt");
    SplitJoin([form, accession + ".txt"], '_');
    JoinTwo(accession, "txt", '.');
    assert accession + ".txt" == accession + ['.'] + "txt";
    SplitJoin([accession, "txt"], '.');
  }

  /** A form containing '_' yields a key embeddings cannot read back. */
  lemma ParseFilingKeyRejectsUnderscoreForm(cik: string, form: string, accession: string)
    requires KeySafe(cik, "", accession) && !Contains(form, '/')
    requires Contains(form, '_')
    ensures ParseFilingKey(FilingKey(cik, form, accession)).None?
  {
    var name := form + "_" + accession + ".txt";
    assert !Contains(".txt", '/') && !Contains("filings", '/');
    assert !Contains(name, '/') by {
      forall i | 0 <= i < |name| ensures name[i] != '/' {
        if i < |form| { assert name[i] == form[i]; }
        else if i == |form| { assert name[i] == '_'; }
        else if i < |form| + 1 + |accession| { assert name[i] == accession[i - |form| - 1]; }
        else { assert name[i] == ".txt"[i - |form| - 1 - |accession|]; }
      }
    }
    JoinThree("filings", cik, name, '/');
    assert FilingKey(cik, form, accession) == "filings" + ['/'] + cik + ['/'] + name;
    SplitJoin(["filings", cik, name], '/');
    SplitCount(name, '_');
    var i :| 0 <= i < |form| && form[i] == '_';
    assert name[i] == '_' && name[|form|] == '_';
    TwoOccurrences(name, '_', i, |form|);
  }

  // ---------------------------------------------------------------------------
  // Archive URLs
  // ---------------------------------------------------------------------------

  /**
   * `f"https://www.sec.gov/Archives/edgar/data/{cik}/{accession_dashless}/{primary_doc}"`
   * with the accession number's dashes removed.
   */
  function ArchiveUrl(cik: string, accession: string, primaryDoc: string): string {
    "https://www.sec.gov/Archives/edgar/data/" + cik + "/" + RemoveAll(accession, '-') + "/" + primaryDoc
  }

  /**
   * The archive URL is the EDGAR data prefix followed by three '/'-separated
   * parts — the CIK as given (unpadded), the accession number without any
   * '-', and the primary document — whenever those contain no '/'.
   */
  lemma ArchiveUrlParts(cik: string, accession: string, primaryDoc: string)
    requires !Contains(cik, '/') && !Contains(accession, '/') && !Contains(primaryDoc, '/')
    ensures var url := ArchiveUrl(cik, accession, primaryDoc);
      && url[..40] == "https://www.sec.gov/Archives/edgar/data/"
      && Split(url[40..], '/') == [cik, RemoveAll(accession, '-'), primaryDoc]
      && !Contains(Split(url[40..], '/')[1], '-')
  {
    var dashless := RemoveAll(accession, '-');
    ContainsCount(dashless, '/');
    ContainsCount(accession, '/');
    var prefix := "https://www.sec.gov/Archives/edgar/data/";
    var tail := cik + "/" + dashless + "/" + primaryDoc;
    JoinThree(cik, dashless, primaryDoc, '/');
    PrefixThen(prefix, cik, "/", dashless, "/", primaryDoc);
    assert |prefix| == 40;
    SplitJoin([cik, dashless, primaryDoc], '/');
  }

  /** A prefix in front of five pieces, and how to take it off again. */
  lemma PrefixThen(p: string, a: string, b: string, c: string, d: string, e: string)
    ensures var s := p + a + b + c + d + e;
      s[..|p|] == p && s[|p|..] == a + b + c + d + e
  {
    assert p + a + b + c + d + e == p + (a + b + c + d + e);
  }
}

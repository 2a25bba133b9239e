/**
 * The field helpers and the PDF page policy of
 * app/services/document_processing.py: whether the LLM must fill gaps, how
 * its fields are merged under the rule fields, how strings are normalised
 * into dates and amounts, how dates are serialised, and which PDF pages go to
 * OCR.
 */
module DocumentFields {
  import opened Common
  import opened Dates
  import opened Values
  import opened DateParsing
  import opened RuleExtractor

  /** The fields whose absence calls for the LLM. */
  const RequiredFields: seq<string> := ["title", "purchase_date", "amount", "store"]

  /** The fields `normalize_fields` parses as dates. */
  const DateKeys: seq<string> := ["purchase_date", "refund_deadline", "warranty_end_date"]

  const PdfPageLimit: nat := 3

  // ------------------------------------------------------------- needs_llm

  /** `needs_llm`: some required field is missing or falsy. */
  predicate NeedsLlm(fields: map<string, Value>)
  {
    exists k :: 0 <= k < |RequiredFields| && !Truthy(Get(fields, RequiredFields[k]))
  }

  /** The LLM is skipped exactly when all four required fields are present
      and truthy. */
  lemma NeedsLlmIff(fields: map<string, Value>)
    ensures !NeedsLlm(fields) <==>
              && "title" in fields && Truthy(fields["title"])
              && "purchase_date" in fields && Truthy(fields["purchase_date"])
              && "amount" in fields && Truthy(fields["amount"])
              && "store" in fields && Truthy(fields["store"])
  {
    if !NeedsLlm(fields) {
      assert Truthy(Get(fields, RequiredFields[0]));
      assert Truthy(Get(fields, RequiredFields[1]));
      assert Truthy(Get(fields, RequiredFields[2]));
      assert Truthy(Get(fields, RequiredFields[3]));
    }
  }

  /** An amount of 0 counts as missing. */
  lemma ZeroAmountNeedsLlm(fields: map<string, Value>)
    requires "amount" in fields && fields["amount"] == Int(0)
    ensures NeedsLlm(fields)
  {
    assert !Truthy(Get(fields, RequiredFields[2]));
  }

  // --------------------------------------------------------- merge_fields

  /** `merged.get(key) in (None, "")` */
  predicate Blank(v: Value) { v == Null || v == Str("") }

  /** `merge_fields`: every key of either side; a rule value stays unless it
      is None or "", and LLM values fill exactly those gaps. */
  function Merged(rule: map<string, Value>, llm: map<string, Value>): (m: map<string, Value>)
    ensures m.Keys == rule.Keys + llm.Keys
    ensures forall k :: k in rule && !Blank(rule[k]) ==> m[k] == rule[k]
    ensures forall k :: k in llm && (k !in rule || Blank(rule[k])) ==> m[k] == llm[k]
    ensures forall k :: k in rule && k !in llm ==> m[k] == rule[k]
  {
    map k | k in rule.Keys + llm.Keys :: if k in llm && (k !in rule || Blank(rule[k])) then llm[k] else rule[k]
  }

  /** The merge after the LLM keys outside todo have been visited. */
  function MergedExcept(rule: map<string, Value>, llm: map<string, Value>, todo: set<string>): map<string, Value>
  {
    map k | k in rule.Keys + (llm.Keys - todo) ::
      if k in llm && k !in todo && (k !in rule || Blank(rule[k])) then llm[k] else rule[k]
  }

  /** Visiting one more LLM key updates only that key, and only when the
      merge so far holds nothing usable there. */
  lemma MergedExceptStep(rule: map<string, Value>, llm: map<string, Value>, todo: set<string>, key: string)
    requires key in todo && todo <= llm.Keys
    ensures var m := MergedExcept(rule, llm, todo);
            MergedExcept(rule, llm, todo - {key}) ==
              if key !in m || Blank(m[key]) then m[key := llm[key]] else m
  {
  }

  lemma MergedExceptEnds(rule: map<string, Value>, llm: map<string, Value>)
    ensures MergedExcept(rule, llm, llm.Keys) == rule
    ensures MergedExcept(rule, llm, {}) == Merged(rule, llm)
  {
  }

  /** `merge_fields`: copy the rule fields, then visit the LLM fields. The
      order of the visit does not matter, since each key is visited once and
      only its own entry is read and written. */
  method MergeFields(rule: map<string, Value>, llm: map<string, Value>) returns (merged: map<string, Value>)
    ensures merged == Merged(rule, llm)
  {
    merged := rule;
    var todo := llm.Keys;
    MergedExceptEnds(rule, llm);
    while todo != {}
      invariant todo <= llm.Keys
      invariant merged == MergedExcept(rule, llm, todo)
      decreases |todo|
    {
      var key :| key in todo;
      MergedExceptStep(rule, llm, todo, key);
      if key !in merged || Blank(merged[key]) {
        merged := merged[key := llm[key]];
      }
      todo := todo - {key};
    }
  }

  /** Nothing to merge in leaves the rule fields; nothing to merge into
      gives the LLM fields. */
  lemma MergedIdentity(rule: map<string, Value>, llm: map<string, Value>)
    ensures Merged(rule, map[]) == rule
    ensures Merged(map[], llm) == llm
  {
  }

  /** A rule amount of 0 is not blank, so the LLM does not replace it. */
  lemma MergedKeepsZero(rule: map<string, Value>, llm: map<string, Value>)
    requires "amount" in rule && rule["amount"] == Int(0)
    ensures Merged(rule, llm)["amount"] == Int(0)
  {
  }

  // ------------------------------------------------------ normalize_fields

  /** A date field of `normalize_fields`: a string that parses becomes the
      date; anything else, an unparseable string included, is kept. */
  function DateNormalized(v: Value): (r: Value)
    ensures r.DateVal? <==> v.DateVal? || (v.Str? && ParsedDate(v.s).Some?)
  {
    if v.Str? && ParsedDate(v.s).Some? then DateVal(ParsedDate(v.s).value) else v
  }

  /** The amount field of `normalize_fields`: a string with digits becomes
      that integer; anything else is kept. */
  function AmountNormalized(v: Value): (r: Value)
    ensures r.Int? <==> v.Int? || (v.Str? && !NoDigits(v.s))
  {
    if v.Str? then
      ParseAmountNone(v.s);
      if ParseAmount(v.s).Some? then Int(ParseAmount(v.s).value) else v
    else v
  }

  function NormalizedValue(key: string, v: Value): Value
  {
    if key in DateKeys then DateNormalized(v)
    else if key == "amount" then AmountNormalized(v)
    else v
  }

  /** `normalize_fields`. */
  function Normalized(f: map<string, Value>): (r: map<string, Value>)
    ensures r.Keys == f.Keys
  {
    map k | k in f :: NormalizedValue(k, f[k])
  }

  /** The fields after the date keys before index i have been converted. */
  function DatesNormalized(f: map<string, Value>, i: nat): map<string, Value>
    requires i <= |DateKeys|
  {
    map k | k in f :: if k in DateKeys[..i] then DateNormalized(f[k]) else f[k]
  }

  /** Converting the next date key updates that key alone. */
  lemma DatesNormalizedStep(f: map<string, Value>, i: nat)
    requires i < |DateKeys|
    ensures var m := DatesNormalized(f, i);
            var key := DateKeys[i];
            DatesNormalized(f, i + 1) == if key in m then m[key := DateNormalized(m[key])] else m
  {
    assert DateKeys[..i + 1] == DateKeys[..i] + [DateKeys[i]];
    assert DateKeys[i] !in DateKeys[..i];
  }

  lemma DatesNormalizedFirst(f: map<string, Value>)
    ensures DatesNormalized(f, 0) == f
  {
  }

  /** After the three dates, converting the amount completes the job. */
  lemma DatesNormalizedLast(f: map<string, Value>)
    ensures var m := DatesNormalized(f, |DateKeys|);
            Normalized(f) == if "amount" in m then m["amount" := AmountNormalized(m["amount"])] else m
  {
    assert DateKeys[..|DateKeys|] == DateKeys;
    assert "amount" !in DateKeys;
  }

  /** `normalize_fields`: copy, convert the three date keys in turn, then the
      amount. */
  method NormalizeFields(fields: map<string, Value>) returns (normalized: map<string, Value>)
    ensures normalized == Normalized(fields)
  {
    normalized := fields;
    DatesNormalizedFirst(fields);
    var i := 0;
    while i < |DateKeys|
      invariant 0 <= i <= |DateKeys|
      invariant normalized == DatesNormalized(fields, i)
    {
      var key := DateKeys[i];
      DatesNormalizedStep(fields, i);
      if key in normalized && normalized[key].Str? {
        var parsed := ParseDate(normalized[key].s);
        if parsed.Some? {
          normalized := normalized[key := DateVal(parsed.value)];
        }
      }
      i := i + 1;
    }
    DatesNormalizedLast(fields);
    if "amount" in normalized && normalized["amount"].Str? {
      var parsedAmount := ParseAmount(normalized["amount"].s);
      if parsedAmount.Some? {
        normalized := normalized["amount" := Int(parsedAmount.value)];
      }
    }
  }

  /** Keys other than the three dates and the amount are untouched, and so
      is a string that does not parse. */
  lemma NormalizedKeeps(f: map<string, Value>, k: string)
    requires k in f
    requires (k !in DateKeys && k != "amount")
             || (k in DateKeys && f[k].Str? && ParsedDate(f[k].s).None?)
             || (k == "amount" && f[k].Str? && ParseAmount(f[k].s).None?)
    ensures Normalized(f)[k] == f[k]
  {
  }

  /** Normalising twice changes nothing more. */
  lemma NormalizedIdempotent(f: map<string, Value>)
    ensures Normalized(Normalized(f)) == Normalized(f)
  {
    var g := Normalized(f);
    forall k | k in g
      ensures NormalizedValue(k, g[k]) == g[k]
    {
      assert g[k] == NormalizedValue(k, f[k]);
    }
  }

  // ------------------------------------------------------ serialize_fields

  /** A value as `serialize_fields` writes it: dates (the only values with
      `isoformat`) become their ISO text. */
  function SerializedValue(v: Value): Value
  {
    if v.DateVal? then Str(IsoFormat(v.date)) else v
  }

  /** `serialize_fields`. */
  function Serialized(f: map<string, Value>): (r: map<string, Value>)
    ensures r.Keys == f.Keys
  {
    map k | k in f :: SerializedValue(f[k])
  }

  /** `serialize_fields`: fill a new dictionary from the items. */
  method SerializeFields(fields: map<string, Value>) returns (serialized: map<string, Value>)
    ensures serialized == Serialized(fields)
  {
    serialized := map[];
    var todo := fields.Keys;
    while todo != {}
      invariant todo <= fields.Keys
      invariant serialized == map k | k in fields.Keys - todo :: SerializedValue(fields[k])
      decreases |todo|
    {
      var key :| key in todo;
      var value := fields[key];
      if value.DateVal? {
        serialized := serialized[key := Str(IsoFormat(value.date))];
      } else {
        serialized := serialized[key := value];
      }
      todo := todo - {key};
    }
  }

  /** No date is left after serialising, and everything else is kept. */
  lemma SerializedNoDates(f: map<string, Value>)
    ensures forall k :: k in Serialized(f) ==> !Serialized(f)[k].DateVal?
    ensures forall k :: k in f && !f[k].DateVal? ==> Serialized(f)[k] == f[k]
  {
  }

  /** Normalising the serialised fields gives every date back. */
  lemma SerializedDatesRoundTrip(f: map<string, Value>, k: string)
    requires k in f && f[k].DateVal? && k in DateKeys
    ensures Normalized(Serialized(f))[k] == f[k]
  {
    IsoRoundTrip(f[k].date);
    assert Strip(IsoFormat(f[k].date)) == IsoFormat(f[k].date) by {
      IsoIsFormatted(f[k].date);
      StripFormatted(f[k].date, Some('-'));
    }
  }

  // -------------------------------------------------------------- PDF pages

  /** `Path(path).name`: the last component, trailing slashes ignored. */
  function FileName(path: string): (name: string)
    ensures '/' !in name
  {
    if path != [] && path[|path| - 1] == '/' then FileName(path[..|path| - 1])
    else match RFind(path, '/')
      case None => path
      case Some(i) => path[i + 1..]
  }

  /** `Path.suffix` of a name: from its last dot, unless that dot is the
      first or the last character. */
  function Suffix(name: string): (s: string)
    ensures s != [] ==> 2 <= |s| < |name| && s == name[|name| - |s|..] && s[0] == '.'
    ensures s != [] ==> forall k :: 1 <= k < |s| ==> s[k] != '.'
  {
    match RFind(name, '.')
    case None => []
    case Some(i) =>
      if 0 < i < |name| - 1 then name[i..]
      else []
  }

  /** `_is_pdf`: `path.suffix.lower() == ".pdf"`. */
  predicate IsPdf(path: string)
  {
    Lower(Suffix(FileName(path))) == ".pdf"
  }

  /** A path is a PDF exactly when its name has something before a final
      ".pdf" (in any case). */
  lemma IsPdfIff(path: string)
    ensures var name := FileName(path);
            IsPdf(path) <==> |name| >= 5 && Lower(name[|name| - 4..]) == ".pdf"
  {
    var name := FileName(path);
    var s := Suffix(name);
    if |name| >= 5 && Lower(name[|name| - 4..]) == ".pdf" {
      PdfSuffix(name);
    }
    if IsPdf(path) {
      assert |s| == 4;
    }
  }

  /** A name ending in ".pdf" (in any case) has that ending as its suffix. */
  lemma PdfSuffix(name: string)
    requires |name| >= 5 && Lower(name[|name| - 4..]) == ".pdf"
    ensures Suffix(name) == name[|name| - 4..]
  {
    var t := name[|name| - 4..];
    assert t[0] == '.' by { assert LowerChar(t[0]) == '.'; }
    assert forall k :: 1 <= k < 4 ==> t[k] != '.' by {
      forall k | 1 <= k < 4 ensures t[k] != '.' { assert LowerChar(t[k]) == ".pdf"[k]; }
    }
    assert RFind(name, '.') == Some(|name| - 4);
  }

  /** A byte of the uploaded file. */
  type Byte = b: int | 0 <= b < 256

  /** "/Type" */
  const TypeTag: seq<Byte> := [0x2F, 0x54, 0x79, 0x70, 0x65]

  /** "/Page" */
  const PageTag: seq<Byte> := [0x2F, 0x50, 0x61, 0x67, 0x65]

  /** `\s` in a bytes pattern: blank, tab, line feed, vertical tab, form feed,
      carriage return. */
  predicate IsSpaceByte(b: Byte) { b == 0x20 || 0x09 <= b <= 0x0D }

  predicate BytesAt(data: seq<Byte>, tag: seq<Byte>, i: nat)
  {
    i + |tag| <= |data| && data[i..i + |tag|] == tag
  }

  function SkipSpaceBytes(data: seq<Byte>, i: nat): (j: nat)
    requires i <= |data|
    decreases |data| - i
    ensures i <= j <= |data| && forall k :: i <= k < j ==> IsSpaceByte(data[k])
    ensures j == |data| || !IsSpaceByte(data[j])
  {
    if i < |data| && IsSpaceByte(data[i]) then SkipSpaceBytes(data, i + 1) else i
  }

  /** Where a page marker (the pattern: "/Type", white space, "/Page",
      not followed by "s") starting at i ends, if one does. Skipping fewer
      blanks cannot help, since "/Page" does not start with a blank. */
  function MarkerEnd(data: seq<Byte>, i: nat): (r: Option<nat>)
    ensures r.Some? ==> i + 10 <= r.value <= |data|
  {
    if !BytesAt(data, TypeTag, i) then None
    else
      var j := SkipSpaceBytes(data, i + 5);
      if BytesAt(data, PageTag, j) && (j + 5 == |data| || data[j + 5] != 0x73) then Some(j + 5) else None
  }

  /** `len(re.findall(...))` from i: leftmost matches, each search resuming
      where the last match ended. */
  function FindAllMarkers(data: seq<Byte>, i: nat): nat
    requires i <= |data|
    decreases |data| - i
  {
    if i == |data| then 0
    else match MarkerEnd(data, i)
      case Some(e) => 1 + FindAllMarkers(data, e)
      case None => FindAllMarkers(data, i + 1)
  }

  /** `_count_pdf_pages`: None when the file cannot be read or holds no
      marker, otherwise the number of markers. */
  function CountPdfPages(read: Option<seq<Byte>>): (r: Option<nat>)
    ensures r.Some? ==> read.Some? && r.value >= 1 && r.value == FindAllMarkers(read.value, 0)
    ensures r.None? ==> read.None? || FindAllMarkers(read.value, 0) == 0
  {
    match read
    case None => None
    case Some(data) => var n := FindAllMarkers(data, 0); if n == 0 then None else Some(n)
  }

  /** `list(range(1, n + 1))` */
  function PagesUpTo(n: nat): (pages: seq<int>)
    ensures |pages| == n && forall i :: 0 <= i < n ==> pages[i] == i + 1
  {
    seq(n, i requires 0 <= i < n => i + 1)
  }

  /** `_select_pdf_pages`: the pages to pass to OCR and the warning. */
  function SelectPdfPages(count: Option<nat>): (r: (seq<int>, Option<string>))
    ensures |r.0| <= PdfPageLimit && forall i :: 0 <= i < |r.0| ==> r.0[i] == i + 1
    ensures count.None? ==> r == ([1, 2, 3], None)
    ensures count.Some? && count.value > PdfPageLimit ==>
              r.0 == [1, 2, 3] && r.1 == Some("PDF pages truncated: processed 3 of " + NatToString(count.value))
    ensures count.Some? && count.value <= PdfPageLimit ==> |r.0| == count.value && r.1.None?
  {
    match count
    case None => ([1, 2, 3], None)
    case Some(n) =>
      if n > PdfPageLimit then
        assert NatToString(PdfPageLimit) == "3";
        assert "PDF pages truncated: processed " + "3" + " of " == "PDF pages truncated: processed 3 of ";
        (PagesUpTo(PdfPageLimit),
         Some("PDF pages truncated: processed " + NatToString(PdfPageLimit) + " of " + NatToString(n)))
      else (PagesUpTo(n), None)
  }

  /** The page-marker line of a PDF, "/Type /Page\n". */
  const PageLine: seq<Byte> := [0x2F, 0x54, 0x79, 0x70, 0x65, 0x20, 0x2F, 0x50, 0x61, 0x67, 0x65, 0x0A]

  function Repeat(unit: seq<Byte>, n: nat): (r: seq<Byte>)
    ensures |r| == n * |unit|
  {
    if n == 0 then [] else unit + Repeat(unit, n - 1)
  }

  /** n marker lines after a header without '/' count n pages. */
  lemma {:induction false} MarkerLinesCounted(pre: seq<Byte>, n: nat)
    requires forall k :: 0 <= k < |pre| ==> pre[k] != 0x2F
    ensures FindAllMarkers(pre + Repeat(PageLine, n), 0) == n
  {
    var data := pre + Repeat(PageLine, n);
    SkipHeader(data, pre, 0);
    MarkerLinesFrom(pre, n, n);
  }

  lemma {:induction false} SkipHeader(data: seq<Byte>, pre: seq<Byte>, i: nat)
    requires i <= |pre| <= |data| && data[..|pre|] == pre
    requires forall k :: 0 <= k < |pre| ==> pre[k] != 0x2F
    ensures FindAllMarkers(data, i) == FindAllMarkers(data, |pre|)
    decreases |pre| - i
  {
    if i < |pre| {
      assert data[i] == pre[i];
      assert MarkerEnd(data, i).None?;
      SkipHeader(data, pre, i + 1);
    }
  }

  /** The marker lines from the (n - m)-th on count m. */
  lemma {:induction false} MarkerLinesFrom(pre: seq<Byte>, n: nat, m: nat)
    requires m <= n
    ensures FindAllMarkers(pre + Repeat(PageLine, n), |pre| + 12 * (n - m)) == m
    decreases m
  {
    var data := pre + Repeat(PageLine, n);
    var i := |pre| + 12 * (n - m);
    if m > 0 {
      RepeatAt(pre, n, n - m);
      PageLineMarker(data, i);
      MarkerLinesFrom(pre, n, m - 1);
    } else {
      assert i == |data|;
    }
  }

  /** A marker line is one match, and the search goes on after its line
      feed. */
  lemma PageLineMarker(data: seq<Byte>, i: nat)
    requires i + 12 <= |data| && data[i..i + 12] == PageLine
    ensures FindAllMarkers(data, i) == 1 + FindAllMarkers(data, i + 12)
  {
    PageLineBytes();
    SliceOfSlice(data, i, i + 12, 0, 5);
    SliceOfSlice(data, i, i + 12, 6, 11);
    assert data[i + 5] == PageLine[5] && data[i + 11] == PageLine[11];
    assert BytesAt(data, TypeTag, i);
    assert SkipSpaceBytes(data, i + 6) == i + 6;
    assert SkipSpaceBytes(data, i + 5) == i + 6;
    assert BytesAt(data, PageTag, i + 6);
    assert MarkerEnd(data, i) == Some(i + 11);
    assert !BytesAt(data, TypeTag, i + 11) by {
      if i + 16 <= |data| { assert data[i + 11..i + 16][0] == data[i + 11]; }
    }
  }

  /** The pieces of a marker line. */
  lemma PageLineBytes()
    ensures PageLine[0..5] == TypeTag && PageLine[5] == 0x20
    ensures PageLine[6..11] == PageTag && PageLine[11] == 0x0A
  {
  }

  /** The k-th marker line of the repetition. */
  lemma {:induction false} RepeatAt(pre: seq<Byte>, n: nat, k: nat)
    requires k < n
    ensures var data := pre + Repeat(PageLine, n);
            |pre| + 12 * k + 12 <= |data| && data[|pre| + 12 * k..|pre| + 12 * k + 12] == PageLine
  {
    RepeatSplit(n, k);
    var data := pre + Repeat(PageLine, n);
    assert data == (pre + Repeat(PageLine, k)) + (PageLine + Repeat(PageLine, n - k - 1));
  }

  lemma {:induction false} RepeatSplit(n: nat, k: nat)
    requires k < n
    ensures Repeat(PageLine, n) == Repeat(PageLine, k) + (PageLine + Repeat(PageLine, n - k - 1))
  {
    if k > 0 {
      RepeatSplit(n - 1, k - 1);
      assert Repeat(PageLine, n) == PageLine + Repeat(PageLine, n - 1);
      assert Repeat(PageLine, k) == PageLine + Repeat(PageLine, k - 1);
    }
  }

  /** The four-page upload: three pages go to OCR, with the warning. */
  lemma FourPagePdf(pre: seq<Byte>)
    requires forall k :: 0 <= k < |pre| ==> pre[k] != 0x2F
    ensures CountPdfPages(Some(pre + Repeat(PageLine, 4))) == Some(4)
    ensures SelectPdfPages(Some(4)) == ([1, 2, 3], Some("PDF pages truncated: processed 3 of 4"))
  {
    MarkerLinesCounted(pre, 4);
    assert NatToString(4) == "4";
    assert "PDF pages truncated: processed 3 of " + "4" == "PDF pages truncated: processed 3 of 4";
  }
}

/**
 * `process_document_job` of app/services/document_processing.py: one
 * background job that runs OCR, extracts fields, creates a product and
 * records the outcome on the job and its document. The database session is a
 * store object whose tables the job updates in place.
 */
module DocumentProcessing {
  import opened Common
  import opened Values
  import opened Redaction
  import opened RedactionStructure
  import opened RuleExtractor
  import opened DocumentFields

  datatype JobStatus = Pending | Processing | Completed | Failed

  /** The columns of `DocumentProcessingJob` the job writes. */
  datatype Job = Job(status: JobStatus, error: Option<string>, productId: Option<nat>)

  /** The columns of `Document` the job writes. */
  datatype Document = Document(rawText: string, productId: Option<nat>, parsedFields: string, evidence: Option<string>)

  /** A `Product` row as the job creates it. */
  datatype Product = Product(
    userId: int, title: Value, category: Value, purchaseDate: Value, amount: Value,
    store: Value, orderId: Value, refundDeadline: Value, warrantyEndDate: Value,
    asContact: Value, imagePath: string, rawText: string)

  /** `ocr_client.extract_text(path, pages=...)`: the text, or the message of
      the exception it raises. */
  type OcrClient = (string, Option<seq<int>>) -> Result<string, string>

  /** `llm_extractor.extract(raw_text)`: the fields, or the message of the
      exception it raises. */
  type LlmExtractor = string -> Result<map<string, Value>, string>

  /** `json.dumps(..., ensure_ascii=False)` of a value `redact_in_structure`
      has walked: the text, or the message of the exception raised on the
      way. A value nested deeper than the interpreter's recursion limit
      makes the walk or the encoder raise `RecursionError`; the redacted
      value has the shape of its input, so either raise is an error here. */
  type JsonDumps = Value -> Result<string, string>

  /** What the database does when the commit after `session.add(product)`
      flushes the product row: None when it stores it, else the message of
      the exception it raises (a date column given a string the
      normalisation could not parse, for example). */
  type RowCheck = Product -> Option<string>

  const Unclassified: string := "미분류 제품"

  /** The pages handed to OCR and the truncation warning: only a PDF has
      either. */
  function PdfPlan(imagePath: string, fileBytes: Option<seq<Byte>>): (r: (Option<seq<int>>, Option<string>))
    ensures r.0.None? <==> !IsPdf(imagePath)
    ensures r.1.Some? ==> IsPdf(imagePath)
    ensures r.0.Some? ==> 1 <= |r.0.value| <= PdfPageLimit && r.0.value[0] == 1
  {
    if IsPdf(imagePath) then
      var sel := SelectPdfPages(CountPdfPages(fileBytes));
      (Some(sel.0), sel.1)
    else (None, None)
  }

  /** `_is_pdf`, then `_select_pdf_pages` for a PDF. */
  method SelectPages(imagePath: string, fileBytes: Option<seq<Byte>>) returns (plan: (Option<seq<int>>, Option<string>))
    ensures plan == PdfPlan(imagePath, fileBytes)
  {
    plan := (None, None);
    if IsPdf(imagePath) {
      var selection := SelectPdfPages(CountPdfPages(fileBytes));
      plan := (Some(selection.0), selection.1);
    }
  }

  /** The product row built from the normalised fields; a falsy title falls
      back to the "unclassified product" title. */
  function ProductOf(userId: int, imagePath: string, rawText: string, f: map<string, Value>): (p: Product)
    ensures Truthy(p.title)
    ensures Truthy(Get(f, "title")) ==> p.title == f["title"]
    ensures p.rawText == rawText && p.imagePath == imagePath && p.userId == userId
  {
    Product(
      userId,
      if Truthy(Get(f, "title")) then Get(f, "title") else Str(Unclassified),
      Get(f, "product_category"), Get(f, "purchase_date"), Get(f, "amount"), Get(f, "store"),
      Get(f, "order_id"), Get(f, "refund_deadline"), Get(f, "warranty_end_date"), Get(f, "as_contact"),
      imagePath, rawText)
  }

  /** The names of the fields a source supplied. */
  function KeyNames(m: map<string, Value>): Value
  {
    SetOf(set k | k in m :: Str(k))
  }

  /** `evidence_payload` */
  function EvidenceOf(rule: map<string, Value>, extra: map<string, Value>): Value
  {
    Dict(map["rule_fields" := KeyNames(rule), "llm_fields" := KeyNames(extra)])
  }

  /**
   * What the `try` block of one job did: the text handed to the LLM (if it
   * was called), the redacted OCR text written to the document, the product
   * committed, the two JSON columns written, and the message of the
   * exception that ended the block, if one did. `stuck` says that the
   * exception came from the product commit itself: the session then refuses
   * every further commit, so the one in the `except` branch raises too and
   * nothing after the first commit is stored.
   */
  datatype Attempt = Attempt(
    llmInput: Option<string>, rawText: Option<string>, product: Option<Product>,
    parsedFields: Option<string>, evidence: Option<string>, failure: Option<string>, stuck: bool)

  function Failure(msg: string): Attempt
  {
    Attempt(None, None, None, None, None, Some(msg), false)
  }

  /** Steps 5 and 6 on the values they handle: the product row, what the
      database says to it, and the two serialisations, in the order the
      block meets them. */
  function Stored(llmInput: Option<string>, redacted: string, product: Product, rejected: Option<string>,
                  parsed: Result<string, string>, evidence: Result<string, string>): (a: Attempt)
    ensures a.rawText == Some(redacted) && a.llmInput == llmInput
  {
    match rejected
    case Some(e) => Attempt(llmInput, Some(redacted), None, None, None, Some(e), true)
    case None =>
      match parsed
      case Err(e) => Attempt(llmInput, Some(redacted), Some(product), None, None, Some(e), false)
      case Ok(p) =>
        match evidence
        case Err(e) => Attempt(llmInput, Some(redacted), Some(product), Some(p), None, Some(e), false)
        case Ok(v) => Attempt(llmInput, Some(redacted), Some(product), Some(p), Some(v), None, false)
  }

  /** Steps 4 to 6 once the fields an LLM adds are known. */
  function Finished(llmInput: Option<string>, redacted: string, rule: map<string, Value>, extra: map<string, Value>,
                     userId: int, imagePath: string, dumps: JsonDumps, accept: RowCheck, strict: bool): Attempt
  {
    var normalized := Normalized(Merged(rule, extra));
    var product := ProductOf(userId, imagePath, redacted, normalized);
    Stored(llmInput, redacted, product, accept(product),
           dumps(RedactInStructure(Dict(Serialized(normalized)), {}, strict)),
           dumps(RedactInStructure(EvidenceOf(rule, extra), {}, strict)))
  }

  /** Steps 4 to 6, given the rule fields and the redacted text. */
  function Extracted(raw: string, rule: map<string, Value>, redacted: string, llm: LlmExtractor, dumps: JsonDumps, accept: RowCheck,
                     userId: int, imagePath: string, strict: bool): Attempt
  {
    if !NeedsLlm(rule) then Finished(None, redacted, rule, map[], userId, imagePath, dumps, accept, strict)
    else match llm(raw)
      case Err(e) => Attempt(Some(raw), Some(redacted), None, None, None, Some(e), false)
      case Ok(extra) => Finished(Some(raw), redacted, rule, extra, userId, imagePath, dumps, accept, strict)
  }

  /** The `try` block once OCR has returned text. */
  function AfterOcr(raw: string, llm: LlmExtractor, dumps: JsonDumps, accept: RowCheck, documentFound: bool,
                    userId: int, imagePath: string, strict: bool): Attempt
  {
    if Strip(raw) == [] then Failure("OCR returned empty text")
    else if !documentFound then Failure("Document not found")
    else Extracted(raw, RuleFields(raw), RedactedText(raw, strict), llm, dumps, accept, userId, imagePath, strict)
  }

  /** The `try` block of `process_document_job`, raise by raise. */
  function Attempted(imagePath: string, pages: Option<seq<int>>, ocr: OcrClient, llm: LlmExtractor,
                     dumps: JsonDumps, accept: RowCheck, documentFound: bool, userId: int, strict: bool): Attempt
  {
    match ocr(imagePath, pages)
    case Err(e) => Failure(e)
    case Ok(raw) => AfterOcr(raw, llm, dumps, accept, documentFound, userId, imagePath, strict)
  }

  /** The job row after the `try` block: completed with the new product and
      the redacted warning, or failed with the redacted message; as it was
      when the product commit raised. */
  function JobAfter(j: Job, a: Attempt, warning: Option<string>, productId: nat, strict: bool): Job
  {
    if a.stuck then j
    else match a.failure
    case Some(msg) => j.(status := Failed, error := Some(RedactedText(msg, strict)))
    case None =>
      Job(Completed, if warning.Some? && warning.value != [] then Some(RedactedText(warning.value, strict)) else None,
          Some(productId))
  }

  /** The document row after the `try` block: everything assigned before the
      block ended is written, since the failure path commits the session
      too, unless the product commit raised. */
  function DocumentAfter(d: Document, a: Attempt, productId: nat): Document
  {
    if a.stuck then d else
    var d1 := if a.rawText.Some? then d.(rawText := a.rawText.value) else d;
    var d2 := if a.product.Some? then d1.(productId := Some(productId)) else d1;
    var d3 := if a.parsedFields.Some? then d2.(parsedFields := a.parsedFields.value) else d2;
    if a.evidence.Some? then d3.(evidence := a.evidence) else d3
  }

  function OptionSeq<T>(o: Option<T>): seq<T>
  {
    if o.Some? then [o.value] else []
  }

  /** Steps 4 to 6 of the `try` block, computed. */
  method Extract(raw: string, rule: map<string, Value>, redacted: string, llm: LlmExtractor, dumps: JsonDumps, accept: RowCheck,
                 userId: int, imagePath: string, strict: bool)
    returns (a: Attempt)
    ensures a == Extracted(raw, rule, redacted, llm, dumps, accept, userId, imagePath, strict)
  {
    var extra: map<string, Value> := map[];
    var llmInput: Option<string> := None;
    if NeedsLlm(rule) {
      llmInput := Some(raw);
      var llmResult := llm(raw);
      if llmResult.Err? {
        return Attempt(llmInput, Some(redacted), None, None, None, Some(llmResult.error), false);
      }
      extra := llmResult.value;
    }
    var merged := MergeFields(rule, extra);
    var normalized := NormalizeFields(merged);
    var product := ProductOf(userId, imagePath, redacted, normalized);
    var rejected := accept(product);
    if rejected.Some? {
      return Attempt(llmInput, Some(redacted), None, None, None, rejected, true);
    }
    var serialized := SerializeFields(normalized);
    var parsed := dumps(RedactInStructure(Dict(serialized), {}, strict));
    if parsed.Err? {
      return Attempt(llmInput, Some(redacted), Some(product), None, None, Some(parsed.error), false);
    }
    var evidence := dumps(RedactInStructure(EvidenceOf(rule, extra), {}, strict));
    if evidence.Err? {
      return Attempt(llmInput, Some(redacted), Some(product), Some(parsed.value), None, Some(evidence.error), false);
    }
    a := Attempt(llmInput, Some(redacted), Some(product), Some(parsed.value), Some(evidence.value), None, false);
  }

  /** The `try` block, computed. */
  method RunAttempt(imagePath: string, pages: Option<seq<int>>, ocr: OcrClient, llm: LlmExtractor,
                    dumps: JsonDumps, accept: RowCheck, documentFound: bool, userId: int, strict: bool)
    returns (a: Attempt)
    ensures a == Attempted(imagePath, pages, ocr, llm, dumps, accept, documentFound, userId, strict)
  {
    var ocrResult := ocr(imagePath, pages);
    if ocrResult.Err? {
      return Failure(ocrResult.error);
    }
    var raw := ocrResult.value;
    if Strip(raw) == [] {
      return Failure("OCR returned empty text");
    }
    if !documentFound {
      return Failure("Document not found");
    }
    var redacted := RedactText(raw, Some(strict), None, None);
    var rule := ExtractFieldsWithRules(raw);
    a := Extract(raw, rule, redacted, llm, dumps, accept, userId, imagePath, strict);
  }

  /** The document table after the `try` block. */
  function DocumentsAfter(documents: map<nat, Document>, documentId: nat, a: Attempt, productId: nat): (r: map<nat, Document>)
    ensures r.Keys == documents.Keys
  {
    if documentId in documents then documents[documentId := DocumentAfter(documents[documentId], a, productId)]
    else documents
  }

  // ------------------------------------------------------------ properties

  /** OCR is given the page list exactly for a PDF, and a non-PDF never
      carries a warning. */
  lemma PdfPlanOnlyForPdf(imagePath: string, fileBytes: Option<seq<Byte>>)
    ensures !IsPdf(imagePath) ==> PdfPlan(imagePath, fileBytes) == (None, None)
    ensures IsPdf(imagePath) && CountPdfPages(fileBytes).None? ==> PdfPlan(imagePath, fileBytes) == (Some([1, 2, 3]), None)
  {
  }

  /** An OCR error, blank OCR text or a missing document end the block
      before anything is written or the LLM is asked. */
  lemma EarlyFailures(imagePath: string, pages: Option<seq<int>>, ocr: OcrClient, llm: LlmExtractor,
                      dumps: JsonDumps, accept: RowCheck, documentFound: bool, userId: int, strict: bool)
    ensures var result := ocr(imagePath, pages);
            var a := Attempted(imagePath, pages, ocr, llm, dumps, accept, documentFound, userId, strict);
            && (result.Err? ==> a == Failure(result.error))
            && (result.Ok? && Strip(result.value) == [] ==> a == Failure("OCR returned empty text"))
            && (result.Ok? && Strip(result.value) != [] && !documentFound ==> a == Failure("Document not found"))
  {
  }

  /** The LLM is asked exactly when the rule fields leave a required field
      empty, and it is given the OCR text before redaction. */
  lemma LlmCalledOnlyWhenNeeded(raw: string, rule: map<string, Value>, redacted: string, llm: LlmExtractor,
                                dumps: JsonDumps, accept: RowCheck, userId: int, imagePath: string, strict: bool)
    ensures Extracted(raw, rule, redacted, llm, dumps, accept, userId, imagePath, strict).llmInput ==
              if NeedsLlm(rule) then Some(raw) else None
  {
  }

  /**
   * Once the text is extracted: the block fails with the LLM's message when
   * the LLM is needed and raises, before any product. Otherwise the product
   * of the normalised merge is committed unless the database rejects it,
   * and then the two JSON columns are written until the first serialisation
   * that raises, whose message ends the block.
   */
  lemma ExtractedOutcome(raw: string, rule: map<string, Value>, redacted: string, llm: LlmExtractor,
                         dumps: JsonDumps, accept: RowCheck, userId: int, imagePath: string, strict: bool)
    ensures var a := Extracted(raw, rule, redacted, llm, dumps, accept, userId, imagePath, strict);
            && a.rawText == Some(redacted)
            && (NeedsLlm(rule) && llm(raw).Err? ==>
                  a.failure == Some(llm(raw).error) && !a.stuck
                  && a.product.None? && a.parsedFields.None? && a.evidence.None?)
  {
  }

  /** The steps after a successful LLM call, or with none needed. */
  lemma ExtractedProductOutcome(raw: string, rule: map<string, Value>, redacted: string, llm: LlmExtractor,
                                dumps: JsonDumps, accept: RowCheck, userId: int, imagePath: string, strict: bool)
    requires !NeedsLlm(rule) || llm(raw).Ok?
    ensures var a := Extracted(raw, rule, redacted, llm, dumps, accept, userId, imagePath, strict);
            var extra := if NeedsLlm(rule) then llm(raw).value else map[];
            var normalized := Normalized(Merged(rule, extra));
            var product := ProductOf(userId, imagePath, redacted, normalized);
            var parsed := dumps(RedactInStructure(Dict(Serialized(normalized)), {}, strict));
            var evidence := dumps(RedactInStructure(EvidenceOf(rule, extra), {}, strict));
            && (a.stuck <==> accept(product).Some?)
            && (a.stuck ==> a.failure == accept(product) && a.product.None? && a.parsedFields.None? && a.evidence.None?)
            && (!a.stuck ==>
                  && a.product == Some(product)
                  && a.parsedFields == (if parsed.Ok? then Some(parsed.value) else None)
                  && a.evidence == (if parsed.Ok? && evidence.Ok? then Some(evidence.value) else None)
                  && a.failure == (if parsed.Err? then Some(parsed.error) else if evidence.Err? then Some(evidence.error) else None))
  {
    var extra := if NeedsLlm(rule) then llm(raw).value else map[];
    var normalized := Normalized(Merged(rule, extra));
    var product := ProductOf(userId, imagePath, redacted, normalized);
    StoredCases(if NeedsLlm(rule) then Some(raw) else None, redacted, product, accept(product),
                dumps(RedactInStructure(Dict(Serialized(normalized)), {}, strict)),
                dumps(RedactInStructure(EvidenceOf(rule, extra), {}, strict)));
  }

  /** What steps 5 and 6 leave, case by case. */
  lemma StoredCases(llmInput: Option<string>, redacted: string, product: Product, rejected: Option<string>,
                    parsed: Result<string, string>, evidence: Result<string, string>)
    ensures var a := Stored(llmInput, redacted, product, rejected, parsed, evidence);
            && a.rawText == Some(redacted) && a.llmInput == llmInput
            && (a.stuck <==> rejected.Some?)
            && (a.stuck ==> a.failure == rejected && a.product.None? && a.parsedFields.None? && a.evidence.None?)
            && (!a.stuck ==>
                  && a.product == Some(product)
                  && a.parsedFields == (if parsed.Ok? then Some(parsed.value) else None)
                  && a.evidence == (if parsed.Ok? && evidence.Ok? then Some(evidence.value) else None)
                  && a.failure == (if parsed.Err? then Some(parsed.error) else if evidence.Err? then Some(evidence.error) else None))
  {
  }

  /** A store the rules found is the product's store, whatever the LLM
      says. */
  lemma RuleStoreKept(raw: string, rule: map<string, Value>, redacted: string, llm: LlmExtractor,
                      dumps: JsonDumps, accept: RowCheck, userId: int, imagePath: string, strict: bool)
    requires "store" in rule && !Blank(rule["store"])
    ensures var a := Extracted(raw, rule, redacted, llm, dumps, accept, userId, imagePath, strict);
            a.product.Some? ==> a.product.value.store == rule["store"]
  {
    ExtractedOutcome(raw, rule, redacted, llm, dumps, accept, userId, imagePath, strict);
    if !NeedsLlm(rule) || llm(raw).Ok? {
      ExtractedProductOutcome(raw, rule, redacted, llm, dumps, accept, userId, imagePath, strict);
      MergedNormalizedStore(rule, if NeedsLlm(rule) then llm(raw).value else map[]);
    }
  }

  lemma MergedNormalizedStore(rule: map<string, Value>, extra: map<string, Value>)
    requires "store" in rule && !Blank(rule["store"])
    ensures var m := Normalized(Merged(rule, extra)); "store" in m && m["store"] == rule["store"]
  {
    assert Merged(rule, extra)["store"] == rule["store"];
  }

  /** Text reaches the document and the product only redacted. */
  lemma StoredTextRedacted(imagePath: string, pages: Option<seq<int>>, ocr: OcrClient, llm: LlmExtractor,
                           dumps: JsonDumps, accept: RowCheck, documentFound: bool, userId: int, strict: bool)
    ensures var result := ocr(imagePath, pages);
            var a := Attempted(imagePath, pages, ocr, llm, dumps, accept, documentFound, userId, strict);
            && (a.rawText.Some? ==> result.Ok? && documentFound && a.rawText.value == RedactedText(result.value, strict))
            && (a.product.Some? ==> a.rawText.Some? && a.product.value.rawText == a.rawText.value)
  {
    var result := ocr(imagePath, pages);
    if result.Ok? && Strip(result.value) != [] && documentFound {
      var raw := result.value;
      ExtractedOutcome(raw, RuleFields(raw), RedactedText(raw, strict), llm, dumps, accept, userId, imagePath, strict);
      if !NeedsLlm(RuleFields(raw)) || llm(raw).Ok? {
        ExtractedProductOutcome(raw, RuleFields(raw), RedactedText(raw, strict), llm, dumps, accept, userId, imagePath, strict);
      }
    }
  }

  /** Unless the product commit raised, the job does not stay as it was: it
      completes with the new product and the redacted warning, or fails
      with the redacted message and keeps its product link. When the
      product commit raised, the row is left as it was. */
  lemma JobSettles(j: Job, a: Attempt, warning: Option<string>, productId: nat, strict: bool)
    ensures var r := JobAfter(j, a, warning, productId, strict);
            && (a.stuck ==> r == j)
            && (!a.stuck ==> (r.status == Completed <==> a.failure.None?) && (r.status == Failed <==> a.failure.Some?))
            && (!a.stuck && a.failure.Some? ==> r.error == Some(RedactedText(a.failure.value, strict)) && r.productId == j.productId)
            && (!a.stuck && a.failure.None? ==>
                  && r.productId == Some(productId)
                  && (r.error.Some? <==> warning.Some? && warning.value != [])
                  && (r.error.Some? ==> r.error.value == RedactedText(warning.value, strict)))
  {
  }

  /** An attempt that ends without failure has committed a product and
      written both JSON columns; one that fails after committing a product
      failed while serialising, so the evidence was never written. */
  lemma CompletedHasProduct(imagePath: string, pages: Option<seq<int>>, ocr: OcrClient, llm: LlmExtractor,
                            dumps: JsonDumps, accept: RowCheck, documentFound: bool, userId: int, strict: bool)
    ensures var a := Attempted(imagePath, pages, ocr, llm, dumps, accept, documentFound, userId, strict);
            && (a.failure.None? ==> a.product.Some? && a.parsedFields.Some? && a.evidence.Some? && !a.stuck)
            && (a.stuck ==> a.failure.Some? && a.product.None?)
            && (a.product.Some? && a.failure.Some? ==> !a.stuck && a.evidence.None?)
  {
    AttemptCases(imagePath, pages, ocr, llm, dumps, accept, documentFound, userId, strict);
  }

  /** The product commit succeeded and a later step raised: the product
      row stays and the document links to it, while the job fails without
      a product link. An encoder that raises on every value (a field nested
      past the recursion limit) is one way to get there. */
  lemma ProductBesideFailedJob(imagePath: string, pages: Option<seq<int>>, ocr: OcrClient, llm: LlmExtractor,
                               dumps: JsonDumps, accept: RowCheck, userId: int, strict: bool,
                               j: Job, d: Document, warning: Option<string>, productId: nat)
    requires ocr(imagePath, pages).Ok? && Strip(ocr(imagePath, pages).value) != []
    requires var raw := ocr(imagePath, pages).value; !NeedsLlm(RuleFields(raw)) || llm(raw).Ok?
    requires forall p :: accept(p).None?
    requires forall v :: dumps(v).Err?
    ensures var a := Attempted(imagePath, pages, ocr, llm, dumps, accept, true, userId, strict);
            var job := JobAfter(j, a, warning, productId, strict);
            && a.product.Some? && OptionSeq(a.product) == [a.product.value]
            && job.status == Failed && job.productId == j.productId
            && DocumentAfter(d, a, productId).productId == Some(productId)
  {
    var raw := ocr(imagePath, pages).value;
    ExtractedProductOutcome(raw, RuleFields(raw), RedactedText(raw, strict), llm, dumps, accept, userId, imagePath, strict);
  }

  /** The database rejects the product row: the job keeps the status the
      first commit gave it and the document is untouched, although OCR and
      the LLM (when needed) were called. */
  lemma RejectedRowLeavesJob(imagePath: string, pages: Option<seq<int>>, ocr: OcrClient, llm: LlmExtractor,
                             dumps: JsonDumps, accept: RowCheck, userId: int, strict: bool,
                             j: Job, d: Document, warning: Option<string>, productId: nat)
    requires ocr(imagePath, pages).Ok? && Strip(ocr(imagePath, pages).value) != []
    requires var raw := ocr(imagePath, pages).value; !NeedsLlm(RuleFields(raw)) || llm(raw).Ok?
    requires forall p :: accept(p).Some?
    ensures var a := Attempted(imagePath, pages, ocr, llm, dumps, accept, true, userId, strict);
            && a.stuck && a.product.None?
            && JobAfter(j, a, warning, productId, strict) == j
            && DocumentAfter(d, a, productId) == d
  {
    var raw := ocr(imagePath, pages).value;
    ExtractedProductOutcome(raw, RuleFields(raw), RedactedText(raw, strict), llm, dumps, accept, userId, imagePath, strict);
  }

  /** The outcome facts of each path of the block, gathered. */
  lemma AttemptCases(imagePath: string, pages: Option<seq<int>>, ocr: OcrClient, llm: LlmExtractor,
                     dumps: JsonDumps, accept: RowCheck, documentFound: bool, userId: int, strict: bool)
    ensures var a := Attempted(imagePath, pages, ocr, llm, dumps, accept, documentFound, userId, strict);
            && (a.product.Some? ==> a.rawText.Some? && !a.stuck)
            && (a.parsedFields.Some? ==> a.product.Some?)
            && (a.evidence.Some? ==> a.parsedFields.Some?)
            && (a.failure.None? ==> a.evidence.Some? && !a.stuck)
            && (a.stuck ==> a.failure.Some? && a.product.None?)
            && (a.product.Some? && a.failure.Some? ==> a.evidence.None?)
  {
    var result := ocr(imagePath, pages);
    if result.Ok? && Strip(result.value) != [] && documentFound {
      var raw := result.value;
      ExtractedCases(raw, RuleFields(raw), RedactedText(raw, strict), llm, dumps, accept, userId, imagePath, strict);
    }
  }

  lemma ExtractedCases(raw: string, rule: map<string, Value>, redacted: string, llm: LlmExtractor,
                       dumps: JsonDumps, accept: RowCheck, userId: int, imagePath: string, strict: bool)
    ensures var a := Extracted(raw, rule, redacted, llm, dumps, accept, userId, imagePath, strict);
            && (a.product.Some? ==> a.rawText.Some? && !a.stuck)
            && (a.parsedFields.Some? ==> a.product.Some?)
            && (a.evidence.Some? ==> a.parsedFields.Some?)
            && (a.failure.None? ==> a.evidence.Some? && !a.stuck)
            && (a.stuck ==> a.failure.Some? && a.product.None?)
            && (a.product.Some? && a.failure.Some? ==> a.evidence.None?)
  {
    ExtractedOutcome(raw, rule, redacted, llm, dumps, accept, userId, imagePath, strict);
    if !NeedsLlm(rule) || llm(raw).Ok? {
      ExtractedProductOutcome(raw, rule, redacted, llm, dumps, accept, userId, imagePath, strict);
    }
  }

  /** The block writes the document's columns in order: the text, then the
      product link, then the parsed fields, then the evidence. */
  predicate WritesInOrder(a: Attempt)
  {
    && (a.product.Some? ==> a.rawText.Some?)
    && (a.parsedFields.Some? ==> a.product.Some?)
    && (a.evidence.Some? ==> a.parsedFields.Some?)
  }

  lemma AttemptWritesInOrder(imagePath: string, pages: Option<seq<int>>, ocr: OcrClient, llm: LlmExtractor,
                             dumps: JsonDumps, accept: RowCheck, documentFound: bool, userId: int, strict: bool)
    ensures WritesInOrder(Attempted(imagePath, pages, ocr, llm, dumps, accept, documentFound, userId, strict))
  {
    AttemptCases(imagePath, pages, ocr, llm, dumps, accept, documentFound, userId, strict);
  }

  /** The document row: its text, product link and JSON columns change only
      as far as the block got, and its product link is the new product. */
  lemma DocumentUpdates(d: Document, a: Attempt, productId: nat)
    requires WritesInOrder(a)
    ensures var r := DocumentAfter(d, a, productId);
            && (a.stuck || a.rawText.None? ==> r == d)
            && (!a.stuck ==>
                  && r.rawText == (if a.rawText.Some? then a.rawText.value else d.rawText)
                  && r.productId == (if a.product.Some? then Some(productId) else d.productId)
                  && r.parsedFields == (if a.parsedFields.Some? then a.parsedFields.value else d.parsedFields)
                  && r.evidence == (if a.evidence.Some? then a.evidence else d.evidence))
  {
  }

  /**
   * The database as the job sees it: the job and document tables, the
   * product table (a product's id is its position plus one), the job rows as
   * committed in order, and the calls made to OCR and to the LLM.
   */
  class JobStore {
    var jobs: map<nat, Job>
    var documents: map<nat, Document>
    var products: seq<Product>
    var jobCommits: seq<(nat, JobStatus)>
    var ocrCalls: seq<(string, Option<seq<int>>)>
    var llmCalls: seq<string>

    constructor (jobs0: map<nat, Job>, documents0: map<nat, Document>)
      ensures jobs == jobs0 && documents == documents0
      ensures products == [] && jobCommits == [] && ocrCalls == [] && llmCalls == []
    {
      jobs := jobs0;
      documents := documents0;
      products := [];
      jobCommits := [];
      ocrCalls := [];
      llmCalls := [];
    }

    /** Step 1: the job is marked as processing and committed. */
    method Start(jobId: nat)
      requires jobId in jobs
      modifies this
      ensures jobs == old(jobs)[jobId := old(jobs)[jobId].(status := Processing)]
      ensures jobCommits == old(jobCommits) + [(jobId, Processing)]
      ensures documents == old(documents) && products == old(products)
      ensures ocrCalls == old(ocrCalls) && llmCalls == old(llmCalls)
    {
      jobs := jobs[jobId := jobs[jobId].(status := Processing)];
      jobCommits := jobCommits + [(jobId, Processing)];
    }

    /** What the `try` block and the closing commit leave in the tables,
        given what the block did. */
    method Record(jobId: nat, documentId: nat, imagePath: string, plan: (Option<seq<int>>, Option<string>),
                  a: Attempt, strict: bool)
      requires jobId in jobs
      modifies this
      ensures var job := JobAfter(old(jobs)[jobId], a, plan.1, |old(products)| + 1, strict);
              && jobs == old(jobs)[jobId := job]
              && documents == DocumentsAfter(old(documents), documentId, a, |old(products)| + 1)
              && products == old(products) + OptionSeq(a.product)
              && jobCommits == old(jobCommits) + (if a.stuck then [] else [(jobId, job.status)])
              && ocrCalls == old(ocrCalls) + [(imagePath, plan.0)]
              && llmCalls == old(llmCalls) + OptionSeq(a.llmInput)
    {
      ocrCalls := ocrCalls + [(imagePath, plan.0)];
      llmCalls := llmCalls + OptionSeq(a.llmInput);
      var id := |products| + 1;
      products := products + OptionSeq(a.product);
      documents := DocumentsAfter(documents, documentId, a, id);
      var job := JobAfter(jobs[jobId], a, plan.1, id, strict);
      jobs := jobs[jobId := job];
      if !a.stuck {
        jobCommits := jobCommits + [(jobId, job.status)];
      }
    }

    /** Both steps, given what the `try` block did. */
    method Commit(jobId: nat, documentId: nat, imagePath: string, plan: (Option<seq<int>>, Option<string>),
                  a: Attempt, strict: bool)
      requires jobId in jobs
      modifies this
      ensures var id := |old(products)| + 1;
              var job := JobAfter(old(jobs)[jobId].(status := Processing), a, plan.1, id, strict);
              && jobs == old(jobs)[jobId := job]
              && documents == DocumentsAfter(old(documents), documentId, a, id)
              && products == old(products) + OptionSeq(a.product)
              && jobCommits == old(jobCommits) + [(jobId, Processing)] + (if a.stuck then [] else [(jobId, job.status)])
              && ocrCalls == old(ocrCalls) + [(imagePath, plan.0)]
              && llmCalls == old(llmCalls) + OptionSeq(a.llmInput)
    {
      Start(jobId);
      Record(jobId, documentId, imagePath, plan, a, strict);
    }

    /**
     * `process_document_job`. `strict` is the redaction mode the
     * environment selects, `fileBytes` the uploaded file as read (None when
     * reading fails). The ghost result names what the `try` block did, so
     * that the tables can be stated in its terms; it is None when the job
     * does not exist. The block reads nothing the first commit writes, so
     * it is computed first and both commits are then applied in their
     * order.
     */
    method ProcessDocumentJob(jobId: nat, documentId: nat, userId: int, imagePath: string,
                              fileBytes: Option<seq<Byte>>, ocr: OcrClient, llm: LlmExtractor,
                              dumps: JsonDumps, accept: RowCheck, strict: bool)
      returns (ghost attempt: Option<Attempt>)
      modifies this
      ensures jobId !in old(jobs) ==>
                && attempt.None?
                && jobs == old(jobs) && documents == old(documents) && products == old(products)
                && jobCommits == old(jobCommits) && ocrCalls == old(ocrCalls) && llmCalls == old(llmCalls)
      ensures jobId in old(jobs) ==>
                attempt == Some(Attempted(imagePath, PdfPlan(imagePath, fileBytes).0, ocr, llm, dumps, accept, documentId in old(documents), userId, strict))
      ensures attempt.Some? ==>
                var plan := PdfPlan(imagePath, fileBytes);
                var a := attempt.value;
                var id := |old(products)| + 1;
                var job := JobAfter(old(jobs)[jobId].(status := Processing), a, plan.1, id, strict);
                && jobId in old(jobs)
                && jobs == old(jobs)[jobId := job]
                && documents == DocumentsAfter(old(documents), documentId, a, id)
                && products == old(products) + OptionSeq(a.product)
                && jobCommits == old(jobCommits) + [(jobId, Processing)] + (if a.stuck then [] else [(jobId, job.status)])
                && ocrCalls == old(ocrCalls) + [(imagePath, plan.0)]
                && llmCalls == old(llmCalls) + OptionSeq(a.llmInput)
    {
      if jobId !in jobs {
        return None;
      }
      var plan := SelectPages(imagePath, fileBytes);
      var a := RunAttempt(imagePath, plan.0, ocr, llm, dumps, accept, documentId in documents, userId, strict);
      Commit(jobId, documentId, imagePath, plan, a, strict);
      attempt := Some(a);
    }
  }
}

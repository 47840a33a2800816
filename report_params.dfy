/** The flat parameter records a lab report is turned into, and the result
    of `validate_and_fix_response` and `analyze_pdf`, for both versions of
    the extraction module. The two versions walk the reply alike; they
    differ in `parse_float` and in that the current one adds the
    normalisation fields to every record.

    Python's `float(str)` is `parseReal`: the number a string denotes, or
    `None` when `float` raises. */
module ReportParams {
  import opened Wrappers
  import opened JsonValues
  import opened Seqs
  import Text
  import Synonyms
  import ReportJson

  /** Which module does the work: the current one, with its
      `normalize_test_name` and `parse_float`, or the older one with its
      own `parse_float`. */
  datatype Version =
    | Current(normalize: string -> Synonyms.NormResult, parse: Json -> Option<real>)
    | Old(parse: Json -> Option<real>)

  /** One record of `flatten_parameters`. `norm` holds the fields the
      current version copies from `normalize_test_name`; `loincCode` is
      the key `save_to_mongo` reads, which neither version sets. */
  datatype Param = Param(
    category: string,
    name: string,
    value: Option<real>,
    unit: Json,
    referenceRange: Json,
    norm: Option<Synonyms.NormResult>,
    loincCode: Option<Json>)

  // ---------------------------------------------------------------------
  // parse_float
  // ---------------------------------------------------------------------

  /** `parse_float` of openai_extract_fields_combined.py: only a string has
      `replace`, so any other value (a JSON number included) is `None`. */
  function ParseFloatCurrent(parseReal: string -> Option<real>, v: Json): Option<real> {
    match v
    case Str(s) => parseReal(Text.Strip(Text.RemoveChar(s, ',')))
    case _ => None
  }

  /** `parse_float` of openai_extract_fields_combined_old.py: `float(val)`;
      `None`, lists and dicts raise TypeError and give `None`. */
  function ParseFloatOld(parseReal: string -> Option<real>, v: Json): Option<real> {
    match v
    case Str(s) => parseReal(s)
    case Num(n) => Some(n)
    case Bool(b) => Some(if b then 1.0 else 0.0)
    case _ => None
  }

  /** The two versions part on a JSON number, which only the old one
      reads; they agree on a missing value and on a stripped string without
      commas; the current one ignores commas. */
  lemma ParseFloatVersions(parseReal: string -> Option<real>, v: Json)
    ensures v.Num? ==> ParseFloatOld(parseReal, v) == Some(v.n) && ParseFloatCurrent(parseReal, v) == None
    ensures v.Null? ==> ParseFloatOld(parseReal, v) == None == ParseFloatCurrent(parseReal, v)
    ensures v.Str? && ',' !in v.s && Text.Strip(v.s) == v.s ==>
      ParseFloatOld(parseReal, v) == ParseFloatCurrent(parseReal, v)
    ensures v.Str? ==>
      ParseFloatCurrent(parseReal, v) == ParseFloatCurrent(parseReal, Str(Text.RemoveChar(v.s, ',')))
  {
  }

  /** The current module over its synonym table and `categories_map`. */
  function CurrentWith(synonyms: map<string, string>, categories: map<string, string>,
                       parseReal: string -> Option<real>): (v: Version)
    ensures v.Current?
  {
    Current(name => Synonyms.Normalize(synonyms, categories, name), v => ParseFloatCurrent(parseReal, v))
  }

  /** The older module. */
  function OldWith(parseReal: string -> Option<real>): (v: Version)
    ensures v.Old?
  {
    Old(v => ParseFloatOld(parseReal, v))
  }

  /** The current module's normaliser is `normalize_test_name` and its
      reader the current `parse_float`; the old module's reader is the old
      `parse_float`. */
  lemma VersionFunctions(synonyms: map<string, string>, categories: map<string, string>,
                         parseReal: string -> Option<real>, name: string, v: Json)
    ensures CurrentWith(synonyms, categories, parseReal).normalize(name) == Synonyms.Normalize(synonyms, categories, name)
    ensures CurrentWith(synonyms, categories, parseReal).parse(v) == ParseFloatCurrent(parseReal, v)
    ensures OldWith(parseReal).parse(v) == ParseFloatOld(parseReal, v)
  {
  }

  // ---------------------------------------------------------------------
  // flatten_parameters
  // ---------------------------------------------------------------------

  /** The record for the dict-valued `detail` under `name` in `category`. */
  function MakeParam(version: Version, category: string, name: string, detail: seq<(string, Json)>): Param {
    Param(
      category,
      name,
      version.parse(GetOr(detail, "Value", Null)),
      GetOr(detail, "Unit", Str("N/A")),
      GetOr(detail, "Reference Range", Str("N/A")),
      if version.Current? then Some(version.normalize(name)) else None,
      None)
  }

  /** The inner loop over one category: a record per dict-valued detail. */
  function DetailRecords(version: Version, category: string, params: seq<(string, Json)>): seq<Param> {
    if params == [] then []
    else
      var n := |params| - 1;
      DetailRecords(version, category, params[..n]) +
        (if params[n].1.Obj? then [MakeParam(version, category, params[n].0, params[n].1.fields)] else [])
  }

  /** The outer loop: the records of every dict-valued category, in order. */
  function CategoryRecords(version: Version, fields: seq<(string, Json)>): seq<Param> {
    if fields == [] then []
    else
      var n := |fields| - 1;
      CategoryRecords(version, fields[..n]) +
        (if fields[n].1.Obj? then DetailRecords(version, fields[n].0, fields[n].1.fields) else [])
  }

  /** `flatten_parameters(data)`: nothing unless `data` is a dict. */
  function Flatten(version: Version, data: Json): seq<Param> {
    match data
    case Obj(fields) => CategoryRecords(version, fields)
    case _ => []
  }

  /** A record whose name the synonym table did not know. */
  predicate Unmatched(p: Param) {
    p.norm.Some? && !p.norm.value.normalized
  }

  /** The names of the unmatched records, in order. */
  function UnmatchedNames(flat: seq<Param>): seq<string> {
    if flat == [] then []
    else
      var n := |flat| - 1;
      UnmatchedNames(flat[..n]) + (if Unmatched(flat[n]) then [flat[n].name] else [])
  }

  /** The detail `d` yields the record `p`. */
  function YieldsRecord(version: Version, category: string, p: Param): ((string, Json)) -> bool {
    (d: (string, Json)) => d.1.Obj? && p == MakeParam(version, category, d.0, d.1.fields)
  }

  /** The category `c` has a detail that yields the record `p`. */
  function HasRecord(version: Version, p: Param): ((string, Json)) -> bool {
    (c: (string, Json)) => c.1.Obj? && Any(c.1.fields, YieldsRecord(version, c.0, p))
  }

  /** `p` is the record of a dict-valued detail of `params`. */
  predicate FromDetail(version: Version, category: string, params: seq<(string, Json)>, p: Param) {
    Any(params, YieldsRecord(version, category, p))
  }

  /** `p` is the record of a dict-valued detail of a dict-valued category. */
  predicate FromCategories(version: Version, fields: seq<(string, Json)>, p: Param) {
    Any(fields, HasRecord(version, p))
  }

  lemma {:induction false} DetailRecordsMembers(version: Version, category: string, params: seq<(string, Json)>, p: Param)
    ensures p in DetailRecords(version, category, params) <==> FromDetail(version, category, params, p)
  {
    if params != [] {
      var n := |params| - 1;
      var prev := DetailRecords(version, category, params[..n]);
      var last := if params[n].1.Obj? then [MakeParam(version, category, params[n].0, params[n].1.fields)] else [];
      assert DetailRecords(version, category, params) == prev + last;
      assert p in prev + last <==> p in prev || p in last;
      DetailRecordsMembers(version, category, params[..n], p);
      FromDetailStep(version, category, params, p);
    }
  }

  lemma FromDetailStep(version: Version, category: string, params: seq<(string, Json)>, p: Param)
    requires params != []
    ensures var n := |params| - 1;
      FromDetail(version, category, params, p) <==>
        || FromDetail(version, category, params[..n], p)
        || (params[n].1.Obj? && p == MakeParam(version, category, params[n].0, params[n].1.fields))
  {
    AnyStep(params, YieldsRecord(version, category, p));
  }

  lemma {:induction false} CategoryRecordsMembers(version: Version, fields: seq<(string, Json)>, p: Param)
    ensures p in CategoryRecords(version, fields) <==> FromCategories(version, fields, p)
  {
    if fields != [] {
      var n := |fields| - 1;
      var prev := CategoryRecords(version, fields[..n]);
      var last := if fields[n].1.Obj? then DetailRecords(version, fields[n].0, fields[n].1.fields) else [];
      assert CategoryRecords(version, fields) == prev + last;
      assert p in prev + last <==> p in prev || p in last;
      CategoryRecordsMembers(version, fields[..n], p);
      if fields[n].1.Obj? {
        DetailRecordsMembers(version, fields[n].0, fields[n].1.fields, p);
      }
      FromCategoriesStep(version, fields, p);
    }
  }

  lemma FromCategoriesStep(version: Version, fields: seq<(string, Json)>, p: Param)
    requires fields != []
    ensures var n := |fields| - 1;
      FromCategories(version, fields, p) <==>
        || FromCategories(version, fields[..n], p)
        || (fields[n].1.Obj? && FromDetail(version, fields[n].0, fields[n].1.fields, p))
  {
    AnyStep(fields, HasRecord(version, p));
  }

  lemma DetailRecordsStep(version: Version, category: string, params: seq<(string, Json)>, j: nat)
    requires j < |params|
    ensures DetailRecords(version, category, params[..j + 1]) ==
      DetailRecords(version, category, params[..j]) +
        (if params[j].1.Obj? then [MakeParam(version, category, params[j].0, params[j].1.fields)] else [])
  {
    assert params[..j + 1][..j] == params[..j];
  }

  /** `DetailRecordsStep` for a loop that appends to what came before. */
  lemma DetailRecordsAppend(version: Version, category: string, params: seq<(string, Json)>, j: nat,
                            before: seq<Param>, flat: seq<Param>)
    requires j < |params| && flat == before + DetailRecords(version, category, params[..j])
    ensures before + DetailRecords(version, category, params[..j + 1]) ==
      flat + (if params[j].1.Obj? then [MakeParam(version, category, params[j].0, params[j].1.fields)] else [])
  {
    DetailRecordsStep(version, category, params, j);
  }

  lemma CategoryRecordsStep(version: Version, fields: seq<(string, Json)>, i: nat)
    requires i < |fields|
    ensures CategoryRecords(version, fields[..i + 1]) ==
      CategoryRecords(version, fields[..i]) +
        (if fields[i].1.Obj? then DetailRecords(version, fields[i].0, fields[i].1.fields) else [])
  {
    assert fields[..i + 1][..i] == fields[..i];
  }

  lemma UnmatchedNamesStep(flat: seq<Param>, p: Param)
    ensures UnmatchedNames(flat + [p]) == UnmatchedNames(flat) + (if Unmatched(p) then [p.name] else [])
  {
    assert (flat + [p])[..|flat|] == flat;
  }

  /** The records are exactly one per dict-valued detail of a dict-valued
      category, with `category` and `name` copied from the two keys; a
      value that is not a dict yields none. */
  lemma FlattenMembers(version: Version, data: Json, p: Param)
    ensures !data.Obj? ==> Flatten(version, data) == []
    ensures data.Obj? ==> (p in Flatten(version, data) <==> FromCategories(version, data.fields, p))
  {
    if data.Obj? {
      CategoryRecordsMembers(version, data.fields, p);
    }
  }

  /** Every record reads its value with the version's `parse_float` and
      defaults `unit` and `referenceRange` to "N/A"; the current version
      adds `normalize_test_name(name)`, the old one nothing; neither sets a
      LOINC code. */
  lemma FlattenRecordFields(version: Version, data: Json, p: Param)
    requires p in Flatten(version, data)
    ensures p.loincCode == None
    ensures version.Current? ==> p.norm == Some(version.normalize(p.name))
    ensures version.Old? ==> p.norm == None && !Unmatched(p)
    ensures exists detail: seq<(string, Json)> ::
      && p.value == version.parse(GetOr(detail, "Value", Null))
      && p.unit == GetOr(detail, "Unit", Str("N/A"))
      && p.referenceRange == GetOr(detail, "Reference Range", Str("N/A"))
  {
    FlattenMembers(version, data, p);
    var i :| 0 <= i < |data.fields| && HasRecord(version, p)(data.fields[i]);
    var params := data.fields[i].1.fields;
    var j :| 0 <= j < |params| && YieldsRecord(version, data.fields[i].0, p)(params[j]);
    var detail := params[j].1.fields;
    assert p.value == version.parse(GetOr(detail, "Value", Null));
  }

  /** `unmatched` names exactly the unmatched records, in order. */
  lemma {:induction false} UnmatchedNamesMembers(flat: seq<Param>, name: string)
    ensures |UnmatchedNames(flat)| <= |flat|
    ensures name in UnmatchedNames(flat) <==> exists i :: 0 <= i < |flat| && Unmatched(flat[i]) && flat[i].name == name
  {
    if flat != [] {
      var n := |flat| - 1;
      UnmatchedNamesMembers(flat[..n], name);
      if exists i :: 0 <= i < n && Unmatched(flat[..n][i]) && flat[..n][i].name == name {
        var i :| 0 <= i < n && Unmatched(flat[..n][i]) && flat[..n][i].name == name;
        assert flat[i] == flat[..n][i];
      }
      if exists i :: 0 <= i < |flat| && Unmatched(flat[i]) && flat[i].name == name {
        var i :| 0 <= i < |flat| && Unmatched(flat[i]) && flat[i].name == name;
        if i < n {
          assert flat[..n][i] == flat[i];
        }
      }
    }
  }

  // ---------------------------------------------------------------------
  // validate_and_fix_response and analyze_pdf
  // ---------------------------------------------------------------------

  /** The dict `validate_and_fix_response` returns (`extractedparameters`
      is `extracted`). */
  datatype Standardized = Standardized(
    success: bool,
    categories: seq<string>,
    extracted: Json,
    parameters: seq<Param>,
    message: string)

  /** The record for a falsy reply. */
  const NoData: Standardized := Standardized(false, [], Obj([]), [], "No data extracted")

  /** `validate_and_fix_response(parsed)`; `None` when it raises, which it
      does for every truthy value that is not a dict (`in` and item
      assignment on a string, list or number). */
  function Validate(version: Version, parsed: Json): Option<Standardized> {
    if !Truthy(parsed) then Some(NoData)
    else
      match parsed
      case Obj(fields) =>
        var fixed := ReportJson.FixedFields(fields);
        var medical := GetOr(fixed, "Medical Parameters", Obj([]));
        Some(Standardized(true, Keys(fixed), Obj(fixed), Flatten(version, medical), "Data extraction completed"))
      case _ => None
  }

  /** A falsy reply gives the "No data extracted" record and a truthy one
      that is not a dict raises. A dict gives a successful record whose
      categories are its keys followed by the required ones it lacked, all
      required categories present, and whose parameters are the flattened
      "Medical Parameters" of the reply, or none when it had none. */
  lemma ValidateSpec(version: Version, parsed: Json)
    ensures !Truthy(parsed) ==> Validate(version, parsed) == Some(NoData)
    ensures Truthy(parsed) && !parsed.Obj? ==> Validate(version, parsed) == None
    ensures Truthy(parsed) && parsed.Obj? ==>
      var r := Validate(version, parsed);
      && r.Some? && r.value.success
      && r.value.categories == Keys(parsed.fields) + ReportJson.MissingOf(parsed.fields, ReportJson.RequiredCategories)
      && r.value.extracted.Obj?
      && (forall c :: c in ReportJson.RequiredCategories ==> c in r.value.categories)
      && r.value.parameters ==
           match Get(parsed.fields, "Medical Parameters")
           case None => []
           case Some(medical) => Flatten(version, medical)
  {
    if Truthy(parsed) && parsed.Obj? {
      ReportJson.FixedFieldsKeys(parsed.fields);
      ReportJson.FixedFieldsGet(parsed.fields, "Medical Parameters");
      forall c | c in ReportJson.RequiredCategories
        ensures c in Keys(ReportJson.FixedFields(parsed.fields))
      {
      }
    }
  }

  /** Why `analyze_pdf` gave up. */
  datatype PdfError =
    | NoTextExtracted       // OCR raised or found no text
    | OpenAIFailed          // no reply, empty reply, undecodable or falsy JSON
    | ValidationRaised      // validate_and_fix_response raised

  /** The `error` string of the failure dict, where the code fixes it. */
  function ErrorMessage(e: PdfError): Option<string> {
    match e
    case NoTextExtracted => Some("No text extracted from input file.")
    case OpenAIFailed => Some("Failed to analyze text with OpenAI.")
    case ValidationRaised => None
  }

  /** What `analyze_pdf` returns: the standardized record, or
      `{"success": False, "error": ...}`. */
  datatype PdfResult = Standard(out: Standardized) | Error(error: PdfError)

  /** `analyze_pdf(file_path)`, with `ocr` the result of
      `extract_text_from_pdf` (`None` when it raised). */
  function AnalyzePdfSpec(version: Version, ocr: Option<string>,
                          reply: string -> Option<string>, parse: string -> Option<Json>): PdfResult {
    if ocr.None? || ocr.value == [] then Error(NoTextExtracted)
    else
      match ReportJson.AnalyzeWithOpenAI(ocr.value, reply, parse)
      case None => Error(OpenAIFailed)
      case Some(j) =>
        if !Truthy(j) then Error(OpenAIFailed)
        else
          match Validate(version, j)
          case None => Error(ValidationRaised)
          case Some(out) => Standard(out)
  }

  /** `analyze_pdf` never raises and never passes on the "No data
      extracted" record: what it returns is a successful record with every
      required category, or an error. No text means the first error; text
      with no usable reply the second. */
  lemma AnalyzePdfOutcome(version: Version, ocr: Option<string>,
                          reply: string -> Option<string>, parse: string -> Option<Json>)
    ensures var r := AnalyzePdfSpec(version, ocr, reply, parse);
      && (r.Standard? ==> r.out.success && forall c :: c in ReportJson.RequiredCategories ==> c in r.out.categories)
      && (r == Error(NoTextExtracted) <==> ocr.None? || ocr.value == [])
      && (r == Error(OpenAIFailed) <==>
            ocr.Some? && ocr.value != [] &&
            var j := ReportJson.AnalyzeWithOpenAI(ocr.value, reply, parse);
            j.None? || !Truthy(j.value))
  {
    if ocr.Some? && ocr.value != [] {
      var j := ReportJson.AnalyzeWithOpenAI(ocr.value, reply, parse);
      if j.Some? {
        ValidateSpec(version, j.value);
      }
    }
  }
}

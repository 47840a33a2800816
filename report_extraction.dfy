/** `flatten_parameters`, `validate_and_fix_response` and `analyze_pdf` of
    openai_extract_fields_combined.py, the current extraction module, with
    its module-level `synonyms_flat` and `categories_map` passed in. */
module ReportExtraction {
  import opened Wrappers
  import opened JsonValues
  import Synonyms
  import ReportJson
  import opened ReportParams

  /** `flatten_parameters(data)`: the records, and the names the synonym
      table did not know (the list the function writes to its log). */
  method FlattenParameters(synonyms: map<string, string>, categories: map<string, string>,
                           parseReal: string -> Option<real>, data: Json)
    returns (flat: seq<Param>, unmatched: seq<string>)
    ensures flat == Flatten(CurrentWith(synonyms, categories, parseReal), data)
    ensures unmatched == UnmatchedNames(flat)
  {
    flat, unmatched := [], [];
    if !data.Obj? {
      return;
    }
    var version := CurrentWith(synonyms, categories, parseReal);
    var fields := data.fields;
    var i := 0;
    while i < |fields|
      invariant 0 <= i <= |fields|
      invariant flat == CategoryRecords(version, fields[..i])
      invariant unmatched == UnmatchedNames(flat)
    {
      var (category, params) := fields[i];
      CategoryRecordsStep(version, fields, i);
      if params.Obj? {
        flat, unmatched := FlattenCategory(version, category, params.fields, flat, unmatched);
      }
      i := i + 1;
    }
    assert fields[..i] == fields;
  }

  /** The inner loop of `flatten_parameters` over the tests of one
      category, appending to `flat` and `unmatched`. */
  method FlattenCategory(version: Version, category: string,
                         params: seq<(string, Json)>, flat0: seq<Param>, unmatched0: seq<string>)
    returns (flat: seq<Param>, unmatched: seq<string>)
    requires version.Current? && unmatched0 == UnmatchedNames(flat0)
    ensures flat == flat0 + DetailRecords(version, category, params)
    ensures unmatched == UnmatchedNames(flat)
  {
    flat, unmatched := flat0, unmatched0;
    var j := 0;
    while j < |params|
      invariant 0 <= j <= |params|
      invariant flat == flat0 + DetailRecords(version, category, params[..j])
      invariant unmatched == UnmatchedNames(flat)
    {
      var (name, detail) := params[j];
      DetailRecordsAppend(version, category, params, j, flat0, flat);
      if detail.Obj? {
        flat, unmatched := AppendRecord(version, category, name, detail.fields, flat, unmatched);
      }
      j := j + 1;
    }
    assert params[..j] == params;
  }

  /** The body of the inner loop for a dict-valued `detail`: the record is
      appended, and its name too when `normalize_test_name` did not know
      it. The source appends the record and then fills in the
      normalisation (`flat[-1].update(...)`); nothing reads `flat` in
      between, so the finished record is appended at once. */
  method AppendRecord(version: Version, category: string, name: string, detail: seq<(string, Json)>,
                      flat0: seq<Param>, unmatched0: seq<string>)
    returns (flat: seq<Param>, unmatched: seq<string>)
    requires version.Current? && unmatched0 == UnmatchedNames(flat0)
    ensures flat == flat0 + [MakeParam(version, category, name, detail)]
    ensures unmatched == UnmatchedNames(flat)
  {
    var norm := version.normalize(name);
    var record := Param(
      category,
      name,
      version.parse(GetOr(detail, "Value", Null)),
      GetOr(detail, "Unit", Str("N/A")),
      GetOr(detail, "Reference Range", Str("N/A")),
      Some(norm),
      None);
    assert record == MakeParam(version, category, name, detail);
    UnmatchedNamesStep(flat0, record);
    unmatched := unmatched0;
    if !norm.normalized {
      unmatched := unmatched + [name];
    }
    flat := flat0 + [record];
  }

  /** `validate_and_fix_response(parsed_response)`; `None` when it raises. */
  method ValidateAndFix(synonyms: map<string, string>, categories: map<string, string>,
                        parseReal: string -> Option<real>, parsed: Json)
    returns (r: Option<Standardized>)
    ensures r == Validate(CurrentWith(synonyms, categories, parseReal), parsed)
  {
    if !Truthy(parsed) {
      return Some(NoData);
    }
    if !parsed.Obj? {
      return None;
    }
    var fixed := ReportJson.FixCategories(parsed.fields);
    var medical := GetOr(fixed, "Medical Parameters", Obj([]));
    var flat, unmatched := FlattenParameters(synonyms, categories, parseReal, medical);
    r := Some(Standardized(true, Keys(fixed), Obj(fixed), flat, "Data extraction completed"));
  }

  /** `analyze_pdf(file_path)` with the OCR result `ocr`. */
  method AnalyzePdf(synonyms: map<string, string>, categories: map<string, string>,
                    parseReal: string -> Option<real>, ocr: Option<string>,
                    reply: string -> Option<string>, parse: string -> Option<Json>)
    returns (r: PdfResult)
    ensures r == AnalyzePdfSpec(CurrentWith(synonyms, categories, parseReal), ocr, reply, parse)
  {
    if ocr.None? || ocr.value == [] {
      return Error(NoTextExtracted);
    }
    var response := ReportJson.AnalyzeWithOpenAI(ocr.value, reply, parse);
    if response.None? || !Truthy(response.value) {
      return Error(OpenAIFailed);
    }
    var out := ValidateAndFix(synonyms, categories, parseReal, response.value);
    if out.None? {
      return Error(ValidationRaised);
    }
    r := Standard(out.value);
  }

  /** Each record carries `normalize_test_name` of its name, and it is
      listed as unmatched exactly when its lowercased, stripped name has no
      non-empty canonical in the synonym table. */
  lemma RecordsNormalized(synonyms: map<string, string>, categories: map<string, string>,
                          parseReal: string -> Option<real>, data: Json, p: Param)
    requires p in Flatten(CurrentWith(synonyms, categories, parseReal), data)
    ensures p.norm == Some(Synonyms.Normalize(synonyms, categories, p.name))
    ensures Unmatched(p) <==> !(Synonyms.Key(p.name) in synonyms && synonyms[Synonyms.Key(p.name)] != "")
  {
    FlattenRecordFields(CurrentWith(synonyms, categories, parseReal), data, p);
    VersionFunctions(synonyms, categories, parseReal, p.name, Null);
  }
}

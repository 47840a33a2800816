/** `flatten_parameters`, `validate_and_fix_response` and `analyze_pdf` of
    openai_extract_fields_combined_old.py, the older extraction module: it
    reads values with a plain `float(val)` and does not normalise test
    names. */
module ReportExtractionOld {
  import opened Wrappers
  import opened JsonValues
  import ReportJson
  import opened ReportParams

  /** `flatten_parameters(data)`. */
  method FlattenParameters(parseReal: string -> Option<real>, data: Json) returns (flat: seq<Param>)
    ensures flat == Flatten(OldWith(parseReal), data)
  {
    flat := [];
    if !data.Obj? {
      return;
    }
    ghost var version := OldWith(parseReal);
    var fields := data.fields;
    var i := 0;
    while i < |fields|
      invariant 0 <= i <= |fields|
      invariant flat == CategoryRecords(version, fields[..i])
    {
      var (category, params) := fields[i];
      CategoryRecordsStep(version, fields, i);
      if params.Obj? {
        ghost var before := flat;
        var j := 0;
        while j < |params.fields|
          invariant 0 <= j <= |params.fields|
          invariant flat == before + DetailRecords(version, category, params.fields[..j])
        {
          var (name, detail) := params.fields[j];
          DetailRecordsAppend(version, category, params.fields, j, before, flat);
          if detail.Obj? {
            var record := Param(
              category,
              name,
              ParseFloatOld(parseReal, GetOr(detail.fields, "Value", Null)),
              GetOr(detail.fields, "Unit", Str("N/A")),
              GetOr(detail.fields, "Reference Range", Str("N/A")),
              None,
              None);
            VersionFunctions(map[], map[], parseReal, name, GetOr(detail.fields, "Value", Null));
            assert record == MakeParam(version, category, name, detail.fields);
            flat := flat + [record];
          }
          j := j + 1;
        }
        assert params.fields[..j] == params.fields;
      }
      i := i + 1;
    }
    assert fields[..i] == fields;
  }

  /** `validate_and_fix_response(parsed_response)`; `None` when it raises. */
  method ValidateAndFix(parseReal: string -> Option<real>, parsed: Json) returns (r: Option<Standardized>)
    ensures r == Validate(OldWith(parseReal), parsed)
  {
    if !Truthy(parsed) {
      return Some(NoData);
    }
    if !parsed.Obj? {
      return None;
    }
    var fixed := ReportJson.FixCategories(parsed.fields);
    var medical := GetOr(fixed, "Medical Parameters", Obj([]));
    var flat := FlattenParameters(parseReal, medical);
    r := Some(Standardized(true, Keys(fixed), Obj(fixed), flat, "Data extraction completed"));
  }

  /** `analyze_pdf(file_path)` with the OCR result `ocr`. */
  method AnalyzePdf(parseReal: string -> Option<real>, ocr: Option<string>,
                    reply: string -> Option<string>, parse: string -> Option<Json>)
    returns (r: PdfResult)
    ensures r == AnalyzePdfSpec(OldWith(parseReal), ocr, reply, parse)
  {
    if ocr.None? || ocr.value == [] {
      return Error(NoTextExtracted);
    }
    var response := ReportJson.AnalyzeWithOpenAI(ocr.value, reply, parse);
    if response.None? || !Truthy(response.value) {
      return Error(OpenAIFailed);
    }
    var out := ValidateAndFix(parseReal, response.value);
    if out.None? {
      return Error(ValidationRaised);
    }
    r := Standard(out.value);
  }

  /** Where the two modules part: on the same reply they produce the same
      records, category by category and name by name, except that the
      current one adds the normalisation fields and reads values with its
      own `parse_float`. */
  lemma {:induction false} VersionsAgreeOnShape(synonyms: map<string, string>, categories: map<string, string>,
                                                parseReal: string -> Option<real>, fields: seq<(string, Json)>)
    ensures var current := CategoryRecords(CurrentWith(synonyms, categories, parseReal), fields);
      var previous := CategoryRecords(OldWith(parseReal), fields);
      && |current| == |previous|
      && forall i :: 0 <= i < |previous| ==>
           && current[i].(value := previous[i].value, norm := None) == previous[i]
           && current[i].norm.Some? && previous[i].norm == None
  {
    if fields != [] {
      var n := |fields| - 1;
      VersionsAgreeOnShape(synonyms, categories, parseReal, fields[..n]);
      if fields[n].1.Obj? {
        DetailsAgreeOnShape(synonyms, categories, parseReal, fields[n].0, fields[n].1.fields);
      }
    }
  }

  lemma {:induction false} DetailsAgreeOnShape(synonyms: map<string, string>, categories: map<string, string>,
                                               parseReal: string -> Option<real>, category: string, params: seq<(string, Json)>)
    ensures var current := DetailRecords(CurrentWith(synonyms, categories, parseReal), category, params);
      var previous := DetailRecords(OldWith(parseReal), category, params);
      && |current| == |previous|
      && forall i :: 0 <= i < |previous| ==>
           && current[i].(value := previous[i].value, norm := None) == previous[i]
           && current[i].norm.Some? && previous[i].norm == None
  {
    if params != [] {
      DetailsAgreeOnShape(synonyms, categories, parseReal, category, params[..|params| - 1]);
    }
  }
}

# Aether medical-report and imaging workers, modelled in Dafny

This project models the core of the Aether Python services. It covers five pieces.

- **The imaging annotation worker** (`ai_worker.py`). One tick of its poll loop selects up to five imaging
  studies that have no AI captions yet, oldest upload first. For each selected study, `process_study`
  works through the image URLs that are not done yet, in order:
  - it downloads the image, asks the vision model for a caption and findings, and burns the caption
    into the image (`draw_caption`);
  - it uploads the annotated image and presigns a link to it.

  It then asks for a study summary and writes everything back with one `update_one`.
- **The report extractor** (`openai_extract_fields_combined.py`). It:
  - flattens the nested synonym table and normalises test names;
  - strips Markdown fences from the language model's reply;
  - adds missing top-level categories;
  - flattens the "Medical Parameters" into records, with normalisation and a list of unmatched names;
  - wraps everything in `analyze_pdf`.
- **The older extractor** (`openai_extract_fields_combined_old.py`). It is the same pipeline without
  normalisation, and its `parse_float` differs.
- **The report store** (`save_to_mongo`). It:
  - counts abnormal values against the parsed reference range (`clean_and_parse_range`);
  - enriches each parameter with the report id, the user id and the health id;
  - builds graph edges for records that carry a LOINC code.
- **The DICOM preview service** (`dicom2jpeg.py`). It has a startup check of the four S3 settings. It
  shards a study id by the first eight hex digits and builds a preview key. A missing DICOM object
  becomes a 404.

External services are parameters of the model:
- the OpenAI calls, S3, MongoDB and OCR;
- PIL, pydicom and `textwrap`;
- Python's `float()` (the `parseReal` oracle) and the clocks.

They return `None` (or `false`) where the real call raises. Each operation that works step by step is
an imperative method. Its `ensures` ties it to a pure specification function, and lemmas prove what
the source promises about that function. Dicts are ordered association lists (`seq<(string, Json)>`),
so that key order, which reaches `categories`, is kept.

File layout:
- `wrappers.dfy` (Option and Result), `seqs.dfy` (an existential over a sequence);
- `text.dfy` (Python string operations), `json.dfy` (JSON values and ordered dicts);
- `synonyms.dfy`;
- `report_json.dfy`, `report_params.dfy`;
- `report_extraction.dfy`, `report_extraction_old.dfy`;
- `report_store.dfy`;
- `study_pass.dfy`, `study_queue.dfy`;
- `caption_drawing.dfy`;
- `dicom_preview.dfy`.

## Model

| member | source | states |
|---|---|---|
| CaptionDrawing.Canvas.constructor | ai_worker.py:91-92 | A freshly opened image has the given height and no drawing calls yet. |
| CaptionDrawing.Canvas.MultilineText | ai_worker.py:103-108 | One `multiline_text` call is appended to the image's calls. Nothing else changes. |
| CaptionDrawing.DrawCaption | ai_worker.py:90-112 | The caption is wrapped at 50 columns and measured. The image then receives exactly the five calls of `CaptionOps`, after the calls it already had. |
| CaptionDrawing.CaptionPlacement | ai_worker.py:98-108 | Five calls are made, all with the wrapped text. The white text comes last, at x = 10, with its block ending 10 px above the bottom edge. Before it come four black copies, one at each diagonal neighbour of that position, each neighbour once. |
| DicomPreview.LoadConfig | dicom2jpeg.py:16-22 | Startup succeeds if and only if all four S3_* settings are set and non-empty. The config then holds exactly those values. Otherwise the result is the RuntimeError message. |
| DicomPreview.Shard | dicom2jpeg.py:82 | The shard exists if and only if `int(study_id[:8], 16)` parses. It is then below 1000. |
| DicomPreview.ShardOfPrefix | dicom2jpeg.py:82 | Two ids with the same first eight characters get the same shard. |
| DicomPreview.ObjectIdShard | dicom2jpeg.py:82 | For an ObjectId hex string, the shard is its leading 32-bit timestamp mod 1000. |
| DicomPreview.PlainHexShard | dicom2jpeg.py:82 | For a prefix of plain hex digits, the shard is its hex value mod 1000. |
| DicomPreview.NegativeStudyId | dicom2jpeg.py:82 | The id "-1" parses as -1, and Python's floored `%` sends it to shard 999. |
| DicomPreview.PreviewKeyRoundTrip | dicom2jpeg.py:83-84 | For an id without '/', the fields of `previews/{shard}/{study_id}/{ts}.jpg` (shard, study id, timestamp) can be read back from the key. |
| DicomPreview.PreviewKeySplit | dicom2jpeg.py:84 | Splitting the preview key on '/' gives exactly "previews", the decimal shard, the study id and "{ts}.jpg". |
| DicomPreview.Bucket.constructor | dicom2jpeg.py:25-30 | The bucket starts with the given objects. |
| DicomPreview.Bucket.DicomToJpegAndUpload | dicom2jpeg.py:62-101 | Failures leave the bucket unchanged. They are: a `get_object` error other than NoSuchKey (not caught, so it propagates), a missing key (404 "DICOM not found: key"), a render failure, an unparsable study id, and a raising `put_object`, each checked in that order. Success happens exactly when none of them occurs. The JPEG is then stored as a private image/jpeg under the sharded preview key, only that key is written, and the method returns the JPEG and its one-hour presigned link. |
| JsonValues.Keys | openai_extract_fields_combined.py:189 | `list(d.keys())`: the keys in insertion order, one per entry. |
| JsonValues.Get | openai_extract_fields_combined.py:184 | `d.get(k)` finds a value if and only if the key is present. |
| JsonValues.GetPut | openai_extract_fields_combined.py:177 | After `d[k] = v`, reading k gives v and every other key reads as before. |
| JsonValues.KeysPut | openai_extract_fields_combined.py:177 | Assigning to an existing key keeps the key order. A new key is appended at the end. |
| JsonValues.UniqueKeysPut | openai_extract_fields_combined.py:177 | Assignment keeps keys unique. |
| Text.StripIdempotent | openai_extract_fields_combined.py:36 | `strip()` applied twice equals `strip()` applied once. |
| Text.StripLower | openai_extract_fields_combined.py:36 | `lower().strip()` equals `strip().lower()`. |
| Text.StripPadded | openai_extract_fields_combined.py:60 | `strip()` removes exactly the whitespace around a core that has none at its ends. |
| Text.RemoveChar | openai_extract_fields_combined.py:124 | `replace(c, "")` leaves no c and never lengthens the string. It is the identity when c is absent. |
| Text.Split | openai_extract_fields_combined.py:227 | `split(sep)` gives one more part than there are separators, and no part contains the separator. |
| Text.JoinSplit | openai_extract_fields_combined.py:227 | Joining the parts of `split(sep)` with sep gives back the string. |
| Text.DecimalRoundTrip | dicom2jpeg.py:84 | The decimal rendering of a shard or timestamp reads back as the same number. |
| Text.HexRoundTrip | dicom2jpeg.py:82 | A number below 16^w, written as w hex digits, has that number as its hex value. |
| Text.ParsePlainHex | dicom2jpeg.py:82 | `int(s, 16)` of plain hex digits is their hex value. |
| Text.ParseNegativePlainHex | dicom2jpeg.py:82 | `int("-" + s, 16)` is minus the hex value of s. |
| Text.UnwrapFence | openai_extract_fields_combined.py:60 | Removing "```json" and "```" from a body fenced by "```json" gives the body. A body fenced by bare "```" also comes back whole, unless it begins with "json": those four letters are then lost. |
| ReportJson.UnfencedReply | openai_extract_fields_combined.py:58-64 | A reply without backticks is parsed as its stripped self. |
| ReportJson.FencedReply | openai_extract_fields_combined.py:58-64 | A fenced reply is parsed as its stripped body. Under a bare fence, a body beginning with "json" loses those four letters. |
| ReportJson.AnalyzeWithOpenAI | openai_extract_fields_combined.py:95-105 | A parsed reply exists only when the call returned content that is non-empty after stripping. |
| ReportJson.FixCategories | openai_extract_fields_combined.py:175-180 | The fix-up loop yields `FixedFields` of the reply. |
| ReportJson.AddMissingGet | openai_extract_fields_combined.py:175-177 | After the loop, a missing required category reads as its default: `{}`, or `[]` for Doctor's Notes. Every other key reads as before. |
| ReportJson.AddMissingKeys | openai_extract_fields_combined.py:175-177 | The loop appends exactly the missing required categories, in their listed order, after the existing keys. |
| ReportJson.NotesAsListEffect | openai_extract_fields_combined.py:179-180 | A dict under Doctor's Notes becomes `[]`. No other key changes, and neither does the key order. |
| ReportJson.FixedFieldsGet | openai_extract_fields_combined.py:175-180 | After the fix-up, Doctor's Notes is the reply's value, or `[]` when that was missing or a dict. Other missing required categories are `{}`. Everything else is unchanged. |
| ReportJson.FixedFieldsKeys | openai_extract_fields_combined.py:175-180 | After the fix-up, all three required categories are present. The keys are the old ones followed by the missing ones, and uniqueness is kept. |
| ReportParams.ParseFloatVersions | openai_extract_fields_combined.py:122-126 | The current `parse_float` returns `None` on a JSON number (no `replace`), where the old `float(val)` returns it. Both versions agree on null and on a stripped string without commas. The current version ignores commas. |
| ReportParams.DetailRecordsMembers | openai_extract_fields_combined.py:137-155 | A record is in a category's output if and only if some dict-valued parameter of that category produced it. |
| ReportParams.CategoryRecordsMembers | openai_extract_fields_combined.py:135-138 | A record is in the output if and only if some dict-valued category produced it. |
| ReportParams.FlattenMembers | openai_extract_fields_combined.py:128-138 | A non-dict input flattens to `[]`. For a dict input, records are exactly those of its dict-valued categories. |
| ReportParams.FlattenRecordFields | openai_extract_fields_combined.py:139-155 | Every record carries `parse_float(Value)`, with `Unit` and `Reference Range` defaulting to "N/A". The current version also carries the name's normalisation, and the old version none. No record has a LOINC code. |
| ReportParams.UnmatchedNamesMembers | openai_extract_fields_combined.py:146-149 | A name is listed as unmatched if and only if some record with that name failed to normalise. There are never more unmatched names than records. |
| ReportParams.ValidateSpec | openai_extract_fields_combined.py:165-193 | A falsy reply gives the "No data extracted" result. A truthy reply that is not a dict raises. For a dict: success, categories are the fixed keys (all three required among them), and parameters are the flattened "Medical Parameters", or `[]` when that key is absent. |
| ReportParams.AnalyzePdfOutcome | openai_extract_fields_combined.py:195-214 | "No text extracted" if and only if OCR failed or gave empty text. "Failed to analyze" if and only if there was text and the reply is missing or falsy. A standard result is a success with all required categories. |
| ReportExtraction.FlattenParameters | openai_extract_fields_combined.py:128-163 | The loop returns `Flatten` of the current version, and the unmatched names of exactly those records, in order. |
| ReportExtraction.FlattenCategory | openai_extract_fields_combined.py:137-155 | One category's inner loop appends its records to `flat`. It keeps `unmatched` equal to the unmatched names of `flat`. |
| ReportExtraction.AppendRecord | openai_extract_fields_combined.py:139-155 | For a dict-valued detail, the record is appended. Its name is added to `unmatched` exactly when normalisation failed, so `unmatched` stays the unmatched names of `flat`. |
| ReportExtraction.ValidateAndFix | openai_extract_fields_combined.py:165-193 | The method computes `Validate` of the current version. |
| ReportExtraction.AnalyzePdf | openai_extract_fields_combined.py:195-214 | The method computes `AnalyzePdfSpec` of the current version. |
| ReportExtraction.RecordsNormalized | openai_extract_fields_combined.py:146-155 | Each record carries `normalize_test_name` of its name. It is unmatched if and only if the folded name has no non-empty canonical name in the synonym table. |
| ReportExtractionOld.FlattenParameters | openai_extract_fields_combined_old.py:90-106 | The loop returns `Flatten` of the old version. |
| ReportExtractionOld.ValidateAndFix | openai_extract_fields_combined_old.py:114-142 | The method computes `Validate` of the old version. |
| ReportExtractionOld.AnalyzePdf | openai_extract_fields_combined_old.py:144-163 | The method computes `AnalyzePdfSpec` of the old version. |
| ReportExtractionOld.VersionsAgreeOnShape | openai_extract_fields_combined_old.py:95-105 | Both versions flatten the same categories to the same number of records. These records differ only in `value` and in the normalisation, which only the current version adds. |
| ReportExtractionOld.DetailsAgreeOnShape | openai_extract_fields_combined_old.py:97-105 | The same holds category by category. |
| ReportStore.CleanAndParseRange | openai_extract_fields_combined.py:225-234 | Only a string range can parse. |
| ReportStore.TwoBoundRange | openai_extract_fields_combined.py:225-234 | "low-high" with no other dash or comma parses exactly when both stripped bounds parse, and gives them. |
| ReportStore.NegativeBoundNeverParses | openai_extract_fields_combined.py:227-228 | A range with two or more dashes never parses (for example "-5-5"), so its parameter is never flagged. |
| ReportStore.RangeHasDash | openai_extract_fields_combined.py:246-247 | A range that parses contains a dash, so the count does consult it. |
| ReportStore.FlaggedOutsideBounds | openai_extract_fields_combined.py:246-249 | A parameter with a value and a parsed range counts as abnormal exactly when the value is below low or above high. |
| ReportStore.AbnormalCount | openai_extract_fields_combined.py:242-249 | The loop computes `AbnormalCountOf`. |
| ReportStore.AbnormalCountBound | openai_extract_fields_combined.py:242-249 | The count never exceeds the number of parameters. |
| ReportStore.AbnormalCountRaises | openai_extract_fields_combined.py:244-246 | The count raises if and only if some parameter has a value and a reference range on which `"-" in` raises (null, a number or a boolean). |
| ReportStore.AbnormalCountConcat | openai_extract_fields_combined.py:242-249 | The count over two lists of parameters is the sum of their counts, and either one raising makes the whole raise. |
| ReportStore.HealthId | openai_extract_fields_combined.py:268 | The health id is "AETHER-" followed by the upper-cased user id, of the same length. |
| ReportStore.EnrichSpec | openai_extract_fields_combined.py:266-271 | An enriched parameter carries the report id, the user id and the health id. An empty category becomes "Unmatched"; otherwise the parameter is unchanged. |
| ReportStore.EnrichParameters | openai_extract_fields_combined.py:265-280 | The loop enriches every parameter in order and builds exactly `Edges`. |
| ReportStore.LoincRecords | openai_extract_fields_combined.py:273 | Only records with a truthy LOINC code are kept. |
| ReportStore.EdgesSpec | openai_extract_fields_combined.py:273-280 | There is one "parameter-maps-to" edge per record with a LOINC code, in order, from the report to that code. |
| ReportStore.NoLoincNoEdges | openai_extract_fields_combined.py:273-280 | Records without a LOINC code produce no edges. |
| ReportStore.FlattenedRecordsHaveNoEdges | openai_extract_fields_combined.py:273-280 | The records `flatten_parameters` produces never produce an edge, since neither version sets `loincCode`. |
| ReportStore.ReportDb.constructor | openai_extract_fields_combined.py:221-223 | The three collections start empty. |
| ReportStore.ReportDb.InsertReport | openai_extract_fields_combined.py:259 | `insert_one` appends one report, or nothing when it raises. The other collections are unchanged. |
| ReportStore.ReportDb.InsertParameters | openai_extract_fields_combined.py:282-283 | `insert_many` appends the parameters, or nothing when it raises. The other collections are unchanged. |
| ReportStore.ReportDb.InsertEdges | openai_extract_fields_combined.py:284-285 | `insert_many` appends the edges, or nothing when it raises. The other collections are unchanged. |
| ReportStore.ReportDb.SaveToMongo | openai_extract_fields_combined.py:236-287 | The call stops at the first step that raises: the count, the report insert, the parameters insert or the edges insert. Writes made before that step stay. A raising count or report insert writes nothing. A raising parameters insert leaves the report stored alone. A raising edges insert leaves the report and its enriched parameters stored without edges. Otherwise the report carries the count, the parameters are appended enriched and in order, and the graph edges are exactly `Edges`. |
| ReportStore.SavedExactly | openai_extract_fields_combined.py:242-285 | Everything is saved if and only if the count does not raise and every insert that is made succeeds. Empty lists are never inserted, so a report without parameters or edges needs only the report insert. |
| Synonyms.AddSynonyms | openai_extract_fields_combined.py:24-28 | The loop over one synonym list applies its assignments in order. |
| Synonyms.AddEntry | openai_extract_fields_combined.py:21-28 | One entry, a list or a table of sub-lists, applies its assignments in order. |
| Synonyms.AddCategory | openai_extract_fields_combined.py:21-28 | One category applies its entries' assignments in order. |
| Synonyms.FlattenSynonyms | openai_extract_fields_combined.py:19-28 | The table is all the assignments of the nested data applied in order to `{}`. |
| Synonyms.ApplyAllLast | openai_extract_fields_combined.py:25-28 | The last assignment to a folded synonym wins. |
| Synonyms.ApplyAllValues | openai_extract_fields_combined.py:19-28 | A key is in the table if and only if it was there or was assigned. Its value is one that was assigned to it, or its old value. |
| Synonyms.ListAssignmentsMembers | openai_extract_fields_combined.py:27-28 | A synonym list assigns exactly its folded synonyms to the canonical name. |
| Synonyms.SubTableMembers | openai_extract_fields_combined.py:23-25 | A sub-table assigns exactly the folded synonyms of each sub-list to that sub-list's canonical name. |
| Synonyms.EntryMembers | openai_extract_fields_combined.py:22-28 | An entry assigns exactly what its list or sub-table assigns. |
| Synonyms.CategoryMembers | openai_extract_fields_combined.py:21-28 | A category assigns exactly what its entries assign. |
| Synonyms.AssignmentsMembers | openai_extract_fields_combined.py:20-28 | The nested data assigns exactly what its categories assign. |
| Synonyms.FlatTable | openai_extract_fields_combined.py:19-28 | A folded name is in the flat table if and only if some synonym list of the nested data folds to it. It then maps to a canonical name that list assigns. |
| Synonyms.NormalizeSpec | openai_extract_fields_combined.py:35-44 | Normalisation succeeds if and only if the folded name maps to a non-empty canonical name, which then becomes `canonicalName`. Otherwise the name itself is kept, with no category. A category is reported if and only if the name is normalised and its canonical name maps to a non-empty category, and it is that category. |
| Synonyms.NormalizeIgnoresCaseAndPadding | openai_extract_fields_combined.py:35-36 | Lower-casing or stripping the name first changes nothing but `originalName`, and `canonicalName` when the name is unmatched. |
| StudyPass.AnnotateImage | ai_worker.py:160-195 | The loop body returns the `Attempt`: download, analyse, draw, upload and presign, stopping at the first step that raises. On success, the findings it appends are the analysis' findings. |
| StudyPass.AttemptSuccess | ai_worker.py:166-195 | A caption holds the URL, the analysis and its caption. It also holds the presigned link of `annotated/{user}/{ms}.jpg` and the time of that attempt. |
| StudyPass.CollectNewCaptions | ai_worker.py:151-195 | The loop downloads the pending URLs in order, and nothing else. On success it has fetched all of them and holds their captions, with one findings list per caption. On failure it stops at the first failing URL, and that failure is the loop's failure. |
| StudyPass.RunPass | ai_worker.py:145-216 | The method computes the `Pass` outcome of the study. |
| StudyPass.CollectSuccess | ai_worker.py:156-195 | The loop succeeds if and only if every attempt succeeds. It then returns one caption per pending URL, in order. |
| StudyPass.CollectFailure | ai_worker.py:156-195 | A failed loop failed at some URL after all earlier attempts succeeded. |
| StudyPass.CollectAgrees | ai_worker.py:156-195 | The loop depends only on its attempts. |
| StudyPass.PendingMembers | ai_worker.py:151-158 | A URL is attempted if and only if it is listed and not already captioned. |
| StudyPass.PendingCount | ai_worker.py:156-158 | A URL that is not done is attempted as many times as it is listed. |
| StudyPass.DoneUrlsNeverFetched | ai_worker.py:151-158 | Changing what download or analysis return for already captioned URLs does not change the pass. |
| StudyPass.NoNewImagesWhenAllDone | ai_worker.py:197-199 | The pass ends with "No new images" if and only if nothing is pending. It then neither summarises nor updates. |
| StudyPass.WrittenCaptions | ai_worker.py:189-216 | A written pass has one caption per pending URL, in order, each with its own analysis. The summary is the summariser's answer to the findings lists, and the update succeeded. |
| StudyPass.WrittenTwiceWhenListedTwice | ai_worker.py:156-158 | A URL listed twice and not yet captioned is captioned twice, since `already_done` is not updated inside the loop. |
| StudyPass.RaisedAtFirstFailure | ai_worker.py:156-216 | A pass that raised failed at the first failing pending URL. Otherwise every attempt succeeded and the summary or the update raised. |
| StudyPass.WriteMarksAllDone | ai_worker.py:204-216 | Every URL listed before the write is captioned after it, so none of them is pending again. |
| StudyPass.WrittenStudyPending | ai_worker.py:204-216 | After the write, the pending URLs are exactly the appended annotated links that are not captioned themselves. They are harmless only because the written study is no longer eligible (UpdateOneEffect), so the worker never selects it again. |
| StudyQueue.IndexOfId | ai_worker.py:205 | Finds the document with that `_id`, or shows that none exists. |
| StudyQueue.UpdateOneEffect | ai_worker.py:204-216 | `update_one` changes only the document with that id. It pushes the captions and their annotated URLs, sets the summary and `updatedAt`, and leaves the study no longer eligible. |
| StudyQueue.UpdateOneKeepsIds | ai_worker.py:204-216 | `update_one` keeps the ids, their order and their uniqueness. |
| StudyQueue.StudyStore.constructor | ai_worker.py:43-44 | The store holds the given documents, with unique ids. |
| StudyQueue.StudyStore.ProcessStudy | ai_worker.py:145-216 | The outcome is `Pass`. The store changes only by the one `update_one` of a written pass. |
| StudyQueue.StudyStore.Tick | ai_worker.py:222-241 | A failed query changes nothing, and an empty selection idles. Otherwise the batch is processed in order and the tick stops at the first pass that raises: the store is exactly `Run` of the selection. |
| StudyQueue.EligibleOfMembers | ai_worker.py:226-227 | The filter keeps exactly the studies without `enhancedCaptions`. |
| StudyQueue.SortByUploadSorted | ai_worker.py:228 | The sort orders the studies by `uploadedAt`, ascending. |
| StudyQueue.SortByUploadPerm | ai_worker.py:228 | The sort is a permutation of its input. |
| StudyQueue.SelectSpec | ai_worker.py:226-231 | The query returns min(5, number eligible) eligible studies from the collection, sorted by upload time. |
| StudyQueue.SelectEarliest | ai_worker.py:226-229 | Every selected study was uploaded no later than any eligible study left out. |
| StudyQueue.RunStep | ai_worker.py:236-237 | One more pass either leaves the store alone or applies its single update. |
| StudyQueue.RunAborts | ai_worker.py:236-241 | The first pass that raises ends the tick. Later studies of the batch are not processed. |
| StudyQueue.AbortedTick | ai_worker.py:236-241 | An aborted tick names the pass that raised. The store is as the passes before it left it. |
| StudyQueue.EligibleAttemptsAll | ai_worker.py:151 | An eligible study has nothing done yet: all its URLs are pending. It yields "No new images" exactly when it lists none. |
| StudyQueue.RunOverEmptyStudies | ai_worker.py:236-237 | A batch of studies without image URLs leaves the store unchanged. |
| StudyQueue.StuckQueue | ai_worker.py:222-237 | If the selected studies have no image URLs, they are never written back. The next tick selects the same studies again. |

## Left out

- Network, S3, MongoDB, OpenAI, OCR (`pdf2image`, `pytesseract`), PIL, pydicom and `textwrap` are not modelled. Each is a parameter that returns a value, or `None` where it raises.
- Python's `float()` on strings is not modelled: it is the `parseReal` oracle. NaN, infinities and the comparisons they make false are outside the model.
- Case folding (`lower()`, `upper()`) covers ASCII letters only. Whitespace for `strip()` is Python's full `str.isspace` set.
- `int(s, 16)` covers an optional sign, a "0x" prefix, underscores and ASCII hex digits. Non-ASCII digits are not modelled.
- Clocks (`time.time()`, `datetime.utcnow()`, `datetime.now()`) are parameters. The sleeps of `poll_forever` and the poll interval are left out, and so is its infinite loop: one iteration is `Tick`.
- Logging, `print` and the `unmatched_parameters.log` file are left out.
- Exception messages are modelled only where a caller can see them: the 404 detail and the S3 startup message.
- The `__main__` blocks are not modelled. Neither are the HTTP routes of `dicom2jpeg.py`, `app.py` or `main.py`, or the Pydantic models.
- DICOM pixel scaling and JPEG encoding are the `render` parameter. A raising `generate_presigned_url` is not modelled.
- The reading of `synonyms.json` and `categories_map.json` is not modelled: the nested table is an already-decoded value of the shapes the flattening code accepts.
- The mutation of the record dicts in `save_to_mongo` (the `p[...] = ...` lines) is modelled on values. The caller's `standardized_data` changing as a side effect (aliasing) is not captured.
- ReportExtraction.AppendRecord: it appends the finished record, with its normalisation, where the source appends a record and then calls `update` on `flat[-1]`. The resulting list is the same.
- ReportStore.CleanAndParseRange: its own contract only states that a non-string never parses. The rest of its behaviour is stated by TwoBoundRange, NegativeBoundNeverParses and RangeHasDash.
- ReportStore.ReportDb.SaveToMongo: the report id that `insert_one` generates is a parameter. `str()` of a LOINC code that is not a string is the `show` parameter.
- StudyPass.RunPass: a study always has `userId` and `imageUrls`, and `aiInterpretation` is always absent or a dict. In the source, a missing field raises KeyError and an `aiInterpretation` of null raises AttributeError, so `process_study` raises. That study stays eligible, so it aborts every later tick that selects it, and the studies after it in those batches wait. The model does not capture this.
- ReportParams.ParseFloatOld: a JSON number is a real here. Python's distinction between int and float is not modelled. So an integer too large for a float, on which the old `float(val)` raises an uncaught OverflowError, is not modelled either.
- ReportStore.ReportDb.InsertParameters: an `insert_many` that raises inserts nothing here. A partly completed ordered bulk insert, where some documents are already written, is not modelled. The same holds for ReportStore.ReportDb.InsertEdges.
- StudyQueue.SortByUploadSorted: ties on `uploadedAt` keep collection order, which the model fixes. MongoDB does not promise any tie order.
- A study's `_id` and `userId` are plain strings. The `ObjectId(study_id)` conversion in `update_one` is left out. An id that matches no document updates nothing.
- Drawing the caption works on a recorded list of `multiline_text` calls. Fonts, text measurement and pixels are parameters or are left out.

/** The steps from an OCR text to the parsed JSON reply of the language
    model, and the fix-up of the reply's top-level categories. Both
    openai_extract_fields_combined.py and its older variant
    openai_extract_fields_combined_old.py contain these functions with the
    same code.

    The HTTP call is `reply`: the `content` of the first choice, or `None`
    when the request or the response raised. `json.loads` is `parse`: the
    value, or `None` on a decode error. */
module ReportJson {
  import opened Wrappers
  import opened JsonValues
  import Text

  // ---------------------------------------------------------------------
  // extract_json_content and analyze_with_openai
  // ---------------------------------------------------------------------

  /** `extract_json_content(content)`: every "```json" and "```" removed,
      left to right, then stripped and parsed. */
  function ExtractJsonContent(content: string, parse: string -> Option<Json>): Option<Json> {
    parse(Text.Strip(Text.RemoveFences(content)))
  }

  /** A reply without backticks is parsed as it is, stripped. */
  lemma UnfencedReply(content: string, parse: string -> Option<Json>)
    requires '`' !in content
    ensures ExtractJsonContent(content, parse) == parse(Text.Strip(content))
  {
    Text.RemoveFencesKeepsPlainPrefix(content, []);
    assert content + [] == content;
  }

  /** A reply wrapped in a "```json" fence is parsed as its body; so is one
      wrapped in a bare "```" fence whose body does not begin with "json".
      A bare-fenced body that does begin with "json" loses those four
      letters, since the scan reads them as part of "```json". */
  lemma FencedReply(body: string, parse: string -> Option<Json>)
    requires '`' !in body
    ensures ExtractJsonContent(Text.JsonFence + body + Text.Fence, parse) == parse(Text.Strip(body))
    ensures !(|body| >= 4 && body[..4] == "json") ==>
      ExtractJsonContent(Text.Fence + body + Text.Fence, parse) == parse(Text.Strip(body))
    ensures |body| >= 4 && body[..4] == "json" ==>
      ExtractJsonContent(Text.Fence + body + Text.Fence, parse) == parse(Text.Strip(body[4..]))
  {
    Text.UnwrapFence(body);
  }

  /** `analyze_with_openai(text)`: the stripped content of the reply, or
      `None` when the call raised, the content is empty, or it does not
      parse. */
  function AnalyzeWithOpenAI(text: string, reply: string -> Option<string>, parse: string -> Option<Json>): (r: Option<Json>)
    ensures r.Some? ==> exists content :: reply(text) == Some(content) && Text.Strip(content) != []
  {
    match reply(text)
    case None => None
    case Some(raw) =>
      var content := Text.Strip(raw);
      if content == [] then None else ExtractJsonContent(content, parse)
  }

  // ---------------------------------------------------------------------
  // The category fix-up of validate_and_fix_response
  // ---------------------------------------------------------------------

  const DoctorsNotes: string := "Doctor's Notes"

  /** `REQUIRED_CATEGORIES`. */
  const RequiredCategories: seq<string> := ["Patient Information", "Medical Parameters", DoctorsNotes]

  /** What a missing required category is set to. */
  function Default(category: string): Json {
    if category != DoctorsNotes then Obj([]) else Arr([])
  }

  /** The first loop: each category of `required` that is not a key yet is
      added with its default, in order. */
  function AddMissing(fields: seq<(string, Json)>, required: seq<string>): seq<(string, Json)> {
    if required == [] then fields
    else
      var n := |required| - 1;
      var f := AddMissing(fields, required[..n]);
      if HasKey(f, required[n]) then f else Put(f, required[n], Default(required[n]))
  }

  /** A dict under "Doctor's Notes" is replaced by an empty list. */
  function NotesAsList(fields: seq<(string, Json)>): seq<(string, Json)> {
    match Get(fields, DoctorsNotes)
    case Some(Obj(_)) => Put(fields, DoctorsNotes, Arr([]))
    case _ => fields
  }

  /** `parsed_response` after the fix-up. */
  function FixedFields(fields: seq<(string, Json)>): seq<(string, Json)> {
    NotesAsList(AddMissing(fields, RequiredCategories))
  }

  /** The categories of `required` missing from `fields`, in order. */
  function MissingOf(fields: seq<(string, Json)>, required: seq<string>): seq<string> {
    if required == [] then []
    else
      var n := |required| - 1;
      MissingOf(fields, required[..n]) + (if HasKey(fields, required[n]) then [] else [required[n]])
  }

  /** The fix-up, as `validate_and_fix_response` performs it on the dict. */
  method FixCategories(fields: seq<(string, Json)>) returns (r: seq<(string, Json)>)
    ensures r == FixedFields(fields)
  {
    r := fields;
    var i := 0;
    while i < |RequiredCategories|
      invariant 0 <= i <= |RequiredCategories|
      invariant r == AddMissing(fields, RequiredCategories[..i])
    {
      var category := RequiredCategories[i];
      assert RequiredCategories[..i + 1][..i] == RequiredCategories[..i];
      if !HasKey(r, category) {
        r := Put(r, category, if category != DoctorsNotes then Obj([]) else Arr([]));
      }
      i := i + 1;
    }
    assert RequiredCategories[..i] == RequiredCategories;
    var notes := Get(r, DoctorsNotes);
    if notes.Some? && notes.value.Obj? {
      r := Put(r, DoctorsNotes, Arr([]));
    }
  }

  /** A list without repeats has none before its last element, which is
      not among them. */
  lemma DistinctLast<T>(s: seq<T>)
    requires Distinct(s) && s != []
    ensures Distinct(s[..|s| - 1]) && s[|s| - 1] !in s[..|s| - 1]
  {
  }

  /** After the first loop, a key of `required` that was missing holds its
      default and every other key reads as before. */
  lemma {:induction false} AddMissingGet(fields: seq<(string, Json)>, required: seq<string>, key: string)
    ensures Get(AddMissing(fields, required), key) ==
      if key in required && !HasKey(fields, key) then Some(Default(key)) else Get(fields, key)
  {
    if required != [] {
      var n := |required| - 1;
      var f := AddMissing(fields, required[..n]);
      AddMissingGet(fields, required[..n], key);
      AddMissingGet(fields, required[..n], required[n]);
      assert required == required[..n] + [required[n]];
      if !HasKey(f, required[n]) {
        GetPut(f, required[n], Default(required[n]), key);
      }
    }
  }

  /** ... and the missing keys are appended after the existing ones. */
  lemma {:induction false} AddMissingKeys(fields: seq<(string, Json)>, required: seq<string>)
    requires Distinct(required)
    ensures Keys(AddMissing(fields, required)) == Keys(fields) + MissingOf(fields, required)
  {
    if required != [] {
      var n := |required| - 1;
      var init, c := required[..n], required[n];
      var f := AddMissing(fields, init);
      var m := MissingOf(fields, init);
      DistinctLast(required);
      AddMissingKeys(fields, init);
      AddMissingGet(fields, init, c);
      assert HasKey(f, c) == HasKey(fields, c);
      KeysPut(f, c, Default(c));
      if !HasKey(fields, c) {
        assert Keys(fields) + m + [c] == Keys(fields) + (m + [c]);
      } else {
        assert m + [] == m;
      }
    }
  }

  /** The second step touches "Doctor's Notes" only, and only a dict. */
  lemma NotesAsListEffect(fields: seq<(string, Json)>, k: string)
    ensures Get(NotesAsList(fields), k) ==
      if k == DoctorsNotes && Get(fields, k).Some? && Get(fields, k).value.Obj? then Some(Arr([])) else Get(fields, k)
    ensures Keys(NotesAsList(fields)) == Keys(fields)
    ensures UniqueKeys(fields) ==> UniqueKeys(NotesAsList(fields))
  {
    var notes := Get(fields, DoctorsNotes);
    if notes.Some? && notes.value.Obj? {
      GetPut(fields, DoctorsNotes, Arr([]), k);
      KeysPut(fields, DoctorsNotes, Arr([]));
    }
  }

  /** What the fix-up leaves under one key: "Doctor's Notes" is an empty
      list when it was missing or a dict and is untouched otherwise; the
      other required categories are an empty dict when missing and
      untouched otherwise; every other key is untouched. */
  lemma FixedFieldsGet(fields: seq<(string, Json)>, k: string)
    ensures Get(FixedFields(fields), k) ==
      if k == DoctorsNotes then
        (match Get(fields, k)
         case None => Some(Arr([]))
         case Some(Obj(_)) => Some(Arr([]))
         case Some(v) => Some(v))
      else if k in RequiredCategories && !HasKey(fields, k) then Some(Obj([]))
      else Get(fields, k)
  {
    AddMissingGet(fields, RequiredCategories, k);
    NotesAsListEffect(AddMissing(fields, RequiredCategories), k);
  }

  /** Every required category is present afterwards; the keys keep their
      order with the missing categories appended in `REQUIRED_CATEGORIES`
      order, so a dict with unique keys keeps them unique. */
  lemma FixedFieldsKeys(fields: seq<(string, Json)>)
    ensures forall c :: c in RequiredCategories ==> HasKey(FixedFields(fields), c)
    ensures Keys(FixedFields(fields)) == Keys(fields) + MissingOf(fields, RequiredCategories)
    ensures UniqueKeys(fields) ==> UniqueKeys(FixedFields(fields))
  {
    var f := AddMissing(fields, RequiredCategories);
    AddMissingKeys(fields, RequiredCategories);
    NotesAsListEffect(f, DoctorsNotes);
    MissingDistinct(fields, RequiredCategories);
    AppendDistinct(Keys(fields), MissingOf(fields, RequiredCategories));
    forall c | c in RequiredCategories ensures HasKey(FixedFields(fields), c) {
      FixedFieldsGet(fields, c);
    }
  }

  /** The missing categories are not keys already, and each appears once. */
  lemma {:induction false} MissingDistinct(fields: seq<(string, Json)>, required: seq<string>)
    requires Distinct(required)
    ensures Distinct(MissingOf(fields, required))
    ensures forall c :: c in MissingOf(fields, required) ==> c in required && !HasKey(fields, c)
  {
    if required != [] {
      var n := |required| - 1;
      MissingDistinct(fields, required[..n]);
      assert required[n] !in required[..n];
    }
  }

  lemma AppendDistinct(a: seq<string>, b: seq<string>)
    requires Distinct(b)
    requires forall x :: x in b ==> x !in a
    ensures Distinct(a) ==> Distinct(a + b)
  {
    if Distinct(a) {
      forall i, j | 0 <= i < j < |a + b| ensures (a + b)[i] != (a + b)[j] {
        if j >= |a| && i < |a| {
          assert (a + b)[j] in b;
        }
      }
    }
  }
}

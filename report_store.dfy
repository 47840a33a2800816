/** `clean_and_parse_range` and `save_to_mongo` of
    openai_extract_fields_combined.py: the abnormal-value count, the
    enrichment of each parameter record, the LOINC graph edges, and the
    three inserts.

    The collections are `ReportDb`'s fields. The `_id` Mongo assigns to the
    report, the clock and Python's `str()` of a non-string LOINC code are
    parameters; float parsing is `parseReal` as elsewhere. */
module ReportStore {
  import opened Wrappers
  import opened JsonValues
  import Text
  import opened ReportParams

  // ---------------------------------------------------------------------
  // clean_and_parse_range and the abnormal count
  // ---------------------------------------------------------------------

  /** `clean_and_parse_range(range_str)`: `(low, high)` when the string,
      with its commas removed, splits on "-" into exactly two parts that
      both parse; `(None, None)` otherwise, including for a list or dict,
      which has no `replace`. */
  function CleanAndParseRange(parseReal: string -> Option<real>, range: Json): (r: Option<(real, real)>)
    ensures r.Some? ==> range.Str?
  {
    match range
    case Str(s) =>
      var parts := Text.Split(Text.RemoveChar(s, ','), '-');
      if |parts| != 2 then None
      else
        var low, high := parseReal(Text.Strip(parts[0])), parseReal(Text.Strip(parts[1]));
        if low.Some? && high.Some? then Some((low.value, high.value)) else None
    case _ => None
  }

  /** `"-" in ref_range`: a substring test on a string, membership in a
      list, a key test on a dict; `None` where Python raises TypeError
      (None, a number or a boolean). */
  function DashIn(range: Json): Option<bool> {
    match range
    case Str(s) => Some('-' in s)
    case Arr(items) => Some(Str("-") in items)
    case Obj(fields) => Some(HasKey(fields, "-"))
    case _ => None
  }

  /** `clean_and_parse_range` as a value, for the count below. */
  function RangeParser(parseReal: string -> Option<real>): Json -> Option<(real, real)>
  {
    range => CleanAndParseRange(parseReal, range)
  }

  /** Whether one parameter counts as abnormal, `ranges` parsing its
      range; `None` when the test raises. The range is looked at only when
      there is a value. */
  function Flagged(ranges: Json -> Option<(real, real)>, p: Param): Option<bool> {
    if p.value.None? then Some(false)
    else
      var dash := DashIn(p.referenceRange);
      if dash.None? then None
      else if !dash.value then Some(false)
      else
        var range := ranges(p.referenceRange);
        Some(range.Some? && (p.value.value < range.value.0 || p.value.value > range.value.1))
  }

  /** `abnormal_count` after the first loop of `save_to_mongo`; `None`
      when the loop raises. */
  function AbnormalCountOf(ranges: Json -> Option<(real, real)>, params: seq<Param>): Option<nat> {
    if params == [] then Some(0)
    else
      var n := |params| - 1;
      var c, f := AbnormalCountOf(ranges, params[..n]), Flagged(ranges, params[n]);
      if c.None? || f.None? then None else Some(if f.value then c.value + 1 else c.value)
  }

  /** The first loop of `save_to_mongo`, with `ranges` reading a range
      (`clean_and_parse_range`, `RangeParser(parseReal)`, in
      `SaveToMongo`). */
  method AbnormalCount(ranges: Json -> Option<(real, real)>, params: seq<Param>) returns (r: Option<nat>)
    ensures r == AbnormalCountOf(ranges, params)
  {
    var count := 0;
    var i := 0;
    while i < |params|
      invariant 0 <= i <= |params|
      invariant AbnormalCountOf(ranges, params[..i]) == Some(count)
    {
      AbnormalCountStep(ranges, params, i);
      var p := params[i];
      if p.value.Some? {
        var dash := DashIn(p.referenceRange);
        if dash.None? {
          AbnormalCountRaisedStays(ranges, params, i + 1);
          return None;
        }
        if dash.value {
          var range := ranges(p.referenceRange);
          if range.Some? && (p.value.value < range.value.0 || p.value.value > range.value.1) {
            count := count + 1;
          }
        }
      }
      i := i + 1;
    }
    assert params[..i] == params;
    r := Some(count);
  }

  lemma AbnormalCountStep(ranges: Json -> Option<(real, real)>, params: seq<Param>, i: nat)
    requires i < |params|
    ensures AbnormalCountOf(ranges, params[..i + 1]) ==
      var c, f := AbnormalCountOf(ranges, params[..i]), Flagged(ranges, params[i]);
      if c.None? || f.None? then None else Some(if f.value then c.value + 1 else c.value)
  {
    assert params[..i + 1][..i] == params[..i];
  }

  /** Once the loop has raised, it has raised for the whole list. */
  lemma {:induction false} AbnormalCountRaisedStays(ranges: Json -> Option<(real, real)>, params: seq<Param>, i: nat)
    requires i <= |params|
    requires AbnormalCountOf(ranges, params[..i]) == None
    ensures AbnormalCountOf(ranges, params) == None
  {
    if i < |params| {
      var n := |params| - 1;
      assert params[..n][..i] == params[..i];
      AbnormalCountRaisedStays(ranges, params[..n], i);
    } else {
      assert params[..i] == params;
    }
  }

  /** The count never exceeds the number of parameters. */
  lemma {:induction false} AbnormalCountBound(ranges: Json -> Option<(real, real)>, params: seq<Param>)
    ensures AbnormalCountOf(ranges, params).Some? ==> AbnormalCountOf(ranges, params).value <= |params|
  {
    if params != [] {
      AbnormalCountBound(ranges, params[..|params| - 1]);
    }
  }

  /** The loop raises exactly when some parameter has a value and a range
      that is None, a number or a boolean. */
  lemma {:induction false} AbnormalCountRaises(ranges: Json -> Option<(real, real)>, params: seq<Param>)
    ensures AbnormalCountOf(ranges, params).None? <==>
      exists i :: 0 <= i < |params| && params[i].value.Some? && DashIn(params[i].referenceRange).None?
  {
    if params != [] {
      var n := |params| - 1;
      AbnormalCountRaises(ranges, params[..n]);
      if exists i :: 0 <= i < n && params[..n][i].value.Some? && DashIn(params[..n][i].referenceRange).None? {
        var i :| 0 <= i < n && params[..n][i].value.Some? && DashIn(params[..n][i].referenceRange).None?;
        assert params[i] == params[..n][i];
      }
      if exists i :: 0 <= i < |params| && params[i].value.Some? && DashIn(params[i].referenceRange).None? {
        var i :| 0 <= i < |params| && params[i].value.Some? && DashIn(params[i].referenceRange).None?;
        if i < n {
          assert params[..n][i] == params[i];
        }
      }
    }
  }

  /** Counting two lists one after the other adds their counts. */
  lemma {:induction false} AbnormalCountConcat(ranges: Json -> Option<(real, real)>, a: seq<Param>, b: seq<Param>)
    ensures var x, y := AbnormalCountOf(ranges, a), AbnormalCountOf(ranges, b);
      AbnormalCountOf(ranges, a + b) == if x.Some? && y.Some? then Some(x.value + y.value) else None
  {
    if b == [] {
      assert a + b == a;
    } else {
      var n := |b| - 1;
      assert (a + b)[..|a + b| - 1] == a + b[..n];
      assert (a + b)[|a + b| - 1] == b[n];
      AbnormalCountConcat(ranges, a, b[..n]);
      var f := Flagged(ranges, b[n]);
      assert AbnormalCountOf(ranges, b) ==
        var c := AbnormalCountOf(ranges, b[..n]);
        if c.None? || f.None? then None else Some(if f.value then c.value + 1 else c.value);
    }
  }

  /** A range written as two comma-free numbers around one dash parses to
      those two numbers, and to nothing when either does not parse. */
  lemma TwoBoundRange(parseReal: string -> Option<real>, low: string, high: string)
    requires '-' !in low && ',' !in low && '-' !in high && ',' !in high
    ensures CleanAndParseRange(parseReal, Str(low + "-" + high)) ==
      match (parseReal(Text.Strip(low)), parseReal(Text.Strip(high)))
      case (Some(l), Some(h)) => Some((l, h))
      case _ => None
  {
    SplitRange(low, high);
  }

  /** The comma-free string `low + "-" + high` splits into its two sides. */
  lemma SplitRange(low: string, high: string)
    requires '-' !in low && ',' !in low && '-' !in high && ',' !in high
    ensures Text.Split(Text.RemoveChar(low + "-" + high, ','), '-') == [low, high]
  {
    var s := low + "-" + high;
    assert ',' !in s;
    Text.SplitAround(low, '-', high);
    Text.SplitNoSeparator(low, '-');
    Text.SplitNoSeparator(high, '-');
  }

  /** A range with a second dash, as a negative lower bound gives, never
      parses: such a parameter is never counted. */
  lemma NegativeBoundNeverParses(parseReal: string -> Option<real>, p: Param)
    requires p.referenceRange.Str?
    requires Text.Occurrences(Text.RemoveChar(p.referenceRange.s, ','), '-') >= 2
    ensures CleanAndParseRange(parseReal, p.referenceRange) == None
    ensures Flagged(RangeParser(parseReal), p) != Some(true)
  {
  }

  /** For a string range that parses, the "-" test adds nothing: the value
      is abnormal exactly when it lies outside the bounds. */
  lemma FlaggedOutsideBounds(parseReal: string -> Option<real>, p: Param, v: real, low: real, high: real)
    requires p.value == Some(v)
    requires CleanAndParseRange(parseReal, p.referenceRange) == Some((low, high))
    ensures Flagged(RangeParser(parseReal), p) == Some(v < low || v > high)
  {
    RangeHasDash(parseReal, p.referenceRange);
    FlaggedWithDash(RangeParser(parseReal), p, v, low, high);
  }

  lemma FlaggedWithDash(ranges: Json -> Option<(real, real)>, p: Param, v: real, low: real, high: real)
    requires p.value == Some(v) && DashIn(p.referenceRange) == Some(true)
    requires ranges(p.referenceRange) == Some((low, high))
    ensures Flagged(ranges, p) == Some(v < low || v > high)
  {
  }

  /** A range that parses contains the dash it was split on. */
  lemma RangeHasDash(parseReal: string -> Option<real>, range: Json)
    requires CleanAndParseRange(parseReal, range).Some?
    ensures DashIn(range) == Some(true)
  {
    var s := range.s;
    var t := Text.RemoveChar(s, ',');
    assert |Text.Split(t, '-')| == 2;
    OccursIn(t, '-');
    RemoveCharKeeps(s, ',', '-');
  }

  lemma {:induction false} OccursIn(s: string, c: char)
    ensures Text.Occurrences(s, c) > 0 <==> c in s
  {
    if s != [] {
      OccursIn(s[1..], c);
      assert s == [s[0]] + s[1..];
    }
  }

  lemma {:induction false} RemoveCharKeeps(s: string, c: char, d: char)
    requires c != d
    ensures d in Text.RemoveChar(s, c) ==> d in s
  {
    if s != [] {
      RemoveCharKeeps(s[1..], c, d);
    }
  }

  // ---------------------------------------------------------------------
  // Enrichment and graph edges
  // ---------------------------------------------------------------------

  /** A parameter record as inserted into `parameters`. */
  datatype StoredParam = StoredParam(param: Param, reportId: string, userId: string, healthId: string)

  /** A document of `graph_edges`; `parameter` is the record's
      `canonicalName`, absent on a record without normalisation fields. */
  datatype Edge = Edge(source: string, target: string, kind: string, parameter: Option<string>, timestamp: int)

  /** The report document. */
  datatype Report = Report(userId: string, reportName: string, timestamp: int, extracted: Json, abnormalCount: nat)

  function HealthId(userId: string): (h: string)
    ensures |h| == |userId| + 7 && h[..7] == "AETHER-"
  {
    "AETHER-" + Text.Upper(userId)
  }

  /** The second loop's update of one record. */
  function Enrich(p: Param, reportId: string, userId: string): (s: StoredParam) {
    StoredParam(p.(category := if p.category == [] then "Unmatched" else p.category),
                reportId, userId, HealthId(userId))
  }

  /** `p.get("loincCode")` is truthy. */
  predicate HasLoinc(p: Param) {
    p.loincCode.Some? && Truthy(p.loincCode.value)
  }

  /** `f"loinc:{code}"`; `show` is Python's `str()` of a value that is not
      a string. */
  function LoincTarget(code: Json, show: Json -> string): string {
    "loinc:" + (if code.Str? then code.s else show(code))
  }

  function EdgeOf(p: Param, reportId: string, now: int, show: Json -> string): Edge
    requires p.loincCode.Some?
  {
    Edge("report:" + reportId, LoincTarget(p.loincCode.value, show), "parameter-maps-to",
         if p.norm.Some? then Some(p.norm.value.canonicalName) else None, now)
  }

  /** The edges of the second loop, in order. */
  function Edges(params: seq<Param>, reportId: string, now: int, show: Json -> string): seq<Edge> {
    if params == [] then []
    else
      var n := |params| - 1;
      Edges(params[..n], reportId, now, show) +
        (if HasLoinc(params[n]) then [EdgeOf(params[n], reportId, now, show)] else [])
  }

  lemma EdgesStep(params: seq<Param>, i: nat, reportId: string, now: int, show: Json -> string)
    requires i < |params|
    ensures Edges(params[..i + 1], reportId, now, show) ==
      Edges(params[..i], reportId, now, show) +
        (if HasLoinc(params[i]) then [EdgeOf(params[i], reportId, now, show)] else [])
  {
    assert params[..i + 1][..i] == params[..i];
  }

  /** The second loop of `save_to_mongo`: every record enriched, and an
      edge for each with a truthy LOINC code. */
  method EnrichParameters(params: seq<Param>, reportId: string, userId: string, now: int, show: Json -> string)
    returns (stored: seq<StoredParam>, edges: seq<Edge>)
    ensures |stored| == |params|
    ensures forall i :: 0 <= i < |params| ==> stored[i] == Enrich(params[i], reportId, userId)
    ensures edges == Edges(params, reportId, now, show)
  {
    stored, edges := [], [];
    var i := 0;
    while i < |params|
      invariant 0 <= i <= |params|
      invariant |stored| == i
      invariant forall k :: 0 <= k < i ==> stored[k] == Enrich(params[k], reportId, userId)
      invariant edges == Edges(params[..i], reportId, now, show)
    {
      EdgesStep(params, i, reportId, now, show);
      var p := params[i];
      var healthId := "AETHER-" + Text.Upper(userId);
      var category := p.category;
      if category == [] {
        category := "Unmatched";
      }
      var record := StoredParam(p.(category := category), reportId, userId, healthId);
      assert record == Enrich(p, reportId, userId);
      stored := stored + [record];
      if p.loincCode.Some? && Truthy(p.loincCode.value) {
        var parameter := if p.norm.Some? then Some(p.norm.value.canonicalName) else None;
        var edge := Edge("report:" + reportId, LoincTarget(p.loincCode.value, show), "parameter-maps-to", parameter, now);
        assert edge == EdgeOf(p, reportId, now, show);
        edges := edges + [edge];
      }
      i := i + 1;
    }
    assert params[..i] == params;
  }

  /** An enriched record keeps everything of the original but an empty
      category, which becomes "Unmatched"; it carries the report id, the
      user id and a health id naming the user in upper case. */
  lemma EnrichSpec(p: Param, reportId: string, userId: string)
    ensures var s := Enrich(p, reportId, userId);
      && s.param.category != []
      && s.param.(category := p.category) == p
      && (p.category != [] ==> s.param == p)
      && s.reportId == reportId && s.userId == userId
      && s.healthId == "AETHER-" + Text.Upper(userId)
  {
  }

  /** One edge per record with a truthy LOINC code, in order, each from
      the report to that code. */
  lemma {:induction false} EdgesSpec(params: seq<Param>, reportId: string, now: int, show: Json -> string)
    ensures |Edges(params, reportId, now, show)| == |LoincRecords(params)|
    ensures forall k :: 0 <= k < |LoincRecords(params)| ==>
      Edges(params, reportId, now, show)[k] == EdgeOf(LoincRecords(params)[k], reportId, now, show)
  {
    if params != [] {
      EdgesSpec(params[..|params| - 1], reportId, now, show);
    }
  }

  /** The records with a truthy LOINC code, in order. */
  function LoincRecords(params: seq<Param>): (r: seq<Param>)
    ensures forall k :: 0 <= k < |r| ==> HasLoinc(r[k])
  {
    if params == [] then []
    else
      var n := |params| - 1;
      LoincRecords(params[..n]) + (if HasLoinc(params[n]) then [params[n]] else [])
  }

  /** `flatten_parameters` sets no LOINC code, so a report it produced
      yields no graph edge. */
  lemma {:induction false} FlattenedRecordsHaveNoEdges(version: Version, data: Json,
                                                       reportId: string, now: int, show: Json -> string)
    ensures Edges(Flatten(version, data), reportId, now, show) == []
  {
    var flat := Flatten(version, data);
    forall p | p in flat ensures p.loincCode == None {
      FlattenRecordFields(version, data, p);
    }
    NoLoincNoEdges(flat, reportId, now, show);
  }

  lemma {:induction false} NoLoincNoEdges(params: seq<Param>, reportId: string, now: int, show: Json -> string)
    requires forall p :: p in params ==> p.loincCode == None
    ensures Edges(params, reportId, now, show) == []
  {
    if params != [] {
      var n := |params| - 1;
      assert params[n] in params;
      NoLoincNoEdges(params[..n], reportId, now, show);
    }
  }

  // ---------------------------------------------------------------------
  // save_to_mongo
  // ---------------------------------------------------------------------

  /** Every record enriched, in order. */
  function Enriched(params: seq<Param>, reportId: string, userId: string): (r: seq<StoredParam>)
    ensures |r| == |params|
    ensures forall i :: 0 <= i < |params| ==> r[i] == Enrich(params[i], reportId, userId)
  {
    seq(|params|, i requires 0 <= i < |params| => Enrich(params[i], reportId, userId))
  }

  /** How `save_to_mongo` ends: the step that raised, or `Saved`. */
  datatype SaveOutcome =
    | CountRaised             // the abnormal-count loop raised; nothing is written
    | ReportInsertFailed      // insert_one raised; nothing is written
    | ParametersInsertFailed  // the report is stored, its parameters and edges are not
    | EdgesInsertFailed       // the report and its parameters are stored, the edges are not
    | Saved

  /** Where `save_to_mongo` stops, given the count, the records, the edges
      and which inserts succeed. An empty list is not inserted at all, so
      it cannot fail. */
  function SaveOutcomeOf(count: Option<nat>, params: seq<Param>, edges: seq<Edge>,
                         reportOk: bool, parametersOk: bool, edgesOk: bool): SaveOutcome {
    if count.None? then CountRaised
    else if !reportOk then ReportInsertFailed
    else if params != [] && !parametersOk then ParametersInsertFailed
    else if edges != [] && !edgesOk then EdgesInsertFailed
    else Saved
  }

  /** The call saves everything exactly when the count does not raise and
      every insert it makes succeeds; a report with no parameters and no
      edges needs only the report insert. */
  lemma SavedExactly(count: Option<nat>, params: seq<Param>, edges: seq<Edge>,
                     reportOk: bool, parametersOk: bool, edgesOk: bool)
    ensures SaveOutcomeOf(count, params, edges, reportOk, parametersOk, edgesOk) == Saved <==>
      count.Some? && reportOk && (params == [] || parametersOk) && (edges == [] || edgesOk)
    ensures params == [] && edges == [] ==>
      SaveOutcomeOf(count, params, edges, reportOk, parametersOk, edgesOk) ==
        if count.None? then CountRaised else if reportOk then Saved else ReportInsertFailed
  {
  }

  /** The three collections of `medicalReportsDB` that `save_to_mongo`
      writes. */
  class ReportDb {
    var reports: seq<Report>
    var parameters: seq<StoredParam>
    var graphEdges: seq<Edge>

    constructor()
      ensures reports == [] && parameters == [] && graphEdges == []
    {
      reports, parameters, graphEdges := [], [], [];
    }

    /** `db.reports.insert_one(doc)`; `ok` is false when it raises, and
        then nothing is inserted. */
    method InsertReport(doc: Report, ok: bool) returns (inserted: bool)
      modifies this
      ensures inserted == ok
      ensures reports == if ok then old(reports) + [doc] else old(reports)
      ensures parameters == old(parameters) && graphEdges == old(graphEdges)
    {
      if ok {
        reports := reports + [doc];
      }
      inserted := ok;
    }

    /** `db.parameters.insert_many(docs)`, which refuses an empty list;
        `ok` is false when it raises. */
    method InsertParameters(docs: seq<StoredParam>, ok: bool) returns (inserted: bool)
      requires docs != []
      modifies this
      ensures inserted == ok
      ensures parameters == if ok then old(parameters) + docs else old(parameters)
      ensures reports == old(reports) && graphEdges == old(graphEdges)
    {
      if ok {
        parameters := parameters + docs;
      }
      inserted := ok;
    }

    /** `db.graph_edges.insert_many(docs)`, which refuses an empty list;
        `ok` is false when it raises. */
    method InsertEdges(docs: seq<Edge>, ok: bool) returns (inserted: bool)
      requires docs != []
      modifies this
      ensures inserted == ok
      ensures graphEdges == if ok then old(graphEdges) + docs else old(graphEdges)
      ensures reports == old(reports) && parameters == old(parameters)
    {
      if ok {
        graphEdges := graphEdges + docs;
      }
      inserted := ok;
    }

    /** `save_to_mongo(user_id, report_name, standardized_data)`.
        `reportId` is the `_id` the report insert is given and `now` the
        clock; `reportOk`, `parametersOk` and `edgesOk` say whether each
        insert succeeds. The first step that raises ends the call, and
        what the steps before it wrote stays written. */
    method SaveToMongo(userId: string, reportName: string, data: Standardized, now: int, reportId: string,
                       parseReal: string -> Option<real>, show: Json -> string,
                       reportOk: bool, parametersOk: bool, edgesOk: bool)
      returns (outcome: SaveOutcome)
      modifies this
      ensures outcome == SaveOutcomeOf(AbnormalCountOf(RangeParser(parseReal), data.parameters),
                                       data.parameters, Edges(data.parameters, reportId, now, show),
                                       reportOk, parametersOk, edgesOk)
      ensures outcome == CountRaised || outcome == ReportInsertFailed ==>
        reports == old(reports) && parameters == old(parameters) && graphEdges == old(graphEdges)
      ensures outcome != CountRaised && outcome != ReportInsertFailed ==>
        reports == old(reports) + [Report(userId, reportName, now, data.extracted,
                                          AbnormalCountOf(RangeParser(parseReal), data.parameters).value)]
      ensures outcome == ParametersInsertFailed ==> parameters == old(parameters) && graphEdges == old(graphEdges)
      ensures outcome == EdgesInsertFailed || outcome == Saved ==>
        parameters == old(parameters) + Enriched(data.parameters, reportId, userId)
      ensures outcome == EdgesInsertFailed ==> graphEdges == old(graphEdges)
      ensures outcome == Saved ==> graphEdges == old(graphEdges) + Edges(data.parameters, reportId, now, show)
    {
      var count := AbnormalCount(RangeParser(parseReal), data.parameters);
      if count.None? {
        return CountRaised;
      }
      var inserted := InsertReport(Report(userId, reportName, now, data.extracted, count.value), reportOk);
      if !inserted {
        return ReportInsertFailed;
      }
      var stored, edges := EnrichParameters(data.parameters, reportId, userId, now, show);
      assert stored == Enriched(data.parameters, reportId, userId);
      if stored != [] {
        inserted := InsertParameters(stored, parametersOk);
        if !inserted {
          return ParametersInsertFailed;
        }
      }
      if edges != [] {
        inserted := InsertEdges(edges, edgesOk);
        if !inserted {
          return EdgesInsertFailed;
        }
      }
      outcome := Saved;
    }
  }
}

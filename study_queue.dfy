/** One tick of `poll_forever` in ai_worker.py, over the `imagingStudies`
    collection.

    A tick asks the store for the studies that have no
    `aiInterpretation.enhancedCaptions` field, oldest `uploadedAt` first, at
    most five of them. It reads the whole batch before it processes any of
    it, then runs `process_study` on each study of the batch in order. The
    first pass that raises ends the tick: the exception is caught around the
    whole loop, so the studies after it wait for a later tick. A query that
    raises, or an empty batch, leaves the store as it was.

    The collection is the field `docs` of `StudyStore`; the one update a
    pass makes is `UpdateOne`. */
module StudyQueue {
  import opened Wrappers
  import opened StudyPass

  /** `.limit(5)` on the poll query. */
  const QueryLimit: nat := 5

  /** The query filter `{"aiInterpretation.enhancedCaptions": {"$exists": False}}`. */
  predicate Eligible(s: Study) {
    s.enhancedCaptions.None?
  }

  /** The eligible studies, in collection order. */
  function EligibleOf(docs: seq<Study>): seq<Study> {
    if docs == [] then []
    else
      var last := docs[|docs| - 1];
      EligibleOf(docs[..|docs| - 1]) + (if Eligible(last) then [last] else [])
  }

  /** Ascending by `uploadedAt`. */
  predicate SortedByUpload(s: seq<Study>) {
    forall i, j :: 0 <= i < j < |s| ==> s[i].uploadedAt <= s[j].uploadedAt
  }

  /** Puts `x` after every study of `sorted` uploaded no later than it, so
      that studies with equal `uploadedAt` keep their collection order. */
  function InsertByUpload(x: Study, sorted: seq<Study>): seq<Study> {
    if sorted == [] then [x]
    else
      var last := sorted[|sorted| - 1];
      if last.uploadedAt <= x.uploadedAt then sorted + [x]
      else InsertByUpload(x, sorted[..|sorted| - 1]) + [last]
  }

  /** `sort=[("uploadedAt", 1)]`, stably. */
  function SortByUpload(s: seq<Study>): seq<Study> {
    if s == [] then []
    else InsertByUpload(s[|s| - 1], SortByUpload(s[..|s| - 1]))
  }

  function Min(a: nat, b: nat): nat {
    if a <= b then a else b
  }

  /** `list(coll.find(...).sort(...).limit(5))`. */
  function Select(docs: seq<Study>): seq<Study> {
    var sorted := SortByUpload(EligibleOf(docs));
    sorted[..Min(QueryLimit, |sorted|)]
  }

  /** Where the study with this `_id` sits in the collection. */
  function IndexOfId(docs: seq<Study>, id: string): (r: Option<nat>)
    ensures r.Some? ==> r.value < |docs| && docs[r.value].id == id
    ensures r.None? ==> forall j :: 0 <= j < |docs| ==> docs[j].id != id
  {
    if docs == [] then None
    else if docs[0].id == id then Some(0)
    else match IndexOfId(docs[1..], id)
      case None => None
      case Some(j) => Some(j + 1)
  }

  /** `coll.update_one({"_id": id}, ...)` with the pass's `$push`/`$set`;
      no document with that id means nothing is updated. */
  function UpdateOne(docs: seq<Study>, id: string, cs: seq<Caption>, summary: string, at: int): seq<Study> {
    match IndexOfId(docs, id)
    case None => docs
    case Some(i) => docs[i := WriteBack(docs[i], cs, summary, at)]
  }

  /** Every `_id` occurs once. */
  predicate UniqueIds(docs: seq<Study>) {
    forall i, j :: 0 <= i < j < |docs| ==> docs[i].id != docs[j].id
  }

  /** How a tick ended: `aborted` is the position in the batch and the
      exception of the pass that raised, if one did. */
  datatype TickRun = TickRun(docs: seq<Study>, aborted: Option<(nat, Failure)>)

  /** The loop `for s in to_process: process_study(s)` over `batch`, pass
      `n` using `svs(n)`. Each pass works on the study as the query read
      it; its update lands on the document as it is now. */
  function Run(docs: seq<Study>, batch: seq<Study>, svs: nat -> Services): TickRun {
    if batch == [] then TickRun(docs, None)
    else
      var n := |batch| - 1;
      var prev := Run(docs, batch[..n], svs);
      if prev.aborted.Some? then prev
      else
        match Pass(batch[n], svs(n))
        case NoNewImages => prev
        case Raised(e) => TickRun(prev.docs, Some((n, e)))
        case Wrote(cs, summary) => TickRun(UpdateOne(prev.docs, batch[n].id, cs, summary, svs(n).updateTime), None)
  }

  /** What one tick reports. */
  datatype TickOutcome =
    | QueryFailed           // coll.find raised
    | Idle                  // nothing eligible: the worker sleeps
    | Ran(aborted: Option<(nat, Failure)>)

  /** The `imagingStudies` collection as the worker sees it. */
  class StudyStore {
    var docs: seq<Study>

    predicate Valid()
      reads this
    {
      UniqueIds(docs)
    }

    constructor(initial: seq<Study>)
      requires UniqueIds(initial)
      ensures Valid() && docs == initial
    {
      docs := initial;
    }

    /** `process_study(s)`: the loop, then, when it annotated something,
        the summary and the single update. */
    method ProcessStudy(s: Study, sv: Services) returns (outcome: PassOutcome)
      requires Valid()
      modifies this
      ensures Valid()
      ensures outcome == Pass(s, sv)
      ensures docs == if outcome.Wrote?
        then UpdateOne(old(docs), s.id, outcome.newCaptions, outcome.summary, sv.updateTime)
        else old(docs)
    {
      outcome := RunPass(s, sv);
      if outcome.Wrote? {
        UpdateOneKeepsIds(docs, s.id, outcome.newCaptions, outcome.summary, sv.updateTime);
        docs := UpdateOne(docs, s.id, outcome.newCaptions, outcome.summary, sv.updateTime);
      }
    }

    /** One iteration of `poll_forever`'s `while True`, without the sleeps.
        `queryOk` is false when `coll.find` raises; `svs(n)` serves the
        `n`-th study of the batch. */
    method Tick(queryOk: bool, svs: nat -> Services) returns (t: TickOutcome)
      requires Valid()
      modifies this
      ensures Valid()
      ensures !queryOk ==> t == QueryFailed && docs == old(docs)
      ensures queryOk && Select(old(docs)) == [] ==> t == Idle && docs == old(docs)
      ensures queryOk && Select(old(docs)) != [] ==>
        var run := Run(old(docs), Select(old(docs)), svs);
        t == Ran(run.aborted) && docs == run.docs
    {
      if !queryOk {
        return QueryFailed;
      }
      var batch := Select(docs);
      if batch == [] {
        return Idle;
      }
      ghost var start := docs;
      var i := 0;
      while i < |batch|
        invariant 0 <= i <= |batch|
        invariant Valid()
        invariant Run(start, batch[..i], svs) == TickRun(docs, None)
      {
        RunStep(start, batch, svs, i, docs);
        var outcome := ProcessStudy(batch[i], svs(i));
        if outcome.Raised? {
          RunAborts(start, batch, svs, i);
          return Ran(Some((i, outcome.failure)));
        }
        i := i + 1;
      }
      assert batch[..i] == batch;
      t := Ran(None);
    }
  }

  // ---------------------------------------------------------------------
  // The selection query
  // ---------------------------------------------------------------------

  /** Exactly the eligible studies are kept, in collection order. */
  lemma {:induction false} EligibleOfMembers(docs: seq<Study>)
    ensures forall s :: s in EligibleOf(docs) <==> s in docs && Eligible(s)
    ensures |EligibleOf(docs)| <= |docs|
  {
    if docs != [] {
      EligibleOfMembers(docs[..|docs| - 1]);
      assert docs == docs[..|docs| - 1] + [docs[|docs| - 1]];
    }
  }

  /** Inserting adds exactly `x`. */
  lemma {:induction false} InsertByUploadPerm(x: Study, sorted: seq<Study>)
    ensures multiset(InsertByUpload(x, sorted)) == multiset(sorted) + multiset{x}
  {
    if sorted != [] {
      var n := |sorted| - 1;
      if x.uploadedAt < sorted[n].uploadedAt {
        InsertByUploadPerm(x, sorted[..n]);
        assert sorted == sorted[..n] + [sorted[n]];
      }
    }
  }

  /** Inserting below a bound stays below it. */
  lemma {:induction false} InsertByUploadBound(x: Study, sorted: seq<Study>, bound: int)
    requires x.uploadedAt <= bound
    requires forall i :: 0 <= i < |sorted| ==> sorted[i].uploadedAt <= bound
    ensures forall i :: 0 <= i < |InsertByUpload(x, sorted)| ==> InsertByUpload(x, sorted)[i].uploadedAt <= bound
  {
    if sorted != [] {
      var n := |sorted| - 1;
      if x.uploadedAt < sorted[n].uploadedAt {
        InsertByUploadBound(x, sorted[..n], bound);
      }
    }
  }

  /** Inserting keeps the list sorted. */
  lemma {:induction false} InsertByUploadSorted(x: Study, sorted: seq<Study>)
    requires SortedByUpload(sorted)
    ensures SortedByUpload(InsertByUpload(x, sorted))
  {
    if sorted != [] {
      var n := |sorted| - 1;
      var last := sorted[n];
      if x.uploadedAt < last.uploadedAt {
        InsertByUploadSorted(x, sorted[..n]);
        InsertByUploadBound(x, sorted[..n], last.uploadedAt);
      }
    }
  }

  /** The sort is ascending ... */
  lemma {:induction false} SortByUploadSorted(s: seq<Study>)
    ensures SortedByUpload(SortByUpload(s))
  {
    if s != [] {
      var n := |s| - 1;
      SortByUploadSorted(s[..n]);
      InsertByUploadSorted(s[n], SortByUpload(s[..n]));
    }
  }

  /** ... and reorders without adding or losing studies. */
  lemma {:induction false} SortByUploadPerm(s: seq<Study>)
    ensures multiset(SortByUpload(s)) == multiset(s)
  {
    if s != [] {
      var n := |s| - 1;
      var init := s[..n];
      SortByUploadPerm(init);
      InsertByUploadPerm(s[n], SortByUpload(init));
      assert SortByUpload(s) == InsertByUpload(s[n], SortByUpload(init));
      assert s == init + [s[n]];
      assert multiset(s) == multiset(init) + multiset{s[n]};
    }
  }

  /** The tick takes only eligible studies, oldest first, and five of them
      unless fewer are eligible. */
  lemma SelectSpec(docs: seq<Study>)
    ensures |Select(docs)| == Min(QueryLimit, |EligibleOf(docs)|)
    ensures forall s :: s in Select(docs) ==> s in docs && Eligible(s)
    ensures SortedByUpload(Select(docs))
  {
    var e := EligibleOf(docs);
    var sorted := SortByUpload(e);
    SortByUploadSorted(e);
    SortByUploadPerm(e);
    EligibleOfMembers(docs);
    assert |sorted| == |multiset(sorted)| == |multiset(e)| == |e|;
    forall s | s in Select(docs) ensures s in docs && Eligible(s) {
      assert s in sorted;
      assert s in multiset(e);
    }
  }

  /** An eligible study the tick leaves out was uploaded no earlier than any
      study it took. */
  lemma SelectEarliest(docs: seq<Study>, d: Study)
    requires d in docs && Eligible(d) && d !in Select(docs)
    ensures forall s :: s in Select(docs) ==> s.uploadedAt <= d.uploadedAt
  {
    var e := EligibleOf(docs);
    var sorted := SortByUpload(e);
    SortByUploadSorted(e);
    SortByUploadPerm(e);
    EligibleOfMembers(docs);
    assert d in multiset(sorted);
    SortedPrefixBefore(sorted, Min(QueryLimit, |sorted|), d);
  }

  /** In a sorted list, whatever precedes a cut that `d` lies beyond was
      uploaded no later than `d`. */
  lemma SortedPrefixBefore(sorted: seq<Study>, m: nat, d: Study)
    requires SortedByUpload(sorted) && m <= |sorted| && d in sorted && d !in sorted[..m]
    ensures forall s :: s in sorted[..m] ==> s.uploadedAt <= d.uploadedAt
  {
    var j :| 0 <= j < |sorted| && sorted[j] == d;
    forall s | s in sorted[..m] ensures s.uploadedAt <= d.uploadedAt {
      var i :| 0 <= i < m && sorted[..m][i] == s;
      assert sorted[i] == s;
    }
  }


  // ---------------------------------------------------------------------
  // The update of one pass
  // ---------------------------------------------------------------------

  /** The update changes at most the document with that id. */
  lemma UpdateOneKeepsIds(docs: seq<Study>, id: string, cs: seq<Caption>, summary: string, at: int)
    ensures var r := UpdateOne(docs, id, cs, summary, at);
      && |r| == |docs|
      && (forall j :: 0 <= j < |docs| ==> r[j].id == docs[j].id)
      && (UniqueIds(docs) ==> UniqueIds(r))
  {
  }

  /** In a collection with unique ids, the update of a pass that annotated
      something touches exactly the study with that id: its captions and
      `imageUrls` grow by the new entries in order, its summary and time
      are set, nothing else of it changes, and it no longer matches the
      poll query. Every other study is left as it was. */
  lemma UpdateOneEffect(docs: seq<Study>, id: string, cs: seq<Caption>, summary: string, at: int)
    requires UniqueIds(docs) && cs != []
    ensures var r := UpdateOne(docs, id, cs, summary, at);
      && |r| == |docs|
      && forall j :: 0 <= j < |docs| ==>
           if docs[j].id == id then
             && r[j] == WriteBack(docs[j], cs, summary, at)
             && r[j].enhancedCaptions == Some(CaptionsOf(docs[j]) + cs)
             && r[j].imageUrls == docs[j].imageUrls + AnnotatedUrls(cs)
             && r[j].aggregateSummary == Some(summary)
             && r[j].updatedAt == Some(at)
             && r[j].(enhancedCaptions := docs[j].enhancedCaptions, imageUrls := docs[j].imageUrls,
                      aggregateSummary := docs[j].aggregateSummary, updatedAt := docs[j].updatedAt) == docs[j]
             && !Eligible(r[j])
           else r[j] == docs[j]
  {
    match IndexOfId(docs, id)
    case None =>
    case Some(i) =>
      forall j | 0 <= j < |docs| && j != i ensures docs[j].id != id {
        if j < i {
          assert docs[j].id != docs[i].id;
        } else {
          assert docs[i].id != docs[j].id;
        }
      }
  }

  // ---------------------------------------------------------------------
  // Properties of a tick
  // ---------------------------------------------------------------------

  /** One more pass of a run that has not aborted: a pass that annotated
      nothing leaves the documents alone, one that wrote lands its update. */
  lemma RunStep(docs: seq<Study>, batch: seq<Study>, svs: nat -> Services, i: nat, now: seq<Study>)
    requires i < |batch| && Run(docs, batch[..i], svs) == TickRun(now, None)
    ensures Pass(batch[i], svs(i)).NoNewImages? ==> Run(docs, batch[..i + 1], svs) == TickRun(now, None)
    ensures Pass(batch[i], svs(i)).Wrote? ==>
      var p := Pass(batch[i], svs(i));
      Run(docs, batch[..i + 1], svs) ==
        TickRun(UpdateOne(now, batch[i].id, p.newCaptions, p.summary, svs(i).updateTime), None)
  {
    assert batch[..i + 1][..i] == batch[..i];
  }

  /** A pass that raises ends the tick at once: what the store holds is
      what the passes before it wrote. */
  lemma RunAborts(docs: seq<Study>, batch: seq<Study>, svs: nat -> Services, i: nat)
    requires i < |batch|
    requires Run(docs, batch[..i], svs).aborted.None?
    requires Pass(batch[i], svs(i)).Raised?
    ensures Run(docs, batch, svs) ==
      TickRun(Run(docs, batch[..i], svs).docs, Some((i, Pass(batch[i], svs(i)).failure)))
  {
    assert batch[..i + 1][..i] == batch[..i];
    var k := i + 1;
    while k < |batch|
      invariant i + 1 <= k <= |batch|
      invariant Run(docs, batch[..k], svs) ==
        TickRun(Run(docs, batch[..i], svs).docs, Some((i, Pass(batch[i], svs(i)).failure)))
    {
      assert batch[..k + 1][..k] == batch[..k];
      k := k + 1;
    }
    assert batch[..k] == batch;
  }

  /** When a tick aborts at position `i`, the pass there raised, the passes
      before it ran to completion, and the studies after it were not
      processed: the store is what the first `i` passes left. */
  lemma {:induction false} AbortedTick(docs: seq<Study>, batch: seq<Study>, svs: nat -> Services)
    requires Run(docs, batch, svs).aborted.Some?
    ensures var (i, e) := Run(docs, batch, svs).aborted.value;
      && i < |batch|
      && Pass(batch[i], svs(i)) == Raised(e)
      && Run(docs, batch[..i], svs) == TickRun(Run(docs, batch, svs).docs, None)
  {
    var n := |batch| - 1;
    var prev := Run(docs, batch[..n], svs);
    if prev.aborted.Some? {
      AbortedTick(docs, batch[..n], svs);
      var (i, e) := prev.aborted.value;
      assert batch[..n][..i] == batch[..i];
    } else {
      assert batch[..n] == batch[..|batch| - 1];
    }
  }

  /** An eligible study has no captions, so its pass attempts every listed
      URL; it writes nothing exactly when it lists no image at all, and
      then it stays eligible. */
  lemma EligibleAttemptsAll(s: Study, sv: Services)
    requires Eligible(s)
    ensures Pending(s.imageUrls, DoneUrls(s)) == s.imageUrls
    ensures Pass(s, sv) == NoNewImages <==> s.imageUrls == []
  {
    EligibleNothingPending(s.imageUrls, DoneUrls(s));
    NoNewImagesWhenAllDone(s, sv, sv.summarise, sv.updateOk);
  }

  lemma {:induction false} EligibleNothingPending(urls: seq<string>, done: set<string>)
    requires done == {}
    ensures Pending(urls, done) == urls
  {
    if urls != [] {
      EligibleNothingPending(urls[..|urls| - 1], done);
      assert urls == urls[..|urls| - 1] + [urls[|urls| - 1]];
    }
  }

  /** Passes over studies without images change nothing and raise nothing. */
  lemma {:induction false} RunOverEmptyStudies(docs: seq<Study>, batch: seq<Study>, svs: nat -> Services)
    requires forall s :: s in batch ==> s.imageUrls == []
    ensures Run(docs, batch, svs) == TickRun(docs, None)
  {
    if batch != [] {
      var n := |batch| - 1;
      assert forall s :: s in batch[..n] ==> s in batch;
      RunOverEmptyStudies(docs, batch[..n], svs);
      assert batch[n] in batch;
      NoNewImagesWhenAllDone(batch[n], svs(n), svs(n).summarise, svs(n).updateOk);
    }
  }

  /** Studies that list no images are never annotated and so stay eligible
      for ever: when the five oldest eligible studies are such studies, a
      tick leaves the store as it was and the next tick selects the same
      five, so no other study is ever reached. */
  lemma StuckQueue(docs: seq<Study>, svs: nat -> Services)
    requires forall s :: s in Select(docs) ==> s.imageUrls == []
    ensures Run(docs, Select(docs), svs) == TickRun(docs, None)
    ensures Select(Run(docs, Select(docs), svs).docs) == Select(docs)
  {
    RunOverEmptyStudies(docs, Select(docs), svs);
  }
}

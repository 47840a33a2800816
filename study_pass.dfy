/** One annotation pass over a study (`process_study` in ai_worker.py).

    The pass reads the URLs already captioned, walks `imageUrls` in order
    skipping those, and for every other URL downloads the image, asks the
    vision model for a caption and findings, burns the caption into the
    image, uploads the annotated copy and presigns a link to it. Only when
    every one of those steps succeeded for every URL, and at least one URL
    was annotated, does it summarise the findings and write everything back
    in one update. Any exception on the way ends the pass with nothing
    written.

    The downloads, the model calls, the drawing, the object store, the
    clock and the success of the final update are the fields of `Services`;
    the ones made once per URL are indexed by the attempt number `k` (0 for
    the first URL not yet done, 1 for the next, ...), so that the same URL
    listed twice may meet different outcomes. */
module StudyPass {
  import opened Wrappers
  import Text

  type Bytes = seq<bv8>

  /** One finding of the vision model. */
  datatype Finding = Finding(observation: string, possibleConditions: seq<string>)

  /** The parsed reply of `analyse_image`: its `caption` and `findings`. */
  datatype Analysis = Analysis(caption: string, findings: seq<Finding>)

  /** One entry of `aiInterpretation.enhancedCaptions`. */
  datatype Caption = Caption(
    url: string,
    caption: string,
    raw: Analysis,
    annotatedUrl: string,
    timestamp: int)

  /** A document of the `imagingStudies` collection. The fields of
      `aiInterpretation` are kept at the top level; `None` stands for a field
      that does not exist. */
  datatype Study = Study(
    id: string,
    userId: string,
    uploadedAt: int,
    imageUrls: seq<string>,
    enhancedCaptions: Option<seq<Caption>>,
    aggregateSummary: Option<string>,
    updatedAt: Option<int>)

  /** The exception that ended a pass, by the step that raised it. */
  datatype Failure =
    | DownloadFailed(url: string)
    | AnalysisFailed(url: string)
    | DrawFailed(url: string)
    | UploadFailed(url: string)
    | PresignFailed(url: string)
    | SummaryFailed
    | UpdateFailed

  /** The collaborators of one pass; `None`/`false` means the call raised. */
  datatype Services = Services(
    download: (nat, string) -> Option<Bytes>,       // requests.get + raise_for_status
    analyse: (nat, string) -> Option<Analysis>,     // analyse_image and the two key lookups
    draw: (Bytes, string) -> Option<Bytes>,         // draw_caption (decoding may fail)
    put: (string, Bytes) -> bool,                   // s3.put_object
    presign: string -> Option<string>,              // s3.generate_presigned_url
    millis: nat -> nat,                             // int(time.time() * 1000) at attempt k
    clock: nat -> int,                              // datetime.utcnow() at attempt k
    summarise: seq<seq<Finding>> -> Option<string>, // summarise_study
    updateTime: int,                                // datetime.utcnow() for updatedAt
    updateOk: bool)                                 // coll.update_one did not raise

  /** The captions a study already has (`.get("enhancedCaptions", [])`). */
  function CaptionsOf(s: Study): seq<Caption> {
    match s.enhancedCaptions
    case None => []
    case Some(cs) => cs
  }

  /** `already_done`: the source URLs of the existing captions. */
  function DoneUrls(s: Study): set<string> {
    set c | c in CaptionsOf(s) :: c.url
  }

  /** The URLs of `urls` that are not done, in order, duplicates kept. */
  function Pending(urls: seq<string>, done: set<string>): seq<string> {
    if urls == [] then []
    else
      var last := urls[|urls| - 1];
      Pending(urls[..|urls| - 1], done) + (if last in done then [] else [last])
  }

  /** How many times `x` occurs in `s`. */
  function Count<T(==)>(s: seq<T>, x: T): nat {
    if s == [] then 0 else Count(s[..|s| - 1], x) + (if s[|s| - 1] == x then 1 else 0)
  }

  /** `annotated/{user_id}/{ts}.jpg`. */
  function AnnotatedKey(userId: string, ts: nat): string {
    "annotated/" + userId + "/" + Text.NatToString(ts) + ".jpg"
  }

  /** Steps 1-4 of the loop body for the `k`-th URL attempted. */
  function Attempt(sv: Services, userId: string, k: nat, url: string): Result<Caption, Failure> {
    match sv.download(k, url)
    case None => Failure(DownloadFailed(url))
    case Some(jpeg) =>
      match sv.analyse(k, url)
      case None => Failure(AnalysisFailed(url))
      case Some(analysis) =>
        match sv.draw(jpeg, analysis.caption)
        case None => Failure(DrawFailed(url))
        case Some(annotated) =>
          var key := AnnotatedKey(userId, sv.millis(k));
          if !sv.put(key, annotated) then Failure(UploadFailed(url))
          else
            match sv.presign(key)
            case None => Failure(PresignFailed(url))
            case Some(annotatedUrl) =>
              Success(Caption(url, analysis.caption, analysis, annotatedUrl, sv.clock(k)))
  }

  /** The loop over the pending URLs: the captions of all of them, or the
      first failure (which discards the captions gathered before it). */
  function Collect(sv: Services, userId: string, pending: seq<string>): Result<seq<Caption>, Failure> {
    if pending == [] then Success([])
    else
      var n := |pending| - 1;
      match Collect(sv, userId, pending[..n])
      case Failure(e) => Failure(e)
      case Success(cs) =>
        match Attempt(sv, userId, n, pending[n])
        case Failure(e) => Failure(e)
        case Success(c) => Success(cs + [c])
  }

  /** `findings_lists`: one findings list per new caption, in order. */
  function FindingsLists(cs: seq<Caption>): seq<seq<Finding>> {
    seq(|cs|, i requires 0 <= i < |cs| => cs[i].raw.findings)
  }

  /** `[c["annotatedUrl"] for c in new_captions]`. */
  function AnnotatedUrls(cs: seq<Caption>): seq<string> {
    seq(|cs|, i requires 0 <= i < |cs| => cs[i].annotatedUrl)
  }

  /** What one call of `process_study` ends with. */
  datatype PassOutcome =
    | NoNewImages
    | Wrote(newCaptions: seq<Caption>, summary: string)
    | Raised(failure: Failure)

  /** The whole pass as a function of the study read by the poll query. */
  function Pass(s: Study, sv: Services): PassOutcome {
    match Collect(sv, s.userId, Pending(s.imageUrls, DoneUrls(s)))
    case Failure(e) => Raised(e)
    case Success(cs) =>
      if cs == [] then NoNewImages
      else
        match sv.summarise(FindingsLists(cs))
        case None => Raised(SummaryFailed)
        case Some(summary) => if sv.updateOk then Wrote(cs, summary) else Raised(UpdateFailed)
  }

  /** The single `update_one`: `$push` the captions and their annotated URLs,
      `$set` the summary and `updatedAt`. */
  function WriteBack(doc: Study, cs: seq<Caption>, summary: string, at: int): Study {
    doc.(enhancedCaptions := Some(CaptionsOf(doc) + cs),
         imageUrls := doc.imageUrls + AnnotatedUrls(cs),
         aggregateSummary := Some(summary),
         updatedAt := Some(at))
  }

  // ---------------------------------------------------------------------
  // The loop of process_study
  // ---------------------------------------------------------------------

  /** `new_captions` and `findings_lists` as the loop leaves them. */
  datatype Batch = Batch(newCaptions: seq<Caption>, findingsLists: seq<seq<Finding>>)

  /** The i-th findings list belongs to the i-th caption. */
  predicate Lockstep(b: Batch) {
    && |b.findingsLists| == |b.newCaptions|
    && forall j :: 0 <= j < |b.newCaptions| ==> b.findingsLists[j] == b.newCaptions[j].raw.findings
  }

  /** The loop of `process_study` up to the point where it decides whether
      to write. `fetched` lists the URLs it downloaded, in order: the URLs
      that are not done, up to and including the first one that failed. */
  method CollectNewCaptions(s: Study, sv: Services) returns (r: Result<Batch, Failure>, fetched: seq<string>)
    ensures fetched <= Pending(s.imageUrls, DoneUrls(s))
    ensures r.Success? ==>
      && fetched == Pending(s.imageUrls, DoneUrls(s))
      && Collect(sv, s.userId, fetched) == Success(r.value.newCaptions)
      && Lockstep(r.value)
    ensures r.Failure? ==>
      && fetched != []
      && Collect(sv, s.userId, Pending(s.imageUrls, DoneUrls(s))) == Failure(r.error)
      && Collect(sv, s.userId, fetched[..|fetched| - 1]).Success?
      && Attempt(sv, s.userId, |fetched| - 1, fetched[|fetched| - 1]) == Failure(r.error)
  {
    var done := DoneUrls(s);
    var newCaptions: seq<Caption> := [];
    var findingsLists: seq<seq<Finding>> := [];
    fetched := [];
    var i := 0;
    while i < |s.imageUrls|
      invariant 0 <= i <= |s.imageUrls|
      invariant fetched == Pending(s.imageUrls[..i], done)
      invariant Collect(sv, s.userId, fetched) == Success(newCaptions)
      invariant Lockstep(Batch(newCaptions, findingsLists))
    {
      var url := s.imageUrls[i];
      PendingStep(s.imageUrls, done, i);
      if url in done {
        i := i + 1;
        continue;
      }
      var k := |fetched|;
      CollectStep(sv, s.userId, fetched, url);
      fetched := fetched + [url];
      var attempt, findings := AnnotateImage(sv, s.userId, k, url);
      if attempt.Failure? {
        r := Failure(attempt.error);
        FailureEndsPass(sv, s.userId, s.imageUrls, done, i, r.error);
        return;
      }
      findingsLists := findingsLists + [findings];
      newCaptions := newCaptions + [attempt.value];
      i := i + 1;
    }
    assert s.imageUrls[..i] == s.imageUrls;
    r := Success(Batch(newCaptions, findingsLists));
  }

  /** `process_study(s)` up to its one write: the loop, then, when it
      annotated something, the summary; the update is the caller's. */
  method RunPass(s: Study, sv: Services) returns (outcome: PassOutcome)
    ensures outcome == Pass(s, sv)
  {
    var r, fetched := CollectNewCaptions(s, sv);
    if r.Failure? {
      return Raised(r.error);
    }
    var newCaptions := r.value.newCaptions;
    if newCaptions == [] {
      return NoNewImages;
    }
    LockstepFindings(r.value);
    var summary := sv.summarise(r.value.findingsLists);
    if summary.None? {
      return Raised(SummaryFailed);
    }
    if !sv.updateOk {
      return Raised(UpdateFailed);
    }
    outcome := Wrote(newCaptions, summary.value);
  }

  lemma LockstepFindings(b: Batch)
    requires Lockstep(b)
    ensures b.findingsLists == FindingsLists(b.newCaptions)
  {
  }

  /** The body of the loop for the `k`-th URL attempted: download, analyse,
      draw, upload, presign, in that order, stopping at the first step that
      raises. `findings` is what the loop appends to `findings_lists`. */
  method AnnotateImage(sv: Services, userId: string, k: nat, url: string)
    returns (r: Result<Caption, Failure>, findings: seq<Finding>)
    ensures r == Attempt(sv, userId, k, url)
    ensures r.Success? ==> findings == r.value.raw.findings
  {
    findings := [];
    // 1) download
    var jpeg := sv.download(k, url);
    if jpeg.None? {
      return Failure(DownloadFailed(url)), findings;
    }
    // 2) analyse
    var analysis := sv.analyse(k, url);
    if analysis.None? {
      return Failure(AnalysisFailed(url)), findings;
    }
    var caption := analysis.value.caption;
    findings := analysis.value.findings;
    // 3) draw the caption
    var annotated := sv.draw(jpeg.value, caption);
    if annotated.None? {
      return Failure(DrawFailed(url)), findings;
    }
    // 4) upload and presign
    var key := AnnotatedKey(userId, sv.millis(k));
    if !sv.put(key, annotated.value) {
      return Failure(UploadFailed(url)), findings;
    }
    var annotatedUrl := sv.presign(key);
    if annotatedUrl.None? {
      return Failure(PresignFailed(url)), findings;
    }
    r := Success(Caption(url, caption, analysis.value, annotatedUrl.value, sv.clock(k)));
  }

  lemma PendingStep(urls: seq<string>, done: set<string>, i: nat)
    requires i < |urls|
    ensures Pending(urls[..i + 1], done) == Pending(urls[..i], done) + (if urls[i] in done then [] else [urls[i]])
  {
    assert urls[..i + 1][..i] == urls[..i];
  }

  lemma CollectStep(sv: Services, userId: string, p: seq<string>, url: string)
    ensures (p + [url])[..|p|] == p
    ensures Collect(sv, userId, p).Success? ==>
      Collect(sv, userId, p + [url]) ==
        match Attempt(sv, userId, |p|, url)
        case Failure(e) => Failure(e)
        case Success(c) => Success(Collect(sv, userId, p).value + [c])
  {
    assert (p + [url])[..|p|] == p;
  }

  /** A failure of the URL at position `i` is the failure of the whole loop,
      and what was downloaded so far is a prefix of the pending URLs. */
  lemma FailureEndsPass(sv: Services, userId: string, urls: seq<string>, done: set<string>, i: nat, e: Failure)
    requires i < |urls| && urls[i] !in done
    requires Collect(sv, userId, Pending(urls[..i + 1], done)) == Failure(e)
    ensures Pending(urls[..i + 1], done) <= Pending(urls, done)
    ensures Collect(sv, userId, Pending(urls, done)) == Failure(e)
  {
    PendingConcat(urls[..i + 1], urls[i + 1..], done);
    assert urls[..i + 1] + urls[i + 1..] == urls;
    CollectFailureExtends(sv, userId, Pending(urls[..i + 1], done), Pending(urls[i + 1..], done));
  }

  // ---------------------------------------------------------------------
  // Properties of the pending list
  // ---------------------------------------------------------------------

  /** Filtering a concatenation filters each part. */
  lemma {:induction false} PendingConcat(a: seq<string>, b: seq<string>, done: set<string>)
    ensures Pending(a + b, done) == Pending(a, done) + Pending(b, done)
  {
    if b == [] {
      assert a + b == a;
    } else {
      var n := |b| - 1;
      assert (a + b)[..|a + b| - 1] == a + b[..n];
      PendingConcat(a, b[..n], done);
    }
  }

  /** A URL is pending exactly when it is listed and not done. */
  lemma {:induction false} PendingMembers(urls: seq<string>, done: set<string>, u: string)
    ensures u in Pending(urls, done) <==> u in urls && u !in done
  {
    if urls != [] {
      var n := |urls| - 1;
      PendingMembers(urls[..n], done, u);
      assert urls == urls[..n] + [urls[n]];
    }
  }

  /** A URL that is not done is attempted as many times as it is listed;
      a done URL never is. */
  lemma {:induction false} PendingCount(urls: seq<string>, done: set<string>, u: string)
    ensures Count(Pending(urls, done), u) == if u in done then 0 else Count(urls, u)
  {
    if urls != [] {
      var n := |urls| - 1;
      PendingCount(urls[..n], done, u);
      CountAppend(Pending(urls[..n], done), if urls[n] in done then [] else [urls[n]], u);
    }
  }

  lemma {:induction false} CountAppend<T>(a: seq<T>, b: seq<T>, x: T)
    ensures Count(a + b, x) == Count(a, x) + Count(b, x)
  {
    if b != [] {
      var n := |b| - 1;
      assert (a + b)[..|a + b| - 1] == a + b[..n];
      CountAppend(a, b[..n], x);
    } else {
      assert a + b == a;
    }
  }

  // ---------------------------------------------------------------------
  // Properties of the loop's specification
  // ---------------------------------------------------------------------

  /** Once the loop has raised, attempting more URLs does not change that. */
  lemma {:induction false} CollectFailureExtends(sv: Services, userId: string, p: seq<string>, q: seq<string>)
    requires Collect(sv, userId, p).Failure?
    ensures Collect(sv, userId, p + q) == Collect(sv, userId, p)
  {
    if q == [] {
      assert p + q == p;
    } else {
      var n := |q| - 1;
      assert (p + q)[..|p + q| - 1] == p + q[..n];
      CollectFailureExtends(sv, userId, p, q[..n]);
    }
  }

  /** The loop succeeds exactly when every attempt succeeds, and then the
      i-th caption is the result of the i-th attempt. */
  lemma {:induction false} CollectSuccess(sv: Services, userId: string, p: seq<string>)
    ensures Collect(sv, userId, p).Success? <==> forall i :: 0 <= i < |p| ==> Attempt(sv, userId, i, p[i]).Success?
    ensures Collect(sv, userId, p).Success? ==>
      && |Collect(sv, userId, p).value| == |p|
      && forall i :: 0 <= i < |p| ==> Collect(sv, userId, p).value[i] == Attempt(sv, userId, i, p[i]).value
  {
    if p != [] {
      var n := |p| - 1;
      var q := p[..n];
      CollectSuccess(sv, userId, q);
      assert forall i :: 0 <= i < n ==> q[i] == p[i];
      var prev, last := Collect(sv, userId, q), Attempt(sv, userId, n, p[n]);
      if prev.Success? && last.Success? {
        assert Collect(sv, userId, p) == Success(prev.value + [last.value]);
      } else {
        assert Collect(sv, userId, p).Failure?;
      }
    }
  }

  /** The loop fails with the failure of its first failing attempt. */
  lemma {:induction false} CollectFailure(sv: Services, userId: string, p: seq<string>, e: Failure)
    requires Collect(sv, userId, p) == Failure(e)
    ensures exists j ::
      && 0 <= j < |p|
      && Attempt(sv, userId, j, p[j]) == Failure(e)
      && forall i :: 0 <= i < j ==> Attempt(sv, userId, i, p[i]).Success?
  {
    var n := |p| - 1;
    assert forall i :: 0 <= i < n ==> p[..n][i] == p[i];
    if Collect(sv, userId, p[..n]).Failure? {
      CollectFailure(sv, userId, p[..n], e);
    } else {
      CollectSuccess(sv, userId, p[..n]);
    }
  }

  /** A successful attempt yields a caption for the URL it was given, whose
      text is the model's caption, whose raw analysis is the model's reply and
      whose link is the presigned link of the uploaded annotated copy. */
  lemma AttemptSuccess(sv: Services, userId: string, k: nat, url: string)
    requires Attempt(sv, userId, k, url).Success?
    ensures var c := Attempt(sv, userId, k, url).value;
      && c.url == url
      && sv.analyse(k, url) == Some(c.raw)
      && c.caption == c.raw.caption
      && sv.presign(AnnotatedKey(userId, sv.millis(k))) == Some(c.annotatedUrl)
      && c.timestamp == sv.clock(k)
  {
  }

  /** Two sets of collaborators that agree on every attempt give the same loop. */
  lemma {:induction false} CollectAgrees(sv: Services, sv': Services, userId: string, p: seq<string>)
    requires forall i :: 0 <= i < |p| ==> Attempt(sv, userId, i, p[i]) == Attempt(sv', userId, i, p[i])
    ensures Collect(sv, userId, p) == Collect(sv', userId, p)
  {
    if p != [] {
      var n := |p| - 1;
      assert forall i :: 0 <= i < n ==> p[..n][i] == p[i];
      CollectAgrees(sv, sv', userId, p[..n]);
    }
  }

  // ---------------------------------------------------------------------
  // Properties of a pass
  // ---------------------------------------------------------------------

  /** Done URLs are never downloaded nor analysed: the pass comes out the
      same whatever the network and the model would answer for them. */
  lemma DoneUrlsNeverFetched(s: Study, sv: Services, sv': Services)
    requires sv'.draw == sv.draw && sv'.put == sv.put && sv'.presign == sv.presign
    requires sv'.millis == sv.millis && sv'.clock == sv.clock
    requires sv'.summarise == sv.summarise && sv'.updateOk == sv.updateOk
    requires forall k: nat, u :: u !in DoneUrls(s) ==>
      sv'.download(k, u) == sv.download(k, u) && sv'.analyse(k, u) == sv.analyse(k, u)
    ensures Pass(s, sv') == Pass(s, sv)
  {
    var p := Pending(s.imageUrls, DoneUrls(s));
    forall i | 0 <= i < |p| ensures Attempt(sv, s.userId, i, p[i]) == Attempt(sv', s.userId, i, p[i]) {
      PendingMembers(s.imageUrls, DoneUrls(s), p[i]);
    }
    CollectAgrees(sv, sv', s.userId, p);
  }

  /** A pass writes nothing and calls neither the summariser nor the store
      exactly when every listed URL is already done. */
  lemma NoNewImagesWhenAllDone(s: Study, sv: Services, summarise': seq<seq<Finding>> -> Option<string>, updateOk': bool)
    ensures Pass(s, sv) == NoNewImages <==> Pending(s.imageUrls, DoneUrls(s)) == []
    ensures Pending(s.imageUrls, DoneUrls(s)) == [] ==>
      Pass(s, sv.(summarise := summarise', updateOk := updateOk')) == NoNewImages
  {
    CollectSuccess(sv, s.userId, Pending(s.imageUrls, DoneUrls(s)));
  }

  /** A pass that writes writes one caption per pending URL, in order, each
      with its source URL and the model's caption, findings lists in the
      same order, and the summary the summariser made of those lists. */
  lemma WrittenCaptions(s: Study, sv: Services)
    requires Pass(s, sv).Wrote?
    ensures var p := Pending(s.imageUrls, DoneUrls(s));
      var cs := Pass(s, sv).newCaptions;
      && |cs| == |p| > 0
      && (forall i :: 0 <= i < |p| ==>
            cs[i].url == p[i] && cs[i].caption == cs[i].raw.caption && sv.analyse(i, p[i]) == Some(cs[i].raw))
      && sv.summarise(FindingsLists(cs)) == Some(Pass(s, sv).summary)
      && sv.updateOk
  {
    var p := Pending(s.imageUrls, DoneUrls(s));
    CollectSuccess(sv, s.userId, p);
    forall i | 0 <= i < |p|
      ensures Pass(s, sv).newCaptions[i].url == p[i]
      ensures Pass(s, sv).newCaptions[i].caption == Pass(s, sv).newCaptions[i].raw.caption
      ensures sv.analyse(i, p[i]) == Some(Pass(s, sv).newCaptions[i].raw)
    {
      AttemptSuccess(sv, s.userId, i, p[i]);
    }
  }

  /** A URL listed twice and not done is captioned twice. */
  lemma WrittenTwiceWhenListedTwice(s: Study, sv: Services, u: string)
    requires Pass(s, sv).Wrote?
    requires u !in DoneUrls(s)
    ensures Count(Urls(Pass(s, sv).newCaptions), u) == Count(s.imageUrls, u)
  {
    var p := Pending(s.imageUrls, DoneUrls(s));
    WrittenCaptions(s, sv);
    assert Urls(Pass(s, sv).newCaptions) == p;
    PendingCount(s.imageUrls, DoneUrls(s), u);
  }

  /** The source URLs of a list of captions. */
  function Urls(cs: seq<Caption>): seq<string> {
    seq(|cs|, i requires 0 <= i < |cs| => cs[i].url)
  }

  /** The attempt at `p[j]` failed with `e` and every attempt before it succeeded. */
  predicate FirstFailureAt(sv: Services, userId: string, p: seq<string>, j: int, e: Failure) {
    && 0 <= j < |p|
    && Attempt(sv, userId, j, p[j]) == Failure(e)
    && forall i :: 0 <= i < j ==> Attempt(sv, userId, i, p[i]).Success?
  }

  /** A pass that raised failed at the first failing URL (every URL before
      it was fully annotated, and all of that work is dropped), or failed to
      summarise, or failed to update. */
  lemma RaisedAtFirstFailure(s: Study, sv: Services)
    requires Pass(s, sv).Raised?
    ensures var p := Pending(s.imageUrls, DoneUrls(s));
      var e := Pass(s, sv).failure;
      || (exists j :: FirstFailureAt(sv, s.userId, p, j, e))
      || (e == SummaryFailed && Collect(sv, s.userId, p).Success?)
      || (e == UpdateFailed && Collect(sv, s.userId, p).Success?)
  {
    var p := Pending(s.imageUrls, DoneUrls(s));
    var r := Collect(sv, s.userId, p);
    if r.Failure? {
      assert Pass(s, sv).failure == r.error;
      CollectFailure(sv, s.userId, p, r.error);
      var j :| 0 <= j < |p| && Attempt(sv, s.userId, j, p[j]) == Failure(r.error)
        && forall i :: 0 <= i < j ==> Attempt(sv, s.userId, i, p[i]).Success?;
      assert FirstFailureAt(sv, s.userId, p, j, Pass(s, sv).failure);
      assert exists k :: FirstFailureAt(sv, s.userId, Pending(s.imageUrls, DoneUrls(s)), k, Pass(s, sv).failure);
    } else {
      assert Pass(s, sv).failure == SummaryFailed || Pass(s, sv).failure == UpdateFailed;
    }
  }

  /** After the write, every URL the study listed before is done, so a
      further pass would attempt none of them again. */
  lemma WriteMarksAllDone(s: Study, sv: Services)
    requires Pass(s, sv).Wrote?
    ensures var w := WriteBack(s, Pass(s, sv).newCaptions, Pass(s, sv).summary, sv.updateTime);
      Pending(s.imageUrls, DoneUrls(w)) == []
  {
    var p := Pending(s.imageUrls, DoneUrls(s));
    var cs := Pass(s, sv).newCaptions;
    var w := WriteBack(s, cs, Pass(s, sv).summary, sv.updateTime);
    WrittenCaptions(s, sv);
    forall u | u in s.imageUrls ensures u in DoneUrls(w) {
      if u !in DoneUrls(s) {
        PendingMembers(s.imageUrls, DoneUrls(s), u);
        var i :| 0 <= i < |p| && p[i] == u;
        assert cs[i] in CaptionsOf(w);
      } else {
        var c :| c in CaptionsOf(s) && c.url == u;
        assert c in CaptionsOf(w);
      }
    }
    PendingNoneLeft(s.imageUrls, DoneUrls(w));
  }

  /** The annotated links the write appends to `imageUrls` are not
      captions' source URLs, so after the write they are what is pending,
      unless they happen to be captioned already. */
  lemma WrittenStudyPending(s: Study, sv: Services)
    requires Pass(s, sv).Wrote?
    ensures var cs := Pass(s, sv).newCaptions;
      var w := WriteBack(s, cs, Pass(s, sv).summary, sv.updateTime);
      Pending(w.imageUrls, DoneUrls(w)) == Pending(AnnotatedUrls(cs), DoneUrls(w))
  {
    var cs := Pass(s, sv).newCaptions;
    var w := WriteBack(s, cs, Pass(s, sv).summary, sv.updateTime);
    WriteMarksAllDone(s, sv);
    PendingConcat(s.imageUrls, AnnotatedUrls(cs), DoneUrls(w));
  }

  lemma {:induction false} PendingNoneLeft(urls: seq<string>, done: set<string>)
    requires forall u :: u in urls ==> u in done
    ensures Pending(urls, done) == []
  {
    if urls != [] {
      PendingNoneLeft(urls[..|urls| - 1], done);
    }
  }
}

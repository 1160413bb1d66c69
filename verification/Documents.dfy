/** The papers of one holder, a driver or a vehicle: uploads, review, and the
    analysis that arrives whenever it is done. */
module Documents {
  import opened Prelude

  datatype DocType =
    | NationalId | DriversLicense
    | VehicleRegistration | InsuranceCertificate | RoadworthinessCertificate
    | OperatorLicence

  datatype Review = Pending | Approved | Rejected

  /** One row.  A file is named by its contents; `analysis` is the file the
      stored analysis was made of. */
  datatype Row = Row(file: nat, review: Review, expires: Option<int>, uploaded: int, analysis: Option<nat>)

  predicate Held(r: Row) {
    r.review.Pending? || r.review.Approved?
  }

  /** An upload that passed its guards and has not been written yet. */
  datatype Upload = Upload(doc: DocType, file: nat)

  /** An analysis under way, for the row as it was uploaded at `uploaded`. */
  datatype Job = Job(doc: DocType, file: nat, uploaded: int)

  datatype Folder = Folder(rows: map<DocType, Row>, uploads: seq<Upload>, jobs: seq<Job>, now: int)

  datatype Event =
    | BeginUpload(doc: DocType, file: nat)
    | CommitUpload(i: nat)
    | Analysed(j: nat)
    | Decide(doc: DocType, approve: bool, expires: Option<int>)
    | Tick(elapsed: nat)

  datatype Code = NotReopened | DuplicateFile | ExpiryPast | NotFound

  /** The same file is held under another type. */
  predicate Duplicate(rows: map<DocType, Row>, doc: DocType, file: nat) {
    exists t :: t in rows && t != doc && Held(rows[t]) && rows[t].file == file
  }

  function UploadRefusal(rows: map<DocType, Row>, doc: DocType, file: nat): Option<Code> {
    if doc in rows && Held(rows[doc]) then Some(NotReopened)
    else if Duplicate(rows, doc, file) then Some(DuplicateFile)
    else None
  }

  function DecideRefusal(rows: map<DocType, Row>, doc: DocType, approve: bool, expires: Option<int>,
                         now: int): Option<Code> {
    if approve && expires.Some? && expires.value <= now then Some(ExpiryPast)
    else if doc !in rows then Some(NotFound)
    else None
  }

  predicate Enabled(f: Folder, e: Event) {
    match e
    case BeginUpload(doc, file) => UploadRefusal(f.rows, doc, file).None?
    case CommitUpload(i) => i < |f.uploads|
    case Analysed(j) => j < |f.jobs|
    case Decide(doc, approve, expires) => DecideRefusal(f.rows, doc, approve, expires, f.now).None?
    case Tick(_) => true
  }

  function Submitted(rows: map<DocType, Row>, u: Upload, now: int): map<DocType, Row> {
    rows[u.doc := Row(u.file, Pending, None, now, None)]
  }

  function Decided(r: Row, approve: bool, expires: Option<int>): Row {
    r.(review := if approve then Approved else Rejected, expires := if approve then expires else None)
  }

  /** The result lands only on the row as it was when the analysis began. */
  function Stored(rows: map<DocType, Row>, job: Job): map<DocType, Row> {
    if job.doc in rows && rows[job.doc].uploaded == job.uploaded then
      rows[job.doc := rows[job.doc].(analysis := Some(job.file))]
    else rows
  }

  function Next(f: Folder, e: Event): Folder {
    if !Enabled(f, e) then f else
    match e
    case BeginUpload(doc, file) => f.(uploads := f.uploads + [Upload(doc, file)])
    case CommitUpload(i) =>
      var u := f.uploads[i];
      f.(rows := Submitted(f.rows, u, f.now), uploads := f.uploads[..i] + f.uploads[i + 1..],
         jobs := f.jobs + [Job(u.doc, u.file, f.now)])
    case Analysed(j) => f.(rows := Stored(f.rows, f.jobs[j]), jobs := f.jobs[..j] + f.jobs[j + 1..])
    case Decide(doc, approve, expires) => f.(rows := f.rows[doc := Decided(f.rows[doc], approve, expires)])
    case Tick(elapsed) => f.(now := f.now + elapsed)
  }

  function Run(now: int, es: seq<Event>): Folder {
    if es == [] then Folder(map[], [], [], now) else Next(Run(now, es[..|es| - 1]), es[|es| - 1])
  }

  // ----- the analysis describes the file -----------------------------------------

  predicate AnalysisMatches(f: Folder) {
    forall t :: t in f.rows && f.rows[t].analysis.Some? ==> f.rows[t].analysis.value == f.rows[t].file
  }

  /** An analysis under way is for an upload that happened, and the one whose time
      a row still bears is for the file it still holds. */
  predicate JobOk(f: Folder, job: Job) {
    && job.doc in f.rows && job.uploaded <= f.rows[job.doc].uploaded
    && (job.uploaded == f.rows[job.doc].uploaded ==> job.file == f.rows[job.doc].file)
  }

  predicate AnalysisOk(f: Folder) {
    && AnalysisMatches(f)
    && (forall j :: 0 <= j < |f.jobs| ==> JobOk(f, f.jobs[j]))
    && (forall t :: t in f.rows ==> f.rows[t].uploaded <= f.now)
  }

  /** A file that replaces another is stored at a later time than it. */
  predicate LaterThanLast(f: Folder, e: Event) {
    e.CommitUpload? && Enabled(f, e) && f.uploads[e.i].doc in f.rows ==> f.rows[f.uploads[e.i].doc].uploaded < f.now
  }

  lemma StepKeepsAnalyses(f: Folder, e: Event)
    requires AnalysisOk(f) && LaterThanLast(f, e)
    ensures AnalysisOk(Next(f, e))
  {
    var g := Next(f, e);
    if Enabled(f, e) {
      forall j | 0 <= j < |g.jobs| ensures JobOk(g, g.jobs[j]) {
        match e
        case CommitUpload(_) => if j < |f.jobs| { assert JobOk(f, f.jobs[j]); }
        case Analysed(k) => assert g.jobs[j] == f.jobs[if j < k then j else j + 1]; assert JobOk(f, g.jobs[j]);
        case _ => assert JobOk(f, f.jobs[j]);
      }
      if e.Analysed? { assert JobOk(f, f.jobs[e.j]); }
    }
  }

  /** However late results arrive, a stored analysis is of the file its row holds. */
  lemma {:induction false} AnalysisOverEveryRun(now: int, es: seq<Event>)
    requires forall i {:trigger es[i]} :: 0 <= i < |es| ==> LaterThanLast(Run(now, es[..i]), es[i])
    ensures AnalysisOk(Run(now, es))
  {
    if es != [] {
      var before := es[..|es| - 1];
      forall i | 0 <= i < |before| ensures LaterThanLast(Run(now, before[..i]), before[i]) {
        assert before[i] == es[i] && before[..i] == es[..i];
      }
      AnalysisOverEveryRun(now, before);
      StepKeepsAnalyses(Run(now, before), es[|es| - 1]);
    }
  }

  /** Two files stored under one type at the same instant: the first one's analysis
      then lands on the second. */
  lemma SameInstantMixesAnalyses(f: Folder, j: nat, i: nat)
    requires j < |f.jobs| && i < |f.uploads|
    requires var job, u := f.jobs[j], f.uploads[i]; job.doc == u.doc && job.uploaded == f.now && job.file != u.file
    ensures !AnalysisMatches(Next(Next(f, CommitUpload(i)), Analysed(j)))
  {
    var u := f.uploads[i];
    assert Next(Next(f, CommitUpload(i)), Analysed(j)).rows[u.doc].analysis == Some(f.jobs[j].file);
  }

  // ----- what is held stays what it is ---------------------------------------------

  /** A pending or approved document is replaced exactly by writing an upload whose
      guard looked at the row before it became so. */
  lemma HeldFileReplacedExactly(f: Folder, e: Event, t: DocType)
    requires t in f.rows && Held(f.rows[t])
    ensures t in Next(f, e).rows
    ensures e.CommitUpload? && Enabled(f, e) && f.uploads[e.i].doc == t ==>
              Next(f, e).rows[t] == Row(f.uploads[e.i].file, Pending, None, f.now, None)
    ensures !(e.CommitUpload? && Enabled(f, e) && f.uploads[e.i].doc == t) ==>
              Next(f, e).rows[t].file == f.rows[t].file && Next(f, e).rows[t].uploaded == f.rows[t].uploaded
  {
  }

  /** Uploads and decisions about one holder's papers come one after the other. */
  predicate Calm(f: Folder, e: Event) {
    e.BeginUpload? || e.Decide? ==> f.uploads == []
  }

  predicate UploadsWanted(f: Folder) {
    |f.uploads| <= 1 && forall i :: 0 <= i < |f.uploads| ==>
      UploadRefusal(f.rows, f.uploads[i].doc, f.uploads[i].file).None?
  }

  predicate CalmRun(now: int, es: seq<Event>) {
    forall i {:trigger es[i]} :: 0 <= i < |es| ==> Calm(Run(now, es[..i]), es[i])
  }

  lemma StepKeepsUploadsWanted(f: Folder, e: Event)
    requires UploadsWanted(f) && Calm(f, e)
    ensures UploadsWanted(Next(f, e))
  {
    if Enabled(f, e) && e.Analysed? {
      var g := Next(f, e);
      forall i | 0 <= i < |g.uploads| ensures UploadRefusal(g.rows, g.uploads[i].doc, g.uploads[i].file).None? {
        var u := f.uploads[i];
        assert UploadRefusal(f.rows, u.doc, u.file).None?;
        forall t | t in g.rows && t != u.doc && Held(g.rows[t]) ensures g.rows[t].file != u.file {
          assert t in f.rows && Held(f.rows[t]) && f.rows[t].file == g.rows[t].file;
        }
      }
    }
  }

  lemma {:induction false} UploadsWantedOverCalmRuns(now: int, es: seq<Event>)
    requires CalmRun(now, es)
    ensures UploadsWanted(Run(now, es))
  {
    if es != [] {
      var before := es[..|es| - 1];
      forall i | 0 <= i < |before| ensures Calm(Run(now, before[..i]), before[i]) {
        assert before[i] == es[i] && before[..i] == es[..i];
      }
      UploadsWantedOverCalmRuns(now, before);
      StepKeepsUploadsWanted(Run(now, before), es[|es| - 1]);
    }
  }

  /** In such runs a document that is under review or approved never changes. */
  lemma HeldFileNeverChanges(now: int, es: seq<Event>, e: Event, t: DocType)
    requires CalmRun(now, es)
    requires t in Run(now, es).rows && Held(Run(now, es).rows[t])
    ensures t in Next(Run(now, es), e).rows && Next(Run(now, es), e).rows[t].file == Run(now, es).rows[t].file
  {
    UploadsWantedOverCalmRuns(now, es);
    HeldFileReplacedExactly(Run(now, es), e, t);
  }

  /** Two uploads of one type that overlap: the second replaces the first, which was
      already awaiting review. */
  lemma OverlappingUploadsClobber(f: Folder, doc: DocType, first: nat, second: nat)
    requires f.uploads == [] && first != second
    requires UploadRefusal(f.rows, doc, first).None? && UploadRefusal(f.rows, doc, second).None?
    ensures var g := Next(Next(Next(f, BeginUpload(doc, first)), BeginUpload(doc, second)), CommitUpload(0));
            && doc in g.rows && g.rows[doc].review.Pending? && g.rows[doc].file == first
            && Next(g, CommitUpload(0)).rows[doc].file == second
  {
    var two := Next(Next(f, BeginUpload(doc, first)), BeginUpload(doc, second));
    assert two.uploads == [Upload(doc, first), Upload(doc, second)];
    assert Next(two, CommitUpload(0)).uploads == [Upload(doc, second)];
  }

  // ----- one file, one document ----------------------------------------------------

  /** No file is held under two types. */
  predicate NoDuplicates(rows: map<DocType, Row>) {
    forall t, u :: t in rows && u in rows && t != u && Held(rows[t]) && Held(rows[u]) ==> rows[t].file != rows[u].file
  }

  lemma SubmittingKeepsNoDuplicates(rows: map<DocType, Row>, u: Upload, now: int)
    requires NoDuplicates(rows) && !Duplicate(rows, u.doc, u.file)
    ensures NoDuplicates(Submitted(rows, u, now))
  {
    var after := Submitted(rows, u, now);
    forall t, v | t in after && v in after && t != v && Held(after[t]) && Held(after[v])
      ensures after[t].file != after[v].file
    {
      if t != u.doc && v != u.doc { assert after[t] == rows[t] && after[v] == rows[v]; }
    }
  }

  lemma DecidingDuplicates(rows: map<DocType, Row>, doc: DocType, approve: bool, expires: Option<int>)
    requires NoDuplicates(rows) && doc in rows
    ensures NoDuplicates(rows[doc := Decided(rows[doc], approve, expires)]) <==>
              !(approve && rows[doc].review.Rejected? && Duplicate(rows, doc, rows[doc].file))
  {
    var after := rows[doc := Decided(rows[doc], approve, expires)];
    if approve && rows[doc].review.Rejected? && Duplicate(rows, doc, rows[doc].file) {
      var t :| t in rows && t != doc && Held(rows[t]) && rows[t].file == rows[doc].file;
      assert after[t].file == after[doc].file && Held(after[t]) && Held(after[doc]);
    } else {
      forall t, v | t in after && v in after && t != v && Held(after[t]) && Held(after[v])
        ensures after[t].file != after[v].file
      {
        assert after[t].file == rows[t].file && after[v].file == rows[v].file;
        assert t == doc || after[t] == rows[t];
        assert v == doc || after[v] == rows[v];
      }
    }
  }

  /** One thing lets a file be held twice: approving a document that had been
      rejected, after its file was handed in as something else. */
  lemma DuplicatesExactly(f: Folder, e: Event)
    requires NoDuplicates(f.rows) && UploadsWanted(f) && Calm(f, e)
    ensures NoDuplicates(Next(f, e).rows) <==>
              !(e.Decide? && Enabled(f, e) && e.approve && f.rows[e.doc].review.Rejected?
                && Duplicate(f.rows, e.doc, f.rows[e.doc].file))
  {
    if Enabled(f, e) {
      match e
      case CommitUpload(i) =>
        assert UploadRefusal(f.rows, f.uploads[i].doc, f.uploads[i].file).None?;
        SubmittingKeepsNoDuplicates(f.rows, f.uploads[i], f.now);
      case Decide(doc, approve, expires) => DecidingDuplicates(f.rows, doc, approve, expires);
      case Analysed(j) => StoringKeepsNoDuplicates(f.rows, f.jobs[j]);
      case _ =>
    }
  }

  lemma StoringKeepsNoDuplicates(rows: map<DocType, Row>, job: Job)
    requires NoDuplicates(rows)
    ensures NoDuplicates(Stored(rows, job))
  {
    var after := Stored(rows, job);
    forall t, v | t in after && v in after && t != v && Held(after[t]) && Held(after[v])
      ensures after[t].file != after[v].file
    {
      assert after[t].file == rows[t].file && after[v].file == rows[v].file;
    }
  }

  // ----- what each request leaves ---------------------------------------------------

  /** A file is taken unless its type has one that was not rejected, or it is held
      under another type itself. */
  lemma UploadTakenExactly(f: Folder, doc: DocType, file: nat)
    ensures Enabled(f, BeginUpload(doc, file)) <==>
              && (doc in f.rows ==> f.rows[doc].review == Rejected)
              && forall t :: t in f.rows && t != doc && f.rows[t].file == file ==> f.rows[t].review == Rejected
  {
    if Duplicate(f.rows, doc, file) {
      var t :| t in f.rows && t != doc && Held(f.rows[t]) && f.rows[t].file == file;
      assert f.rows[t].review != Rejected;
    }
  }

  /** It awaits review with nothing known of it, an analysis of it under way. */
  lemma UploadLeaves(f: Folder, doc: DocType, file: nat)
    requires f.uploads == [] && Enabled(f, BeginUpload(doc, file))
    ensures Next(Next(f, BeginUpload(doc, file)), CommitUpload(0))
            == f.(rows := f.rows[doc := Row(file, Pending, None, f.now, None)],
                  jobs := f.jobs + [Job(doc, file, f.now)])
  {
    assert Next(f, BeginUpload(doc, file)).uploads == [Upload(doc, file)];
  }

  /** A review of a document that is there: an approval keeps the expiry it is given,
      which must not have passed, and a rejection leaves none.  Nothing else of the
      row changes, and no other row. */
  lemma DecidedExactly(f: Folder, doc: DocType, approve: bool, expires: Option<int>)
    ensures Next(f, Decide(doc, approve, expires))
            == if doc !in f.rows || (approve && expires != None && expires.value <= f.now) then f
               else if approve then f.(rows := f.rows[doc := f.rows[doc].(review := Approved, expires := expires)])
               else f.(rows := f.rows[doc := f.rows[doc].(review := Rejected, expires := None)])
  {
  }

  // ----- the endpoints ------------------------------------------------------------------

  class Desk {
    var rows: map<DocType, Row>
    var jobs: seq<Job>

    function View(now: int): Folder
      reads this
    {
      Folder(rows, [], jobs, now)
    }

    constructor (now: int)
      ensures View(now) == Folder(map[], [], [], now)
    {
      rows, jobs := map[], [];
    }

    method UploadDocument(doc: DocType, file: nat, now: int) returns (code: Option<Code>)
      modifies this
      ensures code == UploadRefusal(old(rows), doc, file)
      ensures View(now) == Next(Next(old(View(now)), BeginUpload(doc, file)), CommitUpload(0))
    {
      if doc in rows && (rows[doc].review.Approved? || rows[doc].review.Pending?) { return Some(NotReopened); }
      if exists t :: t in rows && t != doc && Held(rows[t]) && rows[t].file == file { return Some(DuplicateFile); }
      ghost var before := View(now);
      rows := rows[doc := Row(file, Pending, None, now, None)];
      jobs := jobs + [Job(doc, file, now)];
      assert Next(before, BeginUpload(doc, file)).uploads == [Upload(doc, file)];
      return None;
    }

    method AnalyzeAndStore(j: nat, now: int) returns (kept: bool)
      requires j < |jobs|
      modifies this
      ensures View(now) == Next(old(View(now)), Analysed(j))
      ensures kept <==> old(jobs)[j].doc in old(rows) && old(rows)[old(jobs)[j].doc].uploaded == old(jobs)[j].uploaded
    {
      var job := jobs[j];
      kept := job.doc in rows && rows[job.doc].uploaded == job.uploaded;
      if kept { rows := rows[job.doc := rows[job.doc].(analysis := Some(job.file))]; }
      jobs := jobs[..j] + jobs[j + 1..];
    }

    method UpdateDocumentStatus(doc: DocType, approve: bool, expires: Option<int>, now: int)
      returns (code: Option<Code>)
      modifies `rows
      ensures code == DecideRefusal(old(rows), doc, approve, expires, now)
      ensures View(now) == Next(old(View(now)), Decide(doc, approve, expires))
    {
      var expiry: Option<int> := None;
      if approve && expires.Some? {
        if expires.value <= now { return Some(ExpiryPast); }
        expiry := expires;
      }
      if doc !in rows { return Some(NotFound); }
      rows := rows[doc := rows[doc].(review := if approve then Approved else Rejected, expires := expiry)];
      return None;
    }
  }
}

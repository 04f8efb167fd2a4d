/**
  The dashboard side of LogSight (app.py): processing an uploaded `.evtx` file as a job whose
  status row moves from `Pending` through `Processing` to `Processed` or `Error`, the alert
  shown for an upload, the page selection of the log-details view and the small store
  callbacks. The decoder, the database and the language-model call are not run: their
  outcomes are parameters.
 */
module Ingest {
  import opened Wrappers
  import opened Text
  import opened Dict
  import Record
  import Evtx
  import Queries

  const MaxEntriesToParse := 1000
  const AnalysisSampleSize := 5
  const PageSize := 15
  const ReportLogLimit := 500

  // ---------------------------------------------------------------------------------------
  // The `log_files` row of one upload

  /** The value of the `status` column. */
  datatype Status = Pending | Processing | Processed | Error {
    function Name(): string {
      match this
      case Pending => "Pending"
      case Processing => "Processing"
      case Processed => "Processed"
      case Error => "Error"
    }
  }

  /** The columns of a `log_files` row that processing writes. */
  datatype Row = Row(status: Status, totalEntries: int, parsedEntries: int, analyzedEntries: int,
                     errorMessage: Option<string>)

  /** The row `add_log_file_record` inserts: the schema defaults. */
  const NewRow := Row(Pending, 0, 0, 0, None)

  /** The row after `update_log_file_status`: the status, and each count or message that is
      given. */
  function Updated(r: Row, status: Status, total: Option<int>, parsed: Option<int>, analyzed: Option<int>,
                   error: Option<string>): (u: Row)
    ensures u.status == status
    ensures total.None? ==> u.totalEntries == r.totalEntries
    ensures parsed.None? ==> u.parsedEntries == r.parsedEntries
    ensures analyzed.None? ==> u.analyzedEntries == r.analyzedEntries
    ensures error.None? ==> u.errorMessage == r.errorMessage
  {
    Row(status, total.GetOr(r.totalEntries), parsed.GetOr(r.parsedEntries), analyzed.GetOr(r.analyzedEntries),
        if error.Some? then error else r.errorMessage)
  }

  /** The row changes exactly as the statement built by `update_log_file_status` assigns it:
      a column the statement assigns takes the bound value, every other column keeps its own. */
  lemma UpdatedFollowsStatement(r: Row, status: Status, total: Option<int>, parsed: Option<int>,
                                analyzed: Option<int>, error: Option<string>)
    ensures var fields := Queries.UpdateFields(status.Name(), total, parsed, analyzed, error);
      var u := Updated(r, status, total, parsed, analyzed, error);
      && ("status", Queries.SqlStr(u.status.Name())) in fields
      && ("total_entries" in Keys(fields) ==> ("total_entries", Queries.SqlInt(u.totalEntries)) in fields)
      && ("total_entries" !in Keys(fields) ==> u.totalEntries == r.totalEntries)
      && ("parsed_entries" in Keys(fields) ==> ("parsed_entries", Queries.SqlInt(u.parsedEntries)) in fields)
      && ("parsed_entries" !in Keys(fields) ==> u.parsedEntries == r.parsedEntries)
      && ("analyzed_entries" in Keys(fields) ==> ("analyzed_entries", Queries.SqlInt(u.analyzedEntries)) in fields)
      && ("analyzed_entries" !in Keys(fields) ==> u.analyzedEntries == r.analyzedEntries)
      && ("error_message" in Keys(fields) ==>
            u.errorMessage.Some? && ("error_message", Queries.SqlStr(u.errorMessage.value)) in fields)
      && ("error_message" !in Keys(fields) ==> u.errorMessage == r.errorMessage)
  {
    Queries.UpdateAssignsGiven(status.Name(), total, parsed, analyzed, error);
    Queries.UpdateBindsGiven(status.Name(), total, parsed, analyzed, error);
  }

  /** The stored row of one uploaded file; `trail` is every status it was given, in order. */
  class LogFileRecord {
    const fileId: int
    const filename: string
    var status: Status
    var totalEntries: int
    var parsedEntries: int
    var analyzedEntries: int
    var errorMessage: Option<string>
    ghost var trail: seq<Status>

    function State(): Row
      reads this
    {
      Row(status, totalEntries, parsedEntries, analyzedEntries, errorMessage)
    }

    /** `add_log_file_record`: a new row with the schema defaults. */
    constructor (fileId: int, filename: string)
      ensures this.fileId == fileId && this.filename == filename
      ensures State() == NewRow && trail == [Pending]
    {
      this.fileId := fileId;
      this.filename := filename;
      status := Pending;
      totalEntries := 0;
      parsedEntries := 0;
      analyzedEntries := 0;
      errorMessage := None;
      trail := [Pending];
    }

    /** `update_log_file_status` on this row. */
    method UpdateStatus(status: Status, total: Option<int>, parsed: Option<int>, analyzed: Option<int>,
                        error: Option<string>)
      modifies this
      ensures State() == Updated(old(State()), status, total, parsed, analyzed, error)
      ensures trail == old(trail) + [status]
    {
      this.status := status;
      if total.Some? {
        totalEntries := total.value;
      }
      if parsed.Some? {
        parsedEntries := parsed.value;
      }
      if analyzed.Some? {
        analyzedEntries := analyzed.value;
      }
      if error.Some? {
        errorMessage := error;
      }
      trail := trail + [status];
    }
  }

  // ---------------------------------------------------------------------------------------
  // process_uploaded_log_file

  /** What `add_log_file_record` did: the id of the new row, or the exception it raised. */
  datatype Creation = Created(fileId: int) | CreationRaised(error: string)

  /** A parsed log still without analysis: its id, its `raw_summary_for_llm` (`None` for
      NULL), and whether analysing and storing it raises. */
  datatype Candidate = Candidate(logId: int, summary: Option<string>, annotationRaises: bool)

  /** The whole trace of one job: every status it was given and its final row. */
  datatype JobTrace = JobTrace(trail: seq<Status>, row: Row)

  /** The result of processing one upload: the message shown, the job (none when the row could
      not be created), the outcome of the bulk insert if it was reached, and the ids of the logs
      analysed, in order. */
  datatype Outcome = Outcome(message: string, job: Option<JobTrace>, insert: Option<Queries.InsertOutcome>,
                             annotated: seq<int>)

  /** `get_parsed_logs_without_llm_analysis(file_id, limit=5)`: the candidates come in the
      database's random order and the first five are kept. */
  function Sample(candidates: seq<Candidate>): (s: seq<Candidate>)
    ensures |s| <= |candidates| && |s| <= AnalysisSampleSize && s == candidates[..|s|]
    ensures |s| == if |candidates| < AnalysisSampleSize then |candidates| else AnalysisSampleSize
  {
    if |candidates| <= AnalysisSampleSize then candidates else candidates[..AnalysisSampleSize]
  }

  /** `pd.notna(log_summary) and str(log_summary).strip()` */
  predicate Eligible(c: Candidate) {
    c.summary.Some? && !IsBlank(c.summary.value)
  }

  /** The ids of the sampled logs that were analysed: every eligible one whose analysis did not
      raise, in order. */
  function Annotated(rows: seq<Candidate>): seq<int>
    decreases |rows|
  {
    if rows == [] then []
    else
      var last := rows[|rows| - 1];
      Annotated(rows[..|rows| - 1]) + (if Eligible(last) && !last.annotationRaises then [last.logId] else [])
  }

  /** The columns of the decoded frame: a frame built from no records has no columns. */
  function FrameColumns(entries: seq<Record.LogEntry>): seq<string> {
    if entries == [] then [] else Record.TargetColumns
  }

  /** The `raw_summary_for_llm` fallback: the column is added (from `description`, or as a fixed
      text) when the frame lacks it. */
  function WithSummaryColumn(columns: seq<string>): (r: seq<string>)
    ensures "raw_summary_for_llm" in r
    ensures forall c :: c in columns ==> c in r
    ensures "raw_summary_for_llm" in columns ==> r == columns
  {
    if "raw_summary_for_llm" in columns then columns else columns + ["raw_summary_for_llm"]
  }

  /** `f"File '{original_filename}' processed. {inserted_count} logs stored. {analyzed_count} logs
      initially analyzed."`, grouped around the word the alert colour looks for. */
  function SuccessMessage(filename: string, inserted: int, analyzed: int): string {
    ("File '" + filename + "' ") + "processed"
      + (". " + DecimalString(inserted) + " logs stored. " + DecimalString(analyzed) + " logs initially analyzed.")
  }

  /** The whole of `process_uploaded_log_file` for one set of outcomes of the steps it calls. */
  function Process(filename: string, creation: Creation, frame: Evtx.Frame, writeError: Option<string>,
                   candidates: seq<Candidate>): (o: Outcome)
    ensures o.job.None? <==> creation.CreationRaised?
    ensures o.insert.Some? <==> creation.Created? && frame.Records? && frame.entries != []
    ensures o.annotated != [] ==> o.insert.Some? && o.insert.value.Inserted?
  {
    match creation
    case CreationRaised(e) => Outcome("Processing error: " + e, None, None, [])
    case Created(fileId) =>
      var r1 := Updated(NewRow, Processing, None, None, None, None);
      match frame
      case ErrorFrame(msg) =>
        Outcome("Error during parsing: " + msg,
                Some(JobTrace([Pending, Processing, Error], Updated(r1, Error, None, None, None, Some(msg)))), None, [])
      case Records(entries) =>
        if entries == [] then
          Outcome("No log entries found.",
                  Some(JobTrace([Pending, Processing, Processed], Updated(r1, Processed, Some(0), Some(0), None, None))),
                  None, [])
        else
          var r2 := Updated(r1, Processing, Some(|entries|), None, None, None);
          var df := Queries.LogFrame(WithSummaryColumn(FrameColumns(entries)), |entries|);
          var ins := Queries.BulkInsertParsedLogs(df, writeError);
          match ins
          case InsertRaised(e) =>
            if fileId != 0 then
              Outcome("Processing error: " + e,
                      Some(JobTrace([Pending, Processing, Processing, Error], Updated(r2, Error, None, None, None, Some(e)))),
                      Some(ins), [])
            else
              Outcome("Processing error: " + e, Some(JobTrace([Pending, Processing, Processing], r2)), Some(ins), [])
          case Inserted(n) =>
            var r3 := Updated(r2, Processing, None, Some(n), None, None);
            var ids := Annotated(Sample(candidates));
            Outcome(SuccessMessage(filename, n, |ids|),
                    Some(JobTrace([Pending, Processing, Processing, Processing, Processed],
                                  Updated(r3, Processed, None, None, Some(|ids|), None))),
                    Some(ins), ids)
  }

  /** `process_uploaded_log_file`, step by step on the job's row. The decoder run, the outcome
      of `to_sql` and the rows the sample query returns are parameters. */
  method ProcessUploadedLogFile(filename: string, creation: Creation, frame: Evtx.Frame,
                                writeError: Option<string>, candidates: seq<Candidate>)
    returns (message: string, job: LogFileRecord?, insert: Option<Queries.InsertOutcome>, annotated: seq<int>)
    ensures var o := Process(filename, creation, frame, writeError, candidates);
      && message == o.message && insert == o.insert && annotated == o.annotated
      && (job == null <==> o.job.None?)
      && (job != null ==> fresh(job) && o.job == Some(JobTrace(job.trail, job.State())))
  {
    insert := None;
    annotated := [];
    if creation.CreationRaised? {
      job := null;
      message := "Processing error: " + creation.error;
      return;
    }
    job := new LogFileRecord(creation.fileId, filename);
    job.UpdateStatus(Processing, None, None, None, None);
    if frame.ErrorFrame? {
      job.UpdateStatus(Error, None, None, None, Some(frame.message));
      assert job.trail == [Pending, Processing, Error];
      message := "Error during parsing: " + frame.message;
      return;
    }
    var entries := frame.entries;
    if entries == [] {
      job.UpdateStatus(Processed, Some(0), Some(0), None, None);
      assert job.trail == [Pending, Processing, Processed];
      message := "No log entries found.";
      return;
    }
    job.UpdateStatus(Processing, Some(|entries|), None, None, None);
    var columns := WithSummaryColumn(FrameColumns(entries));
    var outcome := Queries.BulkInsertParsedLogs(Queries.LogFrame(columns, |entries|), writeError);
    insert := Some(outcome);
    if outcome.InsertRaised? {
      if creation.fileId != 0 {
        job.UpdateStatus(Error, None, None, None, Some(outcome.error));
        assert job.trail == [Pending, Processing, Processing, Error];
      } else {
        assert job.trail == [Pending, Processing, Processing];
      }
      message := "Processing error: " + outcome.error;
      return;
    }
    var insertedCount := outcome.count;
    job.UpdateStatus(Processing, None, Some(insertedCount), None, None);
    var sample := Sample(candidates);
    var analyzedCount;
    annotated, analyzedCount := AnalyzeSample(sample);
    job.UpdateStatus(Processed, None, None, Some(analyzedCount), None);
    assert job.trail == [Pending, Processing, Processing, Processing, Processed];
    message := SuccessMessage(filename, insertedCount, analyzedCount);
  }

  /** The loop over the sample: each eligible log is analysed and stored, and a failure only
      skips that log. */
  method AnalyzeSample(sample: seq<Candidate>) returns (annotated: seq<int>, analyzedCount: int)
    ensures annotated == Annotated(sample)
    ensures analyzedCount == |annotated|
  {
    annotated := [];
    analyzedCount := 0;
    var i := 0;
    while i < |sample|
      invariant 0 <= i <= |sample|
      invariant annotated == Annotated(sample[..i])
      invariant analyzedCount == |annotated|
    {
      assert sample[..i + 1][..i] == sample[..i];
      var row := sample[i];
      if row.summary.Some? && Strip(row.summary.value) != "" {
        if !row.annotationRaises {
          annotated := annotated + [row.logId];
          analyzedCount := analyzedCount + 1;
        }
      }
      i := i + 1;
    }
    assert sample[..|sample|] == sample;
  }

  /** The analysed logs are exactly the eligible sampled logs whose analysis did not raise, in
      their order. */
  lemma {:induction false} AnnotatedExactly(rows: seq<Candidate>)
    ensures |Annotated(rows)| <= |rows|
    ensures forall x :: x in Annotated(rows) <==>
      exists i | 0 <= i < |rows| :: rows[i].logId == x && Eligible(rows[i]) && !rows[i].annotationRaises
    decreases |rows|
  {
    if rows != [] {
      var init := rows[..|rows| - 1];
      AnnotatedExactly(init);
      forall x | x in Annotated(rows)
        ensures exists i | 0 <= i < |rows| :: rows[i].logId == x && Eligible(rows[i]) && !rows[i].annotationRaises
      {
        if x in Annotated(init) {
          var i :| 0 <= i < |init| && init[i].logId == x && Eligible(init[i]) && !init[i].annotationRaises;
          assert rows[i] == init[i];
        }
      }
      forall x | exists i | 0 <= i < |rows| :: rows[i].logId == x && Eligible(rows[i]) && !rows[i].annotationRaises
        ensures x in Annotated(rows)
      {
        var i :| 0 <= i < |rows| && rows[i].logId == x && Eligible(rows[i]) && !rows[i].annotationRaises;
        if i < |init| {
          assert init[i] == rows[i];
        }
      }
    }
  }

  /** One log's failure does not stop the rest: the logs of two runs of the sample are analysed
      independently. */
  lemma {:induction false} AnnotatedAppend(a: seq<Candidate>, b: seq<Candidate>)
    ensures Annotated(a + b) == Annotated(a) + Annotated(b)
    decreases |b|
  {
    if b == [] {
      assert a + b == a;
    } else {
      var init := b[..|b| - 1];
      assert (a + b)[..|a + b| - 1] == a + init;
      AnnotatedAppend(a, init);
    }
  }

  /** A decoder failure: the job goes Pending, Processing, Error with the decoder's message, and
      nothing is inserted or analysed. */
  lemma DecodeErrorPath(filename: string, fileId: int, msg: string, writeError: Option<string>,
                        candidates: seq<Candidate>)
    ensures var o := Process(filename, Created(fileId), Evtx.ErrorFrame(msg), writeError, candidates);
      && o.job == Some(JobTrace([Pending, Processing, Error], Row(Error, 0, 0, 0, Some(msg))))
      && o.message == "Error during parsing: " + msg
      && o.insert.None? && o.annotated == []
  {
  }

  /** A decode with no records: the job ends Processed with no entries, and nothing is inserted
      or analysed. */
  lemma EmptyDecodePath(filename: string, fileId: int, writeError: Option<string>, candidates: seq<Candidate>)
    ensures var o := Process(filename, Created(fileId), Evtx.Records([]), writeError, candidates);
      && o.job == Some(JobTrace([Pending, Processing, Processed], Row(Processed, 0, 0, 0, None)))
      && o.message == "No log entries found."
      && o.insert.None? && o.annotated == []
  {
  }

  /** A successful run: every record is inserted, at most five logs are analysed, and the job
      ends Processed with those counts. */
  lemma SuccessPath(filename: string, fileId: int, entries: seq<Record.LogEntry>, candidates: seq<Candidate>)
    requires entries != []
    ensures var o := Process(filename, Created(fileId), Evtx.Records(entries), None, candidates);
      var analyzed := |Annotated(Sample(candidates))|;
      && o.job == Some(JobTrace([Pending, Processing, Processing, Processing, Processed],
                                Row(Processed, |entries|, |entries|, analyzed, None)))
      && o.insert == Some(Queries.Inserted(|entries|))
      && 0 <= analyzed <= AnalysisSampleSize
      && o.message == SuccessMessage(filename, |entries|, analyzed)
  {
    assert "raw_summary_for_llm" in Record.TargetColumns by {
      assert Record.TargetColumns[6] == "raw_summary_for_llm";
    }
    AnnotatedExactly(Sample(candidates));
  }

  /** A failed insert: the job ends in Error with the exception's text and nothing is analysed. */
  lemma InsertFailurePath(filename: string, fileId: int, entries: seq<Record.LogEntry>, e: string,
                          candidates: seq<Candidate>)
    requires entries != [] && fileId != 0
    ensures var o := Process(filename, Created(fileId), Evtx.Records(entries), Some(e), candidates);
      && o.job == Some(JobTrace([Pending, Processing, Processing, Error], Row(Error, |entries|, 0, 0, Some(e))))
      && o.insert == Some(Queries.InsertRaised(e))
      && o.message == "Processing error: " + e && o.annotated == []
  {
    assert Record.TargetColumns != [];
  }

  /** A job whose row exists never stays in Processing: it starts Pending, passes only through
      Processing, and ends Processed or Error, with an error message exactly when it ends in
      Error. */
  lemma JobSettles(filename: string, fileId: int, frame: Evtx.Frame, writeError: Option<string>,
                   candidates: seq<Candidate>)
    requires fileId != 0
    ensures var o := Process(filename, Created(fileId), frame, writeError, candidates);
      && o.job.Some?
      && var t := o.job.value.trail;
      && |t| >= 3 && t[0] == Pending
      && (forall k | 0 < k < |t| - 1 :: t[k] == Processing)
      && (t[|t| - 1] == Processed || t[|t| - 1] == Error)
      && o.job.value.row.status == t[|t| - 1]
      && (t[|t| - 1] == Error <==> o.job.value.row.errorMessage.Some?)
  {
    if frame.Records? && frame.entries != [] {
      assert Record.TargetColumns != [];
    }
  }

  // ---------------------------------------------------------------------------------------
  // handle_file_upload

  /** `uploaded_filename.lower().endswith('.evtx')` */
  predicate AcceptsUpload(filename: string) {
    EndsWith(Lower(filename), ".evtx")
  }

  /** The extension check ignores case: a name is accepted exactly when its last five
      characters spell `.evtx` in any case. */
  lemma AcceptsUploadIff(filename: string)
    ensures AcceptsUpload(filename) <==>
      |filename| >= 5 && Lower(filename[|filename| - 5..]) == ".evtx"
  {
    var n := |filename|;
    if n >= 5 {
      assert Lower(filename)[n - 5..] == Lower(filename[n - 5..]);
    }
  }

  /** The colour of the alert for a processing message. */
  function AlertColour(msg: string): (colour: string)
    ensures colour == "success" <==> Contains(Lower(msg), "processed")
    ensures colour == "danger" <==> !Contains(Lower(msg), "processed") && Contains(Lower(msg), "error")
    ensures colour == "warning" <==> !Contains(Lower(msg), "processed") && !Contains(Lower(msg), "error")
  {
    if Contains(Lower(msg), "processed") then "success"
    else if Contains(Lower(msg), "error") then "danger"
    else "warning"
  }

  /** The upload callback's output: no change, or an alert with its text and colour. */
  datatype Alert = NoUpdate | Alert(message: string, colour: string)

  /** `handle_file_upload`, with whether the temporary copy was saved as a parameter. */
  function HandleFileUpload(content: Option<string>, filename: string, saved: bool, creation: Creation,
                            frame: Evtx.Frame, writeError: Option<string>, candidates: seq<Candidate>): (a: Alert)
    ensures content.None? <==> a.NoUpdate?
    ensures content.Some? && !AcceptsUpload(filename) ==> a == Alert("Only .evtx files supported.", "danger")
    ensures content.Some? && AcceptsUpload(filename) && !saved ==> a == Alert("Failed to save temp file.", "danger")
    ensures content.Some? && AcceptsUpload(filename) && saved ==>
      a.Alert? && a.message == Process(filename, creation, frame, writeError, candidates).message
  {
    if content.None? then NoUpdate
    else if !AcceptsUpload(filename) then Alert("Only .evtx files supported.", "danger")
    else if !saved then Alert("Failed to save temp file.", "danger")
    else
      var msg := Process(filename, creation, frame, writeError, candidates).message;
      Alert(msg, AlertColour(msg))
  }

  /** A successful run is announced in green. */
  lemma SuccessShownGreen(filename: string, fileId: int, entries: seq<Record.LogEntry>, candidates: seq<Candidate>)
    requires entries != []
    ensures var msg := Process(filename, Created(fileId), Evtx.Records(entries), None, candidates).message;
      AlertColour(msg) == "success"
  {
    SuccessPath(filename, fileId, entries, candidates);
    SuccessMessageGreen(filename, |entries|, |Annotated(Sample(candidates))|);
  }

  /** The success message mentions "processed", whatever the file name and counts. */
  lemma SuccessMessageGreen(filename: string, inserted: int, analyzed: int)
    ensures AlertColour(SuccessMessage(filename, inserted, analyzed)) == "success"
  {
    var head := "File '" + filename + "' ";
    var tail := ". " + DecimalString(inserted) + " logs stored. " + DecimalString(analyzed) + " logs initially analyzed.";
    LowerPattern();
    LowerContains(head, "processed", tail);
  }

  lemma LowerPattern()
    ensures Lower("processed") == "processed"
  {
  }

  /** A file with no records is announced in amber: its message mentions neither "processed"
      nor "error". */
  lemma EmptyShownAmber(filename: string, fileId: int, writeError: Option<string>, candidates: seq<Candidate>)
    ensures var msg := Process(filename, Created(fileId), Evtx.Records([]), writeError, candidates).message;
      AlertColour(msg) == "warning"
  {
    assert Process(filename, Created(fileId), Evtx.Records([]), writeError, candidates).message
      == "No log entries found.";
    NoEntriesAmber();
  }

  lemma NoEntriesAmber()
    ensures AlertColour("No log entries found.") == "warning"
  {
    var msg := "No log entries found.";
    LowerAbsent(msg, 'p', 'P');
    assert msg == "No log ent" + ['r'] + "ies found.";
    if Contains(Lower(msg), "processed") {
      ContainsKeepsChar(Lower(msg), "processed", 'p');
      assert false;
    }
    if Contains(Lower(msg), "error") {
      var i := ContainsPair(Lower(msg), "error", 1);
      LowerSingle("No log ent", 'r', 'R', "ies found.", i);
      assert false;
    }
  }

  /** A lower-case text inside `s` is inside `s.lower()`. */
  lemma LowerContains(a: string, p: string, b: string)
    requires Lower(p) == p
    ensures Contains(Lower(a + p + b), p)
  {
    var s := a + p + b;
    assert s[|a|..|a| + |p|] == p;
    assert Lower(s)[|a|..|a| + |p|] == Lower(p);
    ContainsAt(Lower(s), p, |a|);
  }

  /** Two neighbouring characters of a contained text are neighbours in the text. */
  lemma {:induction false} ContainsPair(s: string, p: string, k: nat) returns (i: nat)
    requires Contains(s, p) && k + 1 < |p|
    ensures i + 1 < |s| && s[i] == p[k] && s[i + 1] == p[k + 1]
    decreases |s|
  {
    if StartsWith(s, p) {
      assert s[..|p|][k] == p[k] && s[..|p|][k + 1] == p[k + 1];
      i := k;
    } else {
      var j := ContainsPair(s[1..], p, k);
      i := j + 1;
    }
  }

  // ---------------------------------------------------------------------------------------
  // display_log_details and the stores

  /** `(total + 15 - 1) // 15 if total > 0 else 1`: the number of pages of the matching logs. */
  function MaxPages(total: int): (m: int)
    ensures m >= 1
    ensures total > 0 ==> (m - 1) * PageSize < total <= m * PageSize
    ensures total <= 0 ==> m == 1
  {
    if total > 0 then (total + PageSize - 1) / PageSize else 1
  }

  /** The component whose change fired the callback. */
  datatype Trigger = PagerTrigger | FileTrigger | FiltersTrigger | OtherTrigger

  /** With no recorded trigger, the callback behaves as if the file selection fired it. */
  function TriggerOf(fired: Option<Trigger>): Trigger {
    fired.GetOr(FileTrigger)
  }

  /** The page before clamping: the pager's page when the pager fired with one, page 1 after a
      file or filter change, otherwise the stored page or 1. */
  function ChosenPage(trigger: Trigger, pageFromPager: Option<int>, storedPage: Option<int>): (page: int)
    ensures trigger == PagerTrigger && pageFromPager.Some? ==> page == pageFromPager.value
    ensures trigger == FileTrigger || trigger == FiltersTrigger ==> page == 1
    ensures trigger == OtherTrigger || (trigger == PagerTrigger && pageFromPager.None?) ==>
      page == storedPage.GetOr(1)
  {
    if trigger == PagerTrigger && pageFromPager.Some? then pageFromPager.value
    else if trigger == FileTrigger || trigger == FiltersTrigger then 1
    else if storedPage.Some? then storedPage.value
    else 1
  }

  /** The two adjustments after the count: a page past the end becomes the last page, and page
      0 becomes page 1. Any page that is not negative ends inside `[1, maxPages]`, and a page
      already inside is kept. */
  function Clamp(page: int, maxPages: int): (r: int)
    ensures maxPages >= 1 && page >= 0 ==> 1 <= r <= maxPages
    ensures 1 <= page <= maxPages ==> r == page
    ensures maxPages >= 1 && page > maxPages ==> r == maxPages
    ensures maxPages >= 1 && page < 0 ==> r == page
  {
    var p := if page > maxPages then (if maxPages > 0 then maxPages else 1) else page;
    if p == 0 && maxPages > 0 then 1 else p
  }

  /** The page and page count `display_log_details` settles on; `total` is what the count query
      returns for the file and filters. */
  method DisplayLogDetails(fileId: Option<int>, fired: Option<Trigger>, pageFromPager: Option<int>,
                           storedPage: Option<int>, total: int)
    returns (maxPages: int, page: int)
    ensures maxPages >= 1
    ensures fileId.None? ==> maxPages == 1 && page == 1
    ensures fileId.Some? ==>
      maxPages == MaxPages(total) && page == Clamp(ChosenPage(TriggerOf(fired), pageFromPager, storedPage), maxPages)
  {
    maxPages := 1;
    page := 1;
    if fileId.None? {
      return;
    }
    var trigger := TriggerOf(fired);
    if trigger == PagerTrigger && pageFromPager.Some? {
      page := pageFromPager.value;
    } else if trigger == FileTrigger || trigger == FiltersTrigger {
      page := 1;
    } else if storedPage.Some? {
      page := storedPage.value;
    }
    maxPages := if total > 0 then (total + PageSize - 1) / PageSize else 1;
    if page > maxPages {
      page := if maxPages > 0 then maxPages else 1;
    }
    if page == 0 && maxPages > 0 {
      page := 1;
    }
  }

  /** The page shown always has rows when any log matches: its offset lies before the total. */
  lemma ShownPageHasRows(p: int, total: int)
    requires total > 0 && p >= 0
    ensures var page := Clamp(p, MaxPages(total));
      0 <= Queries.Offset(page, PageSize) < total
  {
    var m := MaxPages(total);
    var page := Clamp(p, m);
    assert 1 <= page <= m;
    assert (page - 1) * PageSize <= (m - 1) * PageSize;
  }

  /** `min(total, 500) if total > 0 else 1`: the page size the report fetches. */
  function FetchSize(total: int): (n: int)
    ensures 1 <= n <= ReportLogLimit
    ensures 0 < total <= ReportLogLimit ==> n == total
    ensures total > ReportLogLimit ==> n == ReportLogLimit
    ensures total <= 0 ==> n == 1
  {
    if total > 0 then (if total < ReportLogLimit then total else ReportLogLimit) else 1
  }

  /** `store_selected_file_id`: the `file_id` of the first selected row of the table, if any. */
  function StoreSelectedFileId<V>(selected: Option<seq<nat>>, table: Option<seq<Dict<V>>>): (r: Option<V>)
    ensures r.Some? ==>
      && selected.Some? && selected.value != [] && table.Some? && selected.value[0] < |table.value|
      && ("file_id", r.value) in table.value[selected.value[0]]
    ensures (|| selected.None? || selected.value == [] || table.None? || table.value == []
             || selected.value[0] >= |table.value|) ==> r.None?
    ensures (&& selected.Some? && selected.value != [] && table.Some? && selected.value[0] < |table.value|
             && HasKey(table.value[selected.value[0]], "file_id")) ==> r.Some?
  {
    if selected.None? || selected.value == [] || table.None? || table.value == []
       || !(selected.value[0] < |table.value|) then None
    else Get(table.value[selected.value[0]], "file_id")
  }

  /** `store_current_log_page`: the pager's page, or 1 when it has none. */
  function StoreCurrentLogPage(page: Option<int>): (stored: int)
    ensures page.Some? ==> stored == page.value
    ensures page.None? ==> stored == 1
  {
    page.GetOr(1)
  }
}

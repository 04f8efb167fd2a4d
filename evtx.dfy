/**
  `parse_evtx_file_with_evtxecmd` (log_parser.py) around the row loop: the outcomes of running
  EvtxECmd, the `max_entries` cap, and the single-row `Error` result of every failure.
 */
module Evtx {
  import opened Wrappers
  import opened Text
  import opened Timestamp
  import opened Record
  import XmlPayload

  const ToolPath := "C:\\Tools\\ZimmermanTools\\EvtxECmd.exe"

  /** What running the decoder produced. `Exited` carries the exit code, the decoded output
      streams, the temporary directory and the rows of the first CSV file in it, if any;
      `Crashed` is any other exception, with its text. */
  datatype DecoderRun =
    | ToolMissing
    | TimedOut
    | ExecutableNotFound
    | Crashed(error: string)
    | Exited(code: int, stdout: string, stderr: string, tempDir: string, csv: Option<seq<Row>>)

  /** The data frame the function returns: one row with only an `Error` column, or records. */
  datatype Frame = ErrorFrame(message: string) | Records(entries: seq<LogEntry>)

  /** `df.head(n)`: the first `n` rows; a negative `n` drops the last `-n` rows. */
  function Head(rows: seq<Row>, maxEntries: Option<int>): (r: seq<Row>)
    ensures |r| <= |rows| && r == rows[..|r|]
    ensures maxEntries.Some? && maxEntries.value >= 0 ==> |r| == Min(maxEntries.value, |rows|)
    ensures maxEntries.None? ==> r == rows
  {
    match maxEntries
    case None => rows
    case Some(n) =>
      if n >= 0 then rows[..Min(n, |rows|)]
      else rows[..Max(0, |rows| + n)]
  }

  function Min(a: int, b: int): int { if a <= b then a else b }
  function Max(a: int, b: int): int { if a >= b then a else b }

  /** The records of `rows`, one per row, in order. */
  function Entries(rows: seq<Row>, toDatetime: string -> DatetimeParse, fromString: string -> XmlPayload.XmlParse,
                   repr: seq<string> -> string): (es: seq<LogEntry>)
  {
    seq(|rows|, i requires 0 <= i < |rows| => RowEntry(rows[i], toDatetime, fromString, repr))
  }

  /** The result of the whole function for one decoder run. */
  function EvtxFrame(run: DecoderRun, maxEntries: Option<int>, toDatetime: string -> DatetimeParse,
                     fromString: string -> XmlPayload.XmlParse, repr: seq<string> -> string): (frame: Frame)
    ensures frame.Records? <==> run.Exited? && run.code == 0 && run.csv.Some?
    ensures frame.Records? ==> |frame.entries| <= |run.csv.value|
  {
    match run
    case ToolMissing => ErrorFrame("EvtxECmd.exe not configured or found.")
    case TimedOut => ErrorFrame("EvtxECmd command timed out.")
    case ExecutableNotFound => ErrorFrame("EvtxECmd.exe not found at '" + ToolPath + "'.")
    case Crashed(error) => ErrorFrame("General error in parser: " + error)
    case Exited(code, stdout, stderr, tempDir, csv) =>
      if code != 0 then
        ErrorFrame("EvtxECmd failed. Code: " + DecimalString(code) + ".\nStderr: " + stderr + "\nStdout: " + stdout)
      else if csv.None? then
        ErrorFrame("EvtxECmd ran, but no CSV in '" + tempDir + "'.\nStdout: " + stdout)
      else
        Records(Entries(Head(csv.value, maxEntries), toDatetime, fromString, repr))
  }

  /** `parse_evtx_file_with_evtxecmd`, with the row loop run imperatively. */
  method ParseEvtxFile(run: DecoderRun, maxEntries: Option<int>, toDatetime: string -> DatetimeParse,
                       fromString: string -> XmlPayload.XmlParse, repr: seq<string> -> string)
    returns (frame: Frame)
    ensures frame == EvtxFrame(run, maxEntries, toDatetime, fromString, repr)
  {
    match run
    case ToolMissing =>
      frame := ErrorFrame("EvtxECmd.exe not configured or found.");
    case TimedOut =>
      frame := ErrorFrame("EvtxECmd command timed out.");
    case ExecutableNotFound =>
      frame := ErrorFrame("EvtxECmd.exe not found at '" + ToolPath + "'.");
    case Crashed(error) =>
      frame := ErrorFrame("General error in parser: " + error);
    case Exited(code, stdout, stderr, tempDir, csv) =>
      if code != 0 {
        frame := ErrorFrame("EvtxECmd failed. Code: " + DecimalString(code) + ".\nStderr: " + stderr + "\nStdout: " + stdout);
      } else if csv.None? {
        frame := ErrorFrame("EvtxECmd ran, but no CSV in '" + tempDir + "'.\nStdout: " + stdout);
      } else if csv.value == [] {
        frame := Records([]);
      } else {
        var rows := Head(csv.value, maxEntries);
        var parsed := NormalizeRows(rows, toDatetime, fromString, repr);
        frame := Records(parsed);
      }
  }

  /** The `for _, row in df.iterrows()` loop, appending one record per row. */
  method NormalizeRows(rows: seq<Row>, toDatetime: string -> DatetimeParse,
                       fromString: string -> XmlPayload.XmlParse, repr: seq<string> -> string)
    returns (parsed: seq<LogEntry>)
    ensures parsed == Entries(rows, toDatetime, fromString, repr)
  {
    var normalize := row => RowEntry(row, toDatetime, fromString, repr);
    parsed := [];
    var i := 0;
    while i < |rows|
      invariant 0 <= i <= |rows|
      invariant |parsed| == i
      invariant forall j | 0 <= j < i :: parsed[j] == normalize(rows[j])
    {
      var entry := NormalizeRow(rows[i], toDatetime, fromString, repr);
      Extend(parsed, entry, rows, normalize);
      parsed := parsed + [entry];
      i := i + 1;
    }
  }

  lemma Extend(parsed: seq<LogEntry>, entry: LogEntry, rows: seq<Row>, normalize: Row -> LogEntry)
    requires |parsed| < |rows| && entry == normalize(rows[|parsed|])
    requires forall j | 0 <= j < |parsed| :: parsed[j] == normalize(rows[j])
    ensures forall j | 0 <= j < |parsed| + 1 :: (parsed + [entry])[j] == normalize(rows[j])
  {
  }

  /** A failed run never yields partial records: only a successful exit with a CSV gives
      records, and then one per processed row. */
  lemma FailuresYieldOnlyError(run: DecoderRun, maxEntries: Option<int>, toDatetime: string -> DatetimeParse,
                               fromString: string -> XmlPayload.XmlParse, repr: seq<string> -> string)
    ensures var frame := EvtxFrame(run, maxEntries, toDatetime, fromString, repr);
      frame.Records? <==> run.Exited? && run.code == 0 && run.csv.Some?
    ensures var frame := EvtxFrame(run, maxEntries, toDatetime, fromString, repr);
      frame.ErrorFrame? ==> frame.message != ""
  {
  }

  /** Only the first `max_entries` rows are processed, in order: the records are those of a
      prefix of the rows, never a sample. */
  lemma RecordsOfPrefix(run: DecoderRun, maxEntries: Option<int>, toDatetime: string -> DatetimeParse,
                        fromString: string -> XmlPayload.XmlParse, repr: seq<string> -> string)
    requires run.Exited? && run.code == 0 && run.csv.Some?
    ensures var frame := EvtxFrame(run, maxEntries, toDatetime, fromString, repr);
      var rows := run.csv.value;
      && frame.Records?
      && |frame.entries| <= |rows|
      && (maxEntries.Some? && maxEntries.value >= 0 ==> |frame.entries| == Min(maxEntries.value, |rows|))
      && (maxEntries.None? ==> |frame.entries| == |rows|)
      && forall i | 0 <= i < |frame.entries| :: frame.entries[i] == RowEntry(rows[i], toDatetime, fromString, repr)
  {
    var rows := run.csv.value;
    var head := Head(rows, maxEntries);
    forall i | 0 <= i < |head| ensures head[i] == rows[i] {
      assert head == rows[..|head|];
    }
    assert EvtxFrame(run, maxEntries, toDatetime, fromString, repr) == Records(Entries(head, toDatetime, fromString, repr));
  }
}

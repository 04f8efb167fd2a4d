/**
  The event-record normalisation of `parse_evtx_file_with_evtxecmd` (log_parser.py): each
  decoded CSV row becomes a seven-field record whose `raw_summary_for_llm` collects the core
  fields, the decoded payload and the remaining columns; a failed decoder run becomes a
  single `Error` result.
  Running EvtxECmd and reading its CSV are not part of this model: their outcome is given as a
  `DecoderRun`. Python's `str()` of a list-valued payload entry is given as `repr`.
 */
module Record {
  import opened Wrappers
  import opened Text
  import opened Dict
  import opened Timestamp
  import XmlPayload
  import KvPayload

  /** One row of the decoder's output, in the order of the target columns. */
  datatype LogEntry = LogEntry(
    timestamp: string, eventId: string, provider: string, level: string, computer: string,
    description: string, rawSummaryForLlm: string)

  const TargetColumns: seq<string> :=
    ["timestamp", "event_id", "provider", "level", "computer", "description", "raw_summary_for_llm"]

  /** Columns the record already accounts for; they never become `Other_` entries. */
  const KnownHandledColumns: seq<string> :=
    ["Timestamp (UTC)", "Timestamp", "TimeCreated", "TimeGenerated", "RecordTime",
     "EventId", "Provider", "LevelText", "Level", "Computer", "Message", "PayloadData", "EventData"]

  const NotAvailable := "N/A"
  const DescriptionLimit := 1000
  const SummaryValueLimit := 300
  const PayloadPrefix := "Payload_"
  const OtherPrefix := "Other_"

  /** `final_df[target_cols]`: the record as a row, column by column. */
  function Columns(e: LogEntry): (cols: Dict<string>)
    ensures Keys(cols) == TargetColumns
  {
    [("timestamp", e.timestamp), ("event_id", e.eventId), ("provider", e.provider), ("level", e.level),
     ("computer", e.computer), ("description", e.description), ("raw_summary_for_llm", e.rawSummaryForLlm)]
  }

  /** The class `[a-zA-Z0-9_]`. */
  predicate WordChar(c: char) {
    ('a' <= c <= 'z') || ('A' <= c <= 'Z') || ('0' <= c <= '9') || c == '_'
  }

  /** `re.sub(r'[^a-zA-Z0-9_]', '', s)`: the word characters of `s`, in order. */
  function Sanitize(s: string): (r: string)
    ensures |r| <= |s|
    ensures forall k | 0 <= k < |r| :: WordChar(r[k])
    decreases |s|
  {
    if s == [] then ""
    else if WordChar(s[0]) then [s[0]] + Sanitize(s[1..])
    else Sanitize(s[1..])
  }

  /** Sanitising keeps every word character: a name made only of them is left alone. */
  lemma {:induction false} SanitizeKeepsWords(s: string)
    requires forall k | 0 <= k < |s| :: WordChar(s[k])
    ensures Sanitize(s) == s
    decreases |s|
  {
    if s != [] {
      SanitizeKeepsWords(s[1..]);
      assert s == [s[0]] + s[1..];
    }
  }

  /** Sanitising is idempotent. */
  lemma SanitizeIdempotent(s: string)
    ensures Sanitize(Sanitize(s)) == Sanitize(s)
  {
    SanitizeKeepsWords(Sanitize(s));
  }

  /** The description used when the row has no message. */
  function Placeholder(eventId: string, provider: string): string {
    "Event ID " + eventId + " from " + provider + "."
  }

  /** `row_dict.get('LevelText', row_dict.get('Level', "N/A"))` */
  function LevelOf(row: Row): (level: string)
    ensures HasKey(row, "LevelText") ==> Some(level) == Get(row, "LevelText")
    ensures !HasKey(row, "LevelText") && HasKey(row, "Level") ==> Some(level) == Get(row, "Level")
    ensures !HasKey(row, "LevelText") && !HasKey(row, "Level") ==> level == NotAvailable
  {
    match Get(row, "LevelText")
    case Some(v) => v
    case None => GetOr(row, "Level", NotAvailable)
  }

  /** `row_dict.get(...).strip()` of `PayloadData`, falling back to `EventData` only when
      `PayloadData` is absent. */
  function PayloadContent(row: Row): (content: string)
    ensures HasKey(row, "PayloadData") ==> content == Strip(Get(row, "PayloadData").value)
    ensures !HasKey(row, "PayloadData") ==> content == Strip(GetOr(row, "EventData", ""))
  {
    Strip(match Get(row, "PayloadData") case Some(v) => v case None => GetOr(row, "EventData", ""))
  }

  /** Every value of the summary is non-blank. */
  predicate NonBlankValues(d: Dict<string>) {
    forall e | e in d :: !IsBlank(e.1)
  }

  /** `{k: v for k, v in d.items() if str(v).strip()}` */
  function DropBlank(d: Dict<string>): (r: Dict<string>)
    ensures NonBlankValues(r)
    ensures forall e | e in r :: e in d
    ensures forall e | e in d && !IsBlank(e.1) :: e in r
    decreases |d|
  {
    if d == [] then []
    else if IsBlank(d[0].1) then DropBlank(d[1..])
    else [d[0]] + DropBlank(d[1..])
  }

  /** The summary entries for the core fields, lines 125-130, blanks dropped. */
  function CoreSummary(timestamp: string, eventId: string, provider: string, level: string,
                       computer: string, description: string): (d: Dict<string>)
    ensures NonBlankValues(d)
  {
    DropBlank(CoreFields(timestamp, eventId, provider, level, computer, description))
  }

  /** The core fields before blanks are dropped; the message only when it is not the placeholder. */
  function CoreFields(timestamp: string, eventId: string, provider: string, level: string,
                      computer: string, description: string): Dict<string>
  {
    var message := if description != Placeholder(eventId, provider) then description else "";
    [("Time", timestamp), ("EventID", eventId), ("Provider", provider), ("Level", level),
     ("Computer", computer), ("EvtxECmd_Message", message)]
  }

  /** Each non-blank core field is in the summary; the message is there exactly when the
      description is non-blank and differs from the placeholder. */
  lemma CoreSummaryContents(timestamp: string, eventId: string, provider: string, level: string,
                            computer: string, description: string)
    ensures var d := CoreSummary(timestamp, eventId, provider, level, computer, description);
      && (!IsBlank(timestamp) ==> ("Time", timestamp) in d)
      && (!IsBlank(eventId) ==> ("EventID", eventId) in d)
      && (!IsBlank(provider) ==> ("Provider", provider) in d)
      && (!IsBlank(level) ==> ("Level", level) in d)
      && (!IsBlank(computer) ==> ("Computer", computer) in d)
      && (description != Placeholder(eventId, provider) && !IsBlank(description) ==> ("EvtxECmd_Message", description) in d)
      && (description == Placeholder(eventId, provider) ==> forall e | e in d :: e.0 != "EvtxECmd_Message")
  {
    var fields := CoreFields(timestamp, eventId, provider, level, computer, description);
    assert fields[0] == ("Time", timestamp) && fields[1] == ("EventID", eventId);
    assert fields[2] == ("Provider", provider) && fields[3] == ("Level", level);
    assert fields[4] == ("Computer", computer);
    if description == Placeholder(eventId, provider) {
      assert fields[5] == ("EvtxECmd_Message", "");
      assert "Time" != "EvtxECmd_Message" && "EventID" != "EvtxECmd_Message" && "Provider" != "EvtxECmd_Message";
      assert "Level" != "EvtxECmd_Message" && "Computer" != "EvtxECmd_Message";
      assert IsBlank(fields[5].1);
      forall e | e in DropBlank(fields) ensures e.0 != "EvtxECmd_Message" {
        assert e in fields && !IsBlank(e.1);
      }
    } else {
      assert fields[5] == ("EvtxECmd_Message", description);
    }
  }

  /** What `str(v)` gives for a decoded payload value. */
  function ValueText(v: XmlPayload.Value, repr: seq<string> -> string): string {
    match v
    case Str(s) => s
    case Items(items) => repr(items)
  }

  /** The key-value decoder's mapping seen as payload values. */
  function Lift(d: Dict<string>): (r: Dict<XmlPayload.Value>)
    ensures |r| == |d|
    ensures forall i | 0 <= i < |d| :: r[i] == (d[i].0, XmlPayload.Str(d[i].1))
  {
    seq(|d|, i requires 0 <= i < |d| => (d[i].0, XmlPayload.Str(d[i].1)))
  }

  /** The payload decoded by the branch its first character selects (lines 133-138). */
  function PayloadDetails(content: string, fromString: string -> XmlPayload.XmlParse): (r: Dict<XmlPayload.Value>)
    ensures content == "" ==> r == []
    ensures !StartsWith(content, "<") && !IsBlank(content) ==> r != []
  {
    if content == "" then []
    else if StartsWith(content, "<") then XmlPayload.XmlDetails(content, fromString(XmlPayload.Cleaned(content)))
    else Lift(KvPayload.KvDetails(content))
  }

  /** One iteration of the payload merge (lines 139-142). */
  function PayloadStep(summary: Dict<string>, entry: (string, XmlPayload.Value), repr: seq<string> -> string): (r: Dict<string>)
    ensures IsBlank(ValueText(entry.1, repr)) ==> r == summary
    ensures !IsBlank(ValueText(entry.1, repr)) ==> r == Put(summary, PayloadPrefix + Sanitize(entry.0), ValueText(entry.1, repr))
  {
    var text := ValueText(entry.1, repr);
    if !IsBlank(text) then Put(summary, PayloadPrefix + Sanitize(entry.0), text) else summary
  }

  /** The summary after the payload merge has seen `items`, in order. */
  function MergePayload(summary: Dict<string>, items: Dict<XmlPayload.Value>, repr: seq<string> -> string): Dict<string>
    decreases |items|
  {
    if items == [] then summary
    else PayloadStep(MergePayload(summary, items[..|items| - 1], repr), items[|items| - 1], repr)
  }

  /** The name an unhandled column is filed under. */
  function OtherKey(column: string): string {
    OtherPrefix + Sanitize(Replace(column, " ", "_"))
  }

  /** One iteration of the loop over the row's columns (lines 144-149). The column's own name
      is tested against the summary as it stands, so a column called, say, `Time` is skipped
      whenever the core `Time` entry is present. */
  function OtherStep(summary: Dict<string>, cell: (string, string)): (r: Dict<string>)
    ensures cell.0 in KnownHandledColumns || HasKey(summary, cell.0) || IsBlank(cell.1) ==> r == summary
    ensures !(cell.0 in KnownHandledColumns || HasKey(summary, cell.0) || IsBlank(cell.1)) ==>
      r == Put(summary, OtherKey(cell.0), Strip(cell.1))
  {
    var (column, value) := cell;
    if column !in KnownHandledColumns && !HasKey(summary, column) then
      var text := Strip(value);
      if text != "" then Put(summary, OtherKey(column), text) else summary
    else
      summary
  }

  /** The summary after the column loop has seen `cells`, in order. */
  function AddOthers(summary: Dict<string>, cells: Row): Dict<string>
    decreases |cells|
  {
    if cells == [] then summary
    else OtherStep(AddOthers(summary, cells[..|cells| - 1]), cells[|cells| - 1])
  }

  /** `f"{k}: {str(v)[:300]}"` over the non-blank entries. */
  function RenderedItems(summary: Dict<string>): seq<string>
    decreases |summary|
  {
    if summary == [] then []
    else
      var rest := RenderedItems(summary[1..]);
      var (k, v) := summary[0];
      if IsBlank(v) then rest else [k + ": " + Take(v, SummaryValueLimit)] + rest
  }

  function Render(summary: Dict<string>): string {
    Join(RenderedItems(summary), ", ")
  }

  function BasicInfo(timestamp: string, eventId: string, provider: string, level: string, computer: string): string {
    "Basic_Info: Time: " + timestamp + ", EventID: " + eventId + ", Provider: " + provider
      + ", Level: " + level + ", Computer: " + computer
  }

  /** The timestamp of a row: the first filled candidate column, normalised. */
  function RowTimestamp(row: Row, toDatetime: string -> DatetimeParse): string {
    var text := FirstFilled(row, CandidateColumns);
    Normalize(text, toDatetime(text))
  }

  /** The stripped message, or the placeholder when it is empty (lines 122-123). */
  function Description(row: Row): (d: string)
    ensures !IsBlank(GetOr(row, "Message", "")) ==> d == Strip(GetOr(row, "Message", ""))
    ensures IsBlank(GetOr(row, "Message", "")) ==>
      d == Placeholder(GetOr(row, "EventId", NotAvailable), GetOr(row, "Provider", NotAvailable))
  {
    var message := Strip(GetOr(row, "Message", ""));
    if message == "" then Placeholder(GetOr(row, "EventId", NotAvailable), GetOr(row, "Provider", NotAvailable)) else message
  }

  /** The core summary entries of a row. */
  function RowCore(row: Row, toDatetime: string -> DatetimeParse): Dict<string> {
    CoreSummary(RowTimestamp(row, toDatetime), GetOr(row, "EventId", NotAvailable), GetOr(row, "Provider", NotAvailable),
      LevelOf(row), GetOr(row, "Computer", NotAvailable), Description(row))
  }

  /** The summary of a row: core entries, then the payload, then the other columns (lines 125-149). */
  function RowSummary(row: Row, toDatetime: string -> DatetimeParse, fromString: string -> XmlPayload.XmlParse,
                      repr: seq<string> -> string): Dict<string>
  {
    AddOthers(MergePayload(RowCore(row, toDatetime), PayloadDetails(PayloadContent(row), fromString), repr), row)
  }

  /** `raw_summary_for_llm` (lines 151-154): never empty. */
  function RawSummary(summary: Dict<string>, timestamp: string, eventId: string, provider: string, level: string,
                      computer: string): (r: string)
    ensures r != ""
  {
    var rendered := Render(summary);
    if rendered == "" then BasicInfo(timestamp, eventId, provider, level, computer) else rendered
  }

  /** The whole record for one row (lines 98-161). */
  function RowEntry(row: Row, toDatetime: string -> DatetimeParse, fromString: string -> XmlPayload.XmlParse,
                    repr: seq<string> -> string): (e: LogEntry)
    ensures |e.description| <= DescriptionLimit && e.rawSummaryForLlm != ""
  {
    var timestamp := RowTimestamp(row, toDatetime);
    var eventId := GetOr(row, "EventId", NotAvailable);
    var provider := GetOr(row, "Provider", NotAvailable);
    var level := LevelOf(row);
    var computer := GetOr(row, "Computer", NotAvailable);
    LogEntry(timestamp, eventId, provider, level, computer, Take(Description(row), DescriptionLimit),
      RawSummary(RowSummary(row, toDatetime, fromString, repr), timestamp, eventId, provider, level, computer))
  }

  /** `a` is an initial part of `b`. */
  predicate IsPrefix(a: seq<string>, b: seq<string>) {
    |a| <= |b| && b[..|a|] == a
  }

  /** Every key beyond the first `n` starts with `prefix`. */
  predicate KeysAfterStartWith(d: Dict<string>, n: nat, prefix: string) {
    forall i | n <= i < |d| :: StartsWith(d[i].0, prefix)
  }

  /** No key of the first `n` entries starts with `prefix`. */
  predicate KeysBeforeAvoid(d: Dict<string>, n: nat, prefix: string) {
    forall i | 0 <= i < n && i < |d| :: !StartsWith(d[i].0, prefix)
  }

  /** An assignment keeps the order of the existing keys and non-blank values; the entries
      whose keys lack the prefix keep their values. */
  lemma PutExtends(d: Dict<string>, k: string, v: string, n: nat, prefix: string)
    requires NonBlankValues(d) && !IsBlank(v)
    requires n <= |d| && KeysAfterStartWith(d, n, prefix) && StartsWith(k, prefix)
    ensures NonBlankValues(Put(d, k, v))
    ensures IsPrefix(Keys(d), Keys(Put(d, k, v)))
    ensures KeysAfterStartWith(Put(d, k, v), n, prefix)
    ensures KeysBeforeAvoid(d, n, prefix) ==> Put(d, k, v)[..n] == d[..n]
  {
    var r := Put(d, k, v);
    PutEntries(d, k, v);
    forall i | n <= i < |r| ensures StartsWith(r[i].0, prefix) {
      assert r[i].0 == Keys(r)[i];
      if i < |d| {
        assert Keys(r)[i] == Keys(d)[i];
      } else {
        assert Keys(r)[i] == k;
      }
    }
    if KeysBeforeAvoid(d, n, prefix) {
      PutKeepsBefore(d, k, v, n, prefix);
    }
  }

  /** Assigning to a key with the prefix leaves the entries before `n` alone when none of
      their keys has it. */
  lemma PutKeepsBefore(d: Dict<string>, k: string, v: string, n: nat, prefix: string)
    requires n <= |d| && StartsWith(k, prefix) && KeysBeforeAvoid(d, n, prefix)
    ensures Put(d, k, v)[..n] == d[..n]
  {
    var i := IndexOf(d, k);
    if i < |d| {
      assert i >= n;
      assert Put(d, k, v) == d[i := (k, v)];
    } else {
      assert Put(d, k, v) == d + [(k, v)];
    }
  }

  /** The payload merge appends or overwrites `Payload_` entries only: the keys already present
      keep their places, every new key starts with `Payload_`, and no blank value is stored.
      Entries whose keys are not `Payload_` keys keep their values. */
  lemma {:induction false} MergePayloadExtends(summary: Dict<string>, items: Dict<XmlPayload.Value>, repr: seq<string> -> string)
    requires NonBlankValues(summary)
    ensures var r := MergePayload(summary, items, repr);
      NonBlankValues(r) && IsPrefix(Keys(summary), Keys(r)) && KeysAfterStartWith(r, |summary|, PayloadPrefix)
    ensures KeysBeforeAvoid(summary, |summary|, PayloadPrefix) ==>
      MergePayload(summary, items, repr)[..|summary|] == summary
    decreases |items|
  {
    if items != [] {
      var prev := MergePayload(summary, items[..|items| - 1], repr);
      MergePayloadExtends(summary, items[..|items| - 1], repr);
      var (k, v) := items[|items| - 1];
      var text := ValueText(v, repr);
      if !IsBlank(text) {
        assert StartsWith(PayloadPrefix + Sanitize(k), PayloadPrefix);
        if KeysBeforeAvoid(summary, |summary|, PayloadPrefix) {
          KeysAvoidPrefix(summary, prev, PayloadPrefix);
        }
        PutExtends(prev, PayloadPrefix + Sanitize(k), text, |summary|, PayloadPrefix);
        KeepPrefixSlice(summary, prev, Put(prev, PayloadPrefix + Sanitize(k), text));
      }
    } else {
      assert summary[..|summary|] == summary;
    }
  }

  /** An extension whose first entries are `d` avoids a prefix there when `d` does. */
  lemma KeysAvoidPrefix(d: Dict<string>, e: Dict<string>, prefix: string)
    requires |d| <= |e| && e[..|d|] == d && KeysBeforeAvoid(d, |d|, prefix)
    ensures KeysBeforeAvoid(e, |d|, prefix)
  {
    forall i | 0 <= i < |d| ensures e[i] == d[i] {
      assert e[..|d|][i] == e[i];
    }
  }

  /** Keeping the first `|d|` entries twice keeps them. */
  lemma KeepPrefixSlice(d: Dict<string>, e: Dict<string>, f: Dict<string>)
    ensures |d| <= |e| && e[..|d|] == d && |d| <= |f| && f[..|d|] == e[..|d|] ==> f[..|d|] == d
  {
  }

  /** The column loop appends or overwrites `Other_` entries only, with the same guarantees. */
  lemma {:induction false} AddOthersExtends(summary: Dict<string>, cells: Row)
    requires NonBlankValues(summary)
    ensures var r := AddOthers(summary, cells);
      NonBlankValues(r) && IsPrefix(Keys(summary), Keys(r)) && KeysAfterStartWith(r, |summary|, OtherPrefix)
    ensures KeysBeforeAvoid(summary, |summary|, OtherPrefix) ==> AddOthers(summary, cells)[..|summary|] == summary
    decreases |cells|
  {
    if cells != [] {
      var prev := AddOthers(summary, cells[..|cells| - 1]);
      AddOthersExtends(summary, cells[..|cells| - 1]);
      var (column, value) := cells[|cells| - 1];
      if column !in KnownHandledColumns && !HasKey(prev, column) && !IsBlank(value) {
        assert StartsWith(OtherKey(column), OtherPrefix);
        if KeysBeforeAvoid(summary, |summary|, OtherPrefix) {
          KeysAvoidPrefix(summary, prev, OtherPrefix);
        }
        PutExtends(prev, OtherKey(column), Strip(value), |summary|, OtherPrefix);
        KeepPrefixSlice(summary, prev, Put(prev, OtherKey(column), Strip(value)));
      }
    } else {
      assert summary[..|summary|] == summary;
    }
  }

  /** With no blank values, every entry is rendered, in order, as `key: value` with the value
      cut to 300 characters. */
  lemma {:induction false} RenderedItemsOfNonBlank(summary: Dict<string>)
    requires NonBlankValues(summary)
    ensures |RenderedItems(summary)| == |summary|
    ensures forall i | 0 <= i < |summary| ::
      RenderedItems(summary)[i] == summary[i].0 + ": " + Take(summary[i].1, SummaryValueLimit)
    decreases |summary|
  {
    if summary != [] {
      assert summary[0] in summary;
      assert forall e | e in summary[1..] :: e in summary;
      RenderedItemsOfNonBlank(summary[1..]);
    }
  }

  /** The rendering of a summary without blank values is empty exactly when the summary is. */
  lemma RenderEmptyIff(summary: Dict<string>)
    requires NonBlankValues(summary)
    ensures Render(summary) == "" <==> summary == []
  {
    RenderedItemsOfNonBlank(summary);
    var items := RenderedItems(summary);
    if summary != [] {
      assert |items[0]| >= 2;
      if |items| > 1 {
        assert Join(items, ", ") == items[0] + ", " + Join(items[1..], ", ");
      }
    }
  }

  /** What a record holds: the defaults and preferences of lines 118-123, a description of at
      most 1000 characters, and a non-empty summary text. */
  lemma RowEntryFields(row: Row, toDatetime: string -> DatetimeParse, fromString: string -> XmlPayload.XmlParse,
                       repr: seq<string> -> string)
    ensures var e := RowEntry(row, toDatetime, fromString, repr);
      && (HasKey(row, "EventId") ==> Some(e.eventId) == Get(row, "EventId"))
      && (!HasKey(row, "EventId") ==> e.eventId == NotAvailable)
      && (HasKey(row, "Provider") ==> Some(e.provider) == Get(row, "Provider"))
      && (!HasKey(row, "Provider") ==> e.provider == NotAvailable)
      && (HasKey(row, "Computer") ==> Some(e.computer) == Get(row, "Computer"))
      && (!HasKey(row, "Computer") ==> e.computer == NotAvailable)
      && e.level == LevelOf(row)
      && |e.description| <= DescriptionLimit
      && e.rawSummaryForLlm != ""
  {
  }

  /** When parsing the empty text gives `NaT` or raises, as `pd.to_datetime("", errors='coerce')`
      does, a record's timestamp is empty exactly when none of the candidate columns is filled
      (lines 113-114); otherwise it is the filled text, reformatted or kept. */
  lemma EmptyTimestampIff(row: Row, toDatetime: string -> DatetimeParse, fromString: string -> XmlPayload.XmlParse,
                          repr: seq<string> -> string)
    requires !toDatetime("").Valid?
    ensures RowEntry(row, toDatetime, fromString, repr).timestamp == ""
      <==> forall k | 0 <= k < |CandidateColumns| :: !Filled(row, CandidateColumns[k])
  {
    FirstFilledIsFirst(row, CandidateColumns);
  }

  /** The summary never holds a blank value and is made of three blocks: the core entries,
      unchanged and in their order, then the `Payload_` entries, then the `Other_` entries. */
  lemma RowSummaryShape(row: Row, toDatetime: string -> DatetimeParse, fromString: string -> XmlPayload.XmlParse,
                        repr: seq<string> -> string)
    ensures var core := RowCore(row, toDatetime);
      var withPayload := MergePayload(core, PayloadDetails(PayloadContent(row), fromString), repr);
      var summary := RowSummary(row, toDatetime, fromString, repr);
      && NonBlankValues(summary)
      && |core| <= |withPayload| <= |summary|
      && summary[..|core|] == core
      && summary[..|withPayload|] == withPayload
      && KeysAfterStartWith(withPayload, |core|, PayloadPrefix)
      && KeysAfterStartWith(summary, |withPayload|, OtherPrefix)
  {
    CoreKeysAvoid(row, toDatetime);
    SummaryBlocks(RowCore(row, toDatetime), PayloadDetails(PayloadContent(row), fromString), row, repr);
  }

  /** The three-block shape for any core free of `Payload_` and `Other_` keys. */
  lemma SummaryBlocks(core: Dict<string>, items: Dict<XmlPayload.Value>, cells: Row, repr: seq<string> -> string)
    requires NonBlankValues(core)
    requires KeysBeforeAvoid(core, |core|, PayloadPrefix) && KeysBeforeAvoid(core, |core|, OtherPrefix)
    ensures var withPayload := MergePayload(core, items, repr);
      var summary := AddOthers(withPayload, cells);
      && NonBlankValues(summary)
      && |core| <= |withPayload| <= |summary|
      && summary[..|core|] == core
      && summary[..|withPayload|] == withPayload
      && KeysAfterStartWith(withPayload, |core|, PayloadPrefix)
      && KeysAfterStartWith(summary, |withPayload|, OtherPrefix)
  {
    var withPayload := MergePayload(core, items, repr);
    var summary := AddOthers(withPayload, cells);
    MergePayloadExtends(core, items, repr);
    PayloadBlockAvoidsOther(core, withPayload);
    AddOthersExtends(withPayload, cells);
    assert summary[..|core|] == summary[..|withPayload|][..|core|];
  }

  /** The keys of the core entries, in order. */
  const CoreKeys: seq<string> := ["Time", "EventID", "Provider", "Level", "Computer", "EvtxECmd_Message"]

  /** No core key starts with `Payload_` or `Other_`. */
  lemma CoreKeysAvoid(row: Row, toDatetime: string -> DatetimeParse)
    ensures var core := RowCore(row, toDatetime);
      KeysBeforeAvoid(core, |core|, PayloadPrefix) && KeysBeforeAvoid(core, |core|, OtherPrefix)
  {
    var core := RowCore(row, toDatetime);
    CoreSummaryKeys(RowTimestamp(row, toDatetime), GetOr(row, "EventId", NotAvailable),
      GetOr(row, "Provider", NotAvailable), LevelOf(row), GetOr(row, "Computer", NotAvailable), Description(row));
    forall i | 0 <= i < |core| ensures !StartsWith(core[i].0, PayloadPrefix) && !StartsWith(core[i].0, OtherPrefix) {
      assert core[i] in core;
      CoreKeyAvoids(core[i].0);
    }
  }

  /** Every core summary entry has a core key. */
  lemma CoreSummaryKeys(timestamp: string, eventId: string, provider: string, level: string,
                        computer: string, description: string)
    ensures forall e | e in CoreSummary(timestamp, eventId, provider, level, computer, description) :: e.0 in CoreKeys
  {
    var fields := CoreFields(timestamp, eventId, provider, level, computer, description);
    DropBlankKeys(fields);
    assert Keys(fields) == CoreKeys;
  }

  /** Dropping blanks keeps only existing keys. */
  lemma DropBlankKeys(d: Dict<string>)
    ensures forall e | e in DropBlank(d) :: e.0 in Keys(d)
  {
    forall e | e in DropBlank(d) ensures e.0 in Keys(d) {
      var j :| 0 <= j < |d| && d[j] == e;
      assert Keys(d)[j] == e.0;
    }
  }

  lemma CoreKeyAvoids(k: string)
    requires k in CoreKeys
    ensures !StartsWith(k, PayloadPrefix) && !StartsWith(k, OtherPrefix)
  {
    if k == "Provider" {
      DiffersAt(k, PayloadPrefix, 1);
      DiffersAt(k, OtherPrefix, 0);
    } else if k == "Computer" || k == "EvtxECmd_Message" {
      DiffersAt(k, PayloadPrefix, 0);
      DiffersAt(k, OtherPrefix, 0);
    } else if k == "EventID" {
      DiffersAt(k, OtherPrefix, 0);
    }
  }

  /** A text that differs from `p` at some position of both does not start with `p`. */
  lemma DiffersAt(s: string, p: string, i: nat)
    requires i < |s| && i < |p| && s[i] != p[i]
    ensures !StartsWith(s, p)
  {
    if |p| <= |s| {
      assert s[..|p|][i] == s[i];
    }
  }

  /** After the payload merge, no key starts with `Other_`: the core keys lack it, and the
      `Payload_` keys begin with a different letter. */
  lemma PayloadBlockAvoidsOther(core: Dict<string>, withPayload: Dict<string>)
    requires |core| <= |withPayload| && withPayload[..|core|] == core
    requires KeysBeforeAvoid(core, |core|, OtherPrefix) && KeysAfterStartWith(withPayload, |core|, PayloadPrefix)
    ensures KeysBeforeAvoid(withPayload, |withPayload|, OtherPrefix)
  {
    forall i | 0 <= i < |withPayload| ensures !StartsWith(withPayload[i].0, OtherPrefix) {
      if i < |core| {
        assert withPayload[i] == withPayload[..|core|][i];
      } else {
        assert withPayload[i].0[0] == 'P';
      }
    }
  }

  lemma PrefixTransitive(a: seq<string>, b: seq<string>, c: seq<string>)
    requires IsPrefix(a, b) && IsPrefix(b, c)
    ensures IsPrefix(a, c)
  {
    assert c[..|a|] == c[..|b|][..|a|];
  }

  /** The summary text renders every entry when the summary has one, and is the `Basic_Info`
      line only when it has none. */
  lemma RawSummaryFallback(summary: Dict<string>, timestamp: string, eventId: string, provider: string,
                           level: string, computer: string)
    requires NonBlankValues(summary)
    ensures summary != [] ==> RawSummary(summary, timestamp, eventId, provider, level, computer) == Render(summary)
    ensures summary == [] ==>
      RawSummary(summary, timestamp, eventId, provider, level, computer) == BasicInfo(timestamp, eventId, provider, level, computer)
  {
    RenderEmptyIff(summary);
  }

  /** The payload merge loop. */
  method MergePayloadLoop(summary: Dict<string>, items: Dict<XmlPayload.Value>, repr: seq<string> -> string)
    returns (merged: Dict<string>)
    ensures merged == MergePayload(summary, items, repr)
  {
    merged := summary;
    var i := 0;
    while i < |items|
      invariant 0 <= i <= |items|
      invariant merged == MergePayload(summary, items[..i], repr)
    {
      assert items[..i + 1][..i] == items[..i];
      var (k, v) := items[i];
      var cleanKey := PayloadPrefix + Sanitize(k);
      var text := ValueText(v, repr);
      if cleanKey != "" && !IsBlank(text) {
        merged := Put(merged, cleanKey, text);
      }
      i := i + 1;
    }
    assert items[..|items|] == items;
  }

  /** The loop over the row's columns. */
  method AddOthersLoop(summary: Dict<string>, row: Row) returns (result: Dict<string>)
    ensures result == AddOthers(summary, row)
  {
    result := summary;
    var i := 0;
    while i < |row|
      invariant 0 <= i <= |row|
      invariant result == AddOthers(summary, row[..i])
    {
      assert row[..i + 1][..i] == row[..i];
      var (column, value) := row[i];
      if column !in KnownHandledColumns && !HasKey(result, column) {
        var text := Strip(value);
        if text != "" {
          result := Put(result, OtherKey(column), text);
        }
      }
      i := i + 1;
    }
    assert row[..|row|] == row;
  }

  /** The body of the row loop. */
  method NormalizeRow(row: Row, toDatetime: string -> DatetimeParse, fromString: string -> XmlPayload.XmlParse,
                      repr: seq<string> -> string) returns (entry: LogEntry)
    ensures entry == RowEntry(row, toDatetime, fromString, repr)
  {
    var text := SelectTimestamp(row);
    var timestamp := Normalize(text, toDatetime(text));
    var eventId := GetOr(row, "EventId", NotAvailable);
    var provider := GetOr(row, "Provider", NotAvailable);
    var level := LevelOf(row);
    var computer := GetOr(row, "Computer", NotAvailable);
    var description := Strip(GetOr(row, "Message", ""));
    if description == "" {
      description := Placeholder(eventId, provider);
    }
    var summary := CoreSummary(timestamp, eventId, provider, level, computer, description);
    var content := PayloadContent(row);
    if content != "" {
      var details: Dict<XmlPayload.Value>;
      if StartsWith(content, "<") {
        details := XmlPayload.ParseXmlPayload(content, fromString);
      } else {
        var pairs := KvPayload.ParseGenericPayloadAsKv(content);
        details := Lift(pairs);
      }
      summary := MergePayloadLoop(summary, details, repr);
    } else {
      assert MergePayload(summary, [], repr) == summary;
    }
    summary := AddOthersLoop(summary, row);
    var rendered := Render(summary);
    if rendered == "" {
      rendered := BasicInfo(timestamp, eventId, provider, level, computer);
    }
    entry := LogEntry(timestamp, eventId, provider, level, computer, Take(description, DescriptionLimit), rendered);
  }
}

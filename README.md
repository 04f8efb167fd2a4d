# LogSight core in Dafny

LogSight is a Windows event-log analysis dashboard. A user uploads an `.evtx` file. The
EvtxECmd tool decodes the file into CSV rows. Each row is normalised into a seven-field record
whose `raw_summary_for_llm` text gathers the event's fields. The records are stored in SQLite,
and a sample of at most five is annotated by a language model. The dashboard pages and
filters the stored logs, and a PDF report renders them.

This project models that core and proves properties of it:

- **Text and Dict**: Python string helpers (`strip`, `split`, `replace`, `lower`, `in`) and
  insertion-ordered dictionaries. Assigning a key overwrites its entry in place or appends it.
- **XmlPayload, KvPayload**: the two payload decoders, `parse_xml_payload` and
  `parse_generic_payload_as_kv`.
- **Timestamp**: choosing the first filled time column and reformatting it to
  `YYYY-MM-DD HH:MM:SS.mmm`.
- **Record**: the per-row normalisation inside `parse_evtx_file_with_evtxecmd`, covering the
  record fields, the summary dictionary and its rendering.
- **Evtx**: the decoder's failure results, the `max_entries` cap and the row loop.
- **LlmResponse**: `parse_llm_response_structured`, both the line pass and the guarded
  second pass.
- **Queries**: the SQL text and parameters built by `update_log_file_status`,
  `get_parsed_logs_for_file`, `get_parsed_log_count_for_file` and `add_llm_analysis`, plus the
  column selection of `bulk_insert_parsed_logs`.
  - SQL text is a list of pieces cut at the `?` placeholders, so every statement's placeholder
    count is exact.
- **Ingest**: `app.py`.
  - The status machine of `process_uploaded_log_file`. The `log_files` row is a class whose
    status is updated in place, with a ghost trail of every status it was given.
  - The upload check and the alert colour.
  - Page choice and clamping in `display_log_details`.
  - The store callbacks and the report's fetch size.
- **Report**: `pdf_generator.py`.
  - The backtick-to-Courier conversion, the applied-filters section, the summary
    placeholder and its paragraphs.
  - The table rows and the alternating row shading.

The outside world is passed in as parameters:

- the outcome of running the decoder (`Evtx.DecoderRun`);
- what `ET.fromstring` and `pd.to_datetime` return for a text;
- Python's `str()` of a list;
- whether `add_log_file_record` and `to_sql` raised;
- the candidates the sample query returns, and whether annotating each of them raised;
- the current time.

## Model

| member | source | states |
|---|---|---|
| XmlPayload.Cleaned | log_parser.py:16 | The cleaned payload holds no NUL character. |
| XmlPayload.LocalName | log_parser.py:26 | A tag without its `{namespace}` prefix holds no `}`. |
| XmlPayload.Visit | log_parser.py:20-32 | One element visit sets a named element's key to its text. An unnamed leaf with text adds its text to the values under its local tag, turning a single value into a list. Every other key is untouched, and keys stay distinct. |
| XmlPayload.Accumulate | log_parser.py:27-32 | Storing a leaf text under its tag adds exactly that text after the values already there: the first text is stored alone, a second turns the entry into a list, later ones extend the list. No other key changes. |
| XmlPayload.Collect | log_parser.py:20-32 | The mapping built over the elements in document order never holds a key twice. |
| XmlPayload.ParseXmlPayload | log_parser.py:13-37 | The element loop yields the mapping of the whole function: cleaning, the guard, the loop, and the `XmlPayload_Unparsed` / `XmlPayload_Error` diagnostics of the first 500 characters. An empty or non-`<` payload gives an empty mapping. Keys are distinct. |
| XmlPayload.VisitAll | log_parser.py:20-32 | The imperative loop over `root.iter()` builds exactly `Collect` of the elements. |
| XmlPayload.RepeatedTagsCoalesce | log_parser.py:25-32 | When no named element writes key `k`, the values under `k` are the texts of all unnamed leaves with local tag `k`, in document order. None is lost. |
| XmlPayload.NamedElementKeepsValue | log_parser.py:21-24 | A named element's text is the final value of its key unless a later element writes the same key. |
| XmlPayload.EventDataExample | log_parser.py:20-24 | `<EventData><Data Name="TargetUser">alice</Data></EventData>` decodes to exactly `{TargetUser: alice}`. |
| XmlPayload.DuplicateLeavesExample | log_parser.py:27-30 | Two unnamed sibling leaves with one tag give a two-element list, not an overwrite. |
| KvPayload.NormalizeNewlines | log_parser.py:43 | No carriage return survives the line-ending normalisation. |
| Text.FindEither | log_parser.py:44 | The split point is the first of two characters (`;` or newline for the key-value split, a backtick or newline for the markdown code span), or the end of the text; no earlier character is either. |
| KvPayload.Pieces | log_parser.py:44 | Splitting gives at least one piece, and no piece holds a `;` or a newline. KvPayload.PiecesOfPlain, KvPayload.PiecesAtSemicolon and KvPayload.PiecesAtNewline tie the pieces to the text. |
| KvPayload.PiecesOfPlain | log_parser.py:44 | A text with no `;` and no newline is a single piece, itself. |
| KvPayload.PiecesAtSemicolon | log_parser.py:44 | At the first separator, a `;`, the text before it is the first piece, and the rest is split after the white space that follows the `;` is dropped (`;\s*`). |
| KvPayload.PiecesAtNewline | log_parser.py:44 | At the first separator, a newline, the text before it is the first piece, and the rest is split as it stands. |
| KvPayload.MatchPairOf | log_parser.py:48-51 | A piece `key:value` whose key is a non-empty run of key-class characters matches as the stripped key and the stripped value. |
| KvPayload.NormalizeWithoutCr | log_parser.py:43 | A payload without a carriage return is left unchanged by the normalisation. |
| KvPayload.TwoPairs | log_parser.py:40-56 | Two stripped `key: value` pieces with distinct keys, joined by `; `, decode to exactly those two entries, in order. |
| KvPayload.KvExample | log_parser.py:40-56 | `User: bob; Action: login` decodes to exactly `{User: bob, Action: login}`. |
| KvPayload.MatchPair | log_parser.py:48-51 | A matched key holds no colon, and key and value together are shorter than the piece. |
| KvPayload.MatchPairIff | log_parser.py:48 | A piece matches exactly when some colon is preceded by a non-empty run of key-class characters. |
| KvPayload.Collect | log_parser.py:45-51 | The mapping built from the pieces has distinct keys. |
| KvPayload.ParseGenericPayloadAsKv | log_parser.py:40-56 | The loop agrees with the whole function. A non-blank payload always yields at least one entry, a blank one none, and keys are distinct. |
| KvPayload.CollectPairs | log_parser.py:45-51 | The imperative `for pair_str in pairs` loop builds exactly `Collect` of the pieces. |
| KvPayload.LastDuplicateWins | log_parser.py:50-51 | Each key maps to the value of the last piece that matches with that key. |
| KvPayload.BlankHasNoPairs | log_parser.py:52-53 | A blank payload yields no keyed piece. |
| KvPayload.FallbackKeepsOriginal | log_parser.py:52-53 | A non-blank payload with no matching piece becomes exactly `{PayloadText: payload}`, with the original text before normalisation. |
| Timestamp.FirstFilledIsFirst | log_parser.py:100-105 | The chosen text is empty exactly when no candidate column is filled. Otherwise it is the text of the first filled candidate in preference order. |
| Timestamp.SelectTimestamp | log_parser.py:100-105 | The loop with its `break` picks the first filled candidate. |
| Timestamp.Pad | log_parser.py:110 | A zero-padded field has exactly `w` characters, all decimal digits. |
| Timestamp.PadValue | log_parser.py:110 | Reading a padded field back gives the number. |
| Timestamp.FullFormat | log_parser.py:110 | The `%Y-%m-%d %H:%M:%S.%f` rendering has 26 characters. |
| Timestamp.MillisOfMicros | log_parser.py:110 | Cutting the last three digits of `%f` leaves the milliseconds, rounded down. |
| Timestamp.FormatIsMillis | log_parser.py:110 | The cut rendering is the date-time layout with a three-digit millisecond field. |
| Timestamp.FormatFields | log_parser.py:106-110 | A parsed time renders as a canonical 23-character timestamp. Each field reads back as the parsed value, the fraction as milliseconds. |
| Timestamp.Normalize | log_parser.py:106-116 | A parsed time becomes canonical. `NaT` or an exception keeps the original text. Record.EmptyTimestampIff states when the result is empty. |
| Record.Columns | log_parser.py:163-171 | A record, as a row of the frame, has exactly the seven target columns in order. |
| Record.Sanitize | log_parser.py:140 | Sanitising never lengthens a name and leaves only `[a-zA-Z0-9_]` characters. |
| Record.SanitizeKeepsWords | log_parser.py:140 | A name made only of word characters is left unchanged. |
| Record.SanitizeIdempotent | log_parser.py:140 | Sanitising twice is sanitising once. |
| Record.LevelOf | log_parser.py:120 | The level is `LevelText` when present, else `Level`, else `N/A`. |
| Record.PayloadContent | log_parser.py:132 | The payload is the stripped `PayloadData` when that column is present, even if empty. Otherwise it is the stripped `EventData`, or empty. |
| Record.DropBlank | log_parser.py:130 | Dropping blanks keeps exactly the non-blank entries. |
| Record.CoreSummary | log_parser.py:125-130 | The core summary holds no blank value. |
| Record.CoreSummaryContents | log_parser.py:125-130 | Each non-blank core field is in the summary. The message is there exactly when the description is non-blank and is not the `Event ID … from …` placeholder. |
| Record.Lift | log_parser.py:137-138 | The key-value decoder's mapping is kept entry by entry, as text values. |
| Record.PayloadStep | log_parser.py:139-142 | A non-blank payload value is stored under `Payload_` plus its sanitised key. A blank one changes nothing. |
| Record.MergePayloadExtends | log_parser.py:139-142 | The payload merge keeps the existing keys in order, keeps values non-blank, and adds only `Payload_` keys. When no existing key starts with `Payload_`, every existing entry keeps its value. |
| Record.OtherStep | log_parser.py:144-149 | A column is filed under `Other_` plus its sanitised name unless it is a handled column, its own name is already a summary key, or its value is blank. |
| Record.AddOthersExtends | log_parser.py:144-149 | The column loop keeps the existing keys in order, keeps values non-blank, and adds only `Other_` keys. When no existing key starts with `Other_`, every existing entry keeps its value. |
| Record.RenderedItemsOfNonBlank | log_parser.py:151-152 | With no blank values, every entry is rendered in order as `key: value`, the value cut to 300 characters. |
| Record.RenderEmptyIff | log_parser.py:151-153 | The rendering of a summary without blank values is empty exactly when the summary is. |
| Record.RawSummary | log_parser.py:151-154 | The summary text is never empty. |
| Record.RawSummaryFallback | log_parser.py:151-154 | A non-empty summary is rendered in full. Only an empty one gives the `Basic_Info` line. |
| Record.Description | log_parser.py:122-123 | The description is the stripped message, or the `Event ID … from …` placeholder when the message is blank. |
| Record.PayloadDetails | log_parser.py:132-138 | An empty payload decodes to nothing. A non-blank payload that does not start with `<` goes to the key-value decoder and always yields an entry. Record.MergePayloadExtends carries the merge of its result. |
| Record.RowEntryFields | log_parser.py:118-123 | A record carries `EventId`, `Provider` and `Computer` or `N/A`, and the preferred level. Its description has at most 1000 characters and its summary text is non-empty. |
| Record.EmptyTimestampIff | log_parser.py:100-116 | When parsing the empty text gives `NaT` or raises, as pandas does, a record's timestamp is empty exactly when no candidate time column is filled. |
| Record.RowSummaryShape | log_parser.py:125-149 | A row's summary never holds a blank value and has three blocks: the core entries, keys and values unchanged and in their order; then the `Payload_` entries of the merge; then the `Other_` entries of the column loop. |
| Record.SummaryBlocks | log_parser.py:139-149 | For any core free of `Payload_` and `Other_` keys, the payload merge and the column loop leave the core entries unchanged, and the result is the core, then a `Payload_` block, then an `Other_` block. |
| Record.CoreKeysAvoid | log_parser.py:125-130 | No core summary key starts with `Payload_` or `Other_`. |
| Record.RowEntry | log_parser.py:99-161 | A record's description has at most 1000 characters and its summary text is never empty. Record.RowEntryFields, Record.RowSummaryShape and Record.EmptyTimestampIff carry its other properties. |
| Record.MergePayloadLoop | log_parser.py:139-142 | The imperative payload loop agrees with the merge function. |
| Record.AddOthersLoop | log_parser.py:144-149 | The imperative column loop agrees with the column function. |
| Record.NormalizeRow | log_parser.py:99-161 | The loop body yields exactly the record of the row. |
| Evtx.Head | log_parser.py:91 | `head(n)` is a prefix of the rows: `min(n, rows)` of them for `n >= 0`, and all of them without a cap. |
| Evtx.EvtxFrame | log_parser.py:59-180 | The result holds records exactly when the tool exited with code 0 and wrote a CSV, and then no more records than CSV rows. Evtx.FailuresYieldOnlyError and Evtx.RecordsOfPrefix carry the rest. |
| Evtx.ParseEvtxFile | log_parser.py:59-180 | The function, with its row loop run imperatively, returns the frame of the decoder run. |
| Evtx.NormalizeRows | log_parser.py:98-161 | The row loop appends exactly one record per row, in order. |
| Evtx.FailuresYieldOnlyError | log_parser.py:60-81 | The result holds records exactly when the tool exited with code 0 and wrote a CSV. Every other outcome, including the errors of lines 172-180, is a single non-empty `Error` message. |
| Evtx.RecordsOfPrefix | log_parser.py:89-161 | On success the records are those of the first `max_entries` rows, in order. |
| LlmResponse.LabelsAndFields | llm_analyzer.py:29-43 | The five labels are non-empty and each holds a colon. The five result keys are distinct, and the initial result holds them in order. |
| LlmResponse.MatchLabel | llm_analyzer.py:54-55 | A matched label is one of the five. |
| LlmResponse.MatchLabelIsFirst | llm_analyzer.py:54-79 | The matched label is one the line starts with, and no earlier label in the list is. With no match, none is. |
| LlmResponse.InitialValues | llm_analyzer.py:29-30 | Every field starts as `N/A`. |
| LlmResponse.Flush | llm_analyzer.py:86-102 | Storing the open section keeps exactly the five result keys. |
| LlmResponse.Classify | llm_analyzer.py:51-55 | A line that opens a section names one of the five labels. |
| LlmResponse.LinePass | llm_analyzer.py:46-102 | The line pass yields exactly the five result keys. |
| LlmResponse.LinePassValues | llm_analyzer.py:50-102 | Each field holds the text of the section opened by the last line carrying its label: the head text and the non-blank continuation lines, joined by spaces. A field whose label is absent stays `N/A`. |
| LlmResponse.RunLines | llm_analyzer.py:50-84 | The imperative line loop, with its inner search and `break`, agrees with the line pass. |
| LlmResponse.FindLabel | llm_analyzer.py:54-79 | The inner `for key_prefix` search finds the first matching label. |
| LlmResponse.FallbackStep | llm_analyzer.py:111-121 | One second-pass line keeps exactly the five result keys. |
| LlmResponse.FallbackTakesRest | llm_analyzer.py:112-121 | A raw line that starts with a label always holds a colon, and its value is the stripped text after the label's own colon. |
| LlmResponse.FallbackValues | llm_analyzer.py:111-121 | After the second pass, each field holds the value of the last raw line that starts with its label, or its previous value. |
| LlmResponse.RunFallback | llm_analyzer.py:111-121 | The imperative second loop agrees with the second pass. |
| LlmResponse.ParseResponse | llm_analyzer.py:28-128 | The result always has exactly the five keys, in order. |
| LlmResponse.ParseLlmResponseStructured | llm_analyzer.py:28-128 | The imperative function agrees with the model and returns the five keys. |
| LlmResponse.NoLabelLine | llm_analyzer.py:51-55 | A line that contains none of the five labels opens no section. |
| LlmResponse.NoLabelNoSections | llm_analyzer.py:105-108 | A reply that contains none of the five labels mentions no primary label and leaves the line pass at its initial value. |
| LlmResponse.NoColonNoSections | llm_analyzer.py:105-108 | A reply without a colon contains no label, since every label holds one, and so leaves the line pass at its initial value. |
| LlmResponse.UnlabelledReplyDropped | llm_analyzer.py:105-126 | As written, a reply that contains none of the five labels leaves every field `N/A`, even when non-blank. |
| LlmResponse.ParseResponseIntended | llm_analyzer.py:125-126 | With the absolute fallback applied in all cases, a non-blank reply never leaves the explanation `N/A` (unless the reply is literally `N/A`). |
| LlmResponse.IntendedAgrees | llm_analyzer.py:104-128 | The correction changes only replies whose explanation the written code leaves at `N/A` although the text is non-blank. A non-blank reply that contains no label then becomes the explanation. |
| Queries.UpdateLogFileStatus | database.py:56-69 | The statement assigns `status` first, then each given column in argument order, and binds their values followed by the file id. |
| Queries.UpdateColumns | database.py:60-64 | `status` is assigned first, and each optional column is assigned exactly when its argument is not `None`. |
| Queries.UpdateAssignsGiven | database.py:61-64 | A count or message column is assigned exactly when its value is given. |
| Queries.UpdateBindsGiven | database.py:60-66 | Each assigned column is bound to the value given for it. |
| Queries.UpdatePlaceholders | database.py:65-67 | The statement has one placeholder per bound value, the file id last. |
| Queries.ActiveFilters | database.py:119-136 | A filter applies exactly when its argument is truthy, and then with that argument. Active filters keep the source's testing order. |
| Queries.ClauseHoles | database.py:119-136 | The keyword clause has three placeholders and three parameters. Every other filter has one of each. |
| Queries.AddFilter | database.py:119-121 | One `if filter:` block appends the filter's clause and parameters exactly when its argument is truthy. |
| Queries.BuildWhere | database.py:115-136 | The conditional appends give the file clause then one clause per active filter, and the file id then the active filters' parameters. |
| Queries.GetParsedLogsQuery | database.py:109-149 | The page query and its parameters are those of the filters, followed by `LIMIT ? OFFSET ?`. |
| Queries.GetParsedLogCountQuery | database.py:152-176 | The count query uses the same clauses and parameters as the page query, without paging. |
| Queries.PageQuery | database.py:138-145 | The page query has the filter clauses' placeholders plus two, for `LIMIT` and `OFFSET`. Queries.QueryPlaceholders ties them to the parameters. |
| Queries.CountQuery | database.py:157-172 | The count query has exactly the filter clauses' placeholders. Queries.QueryPlaceholders ties them to the parameters. |
| Queries.ActiveHoles | database.py:119-136 | Each filter's parameters fill exactly its clause's placeholders. |
| Queries.QueryPlaceholders | database.py:138-146 | Both statements have exactly one placeholder per parameter. The page parameters are the count parameters followed by the page size and the offset `(page - 1) * page_size`. |
| Queries.DateRangeAsWritten | database.py:131-136 | As written, the `T` in the lower bound sorts after the stored space separator. A start date admits only timestamps of later days, and a one-day range admits nothing. |
| Queries.DateRangeIntended | database.py:131-136 | With the stored separator in the lower bound, the date filters admit exactly the timestamps whose date lies in the range. |
| Queries.AnalysisParams | database.py:179-189 | The insert binds the log id, the three analysis fields (`N/A` when missing) and the time, one per placeholder. |
| Queries.StoredFields | database.py:182-187 | A result with exactly the parser's keys supplies all three stored fields itself. |
| Queries.AnalysisStored | database.py:182-187 | What is stored for a reply is its three parsed fields. |
| Queries.UnlabelledReplyStored | database.py:182-187 | A reply that contains none of the five labels is stored as three `N/A` fields. |
| Queries.UnlabelledReplyStoredIntended | database.py:182-187 | With the corrected parser, such a reply is stored with its whole text as the explanation. |
| Queries.WithFileId | database.py:93 | After assigning `file_id`, the frame has that column and keeps all others. |
| Queries.Keep | database.py:96 | The selection keeps exactly the names that are present. |
| Queries.KeepIsSubseq | database.py:96 | The selection keeps the table order. |
| Queries.BulkInsertParsedLogs | database.py:90-106 | An empty frame inserts nothing and gives 0. Otherwise the result is every row, or the exception `to_sql` raised. |
| Queries.InsertedColumnsShape | database.py:93-96 | The written columns are the table's columns present in the frame, in table order, and always start with `file_id`. |
| Ingest.Updated | database.py:60-64 | An update sets the status and leaves every count or message that is not given unchanged. |
| Ingest.UpdatedFollowsStatement | database.py:60-67 | The row changes exactly as the `UPDATE` statement assigns it. |
| Ingest.LogFileRecord.constructor | database.py:46-53 | A new row has the schema defaults: `Pending` with zero counts and no message. |
| Ingest.LogFileRecord.UpdateStatus | database.py:56-69 | An update changes the row as the statement assigns it and appends the status to the trail. |
| Ingest.Sample | app.py:108 | The sample is the first `min(5, n)` candidates the query returns. |
| Ingest.WithSummaryColumn | app.py:102-105 | The frame always has `raw_summary_for_llm` afterwards, and an existing column is left as it is. |
| Ingest.Process | app.py:87-127 | A job exists exactly when its row was created. The insert is attempted exactly when the decoder gave records. Logs are analysed only after a successful insert. The path lemmas and Ingest.JobSettles carry the status trail. |
| Ingest.ProcessUploadedLogFile | app.py:87-127 | Updating the row step by step gives the message, status trail, final row, insert outcome and analysed ids of the processing model. |
| Ingest.AnalyzeSample | app.py:109-119 | The loop analyses exactly the eligible sampled logs whose analysis does not raise, and counts them. |
| Ingest.AnnotatedExactly | app.py:110-119 | A log is analysed exactly when it is sampled, has a non-blank summary and its analysis does not raise. The count never exceeds the sample. |
| Ingest.AnnotatedAppend | app.py:115-119 | One log's failure does not stop the others: the logs analysed over two runs of candidates are those of each run, in order. |
| Ingest.DecodeErrorPath | app.py:93-96 | A decoder error takes the job through Pending, Processing and Error with the decoder's message. Nothing is inserted or analysed. |
| Ingest.EmptyDecodePath | app.py:97-99 | A decode with no records ends Processed with zero counts, and nothing is inserted or analysed. |
| Ingest.SuccessPath | app.py:100-121 | A successful run inserts every record and analyses at most five logs. The job ends Processed with those counts, and the message reports them. |
| Ingest.InsertFailurePath | app.py:122-127 | A failed insert ends the job in Error with the exception's text. Nothing is analysed. |
| Ingest.JobSettles | app.py:88-127 | A job whose row exists starts Pending, passes only through Processing, and ends Processed or Error. It has an error message exactly when it ends in Error. |
| Ingest.AcceptsUploadIff | app.py:164 | A name is accepted exactly when its last five characters, lower-cased, are `.evtx`. |
| Ingest.AlertColour | app.py:169 | The colour is `success` exactly when the lower-cased message mentions "processed". Otherwise it is `danger` when the message mentions "error", else `warning`. |
| Ingest.HandleFileUpload | app.py:162-170 | No content means no update. A wrong extension or a failed save gives a red alert. Otherwise the alert carries the processing message. |
| Ingest.SuccessShownGreen | app.py:121 | A successful run is announced in green. |
| Ingest.SuccessMessageGreen | app.py:169 | The success message is green whatever the file name and counts. |
| Ingest.EmptyShownAmber | app.py:99 | A file with no records is announced in amber. |
| Ingest.MaxPages | app.py:361 | The page count is at least 1. For a positive total it is the least count of 15-row pages that holds every log. |
| Ingest.ChosenPage | app.py:344-353 | The pager's page when the pager fired with one. Page 1 after a file or filter change. Otherwise the stored page, else 1. |
| Ingest.Clamp | app.py:364-365 | A non-negative page ends in `1..maxPages`, and an in-range page is unchanged. A page past the end becomes the last page; a negative page is kept. |
| Ingest.DisplayLogDetails | app.py:328-365 | With no file the view shows page 1 of 1. Otherwise the page is the chosen page clamped to the page count of the matching logs. |
| Ingest.ShownPageHasRows | app.py:358-365 | When any log matches and the requested page is non-negative, the clamped page's offset lies before the total. |
| Ingest.FetchSize | app.py:478-480 | The report fetches between 1 and 500 logs: all of them up to 500, and 1 when none match. |
| Ingest.StoreSelectedFileId | app.py:175-179 | The result is the `file_id` of the first selected row when the selection and table are non-empty and the index is in range. Otherwise it is `None`. |
| Ingest.StoreCurrentLogPage | app.py:507 | The pager's page, or 1 when it has none. |
| Report.ConvertBackticks | pdf_generator.py:37-45 | `None` becomes the empty text, and a text without backticks is unchanged. |
| Report.Token | pdf_generator.py:45 | One match attempt consumes at least one character and emits at least as many as it consumes. |
| Report.Convert | pdf_generator.py:45 | The conversion never shortens the text. Report.NoBacktickUnchanged, Report.PairConverted, Report.UnpairedKept and Report.LinesConvertSeparately carry what it does. |
| Report.NoBacktickUnchanged | pdf_generator.py:45 | A text without backticks is returned unchanged. |
| Report.PairConverted | pdf_generator.py:45 | A backtick pair around text with no backtick or newline becomes one Courier span, and the scan continues after it. |
| Report.UnpairedKept | pdf_generator.py:45 | A backtick with no partner on its line is kept as it is. |
| Report.LinesConvertSeparately | pdf_generator.py:45 | Pairs never span a newline: a text converts as its lines do, each on its own. |
| Report.RangeEnd | pdf_generator.py:101 | The range end is `Present` only when `date_end` is missing. A present key is shown even when its value is `None`. |
| Report.AddItem | pdf_generator.py:95-101 | One `if filters_applied.get(key)` block appends the item exactly when the key is given. |
| Report.FilterItems | pdf_generator.py:94-101 | The items list is built by the five conditional appends. |
| Report.ItemsExact | pdf_generator.py:94-101 | There is one item per given key and no other item. |
| Report.ItemsAppend | pdf_generator.py:94-101 | Items follow the order of the keys. |
| Report.NoGivenNoItems | pdf_generator.py:102-105 | With no given key there is no item. |
| Report.FilterSection | pdf_generator.py:92-105 | A missing or empty filter dictionary gives no section. Otherwise the heading comes first, then either the items or "None specific". |
| Report.SummaryContent | pdf_generator.py:108-110 | A missing summary, or one that mentions `Error`, `not initialized` or `not generated`, is replaced by the placeholder. Any other is kept. |
| Report.DefaultSummaryReplaced | pdf_generator.py:49 | The default summary argument is itself replaced by the placeholder. |
| Report.SummaryParagraphs | pdf_generator.py:112-117 | The loop over the summary lines yields the paragraphs of `Paragraphs`: one per non-blank line, with its runs of four spaces made four no-break spaces (U+00A0) before the backtick conversion. |
| Report.ParagraphsOfNonBlank | pdf_generator.py:112-117 | The paragraphs are exactly the non-blank lines, in order, each with its four-space runs made no-break and then converted. |
| Report.OneLineOneParagraph | pdf_generator.py:112-117 | A one-line non-blank summary is one paragraph: the line with its four-space runs made no-break, then converted. |
| Report.NoBreakIndentShape | pdf_generator.py:116 | The replacement keeps the length and turns only spaces into U+00A0. No run of four spaces is left, and a line without one is unchanged. |
| Report.IndentedLine | pdf_generator.py:116 | A line indented by four spaces starts with four no-break spaces after the replacement. |
| Report.TableData | pdf_generator.py:123-133 | The table is the header row and then one row per entry. Each cell is the converted value of its column, or empty when the entry lacks it. |
| Report.RowShading | pdf_generator.py:153-155 | Each body row gets one background: light on odd rows, dark on even rows. |
| Report.ShadingAlternates | pdf_generator.py:153-155 | Every body row is shaded, the first light, and neighbouring rows always differ. The header row is never shaded. |

## Left out

- Running EvtxECmd, the temporary directory, reading the CSV, and removing the uploaded temporary file (app.py:128-133): all file and process I/O. The decoder's outcome is a parameter.
- Record.ValueText: Python's `str()` of a list is the parameter `repr`, which is unconstrained. Python never renders a list as blank text, so a list value is always stored in the source; the model allows a blank rendering and then drops the entry, and no lemma assumes otherwise.
- `ET.fromstring`, `pd.to_datetime` and Python's `str()` of a list are parameters. Their own parsing and rendering are not modelled. That `pd.to_datetime("")` is `NaT` is a hypothesis of Record.EmptyTimestampIff, not a property of the parameter.
- The per-column schema fill of log_parser.py:165-170 cannot happen: every record carries all seven fields, so the model has no branch for it.
- `Text.Lower` folds ASCII letters only. Python's `str.lower` also folds non-ASCII letters, which matters for the `.evtx` check and the alert colour only on non-ASCII text.
- Executing SQL is not modelled: SQLite, `LIKE`, `LOWER`, `COUNT(DISTINCT …)`, joins, ordering and the rows returned. The model stops at the statement text and its parameters.
- The whitespace and the `--` comment inside the page query's select list are not reproduced character for character. The select list is one literal piece.
- Queries.RenderCount: that the literal SQL pieces themselves hold no `?` is a precondition, not proved of each constant.
- `bulk_insert_parsed_logs` assigns `file_id` into the caller's frame in place. The model returns the column list and does not model that aliasing.
- `ORDER BY RANDOM()` in the sample query: the candidates arrive in an arbitrary order, given as a parameter.
- The Gemini calls (`analyze_log_entry_with_gemini`, `get_report_summary_llm`) are not modelled: whether an annotation raises is a parameter, and the report summary text is an input.
- An exception raised by `update_log_file_status` or by the sample query themselves is not modelled. Only the decoder result, the creation of the row and the insert can fail in the model.
- The Dash layout, the charts, the deep-dive modal and the `html`/`dbc` components are not modelled. Page and page count are the outputs of `display_log_details`.
- The rows the page query returns are not modelled. When the pager fires with a page past the end, app.py:358 fetches the rows of the unclamped page, and the re-fetch of app.py:370-371 runs only for a file or filter change, so the table can be empty while the pager shows the clamped page.
- Ingest.StoreSelectedFileId: row indices are `nat`. A negative selected index, which Python would read from the end of the table, is not modelled.
- ReportLab's layout, fonts, styles, column widths, the `Total Log Entries` line, the generation time and the report file name are not modelled.
- Report.TableData: cell values are texts already rendered by `str()`. Pandas `NaN` rendering is not modelled.
- The download callback's summary sample (`head(20)` of the summaries joined by `---`) is not modelled.
- Ingest.ProcessUploadedLogFile: an insert that raises after `add_log_file_record` returned id 0 leaves the row at Processing. This follows the `if file_id:` test of app.py:126, so Ingest.JobSettles requires a non-zero id.

## Findings

| source | as written | input that shows it | evidently intended | confidence | as-written member | corrected member |
|---|---|---|---|---|---|---|
| database.py:133 | The lower date bound is `{date_start}T00:00:00.000`. Stored timestamps use a space (`2024-01-05 10:00:00.000`), and `T` sorts after the space, so every log of the start day is excluded. | `date_start = date_end = "2024-01-05"` with a log at `2024-01-05 10:00:00.000`: no log is selected. | The range includes the whole start day. | not executed | Queries.DateRangeAsWritten | Queries.DateRangeIntended |
| llm_analyzer.py:125 | The "absolute fallback" that copies the whole reply into `Explanation` is nested inside the guard that requires a primary label in the text. | The reply `The event is benign.` is stored with `Explanation`, `Relevance` and `IoCs` all `N/A`. | A non-blank reply that yields no explanation keeps its text as the explanation. | not executed | LlmResponse.UnlabelledReplyDropped | LlmResponse.ParseResponseIntended |

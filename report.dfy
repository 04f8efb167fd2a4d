/**
  The text-producing parts of the PDF report (pdf_generator.py): backtick spans become
  Courier font tags, the applied filters become a list of items, the AI summary is replaced by
  a fixed placeholder when it reports a failure and is cut into paragraphs, and the table of
  log entries gets one header row, one row per entry and alternating row shading. The layout
  itself (ReportLab styles, widths, page building) is not modelled.
 */
module Report {
  import opened Wrappers
  import opened Text
  import opened Dict

  // ---------------------------------------------------------------------------------------
  // convert_backticks_to_font_tags

  const FontOpen := "<font name='Courier'>"
  const FontClose := "</font>"

  /** The first match attempt of `re.sub(r'`(.*?)`', ...)` at the start of `s`: a backtick
      paired with the nearest following backtick, when no newline comes between them (`.` does
      not match a newline), becomes a font span; anything else is one character copied. The
      second component is the length of text consumed. */
  function Token(s: string): (t: (string, nat))
    requires s != []
    ensures 1 <= t.1 <= |s| && |t.0| >= t.1
  {
    var k := FindEither(s[1..], '`', '\n');
    if s[0] == '`' && k < |s| - 1 && s[1 + k] == '`' then (FontOpen + s[1..1 + k] + FontClose, k + 2)
    else ([s[0]], 1)
  }

  /** `re.sub(r'`(.*?)`', r"<font name='Courier'>\1</font>", s)`: the scan goes on after each
      token. */
  function Convert(s: string): (r: string)
    ensures |r| >= |s|
    decreases |s|
  {
    if s == [] then "" else var t := Token(s); t.0 + Convert(s[t.1..])
  }

  /** `convert_backticks_to_font_tags`: `None` becomes the empty text. */
  function ConvertBackticks(segment: Option<string>): (r: string)
    ensures segment.None? ==> r == ""
    ensures segment.Some? && '`' !in segment.value ==> r == segment.value
  {
    match segment
    case None => ""
    case Some(s) =>
      if '`' in s then Convert(s)
      else
        NoBacktickUnchanged(s);
        Convert(s)
  }

  /** A text without backticks is returned unchanged. */
  lemma {:induction false} NoBacktickUnchanged(s: string)
    requires '`' !in s
    ensures Convert(s) == s
    decreases |s|
  {
    if s != [] {
      assert s[0] != '`' && Token(s) == ([s[0]], 1);
      NoBacktickUnchanged(s[1..]);
      assert s == [s[0]] + s[1..];
    }
  }

  /** A backtick span with no backtick or newline inside becomes one font span, and the scan
      goes on after its closing backtick. */
  lemma PairConverted(inner: string, rest: string)
    requires '`' !in inner && '\n' !in inner
    ensures Convert("`" + inner + "`" + rest) == FontOpen + inner + FontClose + Convert(rest)
  {
    var s := "`" + inner + "`" + rest;
    BacktickFreeRun(inner, "`" + rest);
    assert s[1..] == inner + ("`" + rest);
    assert s[1..1 + |inner|] == inner;
    assert s[|inner| + 2..] == rest;
    assert Token(s) == (FontOpen + inner + FontClose, |inner| + 2);
  }

  /** A backtick with no other backtick after it on its line is kept as it is. */
  lemma UnpairedKept(line: string, rest: string)
    requires '`' !in line && '\n' !in line
    ensures Convert("`" + line + "\n" + rest) == "`" + Convert(line + "\n" + rest)
  {
    var s := "`" + line + "\n" + rest;
    BacktickFreeRun(line, "\n" + rest);
    assert s[1..] == line + ("\n" + rest) == line + "\n" + rest;
    assert FindEither("\n" + rest, '`', '\n') == 0;
    assert s[1 + |line|] == '\n';
    assert Token(s) == ("`", 1);
  }

  /** Over a run with no backtick and no newline the stop moves on by the run's length. */
  lemma {:induction false} BacktickFreeRun(t: string, u: string)
    requires '`' !in t && '\n' !in t
    ensures FindEither(t + u, '`', '\n') == |t| + FindEither(u, '`', '\n')
    decreases |t|
  {
    if t != [] {
      assert (t + u)[1..] == t[1..] + u;
      BacktickFreeRun(t[1..], u);
    } else {
      assert t + u == u;
    }
  }

  /** Pairing never crosses a line: each line is converted on its own. */
  lemma {:induction false} LinesConvertSeparately(a: string, b: string)
    ensures Convert(a + ("\n" + b)) == Convert(a) + ("\n" + Convert(b))
    decreases |a|
  {
    var s := a + ("\n" + b);
    if a == [] {
      assert s == "\n" + b;
      assert Token(s) == ("\n", 1);
      assert s[1..] == b;
    } else {
      var t := Token(a);
      TokenInLine(a, b);
      var rest := a[t.1..];
      assert s[t.1..] == rest + ("\n" + b);
      LinesConvertSeparately(rest, b);
      ConvertStep(s, a, "\n" + Convert(b));
    }
  }

  /** Two texts with the same first token convert alike when what follows it does. */
  lemma ConvertStep(s: string, a: string, tail: string)
    requires s != [] && a != []
    requires Token(s) == Token(a)
    requires Convert(s[Token(s).1..]) == Convert(a[Token(a).1..]) + tail
    ensures Convert(s) == Convert(a) + tail
  {
  }

  /** A token never runs past the end of its line. */
  lemma TokenInLine(a: string, b: string)
    requires a != []
    ensures Token(a + ("\n" + b)) == Token(a)
  {
    var s := a + ("\n" + b);
    assert s[1..] == a[1..] + ("\n" + b);
    BacktickBeforeLine(a[1..], b);
    var k := FindEither(a[1..], '`', '\n');
    if k < |a| - 1 {
      assert s[1 + k] == a[1 + k];
      assert s[1..1 + k] == a[1..1 + k];
    } else {
      assert s[1 + k] == '\n';
    }
  }

  /** The first stop in a line followed by more text is within the line. */
  lemma {:induction false} BacktickBeforeLine(t: string, u: string)
    ensures FindEither(t + ("\n" + u), '`', '\n') == FindEither(t, '`', '\n')
    decreases |t|
  {
    if t != [] {
      assert (t + ("\n" + u))[1..] == t[1..] + ("\n" + u);
      BacktickBeforeLine(t[1..], u);
    }
  }

  // ---------------------------------------------------------------------------------------
  // The "Applied Filters" section

  /** The filters the report was asked for; a value may be Python's `None`. */
  type Filters = Dict<Option<string>>

  /** The keys that can produce an item, in the order of the items. */
  const ReportKeys: seq<string> := ["keyword", "event_id", "level", "provider", "date_start"]

  /** `filters_applied.get(key)` is truthy. */
  predicate Given(filters: Filters, key: string) {
    var v := Get(filters, key);
    v.Some? && v.value.Some? && v.value.value != ""
  }

  /** The value of a given key. */
  function ValueOf(filters: Filters, key: string): string
    requires Given(filters, key)
  {
    Get(filters, key).value.value
  }

  /** `f"{v}"`: Python renders `None` as `None`. */
  function Shown(v: Option<string>): string {
    if v.Some? then v.value else "None"
  }

  /** `filters_applied.get('date_end', 'Present')`: a present key is shown even when it is
      `None`. */
  function RangeEnd(filters: Filters): (e: string)
    ensures !HasKey(filters, "date_end") ==> e == "Present"
    ensures HasKey(filters, "date_end") ==> e == Shown(Get(filters, "date_end").value)
  {
    match Get(filters, "date_end")
    case None => "Present"
    case Some(v) => Shown(v)
  }

  function Label(key: string): string {
    if key == "keyword" then "<b>Keyword:</b> "
    else if key == "event_id" then "<b>Event ID:</b> "
    else if key == "level" then "<b>Level:</b> "
    else if key == "provider" then "<b>Provider:</b> "
    else "<b>Date Range:</b> "
  }

  /** The item of one given key; the date range also shows its end. */
  function ItemText(filters: Filters, key: string): string
    requires Given(filters, key)
  {
    Label(key) + ValueOf(filters, key) + (if key == "date_start" then " to " + RangeEnd(filters) else "")
  }

  /** The items of the given keys among `keys`, in the order of `keys`. */
  function Items(filters: Filters, keys: seq<string>): seq<string>
    decreases |keys|
  {
    if keys == [] then []
    else
      var key := keys[|keys| - 1];
      Items(filters, keys[..|keys| - 1]) + (if Given(filters, key) then [ItemText(filters, key)] else [])
  }

  /** One `if filters_applied.get(key): filter_items_text.append(...)` step. */
  method AddItem(items: seq<string>, filters: Filters, key: string) returns (items': seq<string>)
    ensures items' == items + (if Given(filters, key) then [ItemText(filters, key)] else [])
  {
    items' := items;
    var v := Get(filters, key);
    if v.Some? && v.value.Some? && v.value.value != "" {
      var text := Label(key) + v.value.value;
      if key == "date_start" {
        var end := match Get(filters, "date_end") case None => "Present" case Some(e) => Shown(e);
        assert end == RangeEnd(filters);
        text := text + (" to " + end);
      } else {
        assert text == text + "";
      }
      assert text == ItemText(filters, key);
      items' := items' + [text];
    }
  }

  /** The list `filter_items_text`, built by five conditional appends. */
  method FilterItems(filters: Filters) returns (items: seq<string>)
    ensures items == Items(filters, ReportKeys)
  {
    items := [];
    var k := 0;
    while k < |ReportKeys|
      invariant 0 <= k <= |ReportKeys|
      invariant items == Items(filters, ReportKeys[..k])
    {
      assert ReportKeys[..k + 1][..k] == ReportKeys[..k];
      items := AddItem(items, filters, ReportKeys[k]);
      k := k + 1;
    }
    assert ReportKeys[..|ReportKeys|] == ReportKeys;
  }

  /** The items follow the keys: exactly one item per given key, in the order of the keys. */
  lemma {:induction false} ItemsExact(filters: Filters, keys: seq<string>)
    ensures |Items(filters, keys)| <= |keys|
    ensures forall key | key in keys && Given(filters, key) :: ItemText(filters, key) in Items(filters, keys)
    ensures forall x | x in Items(filters, keys) :: exists key | key in keys && Given(filters, key) :: x == ItemText(filters, key)
    decreases |keys|
  {
    if keys != [] {
      var init := keys[..|keys| - 1];
      ItemsExact(filters, init);
      assert keys == init + [keys[|keys| - 1]];
    }
  }

  /** Concatenating key lists concatenates their items: the order is the order of the keys. */
  lemma {:induction false} ItemsAppend(filters: Filters, a: seq<string>, b: seq<string>)
    ensures Items(filters, a + b) == Items(filters, a) + Items(filters, b)
    decreases |b|
  {
    if b == [] {
      assert a + b == a;
    } else {
      assert (a + b)[..|a + b| - 1] == a + b[..|b| - 1];
      ItemsAppend(filters, a, b[..|b| - 1]);
    }
  }

  /** With no given key there is no item. */
  lemma {:induction false} NoGivenNoItems(filters: Filters, keys: seq<string>)
    requires forall key | key in keys :: !Given(filters, key)
    ensures Items(filters, keys) == []
    decreases |keys|
  {
    if keys != [] {
      NoGivenNoItems(filters, keys[..|keys| - 1]);
    }
  }

  const FiltersHeading := "Applied Filters"
  const NoneSpecific := "<i>None specific.</i>"

  /** The paragraphs of the filters section: none for a falsy (missing or empty) filters
      dict; otherwise the heading and the items, or the heading and "None specific.". */
  function FilterSection(filters: Option<Filters>): (lines: seq<string>)
    ensures filters.None? || filters.value == [] ==> lines == []
    ensures filters.Some? && filters.value != [] ==> |lines| >= 2 && lines[0] == FiltersHeading
    ensures filters.Some? && filters.value != [] && Items(filters.value, ReportKeys) == [] ==>
      lines == [FiltersHeading, NoneSpecific]
    ensures filters.Some? && filters.value != [] && Items(filters.value, ReportKeys) != [] ==>
      lines == [FiltersHeading] + Items(filters.value, ReportKeys)
  {
    if filters.None? || filters.value == [] then []
    else
      var items := Items(filters.value, ReportKeys);
      [FiltersHeading] + (if items != [] then items else [NoneSpecific])
  }

  // ---------------------------------------------------------------------------------------
  // The "AI Executive Summary" section

  const SummaryPlaceholder :=
    "<i>AI-generated summary could not be produced for this selection. "
    + "This may be due to insufficient data or an issue with the AI service.</i>"

  /** The summary text reports a failure: it is missing or empty, or mentions "Error", "not
      initialized" or "not generated". */
  predicate ReportsFailure(text: Option<string>) {
    || text.None? || text.value == ""
    || Contains(text.value, "Error") || Contains(text.value, "not initialized")
    || Contains(text.value, "not generated")
  }

  /** The summary shown: the placeholder in place of a failure, the text otherwise. */
  function SummaryContent(text: Option<string>): (c: string)
    ensures ReportsFailure(text) ==> c == SummaryPlaceholder
    ensures !ReportsFailure(text) ==> c == text.value
  {
    if ReportsFailure(text) then SummaryPlaceholder else text.value
  }

  /** The default summary argument, "AI summary not generated.", is itself replaced. */
  lemma DefaultSummaryReplaced()
    ensures SummaryContent(Some("AI summary not generated.")) == SummaryPlaceholder
  {
    var s := "AI summary not generated.";
    assert s[11..24] == "not generated";
    ContainsAt(s, "not generated", 11);
  }

  /** The run of four spaces that a summary line's indentation is made of. */
  const Indent := "    "
  /** Four no-break spaces (U+00A0): what each run of four spaces becomes, so that the
      indentation survives the paragraph layout. */
  const NoBreak4 := "\U{A0}\U{A0}\U{A0}\U{A0}"

  /** `para_text.replace("    ", "\u00a0" * 4)`: every run of four spaces, scanned left to
      right, becomes four no-break spaces. */
  function NoBreakIndent(line: string): string {
    Replace(line, Indent, NoBreak4)
  }

  /** The number of spaces the text starts with. */
  function LeadingSpaces(s: string): (n: nat)
    ensures n <= |s|
    decreases |s|
  {
    if s != [] && s[0] == ' ' then 1 + LeadingSpaces(s[1..]) else 0
  }

  /** The replacement keeps the length, turns only spaces into no-break spaces, leaves no run of
      four spaces behind, and changes nothing in a line without such a run. */
  lemma NoBreakIndentShape(line: string)
    ensures var r := NoBreakIndent(line);
      && |r| == |line|
      && (forall i | 0 <= i < |line| :: r[i] == line[i] || (line[i] == ' ' && r[i] == '\U{A0}'))
      && !Contains(r, Indent)
      && (!Contains(line, Indent) ==> r == line)
  {
    IndentPointwise(line);
    IndentGone(line);
    if !Contains(line, Indent) {
      ReplaceAbsent(line, Indent, NoBreak4);
    }
  }

  /** A line indented by four spaces starts with four no-break spaces. */
  lemma IndentedLine(rest: string)
    ensures NoBreakIndent(Indent + rest) == NoBreak4 + NoBreakIndent(rest)
  {
    var s := Indent + rest;
    assert s[..4] == Indent && s[4..] == rest;
  }

  lemma {:induction false} IndentPointwise(s: string)
    ensures var r := NoBreakIndent(s);
      |r| == |s| && forall i | 0 <= i < |s| :: r[i] == s[i] || (s[i] == ' ' && r[i] == '\U{A0}')
    decreases |s|
  {
    var r := NoBreakIndent(s);
    if |s| < 4 {
    } else if s[..4] == Indent {
      var t := NoBreakIndent(s[4..]);
      IndentPointwise(s[4..]);
      assert r == NoBreak4 + t;
      forall i | 0 <= i < |s| ensures r[i] == s[i] || (s[i] == ' ' && r[i] == '\U{A0}') {
        if i < 4 {
          assert s[i] == s[..4][i];
        } else {
          assert r[i] == t[i - 4] && s[i] == s[4..][i - 4];
        }
      }
    } else {
      var t := NoBreakIndent(s[1..]);
      IndentPointwise(s[1..]);
      assert r == [s[0]] + t;
      forall i | 1 <= i < |s| ensures r[i] == s[i] || (s[i] == ' ' && r[i] == '\U{A0}') {
        assert r[i] == t[i - 1] && s[i] == s[1..][i - 1];
      }
    }
  }

  /** A text starts with the indent exactly when it starts with four spaces. */
  lemma FourLeading(s: string)
    ensures StartsWith(s, Indent) <==> LeadingSpaces(s) >= 4
  {
    if StartsWith(s, Indent) {
      IndentIsFourLeading(s);
    }
    if LeadingSpaces(s) >= 4 {
      FourLeadingIsIndent(s);
    }
  }

  lemma IndentIsFourLeading(s: string)
    requires StartsWith(s, Indent)
    ensures LeadingSpaces(s) >= 4
  {
    assert s[0] == s[..4][0] && s[1] == s[..4][1] && s[2] == s[..4][2] && s[3] == s[..4][3];
    assert s[1..][1..] == s[2..] && s[2..][1..] == s[3..];
    assert s[3..][0] == ' ' && LeadingSpaces(s[3..]) >= 1;
    assert s[2..][0] == ' ' && LeadingSpaces(s[2..]) >= 2;
    assert s[1..][0] == ' ' && LeadingSpaces(s[1..]) >= 3;
  }

  lemma FourLeadingIsIndent(s: string)
    requires LeadingSpaces(s) >= 4
    ensures StartsWith(s, Indent)
  {
    assert s[1..][1..] == s[2..] && s[2..][1..] == s[3..];
    assert LeadingSpaces(s[1..]) >= 3 && LeadingSpaces(s[2..]) >= 2 && LeadingSpaces(s[3..]) >= 1;
    assert s[..4] == Indent;
  }

  /** After the replacement a text starts with fewer than four spaces, and with no more than
      before. */
  lemma {:induction false} IndentLeading(s: string)
    ensures LeadingSpaces(NoBreakIndent(s)) <= LeadingSpaces(s)
    ensures LeadingSpaces(NoBreakIndent(s)) < 4
    decreases |s|
  {
    var r := NoBreakIndent(s);
    if |s| < 4 {
    } else if s[..4] == Indent {
      assert r == NoBreak4 + NoBreakIndent(s[4..]);
      assert r[0] == '\U{A0}';
    } else {
      assert r == [s[0]] + NoBreakIndent(s[1..]);
      if s[0] == ' ' {
        IndentLeading(s[1..]);
        FourLeading(s);
        assert r[1..] == NoBreakIndent(s[1..]);
      }
    }
  }

  /** No run of four spaces is left. */
  lemma {:induction false} IndentGone(s: string)
    ensures !Contains(NoBreakIndent(s), Indent)
    decreases |s|
  {
    var r := NoBreakIndent(s);
    if |s| < 4 {
      ShortContainsNothing(r, Indent);
    } else if s[..4] == Indent {
      IndentGone(s[4..]);
      assert r == NoBreak4 + NoBreakIndent(s[4..]);
      ContainsAfterFree(NoBreak4, NoBreakIndent(s[4..]), Indent);
    } else {
      IndentGone(s[1..]);
      IndentLeading(s);
      FourLeading(r);
      assert r == [s[0]] + NoBreakIndent(s[1..]);
      assert r[1..] == NoBreakIndent(s[1..]);
    }
  }

  lemma {:induction false} ShortContainsNothing(s: string, p: string)
    requires |s| < |p|
    ensures !Contains(s, p)
    decreases |s|
  {
    if s != [] {
      ShortContainsNothing(s[1..], p);
    }
  }

  /** A text that does not hold the first character of `p` cannot start an occurrence of it. */
  lemma {:induction false} ContainsAfterFree(a: string, t: string, p: string)
    requires p != [] && p[0] !in a
    ensures Contains(a + t, p) ==> Contains(t, p)
    decreases |a|
  {
    if a == [] {
      assert a + t == t;
    } else {
      assert (a + t)[0] == a[0];
      assert (a + t)[1..] == a[1..] + t;
      ContainsAfterFree(a[1..], t, p);
    }
  }

  /** The paragraphs of the summary lines: each non-blank line, its runs of four spaces made
      no-break, passed through the backtick conversion. */
  function Paragraphs(lines: seq<string>): seq<string>
    decreases |lines|
  {
    if lines == [] then []
    else
      var line := lines[|lines| - 1];
      Paragraphs(lines[..|lines| - 1]) + (if !IsBlank(line) then [Convert(NoBreakIndent(line))] else [])
  }

  /** The loop over `ai_summary_content.split('\n')`. */
  method SummaryParagraphs(content: string) returns (paragraphs: seq<string>)
    ensures paragraphs == Paragraphs(Split(content, '\n'))
  {
    var lines := Split(content, '\n');
    paragraphs := [];
    var i := 0;
    while i < |lines|
      invariant 0 <= i <= |lines|
      invariant paragraphs == Paragraphs(lines[..i])
    {
      assert lines[..i + 1][..i] == lines[..i];
      var line := lines[i];
      if Strip(line) != "" {
        paragraphs := paragraphs + [Convert(Replace(line, Indent, NoBreak4))];
      }
      i := i + 1;
    }
    assert lines[..|lines|] == lines;
  }

  /** The non-blank lines, in order. */
  function NonBlank(lines: seq<string>): (r: seq<string>)
    ensures forall k | 0 <= k < |r| :: !IsBlank(r[k]) && r[k] in lines
    ensures forall l | l in lines && !IsBlank(l) :: l in r
    decreases |lines|
  {
    if lines == [] then []
    else
      var line := lines[|lines| - 1];
      NonBlank(lines[..|lines| - 1]) + (if !IsBlank(line) then [line] else [])
  }

  /** The paragraphs are exactly the non-blank lines, in order, each with its runs of four
      spaces made no-break and then converted. */
  lemma {:induction false} ParagraphsOfNonBlank(lines: seq<string>)
    ensures var nb := NonBlank(lines);
      |Paragraphs(lines)| == |nb|
      && forall k | 0 <= k < |nb| :: Paragraphs(lines)[k] == Convert(NoBreakIndent(nb[k]))
    decreases |lines|
  {
    if lines != [] {
      ParagraphsOfNonBlank(lines[..|lines| - 1]);
    }
  }

  /** A one-line non-blank summary is one paragraph. */
  lemma OneLineOneParagraph(content: string)
    requires '\n' !in content && !IsBlank(content)
    ensures Paragraphs(Split(content, '\n')) == [Convert(NoBreakIndent(content))]
  {
    SplitWithoutSeparator(content, '\n');
    assert [content][..0] == [];
  }

  lemma {:induction false} SplitWithoutSeparator(s: string, sep: char)
    requires sep !in s
    ensures Split(s, sep) == [s]
    decreases |s|
  {
    if s != [] {
      SplitWithoutSeparator(s[1..], sep);
      assert s == [s[0]] + s[1..];
    }
  }

  // ---------------------------------------------------------------------------------------
  // The "Detailed Log Entries" table

  /** One cell of the table: the entry's value for the column (`''` when missing), converted. */
  function Cell(row: Dict<string>, header: string): string {
    Convert(GetOr(row, header, ""))
  }

  /** `data_for_table`: the header row, then one row per entry whose cells are the entry's
      values for the headers (`''` when missing), converted. */
  method TableData(headers: seq<string>, rows: seq<Dict<string>>) returns (table: seq<seq<string>>)
    ensures |table| == 1 + |rows|
    ensures table[0] == headers
    ensures forall i | 1 <= i < |table| :: |table[i]| == |headers|
    ensures forall i, j | 1 <= i < |table| && 0 <= j < |headers| ::
      table[i][j] == Convert(GetOr(rows[i - 1], headers[j], ""))
  {
    table := [headers];
    var i := 0;
    while i < |rows|
      invariant 0 <= i <= |rows|
      invariant |table| == 1 + i && table[0] == headers
      invariant forall r | 1 <= r < |table| :: |table[r]| == |headers|
      invariant forall r, j | 1 <= r < |table| && 0 <= j < |headers| :: table[r][j] == Cell(rows[r - 1], headers[j])
    {
      var cells := [];
      var j := 0;
      while j < |headers|
        invariant 0 <= j <= |headers|
        invariant |cells| == j
        invariant forall c | 0 <= c < j :: cells[c] == Cell(rows[i], headers[c])
      {
        cells := cells + [Cell(rows[i], headers[j])];
        j := j + 1;
      }
      table := table + [cells];
      i := i + 1;
    }
  }

  /** The two background colours of body rows. */
  datatype Shade = Light | Dark

  /** `COLOR_TABLE_ROW_LIGHT if i % 2 == 1 else COLOR_TABLE_ROW_DARK` */
  function ShadeOf(i: int): Shade {
    if i % 2 == 1 then Light else Dark
  }

  /** The `BACKGROUND` entries the loop over `range(1, len(data_for_table))` appends, as (row,
      shade) pairs. */
  method RowShading(tableRows: nat) returns (shades: seq<(nat, Shade)>)
    ensures |shades| == if tableRows == 0 then 0 else tableRows - 1
    ensures forall k | 0 <= k < |shades| :: shades[k] == (k + 1, ShadeOf(k + 1))
  {
    shades := [];
    var i := 1;
    while i < tableRows
      invariant 1 <= i <= if tableRows == 0 then 1 else tableRows
      invariant |shades| == i - 1
      invariant forall k | 0 <= k < |shades| :: shades[k] == (k + 1, ShadeOf(k + 1))
    {
      var shade := if i % 2 == 1 then Light else Dark;
      shades := shades + [(i, shade)];
      i := i + 1;
    }
  }

  /** Every body row gets exactly one background, starting light and alternating; the header
      row gets none. */
  lemma ShadingAlternates(shades: seq<(nat, Shade)>, entries: nat)
    requires |shades| == entries
    requires forall k | 0 <= k < |shades| :: shades[k] == (k + 1, ShadeOf(k + 1))
    ensures forall k | 0 <= k < |shades| :: 1 <= shades[k].0 <= entries
    ensures entries > 0 ==> shades[0].1 == Light
    ensures forall k | 0 <= k < |shades| - 1 :: shades[k].1 != shades[k + 1].1
    ensures forall k | 0 <= k < |shades| :: (shades[k].1 == Light <==> shades[k].0 % 2 == 1)
  {
    forall k | 0 <= k < |shades| - 1
      ensures shades[k].1 != shades[k + 1].1
    {
      assert (k + 2) % 2 == k % 2;
    }
  }
}

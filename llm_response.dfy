/**
  `parse_llm_response_structured` (llm_analyzer.py): the labelled sections of a model reply are
  read line by line into five fields, followed by a guarded second pass over the raw lines.
 */
module LlmResponse {
  import opened Wrappers
  import opened Text
  import opened Dict

  /** The labels, in the order they are tried on each line. */
  const Labels: seq<string> := ["Explanation:", "Relevance:", "IoCs:", "Suggested Mitigation:", "Further Investigation Steps:"]
  /** The result key of each label. */
  const Fields: seq<string> := ["Explanation", "Relevance", "IoCs", "Mitigation", "Further_Investigation"]
  const NotAvailable := "N/A"

  /** The result before any label is seen. */
  const Initial: Dict<string> := [(Fields[0], NotAvailable), (Fields[1], NotAvailable), (Fields[2], NotAvailable),
                                  (Fields[3], NotAvailable), (Fields[4], NotAvailable)]

  /** Every label is non-empty and holds a colon; the result keys are distinct and the
      initial result has them in order. */
  lemma LabelsAndFields()
    ensures |Labels| == 5 && |Fields| == 5
    ensures forall k | 0 <= k < 5 :: Labels[k] != [] && ':' in Labels[k]
    ensures forall j, k | 0 <= j < k < 5 :: Fields[j] != Fields[k]
    ensures Keys(Initial) == Fields && UniqueKeys(Initial)
  {
    assert Labels[0][11] == ':' && Labels[1][9] == ':' && Labels[2][4] == ':';
    assert Labels[3][20] == ':' && Labels[4][27] == ':';
    InitialKeys();
  }

  lemma InitialKeys()
    ensures Keys(Initial) == Fields && UniqueKeys(Initial)
  {
    assert Fields[0][0] == 'E' && Fields[1][0] == 'R' && Fields[2][0] == 'I' && Fields[3][0] == 'M' && Fields[4][0] == 'F';
  }

  lemma LabelNonEmpty(k: nat)
    requires k < 5
    ensures Labels[k] != []
  {
    assert |Labels[k]| >= 5;
  }

  /** The first label, in list order, that `s` starts with (the inner search with its
      `break`). */
  function MatchLabel(s: string): (m: Option<nat>)
    ensures m.Some? ==> m.value < 5
  {
    MatchFrom(s, 0)
  }

  function MatchFrom(s: string, k: nat): (m: Option<nat>)
    requires k <= 5
    ensures m.Some? ==> k <= m.value < 5
    decreases 5 - k
  {
    if k == 5 then None else if StartsWith(s, Labels[k]) then Some(k) else MatchFrom(s, k + 1)
  }

  /** The label found is one the text starts with, and no earlier label in the list is; no
      label found means the text starts with none of them. */
  lemma MatchLabelIsFirst(s: string)
    ensures var m := MatchLabel(s);
      && (m.Some? ==> StartsWith(s, Labels[m.value]) && forall j | 0 <= j < m.value :: !StartsWith(s, Labels[j]))
      && (m.None? ==> forall j | 0 <= j < 5 :: !StartsWith(s, Labels[j]))
  {
    MatchFromIsFirst(s, 0);
  }

  lemma {:induction false} MatchFromIsFirst(s: string, k: nat)
    requires k <= 5
    ensures var m := MatchFrom(s, k);
      && (m.Some? ==> StartsWith(s, Labels[m.value]) && forall j | k <= j < m.value :: !StartsWith(s, Labels[j]))
      && (m.None? ==> forall j | k <= j < 5 :: !StartsWith(s, Labels[j]))
    decreases 5 - k
  {
    if k < 5 && !StartsWith(s, Labels[k]) {
      MatchFromIsFirst(s, k + 1);
    }
  }

  /** The label a line opens, judged on its stripped form. */
  function LabelOf(line: string): Option<nat> {
    MatchLabel(Strip(line))
  }

  /** The first piece of a section: the label line with every occurrence of the label removed. */
  function HeadText(line: string, k: nat): string
    requires k < 5
  {
    LabelNonEmpty(k);
    Strip(Replace(Strip(line), Labels[k], ""))
  }

  /** The state of the line loop: the result so far, the open section and its buffer. */
  datatype LineState = LineState(parsed: Dict<string>, current: Option<nat>, buffer: seq<string>)
  {
    predicate Valid() {
      (current.Some? ==> current.value < 5) && Keys(parsed) == Fields && UniqueKeys(parsed)
    }
  }

  /** Storing the open section, if any (the block before a new label and after the loop). */
  function Flush(st: LineState): (r: Dict<string>)
    requires st.Valid()
    ensures Keys(r) == Fields && UniqueKeys(r)
  {
    if st.current.Some? && st.buffer != [] then
      var r := Put(st.parsed, Fields[st.current.value], Strip(Join(st.buffer, " ")));
      assert HasKey(st.parsed, Fields[st.current.value]);
      r
    else st.parsed
  }

  /** What one line is to the loop: the start of a section with its label and head text, or
      the kept text that continues the open section (nothing for a blank line). */
  datatype LineKind = Opens(tag: nat, head: string) | Continues(kept: seq<string>)

  /** The kind of a line, judged on its stripped form. */
  function Classify(line: string): (kd: LineKind)
    ensures kd.Opens? ==> kd.tag < 5
  {
    var s := Strip(line);
    match MatchLabel(s)
    case Some(k) => Opens(k, HeadText(line, k))
    case None => Continues(if s == "" then [] else [s])
  }

  /** One iteration of the line loop, on the kind of the line: a label stores the open section
      and opens a new one; any other line extends the open section, if there is one. */
  function StepKind(st: LineState, kd: LineKind): (r: LineState)
    requires st.Valid() && (kd.Opens? ==> kd.tag < 5)
    ensures r.Valid()
  {
    match kd
    case Opens(k, head) => LineState(Flush(st), Some(k), [head])
    case Continues(kept) => if st.current.Some? then st.(buffer := st.buffer + kept) else st
  }

  function Step(st: LineState, line: string): (r: LineState)
    requires st.Valid()
    ensures r.Valid()
  {
    StepKind(st, Classify(line))
  }

  /** The loop state after `lines`, in order. */
  function Pass(lines: seq<string>): (r: LineState)
    ensures r.Valid()
    decreases |lines|
  {
    if lines == [] then InitialKeys(); LineState(Initial, None, [])
    else Step(Pass(lines[..|lines| - 1]), lines[|lines| - 1])
  }

  /** The result of the line pass, with the last section stored. */
  function LinePass(lines: seq<string>): (r: Dict<string>)
    ensures Keys(r) == Fields && UniqueKeys(r)
  {
    Flush(Pass(lines))
  }

  /** `line.split(":", 1)[1].strip() if ":" in line else line` */
  function AfterColon(line: string): string {
    var i := Find(line, ':');
    if i < |line| then Strip(line[i + 1..]) else line
  }

  /** One iteration of the second pass, on the raw line. */
  function FallbackStep(parsed: Dict<string>, line: string): (r: Dict<string>)
    requires Keys(parsed) == Fields && UniqueKeys(parsed)
    ensures Keys(r) == Fields && UniqueKeys(r)
  {
    match MatchLabel(line)
    case Some(k) => assert HasKey(parsed, Fields[k]); Put(parsed, Fields[k], AfterColon(line))
    case None => parsed
  }

  function FallbackPass(parsed: Dict<string>, lines: seq<string>): (r: Dict<string>)
    requires Keys(parsed) == Fields && UniqueKeys(parsed)
    ensures Keys(r) == Fields && UniqueKeys(r)
    decreases |lines|
  {
    if lines == [] then parsed else FallbackStep(FallbackPass(parsed, lines[..|lines| - 1]), lines[|lines| - 1])
  }

  /** `all(v == "N/A" for k, v in parsed.items() if k != "Mitigation" and k != "Further_Investigation")` */
  predicate AllPrimaryMissing(parsed: Dict<string>) {
    forall e | e in parsed && e.0 != "Mitigation" && e.0 != "Further_Investigation" :: e.1 == NotAvailable
  }

  /** One of the first three labels occurs anywhere in the text. */
  predicate MentionsPrimaryLabel(text: string) {
    Contains(text, Labels[0]) || Contains(text, Labels[1]) || Contains(text, Labels[2])
  }

  /** The whole function, as written: the "absolute fallback" is inside the guard. */
  function ParseResponse(text: string): (r: Dict<string>)
    ensures Keys(r) == Fields
  {
    LabelsAndFields();
    var lines := Split(text, '\n');
    var parsed := LinePass(lines);
    if AllPrimaryMissing(parsed) && MentionsPrimaryLabel(text) then
      var second := FallbackPass(parsed, lines);
      if Get(second, "Explanation") == Some(NotAvailable) && !IsBlank(text) then
        assert HasKey(second, Fields[0]);
        Put(second, "Explanation", text)
      else second
    else parsed
  }

  /** `parse_llm_response_structured` */
  method ParseLlmResponseStructured(text: string) returns (parsed: Dict<string>)
    ensures parsed == ParseResponse(text)
    ensures Keys(parsed) == Fields
  {
    LabelsAndFields();
    var lines := Split(text, '\n');
    var st := RunLines(lines);
    parsed := Flush(st);
    if AllPrimaryMissing(parsed) && MentionsPrimaryLabel(text) {
      parsed := RunFallback(parsed, lines);
      if Get(parsed, "Explanation") == Some(NotAvailable) && !IsBlank(text) {
        assert HasKey(parsed, Fields[0]);
        parsed := Put(parsed, "Explanation", text);
      }
    }
  }

  /** The `for line in lines` loop with its inner `for key_prefix` search. */
  method RunLines(lines: seq<string>) returns (st: LineState)
    ensures st == Pass(lines)
  {
    LabelsAndFields();
    var parsed := Initial;
    var current: Option<nat> := None;
    var buffer: seq<string> := [];
    var i := 0;
    while i < |lines|
      invariant 0 <= i <= |lines|
      invariant LineState(parsed, current, buffer) == Pass(lines[..i])
    {
      PassNext(lines, i);
      parsed, current, buffer := LineStep(parsed, current, buffer, lines[i]);
      i := i + 1;
    }
    WholeSlice(lines);
    st := LineState(parsed, current, buffer);
  }

  /** The body of the `for line in lines` loop. */
  method LineStep(parsed: Dict<string>, current: Option<nat>, buffer: seq<string>, line: string)
    returns (parsed': Dict<string>, current': Option<nat>, buffer': seq<string>)
    requires LineState(parsed, current, buffer).Valid()
    ensures LineState(parsed', current', buffer') == Step(LineState(parsed, current, buffer), line)
  {
    ghost var st := LineState(parsed, current, buffer);
    parsed', current', buffer' := parsed, current, buffer;
    var stripped := Strip(line);
    var m := FindLabel(stripped);
    if m.Some? {
      LabelNonEmpty(m.value);
      parsed' := Flush(LineState(parsed, current, buffer));
      current' := m;
      buffer' := [Strip(Replace(stripped, Labels[m.value], ""))];
      StepOnLabel(st, line, m.value, LineState(parsed', current', buffer'));
    } else {
      if current.Some? && stripped != "" {
        buffer' := buffer + [stripped];
      }
      StepOnOther(st, line, LineState(parsed', current', buffer'));
    }
  }

  /** What one iteration does on a label line. */
  lemma StepOnLabel(st: LineState, line: string, k: nat, r: LineState)
    requires st.Valid() && MatchLabel(Strip(line)) == Some(k) && k < 5
    requires r == LineState(Flush(st), Some(k), [Strip(Replace(Strip(line), Labels[k], ""))])
    ensures r == Step(st, line)
  {
  }

  /** What one iteration does on any other line. */
  lemma StepOnOther(st: LineState, line: string, r: LineState)
    requires st.Valid() && MatchLabel(Strip(line)) == None
    requires r == if st.current.Some? && Strip(line) != "" then st.(buffer := st.buffer + [Strip(line)]) else st
    ensures r == Step(st, line)
  {
  }

  lemma PassNext(lines: seq<string>, i: nat)
    requires i < |lines|
    ensures Pass(lines[..i + 1]) == Step(Pass(lines[..i]), lines[i])
  {
    assert lines[..i + 1][..i] == lines[..i];
  }

  /** The inner `for key_prefix in known_keys_in_order` search, which stops at the first match. */
  method FindLabel(stripped: string) returns (m: Option<nat>)
    ensures m == MatchLabel(stripped)
  {
    var k := 0;
    while k < 5
      invariant 0 <= k <= 5
      invariant MatchFrom(stripped, 0) == MatchFrom(stripped, k)
    {
      if StartsWith(stripped, Labels[k]) {
        return Some(k);
      }
      k := k + 1;
    }
    return None;
  }

  /** The second `for line in analysis_text.split('\n')` loop. */
  method RunFallback(start: Dict<string>, lines: seq<string>) returns (parsed: Dict<string>)
    requires Keys(start) == Fields && UniqueKeys(start)
    ensures parsed == FallbackPass(start, lines)
  {
    LabelsAndFields();
    parsed := start;
    var i := 0;
    while i < |lines|
      invariant 0 <= i <= |lines|
      invariant parsed == FallbackPass(start, lines[..i])
    {
      FallbackNext(start, lines, i);
      var line := lines[i];
      var m := MatchLabel(line);
      if m.Some? {
        assert HasKey(parsed, Fields[m.value]);
        parsed := Put(parsed, Fields[m.value], AfterColon(line));
      }
      i := i + 1;
    }
    WholeSlice(lines);
  }

  lemma FallbackNext(start: Dict<string>, lines: seq<string>, i: nat)
    requires Keys(start) == Fields && UniqueKeys(start) && i < |lines|
    ensures FallbackPass(start, lines[..i + 1]) == FallbackStep(FallbackPass(start, lines[..i]), lines[i])
  {
    assert lines[..i + 1][..i] == lines[..i];
  }

  // ---- What the line pass computes, stated per field ----

  /** The kind of each line, in order. */
  function Kinds(lines: seq<string>): (ks: seq<LineKind>)
    ensures |ks| == |lines|
    ensures forall i | 0 <= i < |ks| :: ks[i].Opens? ==> ks[i].tag < 5
    decreases |lines|
  {
    if lines == [] then [] else Kinds(lines[..|lines| - 1]) + [Classify(lines[|lines| - 1])]
  }

  /** The index of the last line that opens a section, if any. */
  function LastLabelLine(kinds: seq<LineKind>): (p: Option<nat>)
    ensures p.Some? ==> p.value < |kinds| && kinds[p.value].Opens?
    ensures p.Some? ==> forall q | p.value < q < |kinds| :: kinds[q].Continues?
    ensures p.None? ==> forall q | 0 <= q < |kinds| :: kinds[q].Continues?
    decreases |kinds|
  {
    if kinds == [] then None
    else if kinds[|kinds| - 1].Opens? then Some(|kinds| - 1)
    else LastLabelLine(kinds[..|kinds| - 1])
  }

  /** The index of the last line that opens a section for label `k`, if any. */
  function LastLineOf(kinds: seq<LineKind>, k: nat): (p: Option<nat>)
    ensures p.Some? ==> p.value < |kinds| && kinds[p.value].Opens? && kinds[p.value].tag == k
    ensures p.Some? ==> forall q | p.value < q < |kinds| :: !(kinds[q].Opens? && kinds[q].tag == k)
    ensures p.None? ==> forall q | 0 <= q < |kinds| :: !(kinds[q].Opens? && kinds[q].tag == k)
    decreases |kinds|
  {
    if kinds == [] then None
    else if kinds[|kinds| - 1].Opens? && kinds[|kinds| - 1].tag == k then Some(|kinds| - 1)
    else LastLineOf(kinds[..|kinds| - 1], k)
  }

  /** The index of the first label line after line `p`, or the number of lines. */
  function NextLabelLine(kinds: seq<LineKind>, p: nat): (r: nat)
    requires p < |kinds|
    ensures p < r <= |kinds|
    ensures r < |kinds| ==> kinds[r].Opens?
    ensures forall q | p < q < r :: kinds[q].Continues?
    decreases |kinds| - p
  {
    if p + 1 == |kinds| then |kinds|
    else if kinds[p + 1].Opens? then p + 1
    else NextLabelLine(kinds, p + 1)
  }

  /** The kept text of the continuation lines among `kinds`, in order. */
  function Continuation(kinds: seq<LineKind>): seq<string>
    decreases |kinds|
  {
    if kinds == [] then []
    else
      var last := kinds[|kinds| - 1];
      Continuation(kinds[..|kinds| - 1]) + (if last.Continues? then last.kept else [])
  }

  /** The text of the section that line `p` opens: its head and the kept lines up to the next
      label line, joined by spaces and stripped. */
  function SectionText(kinds: seq<LineKind>, p: nat): string
    requires p < |kinds| && kinds[p].Opens?
  {
    Strip(Join([kinds[p].head] + Continuation(kinds[p + 1..NextLabelLine(kinds, p)]), " "))
  }

  /** The value of field `k`: the section of the last line labelled `k`, or `N/A`. */
  function Value(kinds: seq<LineKind>, k: nat): string {
    match LastLineOf(kinds, k)
    case None => NotAvailable
    case Some(p) => SectionText(kinds, p)
  }

  /** What the loop state holds after lines of the given kinds: the open section is the one of
      the last label line, its buffer holds that line's head and the kept text after it, and
      every field of the result holds its value over the lines before that label line. */
  predicate Shaped(kinds: seq<LineKind>, st: LineState) {
    match LastLabelLine(kinds)
    case None => st == LineState(Initial, None, [])
    case Some(p) =>
      && st.current == Some(kinds[p].tag)
      && st.buffer == [kinds[p].head] + Continuation(kinds[p + 1..])
      && forall k | 0 <= k < 5 :: Get(st.parsed, Fields[k]) == Some(Value(kinds[..p], k))
  }

  /** One more line keeps the loop state shaped. */
  lemma ShapeStep(kinds: seq<LineKind>, kd: LineKind, st: LineState)
    requires st.Valid() && (kd.Opens? ==> kd.tag < 5) && Shaped(kinds, st)
    ensures Shaped(kinds + [kd], StepKind(st, kd))
  {
    if kd.Opens? {
      ShapeOpens(kinds, kd, st);
    } else {
      ShapeContinues(kinds, kd, st);
    }
  }

  /** A label line opens the section of its label, after the open one is stored. */
  lemma ShapeOpens(kinds: seq<LineKind>, kd: LineKind, st: LineState)
    requires st.Valid() && kd.Opens? && kd.tag < 5 && Shaped(kinds, st)
    ensures Shaped(kinds + [kd], StepKind(st, kd))
  {
    var all := kinds + [kd];
    var next := LineState(Flush(st), Some(kd.tag), [kd.head]);
    assert StepKind(st, kd) == next;
    LastLabelLineOpens(kinds, kd);
    FlushAll(kinds, st);
    assert all[..|kinds|] == kinds;
    assert all[|kinds| + 1..] == [];
    ShapedAt(all, next, |kinds|);
  }

  /** Any other line extends the open section, if there is one. */
  lemma ShapeContinues(kinds: seq<LineKind>, kd: LineKind, st: LineState)
    requires st.Valid() && kd.Continues? && Shaped(kinds, st)
    ensures Shaped(kinds + [kd], StepKind(st, kd))
  {
    LastLabelLineSkips(kinds, kd);
    match LastLabelLine(kinds)
    case None =>
    case Some(p) => ContinuesOpenSection(kinds, kd, st, p);
  }

  lemma ContinuesOpenSection(kinds: seq<LineKind>, kd: LineKind, st: LineState, p: nat)
    requires st.Valid() && kd.Continues? && Shaped(kinds, st) && LastLabelLine(kinds) == Some(p)
    requires LastLabelLine(kinds + [kd]) == Some(p)
    ensures Shaped(kinds + [kd], StepKind(st, kd))
  {
    var all := kinds + [kd];
    ShapedFacts(kinds, st, p);
    var next := st.(buffer := st.buffer + kd.kept);
    assert StepKind(st, kd) == next;
    assert all[..p] == kinds[..p];
    assert all[p] == kinds[p];
    ContinuationExtends(kinds, kd, p);
    AppendAfterHead(kinds[p].head, Continuation(kinds[p + 1..]), kd.kept);
    assert next.buffer == [all[p].head] + Continuation(all[p + 1..]);
    forall k | 0 <= k < 5 ensures Get(next.parsed, Fields[k]) == Some(Value(all[..p], k)) {
      assert Get(st.parsed, Fields[k]) == Some(Value(kinds[..p], k));
    }
    ShapedAt(all, next, p);
  }

  lemma AppendAfterHead(head: string, rest: seq<string>, kept: seq<string>)
    ensures ([head] + rest) + kept == [head] + (rest + kept)
  {
  }

  /** What a shaped state holds when some line opens a section. */
  lemma ShapedFacts(kinds: seq<LineKind>, st: LineState, p: nat)
    requires Shaped(kinds, st) && LastLabelLine(kinds) == Some(p)
    ensures st.current == Some(kinds[p].tag)
    ensures st.buffer == [kinds[p].head] + Continuation(kinds[p + 1..])
    ensures forall k | 0 <= k < 5 :: Get(st.parsed, Fields[k]) == Some(Value(kinds[..p], k))
  {
  }

  /** A state holding those facts is shaped. */
  lemma ShapedAt(kinds: seq<LineKind>, st: LineState, p: nat)
    requires LastLabelLine(kinds) == Some(p)
    requires st.current == Some(kinds[p].tag)
    requires st.buffer == [kinds[p].head] + Continuation(kinds[p + 1..])
    requires forall k | 0 <= k < 5 :: Get(st.parsed, Fields[k]) == Some(Value(kinds[..p], k))
    ensures Shaped(kinds, st)
  {
  }

  lemma LastLabelLineOpens(kinds: seq<LineKind>, kd: LineKind)
    requires kd.Opens?
    ensures LastLabelLine(kinds + [kd]) == Some(|kinds|)
  {
    var ks := kinds + [kd];
    assert |ks| - 1 == |kinds| && ks[|ks| - 1] == kd;
  }

  /** Storing the open section of a shaped state gives every field its value over the lines. */
  lemma FlushAll(kinds: seq<LineKind>, st: LineState)
    requires st.Valid() && Shaped(kinds, st)
    ensures forall k | 0 <= k < 5 :: Get(Flush(st), Fields[k]) == Some(Value(kinds, k))
  {
    forall k | 0 <= k < 5 ensures Get(Flush(st), Fields[k]) == Some(Value(kinds, k)) {
      FlushValues(kinds, st, k);
    }
  }

  lemma LastLabelLineSkips(kinds: seq<LineKind>, kd: LineKind)
    requires kd.Continues?
    ensures LastLabelLine(kinds + [kd]) == LastLabelLine(kinds)
  {
    assert (kinds + [kd])[..|kinds|] == kinds;
  }

  lemma ContinuationExtends(kinds: seq<LineKind>, kd: LineKind, p: nat)
    requires p < |kinds| && kd.Continues?
    ensures Continuation((kinds + [kd])[p + 1..]) == Continuation(kinds[p + 1..]) + kd.kept
  {
    var t := (kinds + [kd])[p + 1..];
    assert t[..|t| - 1] == kinds[p + 1..];
    assert t[|t| - 1] == kd;
  }

  /** Storing the open section of a shaped state gives every field its value over the lines. */
  lemma FlushValues(kinds: seq<LineKind>, st: LineState, k: nat)
    requires st.Valid() && Shaped(kinds, st) && k < 5
    ensures Get(Flush(st), Fields[k]) == Some(Value(kinds, k))
  {
    LabelsAndFields();
    match LastLabelLine(kinds)
    case None =>
      InitialValues(k);
    case Some(p) =>
      if k == kinds[p].tag {
        FlushOpenSection(kinds, st, p);
      } else {
        FlushOtherField(kinds, st, p, k);
      }
  }

  /** The open section is stored under its own field with the text of its lines. */
  lemma FlushOpenSection(kinds: seq<LineKind>, st: LineState, p: nat)
    requires st.Valid() && p < |kinds| && kinds[p].Opens? && kinds[p].tag < 5
    requires LastLabelLine(kinds) == Some(p)
    requires st.current == Some(kinds[p].tag) && st.buffer == [kinds[p].head] + Continuation(kinds[p + 1..])
    ensures Get(Flush(st), Fields[kinds[p].tag]) == Some(Value(kinds, kinds[p].tag))
  {
    var k := kinds[p].tag;
    LastLineOfIs(kinds, k, p);
    NextLabelLineIsEnd(kinds, p);
    LastSectionValue(kinds, k, p);
    FlushStores(st);
  }

  /** The value of the field of the last label line is the text of all the lines after it. */
  lemma LastSectionValue(kinds: seq<LineKind>, k: nat, p: nat)
    requires p < |kinds| && kinds[p].Opens?
    requires LastLineOf(kinds, k) == Some(p) && NextLabelLine(kinds, p) == |kinds|
    ensures Value(kinds, k) == Strip(Join([kinds[p].head] + Continuation(kinds[p + 1..]), " "))
  {
    ValueOfLast(kinds, k, p);
    SectionToEnd(kinds, p);
  }

  lemma ValueOfLast(kinds: seq<LineKind>, k: nat, p: nat)
    requires p < |kinds| && kinds[p].Opens? && LastLineOf(kinds, k) == Some(p)
    ensures Value(kinds, k) == SectionText(kinds, p)
  {
  }

  lemma SectionToEnd(kinds: seq<LineKind>, p: nat)
    requires p < |kinds| && kinds[p].Opens? && NextLabelLine(kinds, p) == |kinds|
    ensures SectionText(kinds, p) == Strip(Join([kinds[p].head] + Continuation(kinds[p + 1..]), " "))
  {
    assert kinds[p + 1..|kinds|] == kinds[p + 1..];
  }

  /** Storing an open section with a non-empty buffer writes its joined text under its field. */
  lemma FlushStores(st: LineState)
    requires st.Valid() && st.current.Some? && st.buffer != []
    ensures Get(Flush(st), Fields[st.current.value]) == Some(Strip(Join(st.buffer, " ")))
  {
  }

  lemma LastLineOfIs(kinds: seq<LineKind>, k: nat, p: nat)
    requires p < |kinds| && kinds[p].Opens? && kinds[p].tag == k
    requires forall q | p < q < |kinds| :: kinds[q].Continues?
    ensures LastLineOf(kinds, k) == Some(p)
  {
  }

  lemma NextLabelLineIsEnd(kinds: seq<LineKind>, p: nat)
    requires p < |kinds| && forall q | p < q < |kinds| :: kinds[q].Continues?
    ensures NextLabelLine(kinds, p) == |kinds|
  {
  }

  /** Every other field keeps the value it had before the open section's label line. */
  lemma FlushOtherField(kinds: seq<LineKind>, st: LineState, p: nat, k: nat)
    requires st.Valid() && p < |kinds| && kinds[p].Opens? && k < 5 && k != kinds[p].tag
    requires LastLabelLine(kinds) == Some(p) && st.current == Some(kinds[p].tag)
    requires Get(st.parsed, Fields[k]) == Some(Value(kinds[..p], k))
    ensures Get(Flush(st), Fields[k]) == Some(Value(kinds, k))
  {
    FlushKeepsOthers(st, k);
    forall q | p <= q < |kinds| ensures !(kinds[q].Opens? && kinds[q].tag == k) {
      if q > p {
        ContinuesAfterLastLabel(kinds, p, q);
      }
    }
    ValuePrefix(kinds, p, k);
  }

  lemma ContinuesAfterLastLabel(kinds: seq<LineKind>, p: nat, q: nat)
    requires LastLabelLine(kinds) == Some(p) && p < q < |kinds|
    ensures kinds[q].Continues?
  {
  }

  /** Storing the open section leaves every other field as it is. */
  lemma FlushKeepsOthers(st: LineState, k: nat)
    requires st.Valid() && k < 5 && st.current.Some? && k != st.current.value
    ensures Get(Flush(st), Fields[k]) == Get(st.parsed, Fields[k])
  {
    LabelsAndFields();
    assert Fields[k] != Fields[st.current.value];
  }

  /** A field whose label does not occur from line `p` on, where line `p` opens a section, has
      the same value over the lines before `p`. */
  lemma ValuePrefix(kinds: seq<LineKind>, p: nat, k: nat)
    requires p < |kinds| && kinds[p].Opens?
    requires forall q | p <= q < |kinds| :: !(kinds[q].Opens? && kinds[q].tag == k)
    ensures Value(kinds[..p], k) == Value(kinds, k)
  {
    LastLineOfPrefix(kinds, p, k);
    match LastLineOf(kinds, k)
    case None =>
    case Some(q) => SectionTextPrefix(kinds, p, q);
  }

  /** Cutting the lines at a later label line keeps the text of a section. */
  lemma SectionTextPrefix(kinds: seq<LineKind>, p: nat, q: nat)
    requires q < p < |kinds| && kinds[p].Opens? && kinds[q].Opens?
    ensures SectionText(kinds[..p], q) == SectionText(kinds, q)
  {
    var pre := kinds[..p];
    NextLabelLinePrefix(kinds, p, q);
    var n := NextLabelLine(kinds, q);
    assert pre[q] == kinds[q];
    assert pre[q + 1..n] == kinds[q + 1..n];
  }

  lemma {:induction false} PassShape(lines: seq<string>)
    ensures Shaped(Kinds(lines), Pass(lines))
    decreases |lines|
  {
    if lines != [] {
      var init := lines[..|lines| - 1];
      PassShape(init);
      ShapeStep(Kinds(init), Classify(lines[|lines| - 1]), Pass(init));
    }
  }

  /** Each field holds the text of the section of the last line that carries its label, or
      `N/A` when no line does. */
  lemma LinePassValues(lines: seq<string>, k: nat)
    requires k < 5
    ensures Get(LinePass(lines), Fields[k]) == Some(Value(Kinds(lines), k))
  {
    PassShape(lines);
    FlushValues(Kinds(lines), Pass(lines), k);
  }

  lemma InitialValues(k: nat)
    requires k < 5
    ensures Get(Initial, Fields[k]) == Some(NotAvailable)
  {
    LabelsAndFields();
    assert Initial[k] == (Fields[k], NotAvailable);
    assert IndexOf(Initial, Fields[k]) == k;
  }

  lemma {:induction false} LastLineOfPrefix(kinds: seq<LineKind>, m: nat, k: nat)
    requires m <= |kinds|
    requires forall q | m <= q < |kinds| :: !(kinds[q].Opens? && kinds[q].tag == k)
    ensures LastLineOf(kinds, k) == LastLineOf(kinds[..m], k)
    decreases |kinds|
  {
    if |kinds| > m {
      assert kinds[..|kinds| - 1][..m] == kinds[..m];
      LastLineOfPrefix(kinds[..|kinds| - 1], m, k);
    } else {
      assert kinds[..m] == kinds;
    }
  }

  /** Cutting the lines at a label line does not move the end of an earlier section. */
  lemma {:induction false} NextLabelLinePrefix(kinds: seq<LineKind>, m: nat, q: nat)
    requires q < m < |kinds| && kinds[m].Opens?
    ensures NextLabelLine(kinds, q) == NextLabelLine(kinds[..m], q)
    decreases m - q
  {
    if q + 1 < m && kinds[q + 1].Continues? {
      NextLabelLinePrefix(kinds, m, q + 1);
    }
  }

  // ---- The second pass and the fallbacks ----

  /** Each label ends in its only colon. */
  lemma LabelColon(k: nat)
    requires k < 5
    ensures |Labels[k]| >= 1 && Labels[k][|Labels[k]| - 1] == ':'
    ensures ':' !in Labels[k][..|Labels[k]| - 1]
  {
    if k == 0 {
      assert Labels[k][..|Labels[k]| - 1] == "Explanation";
    } else if k == 1 {
      assert Labels[k][..|Labels[k]| - 1] == "Relevance";
    } else if k == 2 {
      assert Labels[k][..|Labels[k]| - 1] == "IoCs";
    } else if k == 3 {
      assert Labels[k][..|Labels[k]| - 1] == "Suggested Mitigation";
    } else {
      assert Labels[k][..|Labels[k]| - 1] == "Further Investigation Steps";
    }
  }

  /** In the second pass a matched line always holds a colon, and the first one closes the label:
      the value is the rest of the line after the label, stripped. The `IndexError` handler and
      the `else line` branch are never reached. */
  lemma FallbackTakesRest(line: string, k: nat)
    requires k < 5 && StartsWith(line, Labels[k])
    ensures ':' in line
    ensures AfterColon(line) == Strip(line[|Labels[k]|..])
  {
    LabelColon(k);
    var n := |Labels[k]|;
    forall j | 0 <= j < n - 1 ensures line[j] != ':' {
      assert line[j] == Labels[k][..n - 1][j];
    }
    assert line[n - 1] == Labels[k][n - 1];
    FindIs(line, ':', n - 1);
  }

  /** The value the second pass leaves in field `k`: that of the last raw line that starts with
      label `k` (and with no earlier label in the list), or the value it started with. */
  function FallbackValue(start: Dict<string>, lines: seq<string>, k: nat): Option<string>
    requires k < 5
    decreases |lines|
  {
    if lines == [] then Get(start, Fields[k])
    else if MatchLabel(lines[|lines| - 1]) == Some(k) then Some(AfterColon(lines[|lines| - 1]))
    else FallbackValue(start, lines[..|lines| - 1], k)
  }

  lemma {:induction false} FallbackValues(start: Dict<string>, lines: seq<string>, k: nat)
    requires Keys(start) == Fields && UniqueKeys(start) && k < 5
    ensures Get(FallbackPass(start, lines), Fields[k]) == FallbackValue(start, lines, k)
    decreases |lines|
  {
    LabelsAndFields();
    if lines != [] {
      FallbackValues(start, lines[..|lines| - 1], k);
    }
  }

  /** A line that contains no label opens no section. */
  lemma NoLabelLine(line: string)
    requires forall k | 0 <= k < 5 :: !Contains(line, Labels[k])
    ensures LabelOf(line).None?
  {
    var s := Strip(line);
    MatchLabelIsFirst(s);
    forall j | 0 <= j < 5 ensures !StartsWith(s, Labels[j]) {
      if StartsWith(s, Labels[j]) {
        assert Contains(s, Labels[j]);
        StripContains(line, Labels[j]);
      }
    }
  }

  /** A reply that contains none of the labels mentions no primary label and opens no
      section. */
  lemma NoLabelNoSections(text: string)
    requires forall k | 0 <= k < 5 :: !Contains(text, Labels[k])
    ensures !MentionsPrimaryLabel(text)
    ensures LinePass(Split(text, '\n')) == Initial
  {
    var lines := Split(text, '\n');
    forall i, k | 0 <= i < |lines| && 0 <= k < 5 ensures !Contains(lines[i], Labels[k]) {
      if Contains(lines[i], Labels[k]) {
        SplitPartInside(text, '\n', i, Labels[k]);
      }
    }
    NoLabelKinds(lines);
    PassShape(lines);
  }

  lemma {:induction false} NoLabelKinds(lines: seq<string>)
    requires forall i, k | 0 <= i < |lines| && 0 <= k < 5 :: !Contains(lines[i], Labels[k])
    ensures LastLabelLine(Kinds(lines)).None?
    decreases |lines|
  {
    if lines != [] {
      var x := lines[|lines| - 1];
      NoLabelKinds(lines[..|lines| - 1]);
      NoLabelLine(x);
    }
  }

  /** A reply without any colon contains no label, since every label holds one. */
  lemma NoColonNoSections(text: string)
    requires ':' !in text
    ensures forall k | 0 <= k < 5 :: !Contains(text, Labels[k])
    ensures !MentionsPrimaryLabel(text)
    ensures LinePass(Split(text, '\n')) == Initial
  {
    LabelsAndFields();
    forall k | 0 <= k < 5 ensures !Contains(text, Labels[k]) {
      if Contains(text, Labels[k]) {
        ContainsKeepsChar(text, Labels[k], ':');
      }
    }
    NoLabelNoSections(text);
  }

  /** As written, a non-blank reply without labels loses its text: every field stays `N/A`,
      because the absolute fallback sits inside the guard that needs a primary label. */
  lemma UnlabelledReplyDropped(text: string)
    requires forall k | 0 <= k < 5 :: !Contains(text, Labels[k])
    ensures ParseResponse(text) == Initial
    ensures forall k | 0 <= k < 5 :: Get(ParseResponse(text), Fields[k]) == Some(NotAvailable)
  {
    NoLabelNoSections(text);
    forall k | 0 <= k < 5 ensures Get(Initial, Fields[k]) == Some(NotAvailable) {
      InitialValues(k);
    }
  }

  /** The function with the absolute fallback applied whatever the guard decided: a reply whose
      explanation is still `N/A` keeps its whole text as the explanation. */
  function ParseResponseIntended(text: string): (r: Dict<string>)
    ensures Keys(r) == Fields
    ensures !IsBlank(text) ==> Get(r, "Explanation") != Some(NotAvailable) || text == NotAvailable
  {
    LabelsAndFields();
    var lines := Split(text, '\n');
    var parsed := LinePass(lines);
    var guarded := if AllPrimaryMissing(parsed) && MentionsPrimaryLabel(text) then FallbackPass(parsed, lines) else parsed;
    assert HasKey(guarded, Fields[0]);
    if Get(guarded, "Explanation") == Some(NotAvailable) && !IsBlank(text) then Put(guarded, "Explanation", text)
    else guarded
  }

  /** The correction changes only replies whose explanation the written code leaves at `N/A`
      although the text is not blank; those now carry the text. */
  lemma IntendedAgrees(text: string)
    ensures Get(ParseResponse(text), "Explanation") != Some(NotAvailable) || IsBlank(text) ==>
      ParseResponseIntended(text) == ParseResponse(text)
    ensures (forall k | 0 <= k < 5 :: !Contains(text, Labels[k])) && !IsBlank(text) ==>
      Get(ParseResponseIntended(text), "Explanation") == Some(text)
  {
    LabelsAndFields();
    if forall k | 0 <= k < 5 :: !Contains(text, Labels[k]) {
      NoLabelNoSections(text);
      InitialValues(0);
    }
  }
}

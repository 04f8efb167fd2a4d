/**
  The statements and parameter lists that database.py builds: the status update of an uploaded
  file, the filtered page and count queries over parsed logs with their date bounds, the row
  of an analysis and the columns of a bulk insert. Running a statement is not modelled; a
  statement is its SQL text, kept as a sequence of literal pieces and `?` placeholders.
 */
module Queries {
  import opened Wrappers
  import opened Text
  import opened Dict
  import Timestamp
  import LlmResponse

  /** A value bound to a placeholder. */
  datatype SqlValue = SqlInt(n: int) | SqlStr(s: string)

  /** SQL text, cut at its `?` placeholders: `["a = ", " AND b = ", ""]` is `a = ? AND b = ?`;
      `[]` is the empty text. */
  type Sql = seq<string>

  /** The number of placeholders. */
  function Holes(q: Sql): nat {
    if q == [] then 0 else |q| - 1
  }

  /** The SQL text handed to SQLite. */
  function Render(q: Sql): string {
    Join(q, "?")
  }

  /** The text of `a` followed by the text of `b`. */
  function Cat(a: Sql, b: Sql): (r: Sql)
    ensures Holes(r) == Holes(a) + Holes(b)
  {
    if a == [] then b
    else if b == [] then a
    else a[..|a| - 1] + [a[|a| - 1] + b[0]] + b[1..]
  }

  /** `Cat` concatenates the texts. */
  lemma {:induction false} RenderCat(a: Sql, b: Sql)
    ensures Render(Cat(a, b)) == Render(a) + Render(b)
    decreases |a|
  {
    var r := Cat(a, b);
    if a == [] || b == [] {
    } else if |a| == 1 {
      assert r == [a[0] + b[0]] + b[1..];
      if |b| > 1 {
        assert r[1..] == b[1..];
        assert Join(b, "?") == b[0] + "?" + Join(b[1..], "?");
      }
    } else {
      assert r[0] == a[0] && r[1..] == Cat(a[1..], b);
      RenderCat(a[1..], b);
    }
  }

  /** In a statement whose pieces hold no question mark of their own, the question marks of
      the text are exactly its placeholders. */
  lemma {:induction false} RenderCount(q: Sql)
    requires forall i | 0 <= i < |q| :: '?' !in q[i]
    ensures Count(Render(q), '?') == Holes(q)
    decreases |q|
  {
    if q == [] {
    } else if |q| == 1 {
      CountAbsent(q[0], '?');
    } else {
      CountAbsent(q[0], '?');
      RenderCount(q[1..]);
      assert Count("?", '?') == 1 by {
        assert "?"[1..] == [];
      }
      CountAppend(q[0], "?", '?');
      CountAppend(q[0] + "?", Render(q[1..]), '?');
    }
  }

  /** `sep.join(parts)` */
  function JoinSql(parts: seq<Sql>, sep: Sql): (r: Sql)
    decreases |parts|
  {
    if parts == [] then []
    else if |parts| == 1 then parts[0]
    else Cat(Cat(JoinSql(parts[..|parts| - 1], sep), sep), parts[|parts| - 1])
  }

  /** The placeholders of all the parts together. */
  function SumHoles(parts: seq<Sql>): nat
    decreases |parts|
  {
    if parts == [] then 0 else SumHoles(parts[..|parts| - 1]) + Holes(parts[|parts| - 1])
  }

  /** A separator without placeholders adds none. */
  lemma {:induction false} JoinHoles(parts: seq<Sql>, sep: Sql)
    requires Holes(sep) == 0
    ensures Holes(JoinSql(parts, sep)) == SumHoles(parts)
    decreases |parts|
  {
    if |parts| == 1 {
      assert parts[..0] == [];
    } else if |parts| > 1 {
      JoinHoles(parts[..|parts| - 1], sep);
    }
  }

  lemma {:induction false} SumHolesAppend(a: seq<Sql>, b: seq<Sql>)
    ensures SumHoles(a + b) == SumHoles(a) + SumHoles(b)
    decreases |b|
  {
    if b == [] {
      assert a + b == a;
    } else {
      assert (a + b)[..|a + b| - 1] == a + b[..|b| - 1];
      SumHolesAppend(a, b[..|b| - 1]);
    }
  }

  // ---------------------------------------------------------------------------------------
  // update_log_file_status

  /** The columns `update_log_file_status` assigns, each with its value, in order. */
  function UpdateFields(status: string, total: Option<int>, parsed: Option<int>, analyzed: Option<int>,
                        error: Option<string>): Dict<SqlValue>
  {
    [("status", SqlStr(status))]
      + (if total.Some? then [("total_entries", SqlInt(total.value))] else [])
      + (if parsed.Some? then [("parsed_entries", SqlInt(parsed.value))] else [])
      + (if analyzed.Some? then [("analyzed_entries", SqlInt(analyzed.value))] else [])
      + (if error.Some? then [("error_message", SqlStr(error.value))] else [])
  }

  /** `f"{key} = ?"` */
  function Assignment(key: string): Sql {
    [key + " = ", ""]
  }

  function Assignments(keys: seq<string>): (r: seq<Sql>)
    ensures |r| == |keys|
  {
    seq(|keys|, i requires 0 <= i < |keys| => Assignment(keys[i]))
  }

  /** `f"UPDATE log_files SET {set_clause} WHERE file_id = ?"` */
  function UpdateStatement(keys: seq<string>): Sql {
    Cat(Cat(["UPDATE log_files SET "], JoinSql(Assignments(keys), [", "])), [" WHERE file_id = ", ""])
  }

  function Values(d: Dict<SqlValue>): (vs: seq<SqlValue>)
    ensures |vs| == |d|
  {
    seq(|d|, i requires 0 <= i < |d| => d[i].1)
  }

  /** `update_log_file_status`: the dictionary is filled by conditional assignments, then the
      statement and its values are built from it. */
  method UpdateLogFileStatus(fileId: int, status: string, total: Option<int>, parsed: Option<int>,
                             analyzed: Option<int>, error: Option<string>)
    returns (statement: Sql, values: seq<SqlValue>)
    ensures var fields := UpdateFields(status, total, parsed, analyzed, error);
      statement == UpdateStatement(Keys(fields)) && values == Values(fields) + [SqlInt(fileId)]
  {
    var fields: Dict<SqlValue> := [("status", SqlStr(status))];
    ghost var spec := fields;
    if total.Some? {
      fields := fields + [("total_entries", SqlInt(total.value))];
    }
    spec := spec + (if total.Some? then [("total_entries", SqlInt(total.value))] else []);
    assert fields == spec;
    if parsed.Some? {
      fields := fields + [("parsed_entries", SqlInt(parsed.value))];
    }
    spec := spec + (if parsed.Some? then [("parsed_entries", SqlInt(parsed.value))] else []);
    assert fields == spec;
    if analyzed.Some? {
      fields := fields + [("analyzed_entries", SqlInt(analyzed.value))];
    }
    spec := spec + (if analyzed.Some? then [("analyzed_entries", SqlInt(analyzed.value))] else []);
    assert fields == spec;
    if error.Some? {
      fields := fields + [("error_message", SqlStr(error.value))];
    }
    spec := spec + (if error.Some? then [("error_message", SqlStr(error.value))] else []);
    assert fields == spec;
    statement := UpdateStatement(Keys(fields));
    values := Values(fields) + [SqlInt(fileId)];
  }

  /** `status` is assigned first and each optional column exactly when its argument is
      given, in the order total, parsed, analyzed, error; the values follow the columns. */
  lemma UpdateColumns(status: string, total: Option<int>, parsed: Option<int>, analyzed: Option<int>,
                      error: Option<string>)
    ensures var fields := UpdateFields(status, total, parsed, analyzed, error);
      && Keys(fields) == ["status"]
           + (if total.Some? then ["total_entries"] else [])
           + (if parsed.Some? then ["parsed_entries"] else [])
           + (if analyzed.Some? then ["analyzed_entries"] else [])
           + (if error.Some? then ["error_message"] else [])
      && Values(fields) == [SqlStr(status)]
           + (if total.Some? then [SqlInt(total.value)] else [])
           + (if parsed.Some? then [SqlInt(parsed.value)] else [])
           + (if analyzed.Some? then [SqlInt(analyzed.value)] else [])
           + (if error.Some? then [SqlStr(error.value)] else [])
  {
    var p0: Dict<SqlValue> := [("status", SqlStr(status))];
    var p1: Dict<SqlValue> := if total.Some? then [("total_entries", SqlInt(total.value))] else [];
    var p2: Dict<SqlValue> := if parsed.Some? then [("parsed_entries", SqlInt(parsed.value))] else [];
    var p3: Dict<SqlValue> := if analyzed.Some? then [("analyzed_entries", SqlInt(analyzed.value))] else [];
    var p4: Dict<SqlValue> := if error.Some? then [("error_message", SqlStr(error.value))] else [];
    assert Keys(p0) == ["status"] && Values(p0) == [SqlStr(status)];
    ColumnAppended(p0, p1, if total.Some? then ["total_entries"] else [],
                   if total.Some? then [SqlInt(total.value)] else []);
    ColumnAppended(p0 + p1, p2, if parsed.Some? then ["parsed_entries"] else [],
                   if parsed.Some? then [SqlInt(parsed.value)] else []);
    ColumnAppended(p0 + p1 + p2, p3, if analyzed.Some? then ["analyzed_entries"] else [],
                   if analyzed.Some? then [SqlInt(analyzed.value)] else []);
    ColumnAppended(p0 + p1 + p2 + p3, p4, if error.Some? then ["error_message"] else [],
                   if error.Some? then [SqlStr(error.value)] else []);
  }

  /** Appending no column or one column appends its key and its value. */
  lemma ColumnAppended(d: Dict<SqlValue>, p: Dict<SqlValue>, ks: seq<string>, vs: seq<SqlValue>)
    requires (p == [] && ks == [] && vs == []) || (|p| == 1 && ks == [p[0].0] && vs == [p[0].1])
    ensures Keys(d + p) == Keys(d) + ks && Values(d + p) == Values(d) + vs
  {
  }

  /** A column other than `status` is assigned exactly when its value is given. */
  lemma UpdateAssignsGiven(status: string, total: Option<int>, parsed: Option<int>, analyzed: Option<int>,
                           error: Option<string>)
    ensures var ks := Keys(UpdateFields(status, total, parsed, analyzed, error));
      && (total.Some? <==> "total_entries" in ks)
      && (parsed.Some? <==> "parsed_entries" in ks)
      && (analyzed.Some? <==> "analyzed_entries" in ks)
      && (error.Some? <==> "error_message" in ks)
  {
    UpdateColumns(status, total, parsed, analyzed, error);
    ColumnNames(Keys(UpdateFields(status, total, parsed, analyzed, error)),
                total.Some?, parsed.Some?, analyzed.Some?, error.Some?);
  }

  /** Which optional column names a key list built as in update_log_file_status holds. */
  lemma ColumnNames(ks: seq<string>, t: bool, p: bool, a: bool, e: bool)
    requires ks == ["status"] + (if t then ["total_entries"] else []) + (if p then ["parsed_entries"] else [])
                  + (if a then ["analyzed_entries"] else []) + (if e then ["error_message"] else [])
    ensures (t <==> "total_entries" in ks) && (p <==> "parsed_entries" in ks)
      && (a <==> "analyzed_entries" in ks) && (e <==> "error_message" in ks)
  {
    var k1: seq<string> := ["status"] + (if t then ["total_entries"] else []);
    var k2 := k1 + (if p then ["parsed_entries"] else []);
    var k3 := k2 + (if a then ["analyzed_entries"] else []);
    var names := ["total_entries", "parsed_entries", "analyzed_entries", "error_message"];
    assert "status" !in names;
    assert "total_entries" != "parsed_entries" && "total_entries" != "analyzed_entries";
    assert "total_entries" != "error_message" && "parsed_entries" != "analyzed_entries";
    assert "parsed_entries" != "error_message" && "analyzed_entries" != "error_message";
    forall x | x in names
      ensures x in ks <==> (t && x == "total_entries") || (p && x == "parsed_entries")
                           || (a && x == "analyzed_entries") || (e && x == "error_message")
    {
      OptionalIn(["status"], t, "total_entries", x);
      OptionalIn(k1, p, "parsed_entries", x);
      OptionalIn(k2, a, "analyzed_entries", x);
      OptionalIn(k3, e, "error_message", x);
    }
  }

  lemma OptionalIn(a: seq<string>, c: bool, k: string, x: string)
    ensures x in a + (if c then [k] else []) <==> x in a || (c && x == k)
  {
  }

  /** Each assigned column is bound to the value given for it. */
  lemma UpdateBindsGiven(status: string, total: Option<int>, parsed: Option<int>, analyzed: Option<int>,
                         error: Option<string>)
    ensures var fields := UpdateFields(status, total, parsed, analyzed, error);
      && ("status", SqlStr(status)) in fields
      && (total.Some? ==> ("total_entries", SqlInt(total.value)) in fields)
      && (parsed.Some? ==> ("parsed_entries", SqlInt(parsed.value)) in fields)
      && (analyzed.Some? ==> ("analyzed_entries", SqlInt(analyzed.value)) in fields)
      && (error.Some? ==> ("error_message", SqlStr(error.value)) in fields)
  {
  }

  /** The statement has one placeholder per value, the file id last. */
  lemma UpdatePlaceholders(fileId: int, status: string, total: Option<int>, parsed: Option<int>,
                           analyzed: Option<int>, error: Option<string>)
    ensures var fields := UpdateFields(status, total, parsed, analyzed, error);
      Holes(UpdateStatement(Keys(fields))) == |Values(fields) + [SqlInt(fileId)]|
  {
    var keys := Keys(UpdateFields(status, total, parsed, analyzed, error));
    AssignmentHoles(keys);
    JoinHoles(Assignments(keys), [", "]);
  }

  lemma {:induction false} AssignmentHoles(keys: seq<string>)
    ensures SumHoles(Assignments(keys)) == |keys|
    decreases |keys|
  {
    if keys != [] {
      var init := keys[..|keys| - 1];
      assert Assignments(keys)[..|keys| - 1] == Assignments(init);
      AssignmentHoles(init);
    }
  }

  // ---------------------------------------------------------------------------------------
  // get_parsed_logs_for_file and get_parsed_log_count_for_file

  /** The optional filter arguments of both queries. */
  datatype Filters = Filters(keyword: Option<string>, eventId: Option<string>, level: Option<string>,
                             provider: Option<string>, dateStart: Option<string>, dateEnd: Option<string>)

  /** A filter applies when its argument is a non-empty string (Python truthiness). */
  predicate Truthy(v: Option<string>) {
    v.Some? && v.value != ""
  }

  /** The filters, in the order the source tests them. */
  datatype FilterKind = Keyword | EventId | Level | Provider | DateStart | DateEnd
  {
    function Rank(): nat {
      match this
      case Keyword => 0
      case EventId => 1
      case Level => 2
      case Provider => 3
      case DateStart => 4
      case DateEnd => 5
    }
  }

  function ValueOf(f: Filters, k: FilterKind): Option<string> {
    match k
    case Keyword => f.keyword
    case EventId => f.eventId
    case Level => f.level
    case Provider => f.provider
    case DateStart => f.dateStart
    case DateEnd => f.dateEnd
  }

  function When(k: FilterKind, v: Option<string>): seq<(FilterKind, string)> {
    if Truthy(v) then [(k, v.value)] else []
  }

  /** The filters that apply, each with its argument, in the order they are tested. */
  function Active(f: Filters): seq<(FilterKind, string)> {
    When(Keyword, f.keyword) + When(EventId, f.eventId) + When(Level, f.level)
      + When(Provider, f.provider) + When(DateStart, f.dateStart) + When(DateEnd, f.dateEnd)
  }

  /** The active filters among those of rank below `r`: each with its own truthy argument,
      in rank order, and every truthy one of them there. */
  predicate ActiveBelow(f: Filters, b: seq<(FilterKind, string)>, r: nat) {
    && (forall i | 0 <= i < |b| ::
          b[i].0.Rank() < r && Truthy(ValueOf(f, b[i].0)) && b[i].1 == ValueOf(f, b[i].0).value)
    && (forall i, j | 0 <= i < j < |b| :: b[i].0.Rank() < b[j].0.Rank())
    && (forall k: FilterKind | k.Rank() < r && Truthy(ValueOf(f, k)) :: (k, ValueOf(f, k).value) in b)
  }

  /** Testing the filter of the next rank keeps the active list in order and complete. */
  lemma TestFilter(f: Filters, b: seq<(FilterKind, string)>, k: FilterKind)
    requires ActiveBelow(f, b, k.Rank())
    ensures ActiveBelow(f, b + When(k, ValueOf(f, k)), k.Rank() + 1)
  {
    var c := b + When(k, ValueOf(f, k));
    forall k': FilterKind | k'.Rank() < k.Rank() + 1 && Truthy(ValueOf(f, k'))
      ensures (k', ValueOf(f, k').value) in c
    {
      if k'.Rank() < k.Rank() {
        var i :| 0 <= i < |b| && b[i] == (k', ValueOf(f, k').value);
        assert c[i] == b[i];
      } else {
        assert k' == k;
        assert c[|b|] == (k, ValueOf(f, k).value);
      }
    }
  }

  /** A filter is active exactly when its argument is truthy, then with that argument; the
      active filters keep the fixed order, so none is there twice. */
  lemma ActiveFilters(f: Filters)
    ensures forall i | 0 <= i < |Active(f)| ::
      Truthy(ValueOf(f, Active(f)[i].0)) && Active(f)[i].1 == ValueOf(f, Active(f)[i].0).value
    ensures forall k: FilterKind | Truthy(ValueOf(f, k)) :: (k, ValueOf(f, k).value) in Active(f)
    ensures forall i, j | 0 <= i < j < |Active(f)| :: Active(f)[i].0.Rank() < Active(f)[j].0.Rank()
  {
    ActiveIsBelow(f);
    var a := Active(f);
    forall k: FilterKind | Truthy(ValueOf(f, k)) ensures (k, ValueOf(f, k).value) in a {
      assert k.Rank() < 6;
    }
  }

  /** Testing the six filters in turn yields the active list of every rank. */
  lemma ActiveIsBelow(f: Filters)
    ensures ActiveBelow(f, Active(f), 6)
  {
    var b0 := When(Keyword, f.keyword);
    var b1 := b0 + When(EventId, f.eventId);
    var b2 := b1 + When(Level, f.level);
    var b3 := b2 + When(Provider, f.provider);
    var b4 := b3 + When(DateStart, f.dateStart);
    assert ActiveBelow(f, [], 0);
    TestFilter(f, [], Keyword);
    assert [] + b0 == b0;
    TestFilter(f, b0, EventId);
    TestFilter(f, b1, Level);
    TestFilter(f, b2, Provider);
    TestFilter(f, b3, DateStart);
    TestFilter(f, b4, DateEnd);
  }

  /** The clause each filter appends. */
  function ClauseOf(k: FilterKind): Sql {
    match k
    case Keyword => ["(pl.description LIKE ", " OR la.llm_explanation LIKE ", " OR pl.raw_summary_for_llm LIKE ", ")"]
    case EventId => ["LOWER(pl.event_id) = LOWER(", ")"]
    case Level => ["LOWER(pl.level) = LOWER(", ")"]
    case Provider => ["pl.provider LIKE ", ""]
    case DateStart => ["pl.timestamp >= ", ""]
    case DateEnd => ["pl.timestamp <= ", ""]
  }


  const FileClause: Sql := ["pl.file_id = ", ""]
  const And: Sql := [" AND "]
  /** The select list and join of the page query, up to its `WHERE`. */
  const PageHead: Sql :=
    ["SELECT pl.log_id, pl.timestamp, pl.event_id, pl.provider, pl.level, pl.computer, pl.description, "
       + "pl.raw_summary_for_llm, la.llm_explanation, la.llm_relevance, la.llm_iocs "
       + "FROM parsed_logs pl LEFT JOIN llm_analysis la ON pl.log_id = la.log_id WHERE "]
  const PageTail: Sql := [" ORDER BY pl.timestamp ASC, pl.log_id ASC LIMIT ", " OFFSET ", ""]
  const CountHead: Sql :=
    ["SELECT COUNT(DISTINCT pl.log_id) FROM parsed_logs pl LEFT JOIN llm_analysis la ON pl.log_id = la.log_id WHERE "]

  /** `f"%{v}%"`: a `LIKE` pattern matching any text containing `v`. */
  function Like(v: string): string {
    "%" + v + "%"
  }

  /** `f"{date_start}T00:00:00.000"`, meant as the start of the day. */
  function StartBound(d: string): string {
    d + "T00:00:00.000"
  }

  /** `f"{date_end}T23:59:59.999"`, meant as the end of the day. */
  function EndBound(d: string): string {
    d + "T23:59:59.999"
  }

  /** The parameters each filter appends. */
  function ArgsOf(k: FilterKind, v: string): seq<SqlValue> {
    match k
    case Keyword => [SqlStr(Like(v)), SqlStr(Like(v)), SqlStr(Like(v))]
    case EventId => [SqlStr(v)]
    case Level => [SqlStr(v)]
    case Provider => [SqlStr(Like(v))]
    case DateStart => [SqlStr(StartBound(v))]
    case DateEnd => [SqlStr(EndBound(v))]
  }

  /** The keyword clause has three placeholders, every other clause one, and each clause has
      as many placeholders as its filter appends parameters. */
  lemma ClauseHoles(k: FilterKind, v: string)
    ensures Holes(ClauseOf(k)) == |ArgsOf(k, v)| == if k == Keyword then 3 else 1
  {
  }

  function Clauses(a: seq<(FilterKind, string)>): (cs: seq<Sql>)
    ensures |cs| == |a|
  {
    seq(|a|, i requires 0 <= i < |a| => ClauseOf(a[i].0))
  }

  function FilterArgs(a: seq<(FilterKind, string)>): seq<SqlValue>
    decreases |a|
  {
    if a == [] then [] else FilterArgs(a[..|a| - 1]) + ArgsOf(a[|a| - 1].0, a[|a| - 1].1)
  }

  /** The clauses of both queries: the file clause, then one per active filter. */
  function WhereClauses(f: Filters): seq<Sql> {
    [FileClause] + Clauses(Active(f))
  }

  /** The parameters of both queries' clauses: the file id, then those of the active filters. */
  function WhereParams(fileId: int, f: Filters): seq<SqlValue> {
    [SqlInt(fileId)] + FilterArgs(Active(f))
  }

  function WhereSql(f: Filters): Sql {
    JoinSql(WhereClauses(f), And)
  }

  /** `(page - 1) * page_size` */
  function Offset(page: int, pageSize: int): int {
    (page - 1) * pageSize
  }

  function PageQuery(f: Filters): (q: Sql)
    ensures Holes(q) == Holes(WhereSql(f)) + 2
  {
    Cat(Cat(PageHead, WhereSql(f)), PageTail)
  }

  function PageParams(fileId: int, page: int, pageSize: int, f: Filters): seq<SqlValue> {
    WhereParams(fileId, f) + [SqlInt(pageSize), SqlInt(Offset(page, pageSize))]
  }

  function CountQuery(f: Filters): (q: Sql)
    ensures Holes(q) == Holes(WhereSql(f))
  {
    Cat(CountHead, WhereSql(f))
  }

  /** One filter test extends the clauses and parameters by those of the filter, if it applies. */
  lemma Applied(fileId: int, done: seq<(FilterKind, string)>, k: FilterKind, v: Option<string>)
    ensures [FileClause] + Clauses(done + When(k, v))
      == [FileClause] + Clauses(done) + (if Truthy(v) then [ClauseOf(k)] else [])
    ensures [SqlInt(fileId)] + FilterArgs(done + When(k, v))
      == [SqlInt(fileId)] + FilterArgs(done) + (if Truthy(v) then ArgsOf(k, v.value) else [])
  {
    var extra: seq<Sql> := if Truthy(v) then [ClauseOf(k)] else [];
    var more := if Truthy(v) then ArgsOf(k, v.value) else [];
    ClausesWhen(done, k, v);
    ArgsWhen(done, k, v);
    ConsAppend(FileClause, Clauses(done), extra);
    ConsAppend(SqlInt(fileId), FilterArgs(done), more);
  }

  lemma ConsAppend<T>(x: T, a: seq<T>, b: seq<T>)
    ensures [x] + (a + b) == [x] + a + b
  {
  }

  lemma ClausesWhen(done: seq<(FilterKind, string)>, k: FilterKind, v: Option<string>)
    ensures Clauses(done + When(k, v)) == Clauses(done) + (if Truthy(v) then [ClauseOf(k)] else [])
  {
    if Truthy(v) {
      var c := done + When(k, v);
      assert c[|done|] == (k, v.value);
      assert Clauses(c) == Clauses(done) + [ClauseOf(k)];
    } else {
      assert done + When(k, v) == done;
    }
  }

  lemma ArgsWhen(done: seq<(FilterKind, string)>, k: FilterKind, v: Option<string>)
    ensures FilterArgs(done + When(k, v)) == FilterArgs(done) + (if Truthy(v) then ArgsOf(k, v.value) else [])
  {
    var c := done + When(k, v);
    if Truthy(v) {
      assert c[..|c| - 1] == done;
      assert c[|c| - 1] == (k, v.value);
    } else {
      assert c == done;
    }
  }

  /** The conditional appends to `where_clauses` and `params`, the same in both functions. */
  method BuildWhere(fileId: int, f: Filters) returns (clauses: seq<Sql>, params: seq<SqlValue>)
    ensures clauses == WhereClauses(f) && params == WhereParams(fileId, f)
  {
    clauses := [FileClause];
    params := [SqlInt(fileId)];
    ghost var done: seq<(FilterKind, string)> := [];
    assert clauses == [FileClause] + Clauses(done) && params == [SqlInt(fileId)] + FilterArgs(done);
    Applied(fileId, done, Keyword, f.keyword);
    clauses, params := AddFilter(clauses, params, Keyword, f.keyword);
    done := done + When(Keyword, f.keyword);
    Applied(fileId, done, EventId, f.eventId);
    clauses, params := AddFilter(clauses, params, EventId, f.eventId);
    done := done + When(EventId, f.eventId);
    Applied(fileId, done, Level, f.level);
    clauses, params := AddFilter(clauses, params, Level, f.level);
    done := done + When(Level, f.level);
    Applied(fileId, done, Provider, f.provider);
    clauses, params := AddFilter(clauses, params, Provider, f.provider);
    done := done + When(Provider, f.provider);
    Applied(fileId, done, DateStart, f.dateStart);
    clauses, params := AddFilter(clauses, params, DateStart, f.dateStart);
    done := done + When(DateStart, f.dateStart);
    Applied(fileId, done, DateEnd, f.dateEnd);
    clauses, params := AddFilter(clauses, params, DateEnd, f.dateEnd);
    done := done + When(DateEnd, f.dateEnd);
    assert [] + When(Keyword, f.keyword) == When(Keyword, f.keyword);
    assert done == Active(f);
  }

  /** One `if filter:` block: a truthy argument appends the filter's clause and parameters. */
  method AddFilter(clauses: seq<Sql>, params: seq<SqlValue>, k: FilterKind, v: Option<string>)
    returns (clauses': seq<Sql>, params': seq<SqlValue>)
    ensures clauses' == clauses + (if Truthy(v) then [ClauseOf(k)] else [])
    ensures params' == params + (if Truthy(v) then ArgsOf(k, v.value) else [])
  {
    clauses', params' := clauses, params;
    if Truthy(v) {
      clauses' := clauses' + [ClauseOf(k)];
      match k
      case Keyword =>
        var pattern := Like(v.value);
        params' := params' + [SqlStr(pattern), SqlStr(pattern), SqlStr(pattern)];
      case EventId =>
        params' := params' + [SqlStr(v.value)];
      case Level =>
        params' := params' + [SqlStr(v.value)];
      case Provider =>
        params' := params' + [SqlStr(Like(v.value))];
      case DateStart =>
        params' := params' + [SqlStr(StartBound(v.value))];
      case DateEnd =>
        params' := params' + [SqlStr(EndBound(v.value))];
    }
  }

  /** `get_parsed_logs_for_file`: the page query and its parameters. */
  method GetParsedLogsQuery(fileId: int, page: int, pageSize: int, f: Filters)
    returns (query: Sql, params: seq<SqlValue>)
    ensures query == PageQuery(f) && params == PageParams(fileId, page, pageSize, f)
  {
    var offset := (page - 1) * pageSize;
    var clauses;
    clauses, params := BuildWhere(fileId, f);
    var whereSql := JoinSql(clauses, And);
    query := Cat(Cat(PageHead, whereSql), PageTail);
    params := params + [SqlInt(pageSize), SqlInt(offset)];
  }

  /** `get_parsed_log_count_for_file`: the count query and its parameters. */
  method GetParsedLogCountQuery(fileId: int, f: Filters) returns (query: Sql, params: seq<SqlValue>)
    ensures query == CountQuery(f) && params == WhereParams(fileId, f)
  {
    var clauses;
    clauses, params := BuildWhere(fileId, f);
    query := Cat(CountHead, JoinSql(clauses, And));
  }

  /** Each filter's parameters match its clause's placeholders. */
  lemma {:induction false} ActiveHoles(a: seq<(FilterKind, string)>)
    ensures SumHoles(Clauses(a)) == |FilterArgs(a)|
    decreases |a|
  {
    if a != [] {
      var init := a[..|a| - 1];
      assert Clauses(a)[..|a| - 1] == Clauses(init);
      ActiveHoles(init);
      ClauseHoles(a[|a| - 1].0, a[|a| - 1].1);
    }
  }

  /** The number of parameters the filters `a` append: three for the keyword, one for any other. */
  function Weight(a: seq<(FilterKind, string)>): nat
    decreases |a|
  {
    if a == [] then 0 else Weight(a[..|a| - 1]) + (if a[|a| - 1].0 == Keyword then 3 else 1)
  }

  lemma {:induction false} ArgsWeight(a: seq<(FilterKind, string)>)
    ensures |FilterArgs(a)| == Weight(a)
    decreases |a|
  {
    if a != [] {
      ArgsWeight(a[..|a| - 1]);
      ClauseHoles(a[|a| - 1].0, a[|a| - 1].1);
    }
  }

  /** Every applying filter adds one clause and the keyword three parameters, any other one;
      both statements have exactly one placeholder per parameter; the page parameters start
      with the file id and end with the page size and the offset, and without those two they
      are the parameters of the count query. */
  lemma QueryPlaceholders(fileId: int, page: int, pageSize: int, f: Filters)
    ensures |WhereClauses(f)| == 1 + |Active(f)|
    ensures |WhereParams(fileId, f)| == 1 + Weight(Active(f))
    ensures Holes(PageQuery(f)) == |PageParams(fileId, page, pageSize, f)|
    ensures Holes(CountQuery(f)) == |WhereParams(fileId, f)|
    ensures var ps := PageParams(fileId, page, pageSize, f);
      && ps[0] == SqlInt(fileId)
      && ps[|ps| - 2..] == [SqlInt(pageSize), SqlInt((page - 1) * pageSize)]
      && ps[..|ps| - 2] == WhereParams(fileId, f)
  {
    var a := Active(f);
    ArgsWeight(a);
    ActiveHoles(a);
    SumHolesAppend([FileClause], Clauses(a));
    assert SumHoles([FileClause]) == 1 by {
      assert [FileClause][..0] == [];
    }
    JoinHoles(WhereClauses(f), And);
    TwoAppended(WhereParams(fileId, f), SqlInt(pageSize), SqlInt((page - 1) * pageSize));
  }

  /** Two values appended after `a` are its last two, and `a` is what precedes them. */
  lemma TwoAppended<T>(a: seq<T>, x: T, y: T)
    ensures var s := a + [x, y];
      |s| == |a| + 2 && s[|s| - 2..] == [x, y] && s[..|s| - 2] == a && (a != [] ==> s[0] == a[0])
  {
  }

  // ---------------------------------------------------------------------------------------
  // The date bounds against stored timestamps

  /** `a < b` on strings. */
  predicate LexLess(a: string, b: string) {
    LexLeq(a, b) && a != b
  }

  lemma {:induction false} LexRefl(a: string)
    ensures LexLeq(a, a)
    decreases |a|
  {
    if a != [] {
      LexRefl(a[1..]);
    }
  }

  /** Strings that agree before position `i` compare as their characters at `i`. */
  lemma {:induction false} LexFirstDiff(a: string, b: string, i: nat)
    requires i < |a| && i < |b| && a[..i] == b[..i] && a[i] != b[i]
    ensures LexLeq(a, b) <==> a[i] < b[i]
    decreases i
  {
    if i > 0 {
      assert a[0] == a[..i][0] == b[..i][0] == b[0];
      assert a[1..][..i - 1] == a[..i][1..] == b[..i][1..] == b[1..][..i - 1];
      LexFirstDiff(a[1..], b[1..], i - 1);
    }
  }

  /** A common prefix does not change the comparison. */
  lemma {:induction false} LexCommonPrefix(p: string, a: string, b: string)
    ensures LexLeq(p + a, p + b) <==> LexLeq(a, b)
    decreases |p|
  {
    if p != [] {
      assert (p + a)[1..] == p[1..] + a && (p + b)[1..] == p[1..] + b;
      LexCommonPrefix(p[1..], a, b);
    } else {
      assert p + a == a && p + b == b;
    }
  }

  /** Character-by-character `<=` on equal lengths gives `<=`. */
  lemma {:induction false} LexPointwise(a: string, b: string)
    requires |a| == |b| && forall i | 0 <= i < |a| :: a[i] <= b[i]
    ensures LexLeq(a, b)
    decreases |a|
  {
    if a != [] && a[0] == b[0] {
      LexPointwise(a[1..], b[1..]);
    }
  }

  /** Two different strings of one length differ first somewhere. */
  lemma {:induction false} FirstDiff(a: string, b: string) returns (i: nat)
    requires |a| == |b| && a != b
    ensures i < |a| && a[..i] == b[..i] && a[i] != b[i]
    decreases |a|
  {
    if a[0] != b[0] {
      i := 0;
    } else {
      assert a[1..] != b[1..] by {
        assert a == [a[0]] + a[1..] && b == [b[0]] + b[1..];
      }
      var j := FirstDiff(a[1..], b[1..]);
      i := j + 1;
      assert a[..i] == [a[0]] + a[1..][..j] && b[..i] == [b[0]] + b[1..][..j];
    }
  }

  /** A timestamp of another day compares with any bound of day `d` as its date does. */
  lemma OtherDay(d: string, suffix: string, ts: string)
    requires |d| == 10 && |ts| >= 10 && ts[..10] != d
    ensures LexLeq(d + suffix, ts) <==> LexLeq(d, ts[..10])
    ensures LexLeq(ts, d + suffix) <==> LexLeq(ts[..10], d)
  {
    var i := FirstDiff(d, ts[..10]);
    var bound := d + suffix;
    assert bound[..i] == d[..i] && bound[i] == d[i];
    assert ts[..i] == ts[..10][..i] && ts[i] == ts[..10][i];
    LexFirstDiff(bound, ts, i);
    LexFirstDiff(d, ts[..10], i);
    LexFirstDiff(ts, bound, i);
    LexFirstDiff(ts[..10], d, i);
  }

  /** A timestamp of day `d` compares with a bound of day `d` as their times do. */
  lemma SameDay(d: string, suffix: string, ts: string)
    requires |ts| >= 10 && ts[..10] == d
    ensures LexLeq(d + suffix, ts) <==> LexLeq(suffix, ts[10..])
    ensures LexLeq(ts, d + suffix) <==> LexLeq(ts[10..], suffix)
  {
    assert ts == d + ts[10..];
    LexCommonPrefix(d, suffix, ts[10..]);
    LexCommonPrefix(d, ts[10..], suffix);
  }

  /** What the date filters select, as written: a stored timestamp (which has a space between
      date and time) passes `pl.timestamp >= StartBound(d1) AND pl.timestamp <= EndBound(d2)`
      exactly when its date is strictly after `d1` and not after `d2`. Every entry of the
      start day is lost; in particular a one-day range `d1 == d2` selects nothing. */
  lemma DateRangeAsWritten(d1: string, d2: string, ts: string)
    requires |d1| == 10 && |d2| == 10 && Timestamp.Canonical(ts)
    ensures LexLeq(StartBound(d1), ts) <==> LexLess(d1, ts[..10])
    ensures LexLeq(ts, EndBound(d2)) <==> LexLeq(ts[..10], d2)
    ensures d1 == d2 ==> !(LexLeq(StartBound(d1), ts) && LexLeq(ts, EndBound(d2)))
  {
    if ts[..10] == d1 {
      SameDay(d1, "T00:00:00.000", ts);
      LexFirstDiff("T00:00:00.000", ts[10..], 0);
    } else {
      OtherDay(d1, "T00:00:00.000", ts);
    }
    if ts[..10] == d2 {
      SameDay(d2, "T23:59:59.999", ts);
      LexFirstDiff(ts[10..], "T23:59:59.999", 0);
      LexRefl(d2);
    } else {
      OtherDay(d2, "T23:59:59.999", ts);
    }
    if d1 == d2 && ts[..10] != d1 && LexLeq(d1, ts[..10]) && LexLeq(ts[..10], d2) {
      LexAntisym(d1, ts[..10]);
    }
  }

  lemma {:induction false} LexAntisym(a: string, b: string)
    requires LexLeq(a, b) && LexLeq(b, a)
    ensures a == b
    decreases |a|
  {
    if a != [] {
      LexAntisym(a[1..], b[1..]);
      assert a == [a[0]] + a[1..] && b == [b[0]] + b[1..];
    }
  }

  /** The start of day `d` in the stored format. */
  function StartBoundIntended(d: string): string {
    d + " 00:00:00.000"
  }

  /** With the stored separator in the lower bound, the date filters select exactly the
      timestamps whose date lies between `d1` and `d2`, both days included. */
  lemma DateRangeIntended(d1: string, d2: string, ts: string)
    requires |d1| == 10 && |d2| == 10 && Timestamp.Canonical(ts)
    ensures LexLeq(StartBoundIntended(d1), ts) && LexLeq(ts, EndBound(d2))
      <==> LexLeq(d1, ts[..10]) && LexLeq(ts[..10], d2)
  {
    if ts[..10] == d1 {
      SameDay(d1, " 00:00:00.000", ts);
      var time := ts[10..];
      forall i | 0 <= i < 13 ensures " 00:00:00.000"[i] <= time[i] {
        assert time[i] == ts[10 + i];
      }
      LexPointwise(" 00:00:00.000", time);
      LexRefl(d1);
    } else {
      OtherDay(d1, " 00:00:00.000", ts);
    }
    DateRangeAsWritten(d1, d2, ts);
  }

  // ---------------------------------------------------------------------------------------
  // add_llm_analysis and bulk_insert_parsed_logs

  /** The insert of `add_llm_analysis`, between its placeholders. */
  const AnalysisInsert: Sql :=
    ["INSERT INTO llm_analysis (log_id, llm_explanation, llm_relevance, llm_iocs, analysis_timestamp) VALUES (",
     ", ", ", ", ", ", ", ", ") "]

  /** `add_llm_analysis`: the row stored for one analysis, given the current time. A field
      the result lacks is stored as `N/A`. */
  function AnalysisParams(logId: int, results: Dict<string>, now: string): (ps: seq<SqlValue>)
    ensures |ps| == Holes(AnalysisInsert) == 5 && ps[0] == SqlInt(logId) && ps[4] == SqlStr(now)
    ensures forall i | 1 <= i <= 3 :: ps[i].SqlStr?
    ensures forall i | 1 <= i <= 3 :: !HasKey(results, LlmResponse.Fields[i - 1]) ==> ps[i] == SqlStr("N/A")
    ensures forall i | 1 <= i <= 3 :: HasKey(results, LlmResponse.Fields[i - 1]) ==> (LlmResponse.Fields[i - 1], ps[i].s) in results
  {
    assert LlmResponse.Fields[0] == "Explanation" && LlmResponse.Fields[1] == "Relevance" && LlmResponse.Fields[2] == "IoCs";
    [SqlInt(logId), SqlStr(GetOr(results, "Explanation", "N/A")), SqlStr(GetOr(results, "Relevance", "N/A")),
     SqlStr(GetOr(results, "IoCs", "N/A")), SqlStr(now)]
  }

  /** A result with exactly the parser's keys supplies all three stored fields itself, so no
      default applies. */
  lemma StoredFields(logId: int, r: Dict<string>, now: string)
    requires Keys(r) == LlmResponse.Fields
    ensures forall i | 1 <= i <= 3 :: AnalysisParams(logId, r, now)[i] == SqlStr(Get(r, LlmResponse.Fields[i - 1]).value)
  {
    LlmResponse.LabelsAndFields();
    assert UniqueKeys(r) by {
      forall i, j | 0 <= i < j < |r| ensures r[i].0 != r[j].0 {
        assert r[i].0 == Keys(r)[i] && r[j].0 == Keys(r)[j];
      }
    }
    forall i | 1 <= i <= 3 ensures AnalysisParams(logId, r, now)[i] == SqlStr(Get(r, LlmResponse.Fields[i - 1]).value) {
      var k := LlmResponse.Fields[i - 1];
      assert Keys(r)[i - 1] == k;
      GetUnique(r, k, AnalysisParams(logId, r, now)[i].s);
    }
  }

  /** What is stored for a reply: its three parsed fields. */
  lemma AnalysisStored(logId: int, text: string, now: string)
    ensures var r := LlmResponse.ParseResponse(text);
      forall i | 1 <= i <= 3 :: AnalysisParams(logId, r, now)[i] == SqlStr(Get(r, LlmResponse.Fields[i - 1]).value)
  {
    StoredFields(logId, LlmResponse.ParseResponse(text), now);
  }

  /** A reply that contains none of the labels is stored as three `N/A` fields. */
  lemma UnlabelledReplyStored(logId: int, text: string, now: string)
    requires forall k | 0 <= k < 5 :: !Contains(text, LlmResponse.Labels[k])
    ensures forall i | 1 <= i <= 3 :: AnalysisParams(logId, LlmResponse.ParseResponse(text), now)[i] == SqlStr("N/A")
  {
    LlmResponse.UnlabelledReplyDropped(text);
    StoredUnavailable(logId, LlmResponse.ParseResponse(text), now);
  }

  /** With the corrected parser, the same reply is stored with its whole text as the
      explanation. */
  lemma UnlabelledReplyStoredIntended(logId: int, text: string, now: string)
    requires (forall k | 0 <= k < 5 :: !Contains(text, LlmResponse.Labels[k])) && !IsBlank(text)
    ensures AnalysisParams(logId, LlmResponse.ParseResponseIntended(text), now)[1] == SqlStr(text)
  {
    LlmResponse.IntendedAgrees(text);
    LlmResponse.LabelsAndFields();
    StoredFields(logId, LlmResponse.ParseResponseIntended(text), now);
  }

  lemma StoredUnavailable(logId: int, r: Dict<string>, now: string)
    requires Keys(r) == LlmResponse.Fields
    requires forall k | 0 <= k < 5 :: Get(r, LlmResponse.Fields[k]) == Some(LlmResponse.NotAvailable)
    ensures forall i | 1 <= i <= 3 :: AnalysisParams(logId, r, now)[i] == SqlStr("N/A")
  {
    StoredFields(logId, r, now);
  }

  /** In a dictionary with distinct keys, a key's entry is the one `Get` finds. */
  lemma GetUnique(d: Dict<string>, k: string, v: string)
    requires UniqueKeys(d) && (k, v) in d
    ensures Get(d, k) == Some(v)
  {
    var i :| 0 <= i < |d| && d[i] == (k, v);
    assert Keys(d)[i] == k;
    var r := Get(d, k);
    var j :| 0 <= j < |d| && d[j] == (k, r.value);
    assert Keys(d)[j] == k;
  }

  /** The columns of `parsed_logs` a bulk insert may fill, in table order. */
  const DbColumns: seq<string> :=
    ["file_id", "timestamp", "event_id", "provider", "level", "computer", "description", "raw_summary_for_llm"]

  /** A data frame of decoded records: its column names and its number of rows. */
  datatype LogFrame = LogFrame(columns: seq<string>, height: nat)

  /** `df.empty`: no rows or no columns. */
  predicate Empty(df: LogFrame) {
    df.height == 0 || df.columns == []
  }

  /** `df['file_id'] = file_id`: the column is overwritten in place or appended. */
  function WithFileId(columns: seq<string>): (r: seq<string>)
    ensures "file_id" in r
    ensures forall c :: c in r <==> c in columns || c == "file_id"
  {
    if "file_id" in columns then columns else columns + ["file_id"]
  }

  /** `[col for col in names if col in present]` */
  function Keep(names: seq<string>, present: seq<string>): (r: seq<string>)
    ensures forall c :: c in r <==> c in names && c in present
    decreases |names|
  {
    if names == [] then []
    else (if names[0] in present then [names[0]] else []) + Keep(names[1..], present)
  }

  /** `r` is `xs` with some elements left out, the rest in their order. */
  predicate SubseqOf(r: seq<string>, xs: seq<string>)
    decreases |xs|
  {
    if r == [] then true
    else if xs == [] then false
    else if r[0] == xs[0] then SubseqOf(r[1..], xs[1..])
    else SubseqOf(r, xs[1..])
  }

  lemma {:induction false} KeepIsSubseq(names: seq<string>, present: seq<string>)
    ensures SubseqOf(Keep(names, present), names)
    decreases |names|
  {
    if names != [] {
      KeepIsSubseq(names[1..], present);
      var rest := Keep(names[1..], present);
      if names[0] !in present {
        assert Keep(names, present) == rest;
        SubseqSkip(rest, names);
      } else {
        assert Keep(names, present) == [names[0]] + rest;
        assert ([names[0]] + rest)[1..] == rest;
      }
    }
  }

  /** Skipping the first element keeps a subsequence a subsequence. */
  lemma {:induction false} SubseqSkip(r: seq<string>, xs: seq<string>)
    requires xs != [] && SubseqOf(r, xs[1..])
    ensures SubseqOf(r, xs)
    decreases |xs|, 0
  {
    if r != [] && r[0] == xs[0] {
      // matching the head greedily leaves r[1..] to be found in xs[1..]
      SubseqTail(r, xs[1..]);
    }
  }

  /** A subsequence without its first element is still one. */
  lemma {:induction false} SubseqTail(r: seq<string>, xs: seq<string>)
    requires r != [] && SubseqOf(r, xs)
    ensures SubseqOf(r[1..], xs)
    decreases |xs|, 1
  {
    if r[0] != xs[0] {
      SubseqTail(r, xs[1..]);
      SubseqSkip(r[1..], xs);
    } else if r[1..] != [] {
      SubseqSkip(r[1..], xs);
    }
  }

  /** The columns the insert writes. */
  function InsertedColumns(columns: seq<string>): seq<string> {
    Keep(DbColumns, WithFileId(columns))
  }

  /** What the insert yields: the number of rows written, or the exception `to_sql` raised,
      which is passed on to the caller. */
  datatype InsertOutcome = Inserted(count: nat) | InsertRaised(error: string)

  /** `bulk_insert_parsed_logs`, with the outcome of `to_sql` as a parameter (`None` when it
      succeeded). */
  function BulkInsertParsedLogs(df: LogFrame, writeError: Option<string>): (r: InsertOutcome)
    ensures Empty(df) ==> r == Inserted(0)
    ensures !Empty(df) && writeError.None? ==> r == Inserted(df.height) && r.count > 0
    ensures !Empty(df) && writeError.Some? ==> r == InsertRaised(writeError.value)
  {
    if Empty(df) then Inserted(0)
    else if writeError.Some? then InsertRaised(writeError.value)
    else Inserted(df.height)
  }

  /** The written columns are the table's columns present in the frame, in table order, always
      led by `file_id`. */
  lemma InsertedColumnsShape(columns: seq<string>)
    ensures SubseqOf(InsertedColumns(columns), DbColumns)
    ensures forall c :: c in InsertedColumns(columns) <==> c in DbColumns && (c in columns || c == "file_id")
    ensures InsertedColumns(columns) != [] && InsertedColumns(columns)[0] == "file_id"
  {
    KeepIsSubseq(DbColumns, WithFileId(columns));
    assert DbColumns[0] == "file_id";
  }
}

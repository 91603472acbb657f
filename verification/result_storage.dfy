/** The statement `Storage.QueryResults` builds
    (internal/result/result_storage.go): a fixed SELECT over the stored
    results, one clause and one argument per filter that is set, newest
    first, and an optional limit. Reading the rows is not part of this
    model. */
module ResultStorage {
  import opened Outcomes
  import opened Text
  import opened SqlQuery

  /** The filters; a time or flag that is `None` and a risk level that is
      "" are unset. */
  datatype ResultQuery = ResultQuery(
    startTime: Option<int>,
    endTime: Option<int>,
    riskLevel: string,
    isWebshell: Option<bool>,
    limit: int)

  /** The statement before any filter, with the source's line breaks and
      tabs, in pieces short enough to inspect one at a time. */
  const BASE := SELECT_1 + SELECT_2 + COLUMNS_1 + COLUMNS_2 + COLUMNS_3 + COLUMNS_4 + FROM_LINE + WHERE_LINE

  const SELECT_1 := "\n\t\tSELECT file_path, is_webshell, "
  const SELECT_2 := "risk_level, total_score,\n"
  const COLUMNS_1 := "\t\t       feature_score, "
  const COLUMNS_2 := "behavior_score, ml_score,\n"
  const COLUMNS_3 := "\t\t       matched_features, "
  const COLUMNS_4 := "behaviors, scan_time\n"
  const FROM_LINE := "\t\tFROM scan_results\n"
  const WHERE_LINE := "\t\tWHERE 1=1\n\t"

  /** The base statement binds nothing. */
  lemma BaseHasNoPlaceholder()
    ensures CountChar(BASE, '?') == 0
  {
    SelectUnbound();
    ColumnsUnbound();
    LinesUnbound();
    CountCharZeroIffAbsent(BASE, '?');
  }

  lemma SelectUnbound()
    ensures '?' !in SELECT_1 && '?' !in SELECT_2
  {
  }

  lemma ColumnsUnbound()
    ensures '?' !in COLUMNS_1 && '?' !in COLUMNS_2 && '?' !in COLUMNS_3 && '?' !in COLUMNS_4
  {
  }

  lemma LinesUnbound()
    ensures '?' !in FROM_LINE && '?' !in WHERE_LINE
  {
  }

  const AFTER_START := " AND scan_time >= ?"
  const BEFORE_END := " AND scan_time <= ?"
  const AT_LEVEL := " AND risk_level = ?"
  const WEBSHELL_IS := " AND is_webshell = ?"
  const NEWEST_FIRST := " ORDER BY scan_time DESC"
  const LIMIT := " LIMIT ?"

  /** Each filter's argument, when the filter is set. */
  function StartArg(query: ResultQuery): Option<Arg> {
    match query.startTime
    case None => None
    case Some(t) => Some(TimeArg(t))
  }

  function EndArg(query: ResultQuery): Option<Arg> {
    match query.endTime
    case None => None
    case Some(t) => Some(TimeArg(t))
  }

  function LevelArg(query: ResultQuery): Option<Arg> {
    if query.riskLevel == "" then None else Some(TextArg(query.riskLevel))
  }

  function WebshellArg(query: ResultQuery): Option<Arg> {
    match query.isWebshell
    case None => None
    case Some(b) => Some(BoolArg(b))
  }

  /** The arguments the set filters bind, in the order the clauses are
      added: start, end, risk level, webshell flag. */
  function FilterArgs(query: ResultQuery): seq<Arg> {
    Opt(StartArg(query)) + Opt(EndArg(query)) + Opt(LevelArg(query)) + Opt(WebshellArg(query))
  }

  lemma ClausesHaveOnePlaceholder()
    ensures CountChar(AFTER_START, '?') == 1 && CountChar(BEFORE_END, '?') == 1
    ensures CountChar(AT_LEVEL, '?') == 1 && CountChar(WEBSHELL_IS, '?') == 1
  {
    StartClause();
    EndClause();
    LevelClause();
    WebshellClause();
  }

  lemma StartClause() ensures CountChar(AFTER_START, '?') == 1 { OnePlaceholder(AFTER_START); }
  lemma EndClause() ensures CountChar(BEFORE_END, '?') == 1 { OnePlaceholder(BEFORE_END); }
  lemma LevelClause() ensures CountChar(AT_LEVEL, '?') == 1 { OnePlaceholder(AT_LEVEL); }
  lemma WebshellClause() ensures CountChar(WEBSHELL_IS, '?') == 1 { OnePlaceholder(WEBSHELL_IS); }
  lemma LimitClause() ensures CountChar(LIMIT, '?') == 1 { OnePlaceholder(LIMIT); }
  lemma OrderClause() ensures '?' !in NEWEST_FIRST { }

  /** The filter text: start, end, risk level, webshell flag, each clause
      present exactly when its filter is set. */
  function FilterText(query: ResultQuery): string {
    IfSet(StartArg(query), AFTER_START) + IfSet(EndArg(query), BEFORE_END)
      + IfSet(LevelArg(query), AT_LEVEL) + IfSet(WebshellArg(query), WEBSHELL_IS)
  }

  /** The limit clause, present exactly when the limit is positive. */
  function LimitText(query: ResultQuery): string {
    if query.limit > 0 then LIMIT else ""
  }

  /** The filter clauses, one per set filter, in the source's order. */
  function Clauses(query: ResultQuery): (q: Query)
    ensures Balanced(q)
    ensures q.args == FilterArgs(query)
    ensures q.sql == FilterText(query)
  {
    ClausesHaveOnePlaceholder();
    var q0 := Query("", []);
    var q1 := BindIf(q0, AFTER_START, StartArg(query));
    var q2 := BindIf(q1, BEFORE_END, EndArg(query));
    var q3 := BindIf(q2, AT_LEVEL, LevelArg(query));
    var q4 := BindIf(q3, WEBSHELL_IS, WebshellArg(query));
    assert q1.args == Opt(StartArg(query));
    assert q1.sql == IfSet(StartArg(query), AFTER_START);
    q4
  }

  /** `QueryResults`' statement: the filters, newest first, then the limit
      when it is positive. Every placeholder has exactly one argument. */
  function BuildQuery(query: ResultQuery): (q: Query)
    ensures Balanced(q)
    ensures StartsWith(q.sql, BASE)
    ensures |q.args| == |FilterArgs(query)| + (if query.limit > 0 then 1 else 0)
    ensures query.limit > 0 ==> q.args == FilterArgs(query) + [IntArg(query.limit)] && EndsWith(q.sql, NEWEST_FIRST + LIMIT)
    ensures query.limit <= 0 ==> q.args == FilterArgs(query) && EndsWith(q.sql, NEWEST_FIRST)
    ensures q.sql == BASE + (FilterText(query) + NEWEST_FIRST + LimitText(query))
  {
    var t := Tail(query);
    BaseHasNoPlaceholder();
    CountCharAppend(BASE, t.sql, '?');
    EndsWithExtended(BASE, t.sql, NEWEST_FIRST + LIMIT);
    EndsWithExtended(BASE, t.sql, NEWEST_FIRST);
    Query(BASE + t.sql, t.args)
  }

  /** Everything after the base statement. */
  function Tail(query: ResultQuery): (t: Query)
    ensures Balanced(t)
    ensures query.limit > 0 ==> t.args == FilterArgs(query) + [IntArg(query.limit)] && EndsWith(t.sql, NEWEST_FIRST + LIMIT)
    ensures query.limit <= 0 ==> t.args == FilterArgs(query) && EndsWith(t.sql, NEWEST_FIRST)
    ensures t.sql == FilterText(query) + NEWEST_FIRST + LimitText(query)
  {
    var ordered := Ordered(query);
    if query.limit > 0 then
      LimitClause();
      var limited := Bind(ordered, LIMIT, IntArg(query.limit));
      SuffixesJoin(Clauses(query).sql, NEWEST_FIRST, LIMIT);
      limited
    else
      assert ordered.sql + "" == ordered.sql;
      ordered
  }

  /** The filter clauses followed by the sort clause. */
  function Ordered(query: ResultQuery): (q: Query)
    ensures Balanced(q) && q.args == FilterArgs(query)
    ensures q.sql == Clauses(query).sql + NEWEST_FIRST
    ensures EndsWith(q.sql, NEWEST_FIRST)
  {
    OrderClause();
    var c := Clauses(query);
    SuffixesJoin(c.sql, "", NEWEST_FIRST);
    Append(c, NEWEST_FIRST)
  }

  /** Text appended after text ending in `p` ends in `p` followed by it. */
  lemma SuffixesJoin(a: string, p: string, x: string)
    ensures EndsWith(a + p + x, p + x)
    ensures a + p + x == a + (p + x)
  {
    assert (a + p + x)[|a|..] == p + x;
  }

  /** With no filter and no limit the statement is the base, newest first. */
  lemma NoFiltersNoArgs()
    ensures BuildQuery(ResultQuery(None, None, "", None, 0)) == Query(BASE + NEWEST_FIRST, [])
  {
  }

  /** Setting the risk-level filter adds exactly one argument and one
      placeholder, whatever else is set. */
  lemma LevelFilterAddsOne(query: ResultQuery, level: string)
    requires query.riskLevel == "" && level != ""
    ensures |BuildQuery(query.(riskLevel := level)).args| == |BuildQuery(query).args| + 1
    ensures CountChar(BuildQuery(query.(riskLevel := level)).sql, '?') == CountChar(BuildQuery(query).sql, '?') + 1
  {
    var other := query.(riskLevel := level);
    assert |Opt(LevelArg(other))| == |Opt(LevelArg(query))| + 1;
    assert StartArg(other) == StartArg(query) && EndArg(other) == EndArg(query);
    assert WebshellArg(other) == WebshellArg(query);
    assert |FilterArgs(other)| == |FilterArgs(query)| + 1;
  }
}

/** The statement `Manager.QueryHistory` builds
    (internal/history/query.go): a fixed SELECT over the scan history, one
    bound clause per filter that is set, a sort clause spliced in from the
    options, and optional paging. Reading and decoding the rows is not part
    of this model. */
module HistoryQuery {
  import opened Outcomes
  import opened Text
  import opened SqlQuery

  /** The options; a time that is `None` and a text that is "" are unset. */
  datatype QueryOptions = QueryOptions(
    startTime: Option<int>,
    endTime: Option<int>,
    scanType: string,
    scanID: string,
    limit: int,
    offset: int,
    sortBy: string,
    sortOrder: string)

  /** The statement before any filter, with the source's line breaks and
      tabs, in pieces short enough to inspect one at a time. */
  const BASE := SELECT_1 + SELECT_2 + COLUMNS_1 + COLUMNS_2 + COLUMNS_3 + COLUMNS_4 + COLUMNS_5 + COLUMNS_6
    + FROM_LINE + WHERE_LINE

  const SELECT_1 := "\n\t\tSELECT scan_id, scan_type, "
  const SELECT_2 := "start_time, end_time,\n"
  const COLUMNS_1 := "\t\t       total_files, webshell_count, "
  const COLUMNS_2 := "high_risk_count,\n"
  const COLUMNS_3 := "\t\t       medium_risk_count, "
  const COLUMNS_4 := "low_risk_count,\n"
  const COLUMNS_5 := "\t\t       scan_config, scan_results, "
  const COLUMNS_6 := "error_message\n"
  const FROM_LINE := "\t\tFROM scan_history\n"
  const WHERE_LINE := "\t\tWHERE 1=1\n\t"

  /** The base statement binds nothing. */
  lemma BaseHasNoPlaceholder()
    ensures CountChar(BASE, '?') == 0
  {
    SelectUnbound();
    ColumnsUnbound();
    assert '?' !in FROM_LINE && '?' !in WHERE_LINE;
    CountCharZeroIffAbsent(BASE, '?');
  }

  lemma SelectUnbound()
    ensures '?' !in SELECT_1 && '?' !in SELECT_2
  {
  }

  lemma ColumnsUnbound()
    ensures '?' !in COLUMNS_1 && '?' !in COLUMNS_2 && '?' !in COLUMNS_3
    ensures '?' !in COLUMNS_4 && '?' !in COLUMNS_5 && '?' !in COLUMNS_6
  {
    FirstColumnsUnbound();
    LastColumnsUnbound();
  }

  lemma FirstColumnsUnbound()
    ensures '?' !in COLUMNS_1 && '?' !in COLUMNS_2 && '?' !in COLUMNS_3
  {
  }

  lemma LastColumnsUnbound()
    ensures '?' !in COLUMNS_4 && '?' !in COLUMNS_5 && '?' !in COLUMNS_6
  {
  }

  const AFTER_START := " AND start_time >= ?"
  const BEFORE_END := " AND end_time <= ?"
  const OF_TYPE := " AND scan_type = ?"
  const WITH_ID := " AND scan_id = ?"
  const ORDER_BY := " ORDER BY "
  const NEWEST_FIRST := " ORDER BY start_time DESC"
  const LIMIT := " LIMIT ?"
  const OFFSET := " OFFSET ?"

  lemma StartClause() ensures CountChar(AFTER_START, '?') == 1 { OnePlaceholder(AFTER_START); }
  lemma EndClause() ensures CountChar(BEFORE_END, '?') == 1 { OnePlaceholder(BEFORE_END); }
  lemma TypeClause() ensures CountChar(OF_TYPE, '?') == 1 { OnePlaceholder(OF_TYPE); }
  lemma IdClause() ensures CountChar(WITH_ID, '?') == 1 { OnePlaceholder(WITH_ID); }
  lemma LimitClause() ensures CountChar(LIMIT, '?') == 1 { OnePlaceholder(LIMIT); }
  lemma OffsetClause() ensures CountChar(OFFSET, '?') == 1 { OnePlaceholder(OFFSET); }

  /** Each filter's argument, when the filter is set. */
  function StartArg(opts: QueryOptions): Option<Arg> {
    match opts.startTime
    case None => None
    case Some(t) => Some(TimeArg(t))
  }

  function EndArg(opts: QueryOptions): Option<Arg> {
    match opts.endTime
    case None => None
    case Some(t) => Some(TimeArg(t))
  }

  function TypeArg(opts: QueryOptions): Option<Arg> {
    if opts.scanType == "" then None else Some(TextArg(opts.scanType))
  }

  function IdArg(opts: QueryOptions): Option<Arg> {
    if opts.scanID == "" then None else Some(TextArg(opts.scanID))
  }

  /** The paging arguments: the limit when it is positive, and the offset
      only when both are. */
  function LimitArg(opts: QueryOptions): Option<Arg> {
    if opts.limit > 0 then Some(IntArg(opts.limit)) else None
  }

  function OffsetArg(opts: QueryOptions): Option<Arg> {
    if opts.limit > 0 && opts.offset > 0 then Some(IntArg(opts.offset)) else None
  }

  /** The arguments the set filters bind, in the order the clauses are
      added: start, end, scan type, scan id. */
  function FilterArgs(opts: QueryOptions): seq<Arg> {
    Opt(StartArg(opts)) + Opt(EndArg(opts)) + Opt(TypeArg(opts)) + Opt(IdArg(opts))
  }

  function PagingArgs(opts: QueryOptions): seq<Arg> {
    Opt(LimitArg(opts)) + Opt(OffsetArg(opts))
  }

  /** The filter text: start, end, scan type, scan id, each clause present
      exactly when its filter is set. */
  function FilterText(opts: QueryOptions): string {
    IfSet(StartArg(opts), AFTER_START) + IfSet(EndArg(opts), BEFORE_END)
      + IfSet(TypeArg(opts), OF_TYPE) + IfSet(IdArg(opts), WITH_ID)
  }

  /** The paging text: the limit clause when the limit is positive, then
      the offset clause when both are. */
  function PagingText(opts: QueryOptions): string {
    IfSet(LimitArg(opts), LIMIT) + IfSet(OffsetArg(opts), OFFSET)
  }

  /** The filter clauses, one per set filter, in the source's order. */
  function Clauses(opts: QueryOptions): (q: Query)
    ensures Balanced(q)
    ensures q.args == FilterArgs(opts)
    ensures q.sql == FilterText(opts)
  {
    StartClause();
    EndClause();
    TypeClause();
    IdClause();
    var q0 := Query("", []);
    var q1 := BindIf(q0, AFTER_START, StartArg(opts));
    var q2 := BindIf(q1, BEFORE_END, EndArg(opts));
    var q3 := BindIf(q2, OF_TYPE, TypeArg(opts));
    var q4 := BindIf(q3, WITH_ID, IdArg(opts));
    assert q1.args == Opt(StartArg(opts));
    assert q1.sql == IfSet(StartArg(opts), AFTER_START);
    q4
  }

  /** The placeholders the sort options splice into the statement: those
      of the sort column, and of the direction when it is used. */
  function SortPlaceholders(opts: QueryOptions): nat {
    if opts.sortBy == "" then 0
    else CountChar(opts.sortBy, '?') + (if opts.sortOrder == "" then 0 else CountChar(opts.sortOrder, '?'))
  }

  lemma SortKeywordsUnbound()
    ensures CountChar(ORDER_BY, '?') == 0 && CountChar(" ", '?') == 0
  {
    assert '?' !in ORDER_BY;
    CountCharZeroIffAbsent(ORDER_BY, '?');
  }

  lemma DefaultOrderUnbound()
    ensures CountChar(NEWEST_FIRST, '?') == 0
  {
    assert '?' !in NEWEST_FIRST;
    CountCharZeroIffAbsent(NEWEST_FIRST, '?');
  }

  /** The sort clause: the column and direction verbatim when a column is
      given, newest first otherwise (a direction alone is ignored). */
  function OrderClause(opts: QueryOptions): (r: string)
    ensures StartsWith(r, ORDER_BY)
    ensures CountChar(r, '?') == SortPlaceholders(opts)
    ensures opts.sortBy == "" ==> r == NEWEST_FIRST
    ensures opts.sortBy != "" ==>
      r == ORDER_BY + opts.sortBy + (if opts.sortOrder == "" then "" else " " + opts.sortOrder)
  {
    if opts.sortBy == "" then
      DefaultOrderUnbound();
      DefaultOrderIsOrderBy();
      NEWEST_FIRST
    else SortedBy(opts.sortBy, opts.sortOrder)
  }

  lemma DefaultOrderIsOrderBy()
    ensures StartsWith(NEWEST_FIRST, ORDER_BY)
  {
    assert NEWEST_FIRST == ORDER_BY + "start_time DESC";
  }

  /** An explicit sort: the column, then the direction when there is one,
      both spliced in as given. */
  function SortedBy(column: string, direction: string): (r: string)
    ensures StartsWith(r, ORDER_BY + column)
    ensures CountChar(r, '?') == CountChar(column, '?') + (if direction == "" then 0 else CountChar(direction, '?'))
    ensures r == ORDER_BY + column + (if direction == "" then "" else " " + direction)
  {
    SortKeywordsUnbound();
    CountCharAppend(ORDER_BY, column, '?');
    var head := ORDER_BY + column;
    var tail := if direction == "" then "" else " " + direction;
    CountCharAppend(head, tail, '?');
    CountCharAppend(" ", direction, '?');
    StartsWithAppend(head, tail);
    head + tail
  }

  /** The paging clauses after the sort clause. */
  function Paging(q: Query, opts: QueryOptions): (r: Query)
    ensures CountChar(r.sql, '?') - |r.args| == CountChar(q.sql, '?') - |q.args|
    ensures r.args == q.args + PagingArgs(opts)
    ensures StartsWith(r.sql, q.sql)
    ensures opts.limit <= 0 ==> r == q
    ensures r.sql == q.sql + PagingText(opts)
  {
    LimitClause();
    OffsetClause();
    var limited := BindIf(q, LIMIT, LimitArg(opts));
    var r := BindIf(limited, OFFSET, OffsetArg(opts));
    BindTwice(q, LIMIT, LimitArg(opts), OFFSET, OffsetArg(opts));
    assert opts.limit <= 0 ==> PagingText(opts) == "" && PagingArgs(opts) == [];
    assert q.sql + "" == q.sql && q.args + [] == q.args;
    r
  }

  /** Everything after the base statement. */
  function Tail(opts: QueryOptions): (t: Query)
    ensures CountChar(t.sql, '?') == |t.args| + SortPlaceholders(opts)
    ensures t.args == FilterArgs(opts) + PagingArgs(opts)
    ensures t.sql == FilterText(opts) + OrderClause(opts) + PagingText(opts)
  {
    var c := Clauses(opts);
    var sorted := Interpolate(c, OrderClause(opts));
    Paging(sorted, opts)
  }

  /** `QueryHistory`'s statement: the base, the filters, the sort clause,
      then the paging. The arguments are the set filters' values followed by
      the paging values; the placeholders are one per argument plus any the
      sort options carried in. */
  function BuildQuery(opts: QueryOptions): (q: Query)
    ensures StartsWith(q.sql, BASE)
    ensures q.args == FilterArgs(opts) + PagingArgs(opts)
    ensures CountChar(q.sql, '?') == |q.args| + SortPlaceholders(opts)
    ensures q.sql == BASE + (FilterText(opts) + OrderClause(opts) + PagingText(opts))
  {
    var t := Tail(opts);
    BaseHasNoPlaceholder();
    CountCharAppend(BASE, t.sql, '?');
    Query(BASE + t.sql, t.args)
  }

  /** Placeholders and arguments match exactly when the sort options carry
      no `?` of their own (the direction only counts when a column is
      given). */
  lemma BalancedIff(opts: QueryOptions)
    ensures Balanced(BuildQuery(opts)) <==>
      opts.sortBy == "" || ('?' !in opts.sortBy && (opts.sortOrder == "" || '?' !in opts.sortOrder))
  {
    CountCharZeroIffAbsent(opts.sortBy, '?');
    CountCharZeroIffAbsent(opts.sortOrder, '?');
  }

  /** A sort column holding a `?` leaves a placeholder with no argument. */
  lemma SpliceUnbalances()
    ensures !Balanced(BuildQuery(QueryOptions(None, None, "", "", 0, 0, "?", "")))
  {
    BalancedIff(QueryOptions(None, None, "", "", 0, 0, "?", ""));
  }

  /** Two option sets that agree on the filters build the same filter
      clauses. */
  lemma SameFilters(a: QueryOptions, b: QueryOptions)
    requires a.startTime == b.startTime && a.endTime == b.endTime
    requires a.scanType == b.scanType && a.scanID == b.scanID
    ensures Clauses(a) == Clauses(b)
  {
    assert StartArg(a) == StartArg(b) && EndArg(a) == EndArg(b);
    assert TypeArg(a) == TypeArg(b) && IdArg(a) == IdArg(b);
  }

  /** Without a sort column both option sets sort newest first. */
  lemma DefaultSort(a: QueryOptions, b: QueryOptions)
    requires a.sortBy == "" && b.sortBy == ""
    ensures OrderClause(a) == OrderClause(b)
  {
  }

  lemma SamePaging(a: QueryOptions, b: QueryOptions)
    requires a.limit == b.limit && a.offset == b.offset
    ensures LimitArg(a) == LimitArg(b) && OffsetArg(a) == OffsetArg(b)
  {
  }

  /** The statement depends on the options only through the filter clauses,
      the sort clause and the paging arguments. */
  lemma SameParts(a: QueryOptions, b: QueryOptions)
    requires Clauses(a) == Clauses(b) && OrderClause(a) == OrderClause(b)
    requires LimitArg(a) == LimitArg(b) && OffsetArg(a) == OffsetArg(b)
    ensures BuildQuery(a) == BuildQuery(b)
  {
  }

  /** Without a positive limit the offset changes nothing. */
  lemma OffsetIgnoredWithoutLimit(opts: QueryOptions, offset: int)
    requires opts.limit <= 0
    ensures BuildQuery(opts.(offset := offset)) == BuildQuery(opts)
  {
    var other := opts.(offset := offset);
    SameFilters(other, opts);
    assert OrderClause(other) == OrderClause(opts);
    SameParts(other, opts);
  }

  /** Without a sort column the direction changes nothing. */
  lemma SortOrderIgnoredWithoutColumn(opts: QueryOptions, order: string)
    requires opts.sortBy == ""
    ensures BuildQuery(opts.(sortOrder := order)) == BuildQuery(opts)
  {
    var other := opts.(sortOrder := order);
    SameFilters(other, opts);
    DefaultSort(other, opts);
    SamePaging(other, opts);
    SameParts(other, opts);
  }

  /** With a positive limit and offset both are bound, limit first, after
      every filter argument. */
  lemma PagingBindsBoth(opts: QueryOptions)
    requires opts.limit > 0 && opts.offset > 0
    ensures BuildQuery(opts).args == FilterArgs(opts) + [IntArg(opts.limit), IntArg(opts.offset)]
  {
    BothPaged(opts);
  }

  lemma BothPaged(opts: QueryOptions)
    requires opts.limit > 0 && opts.offset > 0
    ensures PagingArgs(opts) == [IntArg(opts.limit), IntArg(opts.offset)]
  {
    assert Opt(LimitArg(opts)) == [IntArg(opts.limit)];
    assert Opt(OffsetArg(opts)) == [IntArg(opts.offset)];
  }
}

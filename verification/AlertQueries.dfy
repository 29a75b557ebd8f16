/**
 The SQL builders of the alert service and the dashboard BFF: small compilers from
 filters to a query with numbered placeholders and the list of their arguments.
 */
module AlertQueries {
  import opened Wrappers
  import opened Sorting

  /**
   A row of `opdb.alert` or `tsdb.telemetry`. `id` is the primary key of an alert. `ts` is when the event happened
   and `stored` the second time column, `ts_emitted` of an alert and `ingested_at` of telemetry, which has no key,
   severity or acknowledgement.
   */
  datatype Row = Row(id: nat, area: string, ts: int, stored: int, severity: string, acknowledged: bool)

  datatype Value = Text(text: string) | Texts(texts: seq<string>) | Number(number: nat) | Time(time: int)

  /** The conditions the builders emit; numbers are placeholders, `k` standing for `$k`. */
  datatype Condition =
    | AreaIn(placeholders: seq<nat>)
    | AreaEqualsAny(placeholder: nat)
    | SeverityEquals(placeholder: nat)
    | TsAtLeast(placeholder: nat)
    | TsAtMost(placeholder: nat)
    | AcknowledgedNotNull
    | AcknowledgedNull

  datatype Column = EventTime | StoredTime

  datatype OrderBy = OrderBy(column: Column, descending: bool)

  /** SELECT ... WHERE conditions [ORDER BY column [DESC]] LIMIT $limit [OFFSET $offset]. */
  datatype Query = Query(conditions: seq<Condition>, order: Option<OrderBy>, limit: nat, offset: Option<nat>)

  /// ## Order

  function TimeOf(row: Row, column: Column): int {
    if column == EventTime then row.ts else row.stored
  }

  /** The engine's order: the ORDER BY clause, and among equal times, or without a clause, some order of its own. */
  function EngineOrder(order: Option<OrderBy>, tie: Order<Row>): Order<Row> {
    (a, b) =>
      if order.None? || TimeOf(a, order.value.column) == TimeOf(b, order.value.column) then tie(a, b)
      else (TimeOf(a, order.value.column) > TimeOf(b, order.value.column)) == order.value.descending
  }

  lemma EngineOrderIsTotal(order: Option<OrderBy>, tie: Order<Row>)
    requires Total(tie)
    ensures Total(EngineOrder(order, tie))
  {
    forall a, b, c ensures OrderedAt(EngineOrder(order, tie), a, b, c) {
      assert OrderedAt(tie, a, b, c);
    }
  }

  /// ## Meaning of a query

  function Arg(params: seq<Value>, k: nat): Option<Value> {
    if 1 <= k <= |params| then Some(params[k - 1]) else None
  }

  predicate Holds(c: Condition, params: seq<Value>, row: Row) {
    match c
    case AreaIn(placeholders) => exists k <- placeholders :: Arg(params, k) == Some(Text(row.area))
    case AreaEqualsAny(k) => Arg(params, k).Some? && Arg(params, k).value.Texts? && row.area in Arg(params, k).value.texts
    case SeverityEquals(k) => Arg(params, k) == Some(Text(row.severity))
    case TsAtLeast(k) => Arg(params, k).Some? && Arg(params, k).value.Time? && Arg(params, k).value.time <= row.ts
    case TsAtMost(k) => Arg(params, k).Some? && Arg(params, k).value.Time? && row.ts <= Arg(params, k).value.time
    case AcknowledgedNotNull => row.acknowledged
    case AcknowledgedNull => !row.acknowledged
  }

  predicate AllHold(conditions: seq<Condition>, params: seq<Value>, row: Row) {
    forall c <- conditions :: Holds(c, params, row)
  }

  function PlaceholdersOf(c: Condition): seq<nat> {
    match c
    case AreaIn(placeholders) => placeholders
    case AreaEqualsAny(k) => [k]
    case SeverityEquals(k) => [k]
    case TsAtLeast(k) => [k]
    case TsAtMost(k) => [k]
    case AcknowledgedNotNull => []
    case AcknowledgedNull => []
  }

  function Placeholders(conditions: seq<Condition>): seq<nat> {
    if conditions == [] then [] else
      Placeholders(conditions[..|conditions| - 1]) + PlaceholdersOf(conditions[|conditions| - 1])
  }

  /** `from`, `from + 1`, ..., `count` numbers in all. */
  function Counting(from: nat, count: nat): seq<nat> {
    seq(count, i requires 0 <= i < count => from + i)
  }

  /** Read left to right, the query's placeholders are $1, $2, ..., one for each argument. */
  predicate Numbered(q: Query, params: seq<Value>) {
    Placeholders(q.conditions) + [q.limit] + (if q.offset.Some? then [q.offset.value] else []) == Counting(1, |params|)
  }

  function Filter(rows: seq<Row>, keep: Row -> bool): seq<Row> {
    if rows == [] then [] else
      var last := rows[|rows| - 1];
      Filter(rows[..|rows| - 1], keep) + if keep(last) then [last] else []
  }

  function Page(rows: seq<Row>, limit: nat, offset: nat): seq<Row> {
    if |rows| <= offset then [] else if |rows| <= offset + limit then rows[offset..] else rows[offset..offset + limit]
  }

  function NumberAt(params: seq<Value>, k: nat): nat {
    if Arg(params, k).Some? && Arg(params, k).value.Number? then Arg(params, k).value.number else 0
  }

  /** The result over a table, given as its rows in whatever order they are stored: filter, sort, then page. */
  function Evaluate(q: Query, params: seq<Value>, table: seq<Row>, tie: Order<Row>): seq<Row> {
    Page(Sort(Filter(table, row => AllHold(q.conditions, params, row)), EngineOrder(q.order, tie)),
         NumberAt(params, q.limit), if q.offset.Some? then NumberAt(params, q.offset.value) else 0)
  }

  /// ## What is asked for

  predicate AckMatches(acknowledged: Option<bool>, row: Row) {
    acknowledged.Some? ==> row.acknowledged == acknowledged.value
  }

  /** The alert service: no area list, or an empty one, means every area. */
  predicate ServiceWants(areas: Option<seq<string>>, severity: Option<string>, acknowledged: Option<bool>, row: Row) {
    && (areas.Some? && areas.value != [] ==> row.area in areas.value)
    && (severity.Some? ==> row.severity == severity.value)
    && AckMatches(acknowledged, row)
  }

  /** The BFF: only the user's areas; an empty severity text means any severity. */
  predicate BffWants(areas: seq<string>, severity: Option<string>, acknowledged: Option<bool>, row: Row) {
    && row.area in areas
    && (severity.Some? && severity.value != "" ==> row.severity == severity.value)
    && AckMatches(acknowledged, row)
  }

  predicate TelemetryWants(areas: seq<string>, start: Option<int>, end: Option<int>, row: Row) {
    && row.area in areas
    && (start.Some? ==> start.value <= row.ts)
    && (end.Some? ==> row.ts <= end.value)
  }

  /** Newest first by a column, rows of equal time in the order `tie`. */
  function Newest(column: Column, tie: Order<Row>): Order<Row> {
    (a, b) => TimeOf(a, column) > TimeOf(b, column) || (TimeOf(a, column) == TimeOf(b, column) && tie(a, b))
  }

  /** The rows that are wanted, taken from the whole table newest first, then one page of them. */
  function Selected(table: seq<Row>, column: Column, tie: Order<Row>, wants: Row -> bool, limit: nat, offset: nat): seq<Row> {
    Page(Filter(Sort(table, Newest(column, tie)), wants), limit, offset)
  }

  lemma {:induction false} FilterContents(rows: seq<Row>, keep: Row -> bool, row: Row)
    ensures multiset(Filter(rows, keep))[row] == if keep(row) then multiset(rows)[row] else 0
    decreases |rows|
  {
    if rows != [] {
      FilterContents(rows[..|rows| - 1], keep, row);
      assert rows == rows[..|rows| - 1] + [rows[|rows| - 1]];
    }
  }

  lemma {:induction false} FilterKeepsOrder(rows: seq<Row>, keep: Row -> bool, le: Order<Row>)
    requires Sorted(rows, le)
    ensures Sorted(Filter(rows, keep), le)
    ensures forall row <- Filter(rows, keep) :: row in rows && keep(row)
    decreases |rows|
  {
    if rows != [] {
      FilterKeepsOrder(rows[..|rows| - 1], keep, le);
      var front := Filter(rows[..|rows| - 1], keep);
      forall i | 0 <= i < |front| ensures le(front[i], rows[|rows| - 1]) {
        assert front[i] in rows[..|rows| - 1];
      }
    }
  }

  /** Filtering first and sorting what is left gives what filtering the sorted table gives. */
  lemma FilterCommutesWithSort(table: seq<Row>, keep: Row -> bool, le: Order<Row>)
    requires Total(le)
    ensures Sort(Filter(table, keep), le) == Filter(Sort(table, le), keep)
  {
    SortSorts(table, le);
    FilterKeepsOrder(Sort(table, le), keep, le);
    forall row ensures multiset(Filter(Sort(table, le), keep))[row] == multiset(Filter(table, keep))[row] {
      FilterContents(Sort(table, le), keep, row);
      FilterContents(table, keep, row);
    }
    SortIsTheListing(Filter(table, keep), Filter(Sort(table, le), keep), le);
  }

  lemma {:induction false} FilterPointwise(rows: seq<Row>, p: Row -> bool, q: Row -> bool)
    requires forall row <- rows :: p(row) == q(row)
    ensures Filter(rows, p) == Filter(rows, q)
    decreases |rows|
  {
    if rows != [] {
      FilterPointwise(rows[..|rows| - 1], p, q);
    }
  }

  /// ## The builders

  /** What a builder has collected so far: placeholders in step with the arguments, and conditions that say `wants`. */
  ghost predicate Collected(conditions: seq<Condition>, params: seq<Value>, idx: nat, wants: Row -> bool) {
    && idx == |params| + 1
    && Placeholders(conditions) == Counting(1, |params|)
    && forall row :: AllHold(conditions, params, row) <==> wants(row)
  }

  lemma {:induction false} PlaceholdersInRange(conditions: seq<Condition>, c: Condition)
    requires c in conditions
    ensures forall k <- PlaceholdersOf(c) :: k in Placeholders(conditions)
    decreases |conditions|
  {
    if c != conditions[|conditions| - 1] {
      PlaceholdersInRange(conditions[..|conditions| - 1], c);
    }
  }

  /** Appending arguments changes no condition whose placeholders are already filled. */
  lemma MoreArguments(conditions: seq<Condition>, params: seq<Value>, more: seq<Value>, row: Row)
    requires Placeholders(conditions) == Counting(1, |params|)
    ensures AllHold(conditions, params + more, row) <==> AllHold(conditions, params, row)
  {
    forall c <- conditions ensures Holds(c, params + more, row) <==> Holds(c, params, row) {
      PlaceholdersInRange(conditions, c);
      forall k <- PlaceholdersOf(c) ensures Arg(params + more, k) == Arg(params, k) {
        assert k in Counting(1, |params|);
      }
    }
  }

  /** Adding one condition that refers to the newly added arguments. */
  lemma AddCondition(
    conditions: seq<Condition>, params: seq<Value>, wants: Row -> bool,
    c: Condition, more: seq<Value>, refined: Row -> bool)
    requires Collected(conditions, params, |params| + 1, wants)
    requires PlaceholdersOf(c) == Counting(|params| + 1, |more|)
    requires forall row :: refined(row) <==> wants(row) && Holds(c, params + more, row)
    ensures Collected(conditions + [c], params + more, |params| + |more| + 1, refined)
  {
    assert (conditions + [c])[..|conditions|] == conditions;
    assert Counting(1, |params|) + Counting(|params| + 1, |more|) == Counting(1, |params + more|);
    forall row ensures AllHold(conditions + [c], params + more, row) <==> refined(row) {
      MoreArguments(conditions, params, more, row);
      assert forall d :: d in conditions + [c] <==> d in conditions || d == c;
    }
  }

  /** Close the query with ORDER BY, LIMIT and OFFSET. */
  lemma FinishQuery(
    q: Query, params: seq<Value>, all: seq<Value>, wants: Row -> bool, column: Column, limit: nat, offset: Option<nat>)
    requires Collected(q.conditions, params, |params| + 1, wants)
    requires q.order == Some(OrderBy(column, true))
    requires q.limit == |params| + 1 && q.offset == (if offset.Some? then Some(|params| + 2) else None)
    requires all == params + [Number(limit)] + if offset.Some? then [Number(offset.value)] else []
    ensures Numbered(q, all)
    ensures Answers(q, all, wants, column, limit, if offset.Some? then offset.value else 0)
  {
    NumbersOfLimitAndOffset(q, params, all, limit, offset);
    var more := [Number(limit)] + if offset.Some? then [Number(offset.value)] else [];
    assert all == params + more;
    var holds: Row -> bool := row => AllHold(q.conditions, all, row);
    forall row ensures holds(row) <==> wants(row) {
      MoreArguments(q.conditions, params, more, row);
    }
    forall table, tie | Total(tie)
      ensures Sort(Filter(table, holds), EngineOrder(q.order, tie)) == Filter(Sort(table, Newest(column, tie)), wants)
    {
      SortedThenFiltered(table, column, tie, holds, wants);
    }
  }

  lemma NumbersOfLimitAndOffset(q: Query, params: seq<Value>, all: seq<Value>, limit: nat, offset: Option<nat>)
    requires Placeholders(q.conditions) == Counting(1, |params|)
    requires q.limit == |params| + 1 && q.offset == (if offset.Some? then Some(|params| + 2) else None)
    requires all == params + [Number(limit)] + if offset.Some? then [Number(offset.value)] else []
    ensures Numbered(q, all)
    ensures NumberAt(all, q.limit) == limit && (offset.Some? ==> NumberAt(all, q.offset.value) == offset.value)
  {
  }

  /** The engine filters and then sorts; what is asked for is sorted and then filtered. */
  lemma SortedThenFiltered(table: seq<Row>, column: Column, tie: Order<Row>, holds: Row -> bool, wants: Row -> bool)
    requires Total(tie) && forall row :: holds(row) <==> wants(row)
    ensures Sort(Filter(table, holds), EngineOrder(Some(OrderBy(column, true)), tie))
         == Filter(Sort(table, Newest(column, tie)), wants)
  {
    FilterPointwise(table, holds, wants);
    DescendingIsNewestFirst(Filter(table, wants), column, tie);
    NewestIsTotal(column, tie);
    FilterCommutesWithSort(table, wants, Newest(column, tie));
  }

  lemma NewestIsTotal(column: Column, tie: Order<Row>)
    requires Total(tie)
    ensures Total(Newest(column, tie))
  {
    forall a, b, c ensures OrderedAt(Newest(column, tie), a, b, c) {
      assert OrderedAt(tie, a, b, c);
    }
  }

  lemma DescendingIsNewestFirst(rows: seq<Row>, column: Column, tie: Order<Row>)
    requires Total(tie)
    ensures Sort(rows, EngineOrder(Some(OrderBy(column, true)), tie)) == Sort(rows, Newest(column, tie))
  {
    var engine, newest := EngineOrder(Some(OrderBy(column, true)), tie), Newest(column, tie);
    EngineOrderIsTotal(Some(OrderBy(column, true)), tie);
    NewestIsTotal(column, tie);
    SortSorts(rows, engine);
    assert Sorted(Sort(rows, engine), newest) by {
      forall a, b | engine(a, b) ensures newest(a, b) {}
    }
    SortIsTheListing(rows, Sort(rows, engine), newest);
  }

  /** On every table, however ties are broken, the query yields what is wanted: filtered, newest first, then paged. */
  ghost predicate Answers(q: Query, params: seq<Value>, wants: Row -> bool, column: Column, limit: nat, offset: nat) {
    forall table, tie | Total(tie) ::
      Evaluate(q, params, table, tie) == Selected(table, column, tie, wants, limit, offset)
  }

  lemma AddSeverity(
    conditions: seq<Condition>, params: seq<Value>, before: Row -> bool, severity: string, wants: Row -> bool)
    requires Collected(conditions, params, |params| + 1, before)
    requires forall row :: wants(row) <==> before(row) && row.severity == severity
    ensures Collected(
              conditions + [SeverityEquals(|params| + 1)], params + [Text(severity)], |params| + 2, wants)
  {
    AddCondition(conditions, params, before, SeverityEquals(|params| + 1), [Text(severity)], wants);
  }

  /** Which condition on the acknowledgement, if any, says what is asked for. */
  lemma AddAcknowledged(
    conditions: seq<Condition>, params: seq<Value>, before: Row -> bool, acknowledged: Option<bool>, wants: Row -> bool)
    requires Collected(conditions, params, |params| + 1, before)
    requires forall row :: wants(row) <==> before(row) && AckMatches(acknowledged, row)
    ensures Collected(conditions + AckConditions(acknowledged), params, |params| + 1, wants)
  {
    assert params + [] == params && conditions + [] == conditions;
    if acknowledged == Some(true) {
      AddCondition(conditions, params, before, AcknowledgedNotNull, [], wants);
    } else if acknowledged == Some(false) {
      AddCondition(conditions, params, before, AcknowledgedNull, [], wants);
    }
  }

  function SeverityConditions(severity: Option<string>, idx: nat): seq<Condition> {
    if severity.Some? then [SeverityEquals(idx)] else []
  }

  function SeverityArguments(severity: Option<string>): seq<Value> {
    if severity.Some? then [Text(severity.value)] else []
  }

  function AckConditions(acknowledged: Option<bool>): seq<Condition> {
    if acknowledged == Some(true) then [AcknowledgedNotNull]
    else if acknowledged == Some(false) then [AcknowledgedNull]
    else []
  }

  /** How both alert queries end: severity, acknowledgement, last emitted first, one page. */
  lemma FinishAlertQuery(
    q: Query, all: seq<Value>, conditions: seq<Condition>, params: seq<Value>, before: Row -> bool,
    severity: Option<string>, acknowledged: Option<bool>, wants: Row -> bool, limit: nat, offset: nat)
    requires Collected(conditions, params, |params| + 1, before)
    requires forall row ::
               wants(row) <==> before(row) && (severity.Some? ==> row.severity == severity.value) && AckMatches(acknowledged, row)
    requires all == params + SeverityArguments(severity) + [Number(limit)] + [Number(offset)]
    requires q == Query(conditions + SeverityConditions(severity, |params| + 1) + AckConditions(acknowledged),
                        Some(OrderBy(StoredTime, true)), |all| - 1, Some(|all|))
    ensures Numbered(q, all) && Answers(q, all, wants, StoredTime, limit, offset)
  {
    var bySeverity: Row -> bool := row => before(row) && (severity.Some? ==> row.severity == severity.value);
    var graded, args := conditions + SeverityConditions(severity, |params| + 1), params + SeverityArguments(severity);
    if severity.Some? {
      AddSeverity(conditions, params, before, severity.value, bySeverity);
    } else {
      assert graded == conditions && args == params;
    }
    assert Collected(graded, args, |args| + 1, bySeverity);
    AddAcknowledged(graded, args, bySeverity, acknowledged, wants);
    FinishQuery(q, args, all, wants, StoredTime, limit, Some(offset));
  }

  function AsTexts(areas: seq<string>): seq<Value> {
    seq(|areas|, i requires 0 <= i < |areas| => Text(areas[i]))
  }

  lemma AreaInMeans(areas: seq<string>, params: seq<Value>)
    ensures forall row ::
              Holds(AreaIn(Counting(|params| + 1, |areas|)), params + AsTexts(areas), row) <==> row.area in areas
  {
    var all, ks := params + AsTexts(areas), Counting(|params| + 1, |areas|);
    forall i | 0 <= i < |areas| ensures ks[i] in ks && Arg(all, ks[i]) == Some(Text(areas[i])) {}
  }

  lemma StartWithAreaList(areas: seq<string>, byArea: Row -> bool)
    requires forall row :: byArea(row) <==> row.area in areas
    ensures Collected([AreaIn(Counting(1, |areas|))], AsTexts(areas), 1 + |areas|, byArea)
  {
    AreaInMeans(areas, []);
    assert [] + AsTexts(areas) == AsTexts(areas) && [] + [AreaIn(Counting(1, |areas|))] == [AreaIn(Counting(1, |areas|))];
    AddCondition([], [], _ => true, AreaIn(Counting(1, |areas|)), AsTexts(areas), byArea);
  }

  /** The start of `get_alerts`: one placeholder for each area asked for. */
  method RestrictAreas(areas: Option<seq<string>>, ghost byArea: Row -> bool)
    returns (conditions: seq<Condition>, params: seq<Value>, idx: nat)
    requires forall row :: byArea(row) <==> ServiceWants(areas, None, None, row)
    ensures Collected(conditions, params, idx, byArea)
  {
    conditions, params, idx := [], [], 1;
    if areas.Some? && areas.value != [] {
      StartWithAreaList(areas.value, byArea);
      conditions := [AreaIn(Counting(idx, |areas.value|))];
      params := AsTexts(areas.value);
      idx := idx + |areas.value|;
    }
  }

  /** `get_alerts` of the alert service. */
  method BuildServiceQuery(
    areas: Option<seq<string>>, severity: Option<string>, acknowledged: Option<bool>, limit: nat, offset: nat)
    returns (q: Query, params: seq<Value>)
    ensures Numbered(q, params)
    ensures Answers(q, params, row => ServiceWants(areas, severity, acknowledged, row), StoredTime, limit, offset)
  {
    ghost var byArea: Row -> bool := row => ServiceWants(areas, None, None, row);
    ghost var wants: Row -> bool := row => ServiceWants(areas, severity, acknowledged, row);
    var conditions, idx;
    conditions, params, idx := RestrictAreas(areas, byArea);
    ghost var start, first := conditions, params;
    if severity.Some? {
      conditions := conditions + [SeverityEquals(idx)];
      params := params + [Text(severity.value)];
      idx := idx + 1;
    }
    assert conditions == start + SeverityConditions(severity, |first| + 1) && params == first + SeverityArguments(severity);
    if acknowledged == Some(true) {
      conditions := conditions + [AcknowledgedNotNull];
    } else if acknowledged == Some(false) {
      conditions := conditions + [AcknowledgedNull];
    }
    assert conditions == start + SeverityConditions(severity, |first| + 1) + AckConditions(acknowledged);
    q := Query(conditions, Some(OrderBy(StoredTime, true)), idx, Some(idx + 1));
    params := params + [Number(limit)] + [Number(offset)];
    FinishAlertQuery(q, params, start, first, byArea, severity, acknowledged, wants, limit, offset);
  }

  /** `get_alerts_for_user` of the BFF. */
  method BuildBffQuery(
    areas: seq<string>, severity: Option<string>, acknowledged: Option<bool>, limit: nat, offset: nat)
    returns (q: Query, params: seq<Value>)
    ensures Numbered(q, params)
    ensures Answers(q, params, row => BffWants(areas, severity, acknowledged, row), StoredTime, limit, offset)
  {
    ghost var byArea: Row -> bool := row => BffWants(areas, None, None, row);
    ghost var wants: Row -> bool := row => BffWants(areas, severity, acknowledged, row);
    ghost var asked := if severity == Some("") then None else severity;
    var conditions := [AreaEqualsAny(1)];
    params := [Texts(areas)];
    var idx := 2;
    StartWithAreas(areas, byArea);
    ghost var start, first := conditions, params;
    if severity.Some? && severity.value != "" {
      conditions := conditions + [SeverityEquals(idx)];
      params := params + [Text(severity.value)];
      idx := idx + 1;
    }
    assert conditions == start + SeverityConditions(asked, |first| + 1) && params == first + SeverityArguments(asked);
    if acknowledged == Some(true) {
      conditions := conditions + [AcknowledgedNotNull];
    } else if acknowledged == Some(false) {
      conditions := conditions + [AcknowledgedNull];
    }
    assert conditions == start + SeverityConditions(asked, |first| + 1) + AckConditions(acknowledged);
    q := Query(conditions, Some(OrderBy(StoredTime, true)), idx, Some(idx + 1));
    params := params + [Number(limit)] + [Number(offset)];
    FinishAlertQuery(q, params, start, first, byArea, asked, acknowledged, wants, limit, offset);
  }

  lemma StartWithAreas(areas: seq<string>, byArea: Row -> bool)
    requires forall row :: byArea(row) <==> row.area in areas
    ensures Collected([AreaEqualsAny(1)], [Texts(areas)], 2, byArea)
  {
    AddCondition([], [], _ => true, AreaEqualsAny(1), [Texts(areas)], byArea);
    assert [] + [AreaEqualsAny(1)] == [AreaEqualsAny(1)] && [] + [Texts(areas)] == [Texts(areas)];
  }

  /** `get_telemetry` of the BFF. */
  method BuildTelemetryQuery(areas: seq<string>, start: Option<int>, end: Option<int>, limit: nat)
    returns (q: Query, params: seq<Value>)
    ensures Numbered(q, params)
    ensures Answers(q, params, row => TelemetryWants(areas, start, end, row), EventTime, limit, 0)
  {
    ghost var byArea: Row -> bool := row => TelemetryWants(areas, None, None, row);
    ghost var byStart: Row -> bool := row => TelemetryWants(areas, start, None, row);
    ghost var wants: Row -> bool := row => TelemetryWants(areas, start, end, row);
    var conditions := [AreaEqualsAny(1)];
    params := [Texts(areas)];
    var idx := 2;
    StartWithAreas(areas, byArea);
    if start.Some? {
      AddCondition(conditions, params, byArea, TsAtLeast(idx), [Time(start.value)], byStart);
      conditions := conditions + [TsAtLeast(idx)];
      params := params + [Time(start.value)];
      idx := idx + 1;
    }
    assert Collected(conditions, params, idx, byStart);
    if end.Some? {
      AddCondition(conditions, params, byStart, TsAtMost(idx), [Time(end.value)], wants);
      conditions := conditions + [TsAtMost(idx)];
      params := params + [Time(end.value)];
      idx := idx + 1;
    }
    assert Collected(conditions, params, idx, wants);
    q := Query(conditions, Some(OrderBy(EventTime, true)), idx, None);
    FinishQuery(q, params, params + [Number(limit)], wants, EventTime, limit, None);
    params := params + [Number(limit)];
  }

  /// ## Results

  /** What is selected is newest first, and holds only rows of the table that are wanted. */
  lemma SelectedIsNewestFirst(table: seq<Row>, column: Column, tie: Order<Row>, wants: Row -> bool, limit: nat, offset: nat)
    requires Total(tie)
    ensures var rows := Selected(table, column, tie, wants, limit, offset);
            && (forall i, j | 0 <= i < j < |rows| :: TimeOf(rows[i], column) >= TimeOf(rows[j], column))
            && forall row <- rows :: row in table && wants(row)
  {
    var all := Filter(Sort(table, Newest(column, tie)), wants);
    AllIsNewestFirst(table, column, tie, wants);
    PageOfNewestFirst(all, column, limit, offset);
  }

  lemma PageOfNewestFirst(all: seq<Row>, column: Column, limit: nat, offset: nat)
    requires forall i, j | 0 <= i < j < |all| :: TimeOf(all[i], column) >= TimeOf(all[j], column)
    ensures var rows := Page(all, limit, offset);
            && (forall i, j | 0 <= i < j < |rows| :: TimeOf(rows[i], column) >= TimeOf(rows[j], column))
            && forall row <- rows :: row in all
  {
    var rows := Page(all, limit, offset);
    assert forall i | 0 <= i < |rows| :: rows[i] == all[offset + i];
  }

  lemma AllIsNewestFirst(table: seq<Row>, column: Column, tie: Order<Row>, wants: Row -> bool)
    requires Total(tie)
    ensures var all := Filter(Sort(table, Newest(column, tie)), wants);
            && (forall i, j | 0 <= i < j < |all| :: TimeOf(all[i], column) >= TimeOf(all[j], column))
            && forall row <- all :: row in table && wants(row)
  {
    var le := Newest(column, tie);
    NewestIsTotal(column, tie);
    SortSorts(table, le);
    FilterKeepsOrder(Sort(table, le), wants, le);
    var all := Filter(Sort(table, le), wants);
    forall i, j | 0 <= i < j < |all| ensures TimeOf(all[i], column) >= TimeOf(all[j], column) {
      assert le(all[i], all[j]);
    }
    forall row <- all ensures row in table {
      assert row in multiset(Sort(table, le));
    }
  }

  /** In which order the rows are stored plays no role. */
  lemma StorageOrderIsIrrelevant(
    table: seq<Row>, other: seq<Row>, column: Column, tie: Order<Row>, wants: Row -> bool, limit: nat, offset: nat)
    requires Total(tie) && multiset(table) == multiset(other)
    ensures Selected(table, column, tie, wants, limit, offset) == Selected(other, column, tie, wants, limit, offset)
  {
    NewestIsTotal(column, tie);
    SortSorts(other, Newest(column, tie));
    SortIsTheListing(table, Sort(other, Newest(column, tie)), Newest(column, tie));
  }

  /** The first `count` pages, one after the other. */
  function Pages(table: seq<Row>, column: Column, tie: Order<Row>, wants: Row -> bool, limit: nat, count: nat): seq<Row> {
    if count == 0 then [] else
      Pages(table, column, tie, wants, limit, count - 1) +
      Selected(table, column, tie, wants, limit, (count - 1) * limit)
  }

  lemma NextPage(all: seq<Row>, limit: nat, count: nat)
    requires 0 < count
    ensures (count - 1) * limit + limit == count * limit
    ensures (if |all| <= (count - 1) * limit then all else all[..(count - 1) * limit]) + Page(all, limit, (count - 1) * limit)
         == if |all| <= count * limit then all else all[..count * limit]
  {
    assert (count - 1) * limit + limit == count * limit;
  }

  /**
   Consecutive pages of an unchanged table concatenate to the beginning of the whole result, its wanted rows
   newest first: no row is skipped or repeated.
   */
  lemma {:induction false} PagesConcatenate(
    table: seq<Row>, column: Column, tie: Order<Row>, wants: Row -> bool, limit: nat, count: nat)
    requires Total(tie)
    ensures var all := Sort(Filter(table, wants), Newest(column, tie));
            Pages(table, column, tie, wants, limit, count) == if |all| <= count * limit then all else all[..count * limit]
  {
    NewestIsTotal(column, tie);
    FilterCommutesWithSort(table, wants, Newest(column, tie));
    if count > 0 {
      PagesConcatenate(table, column, tie, wants, limit, count - 1);
      NextPage(Sort(Filter(table, wants), Newest(column, tie)), limit, count);
    }
  }

  /// ## Where the two builders agree

  /** One way to break ties: by the columns. */
  function ByFields(): Order<Row> {
    (a: Row, b: Row) =>
      if a.area != b.area then AtMost(a.area, b.area)
      else if a.severity != b.severity then AtMost(a.severity, b.severity)
      else if a.ts != b.ts then a.ts < b.ts
      else if a.stored != b.stored then a.stored < b.stored
      else if a.acknowledged != b.acknowledged then b.acknowledged
      else a.id <= b.id
  }

  lemma ByFieldsIsTotal()
    ensures Total(ByFields())
  {
    AtMostIsTotal();
    forall a, b, c ensures OrderedAt(ByFields(), a, b, c) {
      assert OrderedAt(AtMost, a.area, b.area, c.area);
      assert OrderedAt(AtMost, a.severity, b.severity, c.severity);
    }
  }

  /** What the primary key guarantees. */
  ghost predicate KeysDiffer(table: seq<Row>) {
    forall i, j | 0 <= i < j < |table| :: table[i].id != table[j].id
  }

  ghost predicate Legal(table: seq<Row>) {
    KeysDiffer(table) && forall row <- table :: LegalSeverity(row.severity)
  }

  predicate LegalSeverity(severity: string) {
    severity == "low" || severity == "medium" || severity == "high"
  }

  ghost predicate Agree(areas: seq<string>, severity: Option<string>, acknowledged: Option<bool>, limit: nat, offset: nat) {
    forall table: seq<Row>, tie: Order<Row> | Legal(table) && Total(tie) ::
      Selected(table, StoredTime, tie, row => ServiceWants(Some(areas), severity, acknowledged, row), limit, offset)
      == Selected(table, StoredTime, tie, row => BffWants(areas, severity, acknowledged, row), limit, offset)
  }

  /**
   Asked for the same, the two services answer the same on every table exactly when the area list is
   not empty and the severity is not the empty text, or when nothing can match on either side.
   */
  lemma BuildersAgreeIff(
    areas: seq<string>, severity: Option<string>, acknowledged: Option<bool>, limit: nat, offset: nat)
    requires 1 <= limit
    ensures Agree(areas, severity, acknowledged, limit, offset) <==> SameRequest(areas, severity)
  {
    if SameRequest(areas, severity) {
      var service: Row -> bool := row => ServiceWants(Some(areas), severity, acknowledged, row);
      var bff: Row -> bool := row => BffWants(areas, severity, acknowledged, row);
      forall table: seq<Row>, tie: Order<Row> | Legal(table) && Total(tie)
        ensures Selected(table, StoredTime, tie, service, limit, offset)
             == Selected(table, StoredTime, tie, bff, limit, offset)
      {
        var listing := Sort(table, Newest(StoredTime, tie));
        NewestIsTotal(StoredTime, tie);
        SortSorts(table, Newest(StoredTime, tie));
        forall row <- listing ensures service(row) == bff(row) {
          assert row in multiset(table);
        }
        FilterPointwise(listing, service, bff);
      }
    } else {
      BuildersDisagree(areas, severity, acknowledged, limit, offset);
    }
  }

  predicate SameRequest(areas: seq<string>, severity: Option<string>) {
    if areas != [] then severity != Some("") else severity.Some? && !LegalSeverity(severity.value)
  }

  /** Otherwise some row is wanted by one service only; enough rows like it make the pages differ. */
  lemma BuildersDisagree(
    areas: seq<string>, severity: Option<string>, acknowledged: Option<bool>, limit: nat, offset: nat)
    requires 1 <= limit && !SameRequest(areas, severity)
    ensures !Agree(areas, severity, acknowledged, limit, offset)
  {
    var row := Row(0, if areas != [] then areas[0] else "", 0, 0,
                   if severity.Some? && severity.value != "" then severity.value else "low",
                   acknowledged == Some(true));
    var service: Row -> bool := r => ServiceWants(Some(areas), severity, acknowledged, r);
    var bff: Row -> bool := r => BffWants(areas, severity, acknowledged, r);
    assert service(row) != bff(row);
    var table := RowsLike(row, offset + 1);
    var tie := ByFields();
    ByFieldsIsTotal();
    SelectedOfRowsLike(row, tie, limit, offset, service);
    SelectedOfRowsLike(row, tie, limit, offset, bff);
    assert Legal(table);
  }

  /** Rows that differ in their keys only. */
  function RowsLike(row: Row, count: nat): seq<Row> {
    seq(count, i requires 0 <= i < count => row.(id := i))
  }

  lemma SelectedOfRowsLike(row: Row, tie: Order<Row>, limit: nat, offset: nat, wants: Row -> bool)
    requires 1 <= limit && Total(tie) && forall i: nat :: wants(row.(id := i)) == wants(row)
    ensures (Selected(RowsLike(row, offset + 1), StoredTime, tie, wants, limit, offset) == []) == !wants(row)
  {
    var table, le := RowsLike(row, offset + 1), Newest(StoredTime, tie);
    NewestIsTotal(StoredTime, tie);
    SortSorts(table, le);
    assert |Sort(table, le)| == |multiset(Sort(table, le))| == |table|;
    forall r <- Sort(table, le) ensures wants(r) == wants(row) {
      assert r in multiset(table);
    }
    FilterOfAlike(Sort(table, le), wants, wants(row));
  }

  lemma {:induction false} FilterOfAlike(rows: seq<Row>, keep: Row -> bool, kept: bool)
    requires forall row <- rows :: keep(row) == kept
    ensures Filter(rows, keep) == if kept then rows else []
    decreases |rows|
  {
    if rows != [] {
      FilterOfAlike(rows[..|rows| - 1], keep, kept);
      assert rows == rows[..|rows| - 1] + [rows[|rows| - 1]];
    }
  }
}

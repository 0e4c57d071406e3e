/**
 * Exact paging of task queries (memstore/memstore.go): four orderings, two directions, tasks without a
 * deadline last in both.
 */
module TaskQueries {
  import opened Basics
  import opened Keyset
  import opened Lifecycle
  import E = Eligibility

  datatype Ordering = ByCreation | ByPriority | ByDue | ByUrgency

  datatype Position = Position(priority: int, dueAt: Option<Time>, id: TaskId)

  function PositionOf(t: Task): Position {
    Position(t.priority, t.dueAt, t.id)
  }

  function CompareInts(a: int, b: int): int {
    if a < b then -1 else if a > b then 1 else 0
  }

  function CompareStrings(a: string, b: string): int {
    if a == b then 0 else if Less(a, b) then -1 else 1
  }

  function Directed(c: int, descending: bool): int {
    if descending then -c else c
  }

  /** `compare`: the direction reverses everything except that no deadline comes last. */
  function Compare(a: Position, b: Position, ordering: Ordering, descending: bool): int {
    if (ordering == ByPriority || ordering == ByUrgency) && a.priority != b.priority then
      Directed(CompareInts(a.priority, b.priority), descending)
    else if (ordering == ByDue || ordering == ByUrgency) && a.dueAt.None? && b.dueAt.Some? then 1
    else if (ordering == ByDue || ordering == ByUrgency) && a.dueAt.Some? && b.dueAt.None? then -1
    else if (ordering == ByDue || ordering == ByUrgency) && a.dueAt.Some? && a.dueAt.value != b.dueAt.value then
      Directed(CompareInts(a.dueAt.value, b.dueAt.value), descending)
    else Directed(CompareStrings(a.id, b.id), descending)
  }

  function Precedes(ordering: Ordering, descending: bool): (Position, Position) -> bool {
    (a, b) => Compare(a, b, ordering, descending) < 0
  }

  /** Swapping the sides negates the comparison, and only an identifier compares equal to itself. */
  lemma CompareSides(a: Position, b: Position, ordering: Ordering, descending: bool)
    ensures Compare(a, b, ordering, descending) == -Compare(b, a, ordering, descending)
    ensures Compare(a, b, ordering, descending) == 0 ==> a.id == b.id
    ensures a == b ==> Compare(a, b, ordering, descending) == 0
  {
    LessConnected(a.id, b.id);
    LessAsymmetric(a.id, b.id);
  }

  lemma CompareTransitive(a: Position, b: Position, c: Position, ordering: Ordering, descending: bool)
    requires Compare(a, b, ordering, descending) < 0 && Compare(b, c, ordering, descending) < 0
    ensures Compare(a, c, ordering, descending) < 0
  {
    LessConnected(a.id, b.id);
    LessConnected(b.id, c.id);
    LessConnected(a.id, c.id);
    LessAsymmetric(a.id, c.id);
    if Less(a.id, b.id) && Less(b.id, c.id) { LessTransitive(a.id, b.id, c.id); }
    if Less(c.id, b.id) && Less(b.id, a.id) { LessTransitive(c.id, b.id, a.id); }
    LessAsymmetric(a.id, b.id);
    LessAsymmetric(b.id, c.id);
  }

  /** Identifiers tell positions apart. */
  ghost predicate OnePerId(s: set<Position>) {
    forall a, b :: a in s && b in s && a.id == b.id ==> a == b
  }

  /** Every ordering and direction is a strict total order on tasks with distinct identifiers. */
  lemma CompareOrders(ordering: Ordering, descending: bool, s: set<Position>)
    requires OnePerId(s)
    ensures StrictOrder(Precedes(ordering, descending), s)
  {
    var less := Precedes(ordering, descending);
    forall x | x in s ensures !less(x, x) { CompareSides(x, x, ordering, descending); }
    forall x, y | x in s && y in s ensures x == y || less(x, y) || less(y, x) { CompareSides(x, y, ordering, descending); }
    forall x, y, z | x in s && y in s && z in s && less(x, y) && less(y, z) ensures less(x, z) {
      CompareTransitive(x, y, z, ordering, descending);
    }
  }

  /** A task without a deadline comes after every task that has one, in either direction. */
  lemma NoDeadlineLast(a: Position, b: Position, descending: bool)
    requires a.dueAt.Some? && b.dueAt.None?
    ensures Precedes(ByDue, descending)(a, b)
    ensures a.priority == b.priority ==> Precedes(ByUrgency, descending)(a, b)
  {
  }

  // ---------------------------------------------------------------- what the orderings mean

  /** Lower before higher, or the other way round. */
  predicate Ahead(a: int, b: int, descending: bool) {
    if descending then b < a else a < b
  }

  /** The four orderings by their keys, ascending. */
  lemma AscendingKeys(a: Position, b: Position)
    ensures Precedes(ByCreation, false)(a, b) <==> Less(a.id, b.id)
    ensures Precedes(ByPriority, false)(a, b) <==>
            a.priority < b.priority || (a.priority == b.priority && Less(a.id, b.id))
    ensures Precedes(ByDue, false)(a, b) <==> DueFirst(a.dueAt, b.dueAt) || (a.dueAt == b.dueAt && Less(a.id, b.id))
    ensures Precedes(ByUrgency, false)(a, b) <==>
            a.priority < b.priority ||
            (a.priority == b.priority && (DueFirst(a.dueAt, b.dueAt) || (a.dueAt == b.dueAt && Less(a.id, b.id))))
  {
    CompareSides(a, b, ByCreation, false);
    LessAsymmetric(a.id, b.id);
  }

  /** The earlier deadline, or any deadline before none. */
  predicate DueFirst(a: Option<Time>, b: Option<Time>) {
    a.Some? && (b.None? || a.value < b.value)
  }

  /** Descending is ascending turned round, wherever no missing deadline decides. */
  lemma DescendingReverses(ordering: Ordering, a: Position, b: Position)
    requires ordering == ByDue || (ordering == ByUrgency && a.priority == b.priority) ==> (a.dueAt.Some? <==> b.dueAt.Some?)
    ensures Precedes(ordering, true)(a, b) <==> Precedes(ordering, false)(b, a)
  {
    CompareSides(a, b, ordering, false);
  }

  /** What a reader of the answer sees: the keys of the ordering never run against its direction. */
  predicate Follows(ordering: Ordering, descending: bool, a: Task, b: Task) {
    match ordering
    case ByCreation => if descending then Less(b.id, a.id) else Less(a.id, b.id)
    case ByPriority => !Ahead(b.priority, a.priority, descending)
    case ByDue => DueInOrder(a.dueAt, b.dueAt, descending)
    case ByUrgency =>
      !Ahead(b.priority, a.priority, descending) && (a.priority == b.priority ==> DueInOrder(a.dueAt, b.dueAt, descending))
  }

  predicate DueInOrder(a: Option<Time>, b: Option<Time>, descending: bool) {
    b.None? || (a.Some? && !Ahead(b.value, a.value, descending))
  }

  ghost predicate InOrder(ordering: Ordering, descending: bool, tasks: seq<Task>) {
    forall i, j :: 0 <= i < j < |tasks| ==> Follows(ordering, descending, tasks[i], tasks[j])
  }

  lemma PrecedesFollows(ordering: Ordering, descending: bool, a: Task, b: Task)
    requires Precedes(ordering, descending)(PositionOf(a), PositionOf(b))
    ensures Follows(ordering, descending, a, b)
  {
    var p, q := PositionOf(a), PositionOf(b);
    LessConnected(a.id, b.id);
    LessAsymmetric(a.id, b.id);
  }

  /** Tasks in the comparison's order are in the order of the keys. */
  lemma {:induction false} AnswerInOrder(ordering: Ordering, descending: bool, tasks: seq<Task>)
    requires Ascending(Precedes(ordering, descending), Positions(tasks))
    ensures InOrder(ordering, descending, tasks)
  {
    forall i, j | 0 <= i < j < |tasks| ensures Follows(ordering, descending, tasks[i], tasks[j]) {
      assert Precedes(ordering, descending)(Positions(tasks)[i], Positions(tasks)[j]);
      PrecedesFollows(ordering, descending, tasks[i], tasks[j]);
    }
  }

  // ---------------------------------------------------------------- queries

  datatype Cursor = Cursor(ordering: Ordering, descending: bool, after: Position) | Foreign

  datatype Query = Query(
    assignee: string,
    candidate: string,
    candidateGroups: seq<string>,
    statuses: seq<Status>,
    types: seq<string>,
    /** The owner and activity filters over a task's correlation. */
    correlates: string -> bool,
    group: string,
    dueBefore: Option<Time>,
    ordering: Ordering,
    descending: bool,
    limit: int,
    cursor: Option<Cursor>)

  datatype Page = Page(tasks: seq<Task>, next: Option<Cursor>)

  function EffectiveLimit(q: Query): (n: nat)
    ensures 1 <= n <= 500
  {
    if q.limit <= 0 then 50 else if q.limit > 500 then 500 else q.limit
  }

  /** `matches`: every filter. */
  predicate Matches(t: Task, q: Query) {
    && (q.assignee == "" || t.assignee == q.assignee)
    && (q.statuses == [] || t.status in q.statuses)
    && (q.types == [] || t.taskType in q.types)
    && q.correlates(t.fixed)
    && (q.group == "" || q.group in t.candidates.groups)
    && (q.dueBefore.Some? ==> t.dueAt.Some? && t.dueAt.value < q.dueBefore.value)
    && E.MatchesCandidate(t, q.candidate, q.candidateGroups)
  }

  ghost predicate Keyed(tasks: map<TaskId, Task>) {
    forall id :: id in tasks ==> tasks[id].id == id
  }

  /** The positions of the tasks a query matches. */
  function Matching(tasks: map<TaskId, Task>, q: Query): set<Position> {
    set id | id in tasks && Matches(tasks[id], q) :: PositionOf(tasks[id])
  }

  /** `decodeCursor`: refused unless it continues this ordering and direction. */
  predicate Decodes(q: Query, c: Cursor) {
    c.Cursor? && c.after.id != "" && c.ordering == q.ordering && c.descending == q.descending
  }

  function After(q: Query): Option<Position> {
    if q.cursor.Some? && q.cursor.value.Cursor? then Some(q.cursor.value.after) else None
  }

  function Positions(tasks: seq<Task>): seq<Position> {
    seq(|tasks|, i requires 0 <= i < |tasks| => PositionOf(tasks[i]))
  }

  lemma MatchingOnePerId(tasks: map<TaskId, Task>, q: Query)
    requires Keyed(tasks)
    ensures OnePerId(Matching(tasks, q)) && |Matching(tasks, q)| == |MatchingIds(tasks, q)|
  {
    SamePositions(tasks, MatchingIds(tasks, q));
    assert Matching(tasks, q) == PositionsOf(tasks, MatchingIds(tasks, q));
  }

  function MatchingIds(tasks: map<TaskId, Task>, q: Query): set<TaskId> {
    set id | id in tasks && Matches(tasks[id], q)
  }

  function PositionsOf(tasks: map<TaskId, Task>, ids: set<TaskId>): set<Position>
    requires ids <= tasks.Keys
  {
    set id | id in ids :: PositionOf(tasks[id])
  }

  lemma {:induction false} SamePositions(tasks: map<TaskId, Task>, ids: set<TaskId>)
    requires Keyed(tasks) && ids <= tasks.Keys
    ensures |PositionsOf(tasks, ids)| == |ids|
    decreases |ids|
  {
    if ids != {} {
      var id :| id in ids;
      SamePositions(tasks, ids - {id});
      assert PositionsOf(tasks, ids) == PositionsOf(tasks, ids - {id}) + {PositionOf(tasks[id])};
      assert PositionOf(tasks[id]) !in PositionsOf(tasks, ids - {id});
    }
  }

  lemma MatchingAt(tasks: map<TaskId, Task>, q: Query, p: Position)
    requires Keyed(tasks) && p in Matching(tasks, q)
    ensures p.id in tasks && PositionOf(tasks[p.id]) == p && Matches(tasks[p.id], q)
  {
  }

  function MatchingAmong(tasks: map<TaskId, Task>, q: Query, done: set<TaskId>): set<TaskId> {
    set id | id in done && id in MatchingIds(tasks, q)
  }

  lemma MatchingMore(tasks: map<TaskId, Task>, q: Query, done: set<TaskId>, id: TaskId)
    requires id in tasks && id !in done
    ensures |MatchingAmong(tasks, q, done + {id})| == |MatchingAmong(tasks, q, done)| + if Matches(tasks[id], q) then 1 else 0
    ensures tasks.Keys - done - {id} == tasks.Keys - (done + {id})
  {
    assert MatchingAmong(tasks, q, done + {id}) == MatchingAmong(tasks, q, done) + if Matches(tasks[id], q) then {id} else {};
  }

  /** `Count`: as many as match. */
  method Count(tasks: map<TaskId, Task>, q: Query) returns (count: nat)
    ensures count == |MatchingIds(tasks, q)|
  {
    count := 0;
    ghost var done := {};
    var ids := tasks.Keys;
    while ids != {}
      invariant done <= tasks.Keys && ids == tasks.Keys - done && count == |MatchingAmong(tasks, q, done)|
    {
      var id :| id in ids;
      MatchingMore(tasks, q, done, id);
      if Matches(tasks[id], q) {
        count := count + 1;
      }
      ids, done := ids - {id}, done + {id};
    }
    assert done == tasks.Keys;
    assert MatchingAmong(tasks, q, done) == MatchingIds(tasks, q);
  }

  /** The matching tasks beyond a cursor, in order. */
  method SortMatched(tasks: map<TaskId, Task>, q: Query) returns (sorted: seq<Position>)
    requires Keyed(tasks)
    ensures Ascending(Precedes(q.ordering, q.descending), sorted)
    ensures Lists(sorted, Remaining(Precedes(q.ordering, q.descending), Matching(tasks, q), After(q)))
  {
    var less := Precedes(q.ordering, q.descending);
    var after := After(q);
    var matched := set p | p in Matching(tasks, q) && (after.Some? ==> less(after.value, p));
    MatchingOnePerId(tasks, q);
    CompareOrders(q.ordering, q.descending, matched);
    sorted := SortSet(matched, less);
  }

  /** `Query`: the next page, with a cursor exactly when there is more. */
  method RunQuery(tasks: map<TaskId, Task>, q: Query) returns (page: Result<Page, Refusal>)
    requires Keyed(tasks)
    ensures page.Err? <==> q.cursor.Some? && !Decodes(q, q.cursor.value)
    ensures page.Ok? ==>
              && IsPage(Precedes(q.ordering, q.descending), Matching(tasks, q), After(q), EffectiveLimit(q),
                        Positions(page.value.tasks), page.value.next.Some?)
              && InOrder(q.ordering, q.descending, page.value.tasks)
              && (forall t :: t in page.value.tasks ==> t.id in tasks && tasks[t.id] == t && Matches(t, q))
              && (page.value.next.Some? ==>
                    page.value.tasks != [] &&
                    page.value.next.value == Cursor(q.ordering, q.descending, PositionOf(page.value.tasks[|page.value.tasks| - 1])))
  {
    if q.cursor.Some? && !Decodes(q, q.cursor.value) {
      return Err(Invalid);
    }
    var sorted := SortMatched(tasks, q);
    var limit := EffectiveLimit(q);
    PageOf(tasks, q, sorted);
    var next := None;
    if |sorted| > limit {
      sorted := sorted[..limit];
      next := Some(Cursor(q.ordering, q.descending, sorted[|sorted| - 1]));
    }
    var out := TasksAt(tasks, q, sorted);
    AnswerInOrder(q.ordering, q.descending, out);
    return Ok(Page(out, next));
  }

  /** The tasks at some positions, in order. */
  method TasksAt(tasks: map<TaskId, Task>, ghost q: Query, positions: seq<Position>) returns (out: seq<Task>)
    requires Keyed(tasks) && forall p :: p in positions ==> p in Matching(tasks, q)
    ensures Positions(out) == positions && |out| == |positions|
    ensures forall t :: t in out ==> t.id in tasks && tasks[t.id] == t && Matches(t, q)
  {
    out := [];
    for i := 0 to |positions|
      invariant |out| == i && forall k :: 0 <= k < i ==> PositionOf(out[k]) == positions[k]
      invariant forall t :: t in out ==> t.id in tasks && tasks[t.id] == t && Matches(t, q)
    {
      assert positions[i] in positions;
      MatchingAt(tasks, q, positions[i]);
      out := out + [tasks[positions[i].id]];
    }
  }

  lemma {:induction false} PageOf(tasks: map<TaskId, Task>, q: Query, sorted: seq<Position>)
    requires Keyed(tasks) && Ascending(Precedes(q.ordering, q.descending), sorted)
    requires Lists(sorted, Remaining(Precedes(q.ordering, q.descending), Matching(tasks, q), After(q)))
    ensures var page := if |sorted| > EffectiveLimit(q) then sorted[..EffectiveLimit(q)] else sorted;
            IsPage(Precedes(q.ordering, q.descending), Matching(tasks, q), After(q), EffectiveLimit(q), page, |sorted| > EffectiveLimit(q)) &&
            forall p :: p in page ==> p in Matching(tasks, q)
  {
    MatchingOnePerId(tasks, q);
    CompareOrders(q.ordering, q.descending, Matching(tasks, q));
    SortedPage(Precedes(q.ordering, q.descending), Matching(tasks, q), After(q), EffectiveLimit(q), sorted);
  }

  /** Following cursors over tasks that do not change: the sorted matches, once each, as many as `Count` says. */
  method FollowCursors(tasks: map<TaskId, Task>, q: Query) returns (all: seq<Task>)
    requires Keyed(tasks) && "" !in tasks && q.cursor.None?
    ensures Ascending(Precedes(q.ordering, q.descending), Positions(all)) && Lists(Positions(all), Matching(tasks, q))
    ensures InOrder(q.ordering, q.descending, all) && |all| == |MatchingIds(tasks, q)|
  {
    var query := q;
    ghost var less, items := Precedes(q.ordering, q.descending), Matching(tasks, q);
    MatchingOnePerId(tasks, q);
    CompareOrders(q.ordering, q.descending, items);
    all := [];
    while true
      invariant query == q.(cursor := query.cursor) && SoFar(tasks, q, query, all)
      decreases |Remaining(less, items, After(query))|
    {
      var page := TakePage(tasks, q, query, all);
      all := all + page.tasks;
      if page.next.None? {
        break;
      }
      query := query.(cursor := page.next);
    }
    Gathering(tasks, q, all);
    AnswerInOrder(q.ordering, q.descending, all);
  }

  /** One page of a walk, and what it adds to what has been gathered. */
  method TakePage(tasks: map<TaskId, Task>, q: Query, query: Query, ghost all: seq<Task>) returns (page: Page)
    requires Keyed(tasks) && "" !in tasks && query == q.(cursor := query.cursor) && SoFar(tasks, q, query, all)
    requires StrictOrder(Precedes(q.ordering, q.descending), Matching(tasks, q))
    ensures page.next.Some? ==>
              SoFar(tasks, q, query.(cursor := page.next), all + page.tasks) &&
              |Remaining(Precedes(q.ordering, q.descending), Matching(tasks, q), After(query.(cursor := page.next)))| <
              |Remaining(Precedes(q.ordering, q.descending), Matching(tasks, q), After(query))|
    ensures page.next.None? ==>
              Ascending(Precedes(q.ordering, q.descending), Positions(all + page.tasks)) &&
              Members(Positions(all + page.tasks)) == Matching(tasks, q)
  {
    SameMatching(tasks, q, query);
    var answer := RunQuery(tasks, query);
    page := answer.value;
    GatherPage(tasks, q, query, all, page);
  }

  /** What has been gathered is the matches up to the cursor, in order. */
  ghost predicate SoFar(tasks: map<TaskId, Task>, q: Query, query: Query, all: seq<Task>) {
    && (query.cursor.Some? ==> Decodes(query, query.cursor.value))
    && Gathered(Precedes(q.ordering, q.descending), Matching(tasks, q), After(query), Positions(all))
  }

  lemma SameMatching(tasks: map<TaskId, Task>, q: Query, query: Query)
    requires query == q.(cursor := query.cursor)
    ensures Matching(tasks, query) == Matching(tasks, q) && EffectiveLimit(query) == EffectiveLimit(q)
  {
    assert forall id :: id in tasks ==> (Matches(tasks[id], query) <==> Matches(tasks[id], q));
  }

  lemma {:induction false} GatherPage(tasks: map<TaskId, Task>, q: Query, query: Query, all: seq<Task>, page: Page)
    requires Keyed(tasks) && "" !in tasks && query == q.(cursor := query.cursor) && SoFar(tasks, q, query, all)
    requires StrictOrder(Precedes(q.ordering, q.descending), Matching(tasks, q))
    requires IsPage(Precedes(q.ordering, q.descending), Matching(tasks, q), After(query), EffectiveLimit(q), Positions(page.tasks), page.next.Some?)
    requires page.next.Some? ==>
               page.tasks != [] && page.next.value == Cursor(q.ordering, q.descending, PositionOf(page.tasks[|page.tasks| - 1]))
    ensures page.next.Some? ==>
              SoFar(tasks, q, query.(cursor := page.next), all + page.tasks) &&
              |Remaining(Precedes(q.ordering, q.descending), Matching(tasks, q), After(query.(cursor := page.next)))| <
              |Remaining(Precedes(q.ordering, q.descending), Matching(tasks, q), After(query))|
    ensures page.next.None? ==>
              Ascending(Precedes(q.ordering, q.descending), Positions(all + page.tasks)) &&
              Members(Positions(all + page.tasks)) == Matching(tasks, q)
  {
    assert Positions(all + page.tasks) == Positions(all) + Positions(page.tasks);
    GatherMore(Precedes(q.ordering, q.descending), Matching(tasks, q), After(query), EffectiveLimit(q),
               Positions(all), Positions(page.tasks), page.next.Some?);
    if page.next.Some? {
      assert End(Positions(page.tasks), After(query)) == After(query.(cursor := page.next));
      MatchingAt(tasks, q, page.next.value.after);
    }
  }

  lemma {:induction false} Gathering(tasks: map<TaskId, Task>, q: Query, all: seq<Task>)
    requires Keyed(tasks) && StrictOrder(Precedes(q.ordering, q.descending), Matching(tasks, q))
    requires Ascending(Precedes(q.ordering, q.descending), Positions(all)) && Members(Positions(all)) == Matching(tasks, q)
    ensures Lists(Positions(all), Matching(tasks, q)) && |all| == |MatchingIds(tasks, q)|
  {
    MatchingOnePerId(tasks, q);
    AscendingSize(Precedes(q.ordering, q.descending), Positions(all));
    forall p ensures p in Positions(all) <==> p in Matching(tasks, q) {
      assert p in Positions(all) <==> p in Members(Positions(all));
    }
  }
}

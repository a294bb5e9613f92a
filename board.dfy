/** The aggregates the task board computes from its list of tasks: the
    search filter, the columns by status, the progress and effort scores, the
    date windows (due this week, overdue, focus, upcoming) and the showcase
    task. `now` is the instant the page was opened, in milliseconds. */
module Board {
  import opened Base
  import opened Text
  import opened Statuses
  import opened Metadata
  import opened Derive

  function StatusOf(t: Task): LuxStatus { t.status }

  function EffortOf(t: Task): real { t.effort }

  /** `task.status === s` */
  function HasStatus(s: LuxStatus): Task -> bool
  {
    KeyIs(StatusOf, s)
  }

  /** `task.status !== 'completed'` */
  predicate IsOpen(t: Task)
  {
    t.status != Completed
  }

  /* ---------------- search ---------------- */

  /** `parts.join(sep)` */
  function Join(parts: seq<string>, sep: string): string
  {
    if |parts| == 0 then []
    else if |parts| == 1 then parts[0]
    else Join(parts[..|parts| - 1], sep) + sep + parts[|parts| - 1]
  }

  /** The text a search looks through: title, description, category,
      assignee and the tags, joined by spaces and lower-cased. */
  function SearchText(t: Task): string
  {
    Lower(Join([t.title, t.description, t.category, t.assignee, Join(t.tags, " ")], " "))
  }

  /** The priority selector: `'all'` or one priority. */
  datatype PriorityFilter = AllPriorities | OnlyPriority(priority: Priority)

  predicate PriorityMatches(filter: PriorityFilter, t: Task)
  {
    filter.AllPriorities? || t.priority == filter.priority
  }

  /** The test `filteredTasks` applies, for an already normalised query. */
  predicate MatchesSearch(filter: PriorityFilter, query: string, t: Task)
  {
    PriorityMatches(filter, t) && (query == [] || Contains(SearchText(t), query))
  }

  /** `filteredTasks`: the tasks of the selected priority whose text holds
      the trimmed, lower-cased search term, in board order. */
  function FilteredTasks(tasks: seq<Task>, filter: PriorityFilter, searchTerm: string): (r: seq<Task>)
    ensures forall i | 0 <= i < |r| :: r[i] in tasks && PriorityMatches(filter, r[i])
    ensures forall i | 0 <= i < |r| :: Trim(searchTerm) != [] ==> Contains(SearchText(r[i]), Lower(Trim(searchTerm)))
    ensures forall i | 0 <= i < |tasks| ::
              PriorityMatches(filter, tasks[i]) && (Trim(searchTerm) == [] || Contains(SearchText(tasks[i]), Lower(Trim(searchTerm))))
              ==> tasks[i] in r
  {
    var query := Lower(Trim(searchTerm));
    Filter(tasks, t => MatchesSearch(filter, query, t))
  }

  /** With every priority selected and a blank search term, the filter
      keeps the whole board in order. */
  lemma NoFilterKeepsAll(tasks: seq<Task>, searchTerm: string)
    requires AllWhite(searchTerm)
    ensures FilteredTasks(tasks, AllPriorities, searchTerm) == tasks
  {
    TrimAround(searchTerm, [], []);
    assert searchTerm + [] + [] == searchTerm;
    var query := Lower(Trim(searchTerm));
    FilterAll(tasks, t => MatchesSearch(AllPriorities, query, t));
  }

  /* ---------------- columns ---------------- */

  /** `Record<TaskStatus, Task[]>`, one column per status. */
  datatype Columns = Columns(
    backlog: seq<Task>,
    planning: seq<Task>,
    inProgress: seq<Task>,
    review: seq<Task>,
    completed: seq<Task>)

  function Column(c: Columns, s: LuxStatus): seq<Task>
  {
    match s
    case Backlog => c.backlog
    case Planning => c.planning
    case InProgress => c.inProgress
    case Review => c.review
    case Completed => c.completed
  }

  /** The columns the tasks so far have filled. */
  predicate Grouped(c: Columns, tasks: seq<Task>)
  {
    && c.backlog == Filter(tasks, HasStatus(Backlog))
    && c.planning == Filter(tasks, HasStatus(Planning))
    && c.inProgress == Filter(tasks, HasStatus(LuxStatus.InProgress))
    && c.review == Filter(tasks, HasStatus(Review))
    && c.completed == Filter(tasks, HasStatus(Completed))
  }

  /** `acc[task.status].push(task)`: the task joins the end of the column
      of its status and no other column changes. */
  function Push(c: Columns, t: Task): (r: Columns)
    ensures forall s: LuxStatus :: Column(r, s) == Column(c, s) + (if t.status == s then [t] else [])
  {
    match t.status
    case Backlog => c.(backlog := c.backlog + [t])
    case Planning => c.(planning := c.planning + [t])
    case InProgress => c.(inProgress := c.inProgress + [t])
    case Review => c.(review := c.review + [t])
    case Completed => c.(completed := c.completed + [t])
  }

  /** Pushing the next task keeps the columns grouped. */
  lemma GroupedPush(c: Columns, prefix: seq<Task>, t: Task)
    requires forall s: LuxStatus :: Column(c, s) == Filter(prefix, HasStatus(s))
    ensures forall s: LuxStatus :: Column(Push(c, t), s) == Filter(prefix + [t], HasStatus(s))
  {
    forall s: LuxStatus
      ensures Column(Push(c, t), s) == Filter(prefix + [t], HasStatus(s))
    {
      FilterSnoc(prefix, t, HasStatus(s));
    }
  }

  /** `boardDataFull` (and `boardData` when given the filtered tasks): each
      task pushed onto the column of its status. Every column is exactly the
      tasks of that status, in board order. */
  method GroupByStatus(tasks: seq<Task>) returns (c: Columns)
    ensures forall s: LuxStatus :: Column(c, s) == Filter(tasks, HasStatus(s))
  {
    c := Columns([], [], [], [], []);
    for i := 0 to |tasks|
      invariant forall s: LuxStatus :: Column(c, s) == Filter(tasks[..i], HasStatus(s))
    {
      GroupedPush(c, tasks[..i], tasks[i]);
      assert tasks[..i + 1] == tasks[..i] + [tasks[i]];
      c := Push(c, tasks[i]);
    }
    assert tasks[..|tasks|] == tasks;
  }

  /** Adding one task to the board adds it to the count of its own status only. */
  lemma CountSnoc(tasks: seq<Task>, t: Task, s: LuxStatus)
    ensures |Filter(tasks + [t], HasStatus(s))| == |Filter(tasks, HasStatus(s))| + (if t.status == s then 1 else 0)
  {
    FilterSnoc(tasks, t, HasStatus(s));
  }

  /** The columns partition the board: their sizes add up to the number of tasks. */
  lemma {:induction false} ColumnsPartition(tasks: seq<Task>)
    ensures |Filter(tasks, HasStatus(Backlog))| + |Filter(tasks, HasStatus(Planning))|
            + |Filter(tasks, HasStatus(LuxStatus.InProgress))| + |Filter(tasks, HasStatus(Review))|
            + |Filter(tasks, HasStatus(Completed))| == |tasks|
    decreases |tasks|
  {
    if |tasks| > 0 {
      var init := tasks[..|tasks| - 1];
      var t := tasks[|tasks| - 1];
      assert init + [t] == tasks;
      ColumnsPartition(init);
      CountSnoc(init, t, Backlog);
      CountSnoc(init, t, Planning);
      CountSnoc(init, t, LuxStatus.InProgress);
      CountSnoc(init, t, Review);
      CountSnoc(init, t, Completed);
    }
  }

  /* ---------------- scores ---------------- */

  /** A share of a positive whole, as a rounded percentage. */
  lemma RoundedShare(part: real, whole: real)
    requires 0.0 <= part && 0.0 < whole
    ensures 0 <= Round(part / whole * 100.0)
    ensures part <= whole ==> Round(part / whole * 100.0) <= 100
    ensures part == whole ==> Round(part / whole * 100.0) == 100
  {
    var q := part / whole;
    assert q * whole == part;
    assert 0.0 <= q;
    if part <= whole {
      assert q <= 1.0;
    }
    if part == whole {
      assert q == 1.0;
    }
  }

  /** `whole ? Math.round((part / whole) * 100) : 0` */
  function Percent(part: nat, whole: nat): (r: int)
    ensures whole == 0 ==> r == 0
    ensures part <= whole ==> 0 <= r <= 100
    ensures 0 < whole && part == whole ==> r == 100
    ensures part == 0 ==> r == 0
  {
    if whole == 0 then 0
    else
      RoundedShare(part as real, whole as real);
      Round(part as real / whole as real * 100.0)
  }

  /** `progressPercent`: the share of completed tasks. */
  function Progress(tasks: seq<Task>): (r: int)
    ensures 0 <= r <= 100
  {
    Percent(|Filter(tasks, HasStatus(Completed))|, |tasks|)
  }

  /** A board with every task completed is at 100, one with none at 0. */
  lemma ProgressExtremes(tasks: seq<Task>)
    ensures tasks != [] && (forall i | 0 <= i < |tasks| :: !IsOpen(tasks[i])) ==> Progress(tasks) == 100
    ensures (forall i | 0 <= i < |tasks| :: IsOpen(tasks[i])) ==> Progress(tasks) == 0
  {
    if forall i | 0 <= i < |tasks| :: !IsOpen(tasks[i]) {
      FilterAll(tasks, HasStatus(Completed));
    }
    if forall i | 0 <= i < |tasks| :: IsOpen(tasks[i]) {
      FilterNone(tasks, HasStatus(Completed));
    }
  }

  /** The effort of the tasks in one column. */
  function EffortIn(tasks: seq<Task>, s: LuxStatus): real
  {
    SumBy(Filter(tasks, HasStatus(s)), EffortOf)
  }

  function TotalEffort(tasks: seq<Task>): real
  {
    SumBy(tasks, EffortOf)
  }

  /** The weighted efforts the two scores divide by the total. */
  function MomentumEffort(tasks: seq<Task>): real
  {
    EffortIn(tasks, LuxStatus.InProgress) + EffortIn(tasks, Review) * 1.25
  }

  function RunwayEffort(tasks: seq<Task>): real
  {
    EffortIn(tasks, Completed) + EffortIn(tasks, Planning) * 0.45 + EffortIn(tasks, LuxStatus.InProgress) * 0.7
  }

  /** `momentumScore`: in-progress effort plus review effort weighted 1.25,
      as a share of all effort, capped at 100. */
  function Momentum(tasks: seq<Task>): (r: int)
    ensures r <= 100
    ensures TotalEffort(tasks) == 0.0 ==> r == 0
  {
    var total := TotalEffort(tasks);
    if total == 0.0 then 0
    else Min(100, Round(MomentumEffort(tasks) / total * 100.0))
  }

  /** `runwayConfidence`: completed effort, planning effort weighted 0.45
      and in-progress effort weighted 0.7, as a share of all effort, capped at 100. */
  function Runway(tasks: seq<Task>): (r: int)
    ensures r <= 100
    ensures TotalEffort(tasks) == 0.0 ==> r == 0
  {
    var total := TotalEffort(tasks);
    if total == 0.0 then 0
    else Min(100, Round(RunwayEffort(tasks) / total * 100.0))
  }

  predicate EffortsNonNegative(tasks: seq<Task>)
  {
    forall i | 0 <= i < |tasks| :: tasks[i].effort >= 0.0
  }

  lemma EffortInNonNegative(tasks: seq<Task>, s: LuxStatus)
    requires EffortsNonNegative(tasks)
    ensures EffortIn(tasks, s) >= 0.0
  {
    var f := Filter(tasks, HasStatus(s));
    assert forall i | 0 <= i < |f| :: f[i] in tasks;
    SumByNonNegative(f, EffortOf);
  }

  /** Adding one task to the board adds its effort to its own column only. */
  lemma {:induction false} EffortInSnoc(tasks: seq<Task>, t: Task, s: LuxStatus)
    ensures EffortIn(tasks + [t], s) == EffortIn(tasks, s) + (if t.status == s then t.effort else 0.0)
  {
    var f := Filter(tasks, HasStatus(s));
    FilterSnoc(tasks, t, HasStatus(s));
    if t.status == s {
      assert Filter(tasks + [t], HasStatus(s)) == f + [t];
      SumBySnoc(f, t, EffortOf);
    } else {
      assert Filter(tasks + [t], HasStatus(s)) == f;
    }
  }

  /** The column efforts add up to the total effort. */
  lemma {:induction false} EffortPartition(tasks: seq<Task>)
    ensures EffortIn(tasks, Backlog) + EffortIn(tasks, Planning) + EffortIn(tasks, LuxStatus.InProgress)
            + EffortIn(tasks, Review) + EffortIn(tasks, Completed) == TotalEffort(tasks)
    decreases |tasks|
  {
    if |tasks| > 0 {
      var init := tasks[..|tasks| - 1];
      var t := tasks[|tasks| - 1];
      assert init + [t] == tasks;
      EffortPartition(init);
      EffortInSnoc(init, t, Backlog);
      EffortInSnoc(init, t, Planning);
      EffortInSnoc(init, t, LuxStatus.InProgress);
      EffortInSnoc(init, t, Review);
      EffortInSnoc(init, t, Completed);
    }
  }

  /** With non-negative efforts the columns and the weighted efforts are
      non-negative, and the runway's weighted effort is at most the total. */
  lemma WeightedEfforts(tasks: seq<Task>)
    requires EffortsNonNegative(tasks)
    ensures 0.0 <= MomentumEffort(tasks) && 0.0 <= TotalEffort(tasks)
    ensures 0.0 <= RunwayEffort(tasks) <= TotalEffort(tasks)
  {
    EffortPartition(tasks);
    EffortInNonNegative(tasks, Backlog);
    EffortInNonNegative(tasks, Planning);
    EffortInNonNegative(tasks, LuxStatus.InProgress);
    EffortInNonNegative(tasks, Review);
    EffortInNonNegative(tasks, Completed);
  }

  /** With non-negative efforts both scores are at least 0. */
  lemma ScoresNonNegative(tasks: seq<Task>)
    requires EffortsNonNegative(tasks)
    ensures Momentum(tasks) >= 0 && Runway(tasks) >= 0
  {
    WeightedEfforts(tasks);
    var total := TotalEffort(tasks);
    if total != 0.0 {
      RoundedShare(MomentumEffort(tasks), total);
      RoundedShare(RunwayEffort(tasks), total);
    }
  }

  /** The runway cap never bites: with non-negative efforts the weighted
      share is at most the whole effort, so the rounded score is at most 100
      before the `Math.min`. */
  lemma RunwayWithinWhole(tasks: seq<Task>)
    requires EffortsNonNegative(tasks) && TotalEffort(tasks) != 0.0
    ensures Runway(tasks) == Round(RunwayEffort(tasks) / TotalEffort(tasks) * 100.0)
  {
    WeightedEfforts(tasks);
    RoundedShare(RunwayEffort(tasks), TotalEffort(tasks));
  }

  /** Momentum can exceed the whole effort (review counts 1.25), which is
      what the cap is for: a board whose effort is all in review scores 100. */
  lemma AllInReviewMomentum(t: Task)
    requires t.status == Review && t.effort > 0.0
    ensures Momentum([t]) == 100
  {
    var m := MomentumEffort([t]);
    var w := TotalEffort([t]);
    assert m == w * 1.25 && w > 0.0 by {
      OneTaskEfforts(t);
    }
    ScaledShare(m, w, 1.25);
    assert m / w * 100.0 == 125.0;
    assert Round(125.0) == 125;
  }

  /** A board of one task: all of its effort is in its own column. */
  lemma OneTaskEfforts(t: Task)
    ensures TotalEffort([t]) == t.effort
    ensures EffortIn([t], LuxStatus.InProgress) == (if t.status == LuxStatus.InProgress then t.effort else 0.0)
    ensures EffortIn([t], Review) == (if t.status == Review then t.effort else 0.0)
  {
    assert [] + [t] == [t];
    EffortInSnoc([], t, LuxStatus.InProgress);
    EffortInSnoc([], t, Review);
    SumBySnoc([], t, EffortOf);
  }

  /** A part that is `c` times a positive whole is a share `c` of it. */
  lemma ScaledShare(part: real, whole: real, c: real)
    requires whole > 0.0 && part == whole * c
    ensures part / whole == c
  {
  }

  /* ---------------- date windows ---------------- */

  const Week := 7 * MsPerDay

  /** `isWithinInterval(parseISO(task.dueDate), { start: today, end: addDays(today, days) })` */
  predicate DueWithin(t: Task, now: int, days: int)
  {
    now <= DayStart(t.dueDate) <= now + days * MsPerDay
  }

  /** `isBefore(parseISO(task.dueDate), today)` */
  predicate DueBefore(t: Task, now: int)
  {
    DayStart(t.dueDate) < now
  }

  /** `dueThisWeek`: open tasks whose day starts within the next seven days. */
  function DueThisWeek(tasks: seq<Task>, now: int): (r: seq<Task>)
    ensures forall i | 0 <= i < |r| :: r[i] in tasks && IsOpen(r[i]) && DueWithin(r[i], now, 7)
    ensures forall i | 0 <= i < |tasks| :: IsOpen(tasks[i]) && DueWithin(tasks[i], now, 7) ==> tasks[i] in r
  {
    Filter(tasks, t => IsOpen(t) && DueWithin(t, now, 7))
  }

  /** `overdueTasks`: open tasks whose day started before now. */
  function Overdue(tasks: seq<Task>, now: int): (r: seq<Task>)
    ensures forall i | 0 <= i < |r| :: r[i] in tasks && IsOpen(r[i]) && DueBefore(r[i], now)
    ensures forall i | 0 <= i < |tasks| :: IsOpen(tasks[i]) && DueBefore(tasks[i], now) ==> tasks[i] in r
  {
    Filter(tasks, t => IsOpen(t) && DueBefore(t, now))
  }

  /** `criticalOpenTasks` */
  function CriticalOpen(tasks: seq<Task>): (r: seq<Task>)
    ensures forall i | 0 <= i < |r| :: r[i] in tasks && IsOpen(r[i]) && r[i].priority == Critical
    ensures forall i | 0 <= i < |tasks| :: IsOpen(tasks[i]) && tasks[i].priority == Critical ==> tasks[i] in r
  {
    Filter(tasks, (t: Task) => t.priority == Critical && IsOpen(t))
  }

  /** No task is both overdue and due this week. */
  lemma OverdueNotDueThisWeek(tasks: seq<Task>, now: int, t: Task)
    requires t in Overdue(tasks, now)
    ensures t !in DueThisWeek(tasks, now)
  {
  }

  /** Dates are compared as the instant their day starts, against the
      instant the page was opened: an open task due today counts as overdue
      (not as due this week) as soon as the day has begun. */
  lemma DueTodayIsOverdue(tasks: seq<Task>, now: int, i: nat)
    requires i < |tasks| && IsOpen(tasks[i]) && tasks[i].dueDate == Today(now)
    requires DayStart(Today(now)) < now
    ensures tasks[i] in Overdue(tasks, now) && tasks[i] !in DueThisWeek(tasks, now)
  {
  }

  /* ---------------- ordering by due date ---------------- */

  predicate SortedBy<T>(s: seq<T>, key: T -> int)
  {
    forall i, j | 0 <= i < j < |s| :: key(s[i]) <= key(s[j])
  }

  /** Inserts `x` before the first element whose key is no smaller. */
  function InsertBy<T>(x: T, s: seq<T>, key: T -> int): (r: seq<T>)
    ensures |r| == |s| + 1
    ensures r[0] == x || (s != [] && r[0] == s[0])
    ensures multiset(r) == multiset(s) + multiset{x}
  {
    if s == [] || key(x) <= key(s[0]) then [x] + s
    else
      assert s == [s[0]] + s[1..];
      [s[0]] + InsertBy(x, s[1..], key)
  }

  /** Inserting into a sorted list keeps it sorted. */
  lemma {:induction false} InsertBySorted<T>(x: T, s: seq<T>, key: T -> int)
    requires SortedBy(s, key)
    ensures SortedBy(InsertBy(x, s, key), key)
    decreases |s|
  {
    if s != [] && key(x) > key(s[0]) {
      var rest := InsertBy(x, s[1..], key);
      InsertBySorted(x, s[1..], key);
      assert key(s[0]) <= key(rest[0]);
    }
  }

  /** `sort((a, b) => key(a) - key(b))`: a stable sort by an integer key,
      as `Array.prototype.sort` is. */
  function SortBy<T>(s: seq<T>, key: T -> int): (r: seq<T>)
    ensures SortedBy(r, key)
    ensures multiset(r) == multiset(s)
  {
    if s == [] then []
    else
      assert s == [s[0]] + s[1..];
      var rest := SortBy(s[1..], key);
      InsertBySorted(s[0], rest, key);
      InsertBy(s[0], rest, key)
  }

  lemma FilterCons<T>(x: T, s: seq<T>, p: T -> bool)
    ensures Filter([x] + s, p) == (if p(x) then [x] else []) + Filter(s, p)
  {
    FilterAppend([x], s, p);
    FilterSnoc([], x, p);
    assert [] + [x] == [x];
  }

  lemma FilterHead<T>(s: seq<T>, p: T -> bool)
    requires s != []
    ensures Filter(s, p) == (if p(s[0]) then [s[0]] else []) + Filter(s[1..], p)
  {
    FilterCons(s[0], s[1..], p);
    assert [s[0]] + s[1..] == s;
  }

  /** Filtering after moving `x` past a head `y` the test tells apart from it. */
  lemma FilterPast<T>(x: T, rest: seq<T>, s: seq<T>, p: T -> bool)
    requires s != [] && (p(x) ==> !p(s[0]))
    requires Filter(rest, p) == (if p(x) then [x] else []) + Filter(s[1..], p)
    ensures Filter([s[0]] + rest, p) == (if p(x) then [x] else []) + Filter(s, p)
  {
    FilterCons(s[0], rest, p);
    FilterHead(s, p);
    var tail := Filter(s[1..], p);
    if p(x) {
      assert Filter([s[0]] + rest, p) == [x] + tail;
      assert Filter(s, p) == tail;
    } else {
      assert Filter(rest, p) == [] + tail == tail;
      assert (if p(x) then [x] else []) + Filter(s, p) == Filter(s, p);
    }
  }

  lemma {:induction false} InsertByKeepsOrder<T(!new)>(x: T, s: seq<T>, key: T -> int, k: int)
    ensures Filter(InsertBy(x, s, key), KeyIs(key, k))
            == (if key(x) == k then [x] else []) + Filter(s, KeyIs(key, k))
    decreases |s|
  {
    var p := KeyIs(key, k);
    if s == [] || key(x) <= key(s[0]) {
      FilterCons(x, s, p);
    } else {
      var rest := InsertBy(x, s[1..], key);
      assert InsertBy(x, s, key) == [s[0]] + rest;
      InsertByKeepsOrder(x, s[1..], key, k);
      FilterPast(x, rest, s, p);
    }
  }

  /** The sort is stable: the elements with any one key keep their order. */
  lemma {:induction false} SortByStable<T(!new)>(s: seq<T>, key: T -> int, k: int)
    ensures Filter(SortBy(s, key), KeyIs(key, k)) == Filter(s, KeyIs(key, k))
    decreases |s|
  {
    if s != [] {
      assert s == [s[0]] + s[1..];
      SortByStable(s[1..], key, k);
      InsertByKeepsOrder(s[0], SortBy(s[1..], key), key, k);
      FilterCons(s[0], s[1..], KeyIs(key, k));
    }
  }

  /** `slice(0, n)` */
  function Take<T>(s: seq<T>, n: nat): (r: seq<T>)
    ensures |r| == if |s| < n then |s| else n
    ensures r == s[..|r|]
  {
    if |s| <= n then s else s[..n]
  }

  /** What sorting and keeping the first four promises: at most four
      elements, all selected, in key order, and everything when no more than
      four were selected. */
  lemma SortedTake<T>(sel: seq<T>, key: T -> int)
    ensures |Take(SortBy(sel, key), 4)| == (if |sel| < 4 then |sel| else 4)
    ensures SortedBy(Take(SortBy(sel, key), 4), key)
    ensures forall i | 0 <= i < |Take(SortBy(sel, key), 4)| :: Take(SortBy(sel, key), 4)[i] in sel
    ensures |sel| <= 4 ==> multiset(Take(SortBy(sel, key), 4)) == multiset(sel)
  {
    var sorted := SortBy(sel, key);
    var r := Take(sorted, 4);
    forall i | 0 <= i < |r|
      ensures r[i] in sel
    {
      assert r[i] in multiset(sorted);
    }
  }

  /** No selected element is left out whose key is smaller than one kept. */
  lemma SortedTakeSmallest<T>(sel: seq<T>, key: T -> int)
    ensures forall i, x | 0 <= i < |Take(SortBy(sel, key), 4)| && x in sel && x !in Take(SortBy(sel, key), 4) ::
              key(Take(SortBy(sel, key), 4)[i]) <= key(x)
  {
    var sorted := SortBy(sel, key);
    var r := Take(sorted, 4);
    forall i, x | 0 <= i < |r| && x in sel && x !in r
      ensures key(r[i]) <= key(x)
    {
      assert x in multiset(sorted);
      var k :| 0 <= k < |sorted| && sorted[k] == x;
      assert k >= |r|;
    }
  }

  function DueOf(t: Task): int { t.dueDate }

  /** The test `focusTasks` applies after dropping completed tasks: critical,
      or due within the next ten days. */
  predicate CriticalOrSoon(t: Task, now: int)
  {
    t.priority == Critical || DueWithin(t, now, 10)
  }

  function SoonTest(now: int): Task -> bool
  {
    t => CriticalOrSoon(t, now)
  }

  /** The tasks `focusTasks` chooses from: open, and critical or due soon. */
  function FocusCandidates(tasks: seq<Task>, now: int): (sel: seq<Task>)
    ensures forall x | x in sel :: x in tasks && IsOpen(x) && CriticalOrSoon(x, now)
    ensures forall j | 0 <= j < |tasks| && IsOpen(tasks[j]) && CriticalOrSoon(tasks[j], now) :: tasks[j] in sel
  {
    var open := Filter(tasks, IsOpen);
    assert forall j | 0 <= j < |tasks| && IsOpen(tasks[j]) :: tasks[j] in open;
    Filter(open, SoonTest(now))
  }

  /** `focusTasks`: the four earliest-due open tasks that are critical or
      due within ten days. */
  function FocusTasks(tasks: seq<Task>, now: int): (r: seq<Task>)
    ensures |r| <= 4 && SortedBy(r, DueOf)
    ensures forall i | 0 <= i < |r| :: r[i] in tasks && IsOpen(r[i]) && CriticalOrSoon(r[i], now)
    // four of them, or all of them when there are fewer
    ensures |r| == Min(4, |FocusCandidates(tasks, now)|)
  {
    var sel := FocusCandidates(tasks, now);
    SortedTake(sel, DueOf);
    Take(SortBy(sel, DueOf), 4)
  }

  /** No task that qualifies for the focus list but is left off it is due
      earlier than one on it. */
  lemma FocusTasksEarliest(tasks: seq<Task>, now: int)
    ensures forall i, j | 0 <= i < |FocusTasks(tasks, now)| && 0 <= j < |tasks|
              && IsOpen(tasks[j]) && CriticalOrSoon(tasks[j], now) && tasks[j] !in FocusTasks(tasks, now) ::
              DueOf(FocusTasks(tasks, now)[i]) <= DueOf(tasks[j])
  {
    SortedTakeSmallest(FocusCandidates(tasks, now), DueOf);
  }

  function NotYetDue(now: int): Task -> bool
  {
    t => IsOpen(t) && !DueBefore(t, now)
  }

  /** The tasks `upcomingMilestones` chooses from: open and not yet due. */
  function UpcomingCandidates(tasks: seq<Task>, now: int): (sel: seq<Task>)
    ensures forall x | x in sel :: x in tasks && IsOpen(x) && now <= DayStart(x.dueDate)
    ensures forall j | 0 <= j < |tasks| && IsOpen(tasks[j]) && now <= DayStart(tasks[j].dueDate) :: tasks[j] in sel
  {
    Filter(tasks, NotYetDue(now))
  }

  /** `upcomingMilestones`: the four earliest-due open tasks not yet due. */
  function Upcoming(tasks: seq<Task>, now: int): (r: seq<Task>)
    ensures |r| <= 4 && SortedBy(r, DueOf)
    ensures forall i | 0 <= i < |r| :: r[i] in tasks && IsOpen(r[i]) && now <= DayStart(r[i].dueDate)
    ensures |r| == Min(4, |UpcomingCandidates(tasks, now)|)
  {
    var sel := UpcomingCandidates(tasks, now);
    SortedTake(sel, DueOf);
    Take(SortBy(sel, DueOf), 4)
  }

  /** No open task left off the upcoming list is due later than now but
      earlier than one on it. */
  lemma UpcomingEarliest(tasks: seq<Task>, now: int)
    ensures forall i, j | 0 <= i < |Upcoming(tasks, now)| && 0 <= j < |tasks|
              && IsOpen(tasks[j]) && now <= DayStart(tasks[j].dueDate) && tasks[j] !in Upcoming(tasks, now) ::
              DueOf(Upcoming(tasks, now)[i]) <= DueOf(tasks[j])
  {
    SortedTakeSmallest(UpcomingCandidates(tasks, now), DueOf);
  }

  /* ---------------- showcase ---------------- */

  /** The showcase order: higher impact first, then higher effort. `x` may
      stand before `y`. */
  predicate RanksAtLeast(x: Task, y: Task)
  {
    x.impact > y.impact || (x.impact == y.impact && x.effort >= y.effort)
  }

  predicate RankSorted(a: seq<Task>)
  {
    forall i, j | 0 <= i < j < |a| :: RanksAtLeast(a[i], a[j])
  }

  lemma RanksTransitive(x: Task, y: Task, z: Task)
    requires RanksAtLeast(x, y) && RanksAtLeast(y, z)
    ensures RanksAtLeast(x, z)
  {
  }

  /** `s` with the entries at `p` and `q` exchanged. */
  function Swap(s: seq<Task>, p: nat, q: nat): (r: seq<Task>)
    requires p < q < |s|
    ensures |r| == |s| && r[p] == s[q] && r[q] == s[p]
    ensures forall k | 0 <= k < |s| && k != p && k != q :: r[k] == s[k]
    ensures multiset(r) == multiset(s)
  {
    var t := s[p := s[q]];
    assert multiset(t) == multiset(s) - multiset{s[p]} + multiset{s[q]};
    t[q := s[p]]
  }

  /** Midway through an insertion step: the task being inserted sits at `j`
      and outranks everything after it up to `i`; the rest of `s[..i + 1]`
      is in showcase order. */
  predicate Inserting(s: seq<Task>, i: nat, j: nat)
    requires j <= i < |s|
  {
    && (forall p, q | 0 <= p < q <= i && p != j && q != j :: RanksAtLeast(s[p], s[q]))
    && (forall q | j < q <= i :: RanksAtLeast(s[j], s[q]))
    && (forall p, q | 0 <= p < j < q <= i :: RanksAtLeast(s[p], s[q]))
  }

  lemma InsertingStart(s: seq<Task>, i: nat)
    requires i < |s| && RankSorted(s[..i])
    ensures Inserting(s, i, i)
  {
    assert forall p | 0 <= p < i :: s[..i][p] == s[p];
  }

  lemma InsertingStep(s: seq<Task>, i: nat, j: nat)
    requires 0 < j <= i < |s| && Inserting(s, i, j) && !RanksAtLeast(s[j - 1], s[j])
    ensures Inserting(Swap(s, j - 1, j), i, j - 1)
  {
  }

  lemma InsertingDone(s: seq<Task>, i: nat, j: nat)
    requires j <= i < |s| && Inserting(s, i, j) && (j == 0 || RanksAtLeast(s[j - 1], s[j]))
    ensures RankSorted(s[..i + 1])
  {
    forall p | 0 <= p < j
      ensures RanksAtLeast(s[p], s[j])
    {
      if p < j - 1 {
        RanksTransitive(s[p], s[j - 1], s[j]);
      }
    }
  }

  /** One insertion step: `a[..i]` is in showcase order; `a[i]` is moved
      left past every task it outranks. */
  method InsertAt(a: array<Task>, i: nat)
    requires i < a.Length && RankSorted(a[..i])
    modifies a
    ensures RankSorted(a[..i + 1])
    ensures multiset(a[..]) == multiset(old(a[..]))
    ensures forall k | i < k < a.Length :: a[k] == old(a[k])
  {
    var j := i;
    InsertingStart(a[..], i);
    while j > 0 && !RanksAtLeast(a[j - 1], a[j])
      invariant 0 <= j <= i
      invariant multiset(a[..]) == multiset(old(a[..]))
      invariant forall k | i < k < a.Length :: a[k] == old(a[k])
      invariant Inserting(a[..], i, j)
    {
      ghost var before := a[..];
      InsertingStep(before, i, j);
      a[j - 1], a[j] := a[j], a[j - 1];
      assert a[..] == Swap(before, j - 1, j);
      j := j - 1;
    }
    InsertingDone(a[..], i, j);
  }

  /** `open.sort(...)`: sorts the array in place into showcase order. */
  method SortForShowcase(a: array<Task>)
    modifies a
    ensures RankSorted(a[..])
    ensures multiset(a[..]) == multiset(old(a[..]))
  {
    for i := 0 to a.Length
      invariant RankSorted(a[..i])
      invariant multiset(a[..]) == multiset(old(a[..]))
    {
      InsertAt(a, i);
    }
    assert a[..a.Length] == a[..];
  }

  /** `showcaseTask`: the first open task once the open tasks are sorted by
      impact and effort; `None` for `undefined` when every task is completed. */
  method ShowcaseTask(tasks: seq<Task>) returns (r: Option<Task>)
    ensures r.None? <==> forall i | 0 <= i < |tasks| :: !IsOpen(tasks[i])
    ensures r.Some? ==> r.value in tasks && IsOpen(r.value)
    ensures r.Some? ==> forall i | 0 <= i < |tasks| && IsOpen(tasks[i]) :: RanksAtLeast(r.value, tasks[i])
  {
    var open := Filter(tasks, IsOpen);
    var a := new Task[|open|](i requires 0 <= i < |open| => open[i]);
    assert a[..] == open;
    SortForShowcase(a);
    if a.Length == 0 {
      r := None;
      assert forall i | 0 <= i < |tasks| :: IsOpen(tasks[i]) ==> tasks[i] in open;
    } else {
      r := Some(a[0]);
      assert a[0] in multiset(a[..]);
      forall i | 0 <= i < |tasks| && IsOpen(tasks[i])
        ensures RanksAtLeast(a[0], tasks[i])
      {
        assert tasks[i] in multiset(a[..]);
        var k :| 0 <= k < a.Length && a[k] == tasks[i];
        assert k == 0 || RanksAtLeast(a[0], a[k]);
      }
    }
  }
}

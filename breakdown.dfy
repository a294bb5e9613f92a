/** The two per-key summaries of the task board: `categoryBreakdown` (one row
    per category) and `teamLoad` (one row per assignee). Both walk the task
    list once, updating the entry of a `Map` keyed by category or assignee;
    the `Map` is modelled as a `map` together with the list of its keys in
    insertion order, which is the order of `Array.from(map.entries())`. */
module Breakdown {
  import opened Base
  import opened Statuses
  import opened Derive
  import opened Board

  /** `{ total, active, completed, effort }` */
  datatype Stats = Stats(total: nat, active: nat, completed: nat, effort: real)

  /** `{ total: 0, active: 0, completed: 0, effort: 0 }` */
  const NoStats := Stats(0, 0, 0, 0.0)

  /** The entry once `task` is counted in it. */
  function Tallied(entry: Stats, task: Task): Stats
  {
    if task.status == Completed then
      Stats(entry.total + 1, entry.active, entry.completed + 1, entry.effort + task.effort)
    else
      Stats(entry.total + 1, entry.active + 1, entry.completed, entry.effort + task.effort)
  }

  /** The entry of a group of tasks, counted in order. */
  function StatsOf(group: seq<Task>): (r: Stats)
    ensures r.total == |group|
    ensures r.active + r.completed == r.total
  {
    if |group| == 0 then NoStats else Tallied(StatsOf(group[..|group| - 1]), group[|group| - 1])
  }

  /** An entry counts the completed tasks of its group and adds up their effort. */
  lemma {:induction false} StatsOfCounts(group: seq<Task>)
    ensures StatsOf(group).completed == |Filter(group, HasStatus(Completed))|
    ensures StatsOf(group).effort == SumBy(group, EffortOf)
  {
    if |group| > 0 {
      var init := group[..|group| - 1];
      var last := group[|group| - 1];
      StatsOfCounts(init);
      assert init + [last] == group;
      FilterSnoc(init, last, HasStatus(Completed));
    }
  }

  lemma StatsSnoc(group: seq<Task>, task: Task)
    ensures StatsOf(group + [task]) == Tallied(StatsOf(group), task)
  {
    assert (group + [task])[..|group|] == group;
  }

  /** The key of every task, in order. */
  function KeysOf(tasks: seq<Task>, keyOf: Task -> string): (r: seq<string>)
    ensures |r| == |tasks| && forall i | 0 <= i < |tasks| :: r[i] == keyOf(tasks[i])
  {
    seq(|tasks|, i requires 0 <= i < |tasks| => keyOf(tasks[i]))
  }

  lemma KeysOfSnoc(seen: seq<Task>, task: Task, keyOf: Task -> string)
    ensures KeysOf(seen + [task], keyOf) == KeysOf(seen, keyOf) + [keyOf(task)]
  {
  }

  /** No task of `seen` has a key that was never met. */
  lemma NewKeyHasNoTasks(seen: seq<Task>, keyOf: Task -> string, k: string)
    requires k !in KeysOf(seen, keyOf)
    ensures Filter(seen, KeyIs(keyOf, k)) == []
  {
    forall i | 0 <= i < |seen|
      ensures !KeyIs(keyOf, k)(seen[i])
    {
      assert KeysOf(seen, keyOf)[i] == keyOf(seen[i]);
    }
    FilterNone(seen, KeyIs(keyOf, k));
  }

  /** The entry of one key after one more task is seen. */
  lemma EntryStep(seen: seq<Task>, task: Task, keyOf: Task -> string, k: string)
    ensures StatsOf(Filter(seen + [task], KeyIs(keyOf, k)))
            == if keyOf(task) == k then Tallied(StatsOf(Filter(seen, KeyIs(keyOf, k))), task)
               else StatsOf(Filter(seen, KeyIs(keyOf, k)))
  {
    FilterSnoc(seen, task, KeyIs(keyOf, k));
    if keyOf(task) == k {
      StatsSnoc(Filter(seen, KeyIs(keyOf, k)), task);
    } else {
      assert Filter(seen + [task], KeyIs(keyOf, k)) == Filter(seen, KeyIs(keyOf, k));
    }
  }

  /** The map the `forEach` builds over `seen`, one task at a time: the
      entry of each task's key is fetched (or started at zero) and the task
      counted in it. */
  ghost function Tallies(seen: seq<Task>, keyOf: Task -> string): map<string, Stats>
  {
    if |seen| == 0 then map[]
    else
      var before := Tallies(seen[..|seen| - 1], keyOf);
      var task := seen[|seen| - 1];
      var k := keyOf(task);
      before[k := Tallied(if k in before then before[k] else NoStats, task)]
  }

  /** The keys of the map in insertion order, as the `forEach` meets them. */
  ghost function KeyOrder(seen: seq<Task>, keyOf: Task -> string): seq<string>
  {
    if |seen| == 0 then []
    else
      var before := KeyOrder(seen[..|seen| - 1], keyOf);
      var k := keyOf(seen[|seen| - 1]);
      if k in before then before else before + [k]
  }

  /** The insertion order lists every key met, once, in order of first
      occurrence. */
  lemma {:induction false} KeyOrderFirstOccurrence(seen: seq<Task>, keyOf: Task -> string)
    ensures KeyOrder(seen, keyOf) == Dedup(KeysOf(seen, keyOf))
  {
    if |seen| > 0 {
      var init := seen[..|seen| - 1];
      var task := seen[|seen| - 1];
      KeyOrderFirstOccurrence(init, keyOf);
      assert init + [task] == seen;
      KeysOfSnoc(init, task, keyOf);
      DedupSnoc(KeysOf(init, keyOf), keyOf(task));
    }
  }

  /** The map holds an entry for exactly the keys met so far. */
  lemma {:induction false} TalliesKeys(seen: seq<Task>, keyOf: Task -> string, k: string)
    ensures k in Tallies(seen, keyOf) <==> k in KeysOf(seen, keyOf)
  {
    if |seen| > 0 {
      var init := seen[..|seen| - 1];
      var task := seen[|seen| - 1];
      TalliesKeys(init, keyOf, k);
      assert init + [task] == seen;
      KeysOfSnoc(init, task, keyOf);
    }
  }

  /** Building the map task by task groups the tasks by key: each entry
      counts exactly the tasks with that key. */
  lemma {:induction false} TalliesEntry(seen: seq<Task>, keyOf: Task -> string, k: string)
    requires k in Tallies(seen, keyOf)
    ensures Tallies(seen, keyOf)[k] == StatsOf(Filter(seen, KeyIs(keyOf, k)))
  {
    var init := seen[..|seen| - 1];
    var task := seen[|seen| - 1];
    assert init + [task] == seen;
    EntryStep(init, task, keyOf, k);
    if k in Tallies(init, keyOf) {
      TalliesEntry(init, keyOf, k);
    } else {
      TalliesKeys(init, keyOf, k);
      NewKeyHasNoTasks(init, keyOf, k);
    }
  }

  /** The body of both `forEach` callbacks on the entry of the task's key:
      one more task, its effort, and one more completed or active task. */
  method Count(entry: Stats, task: Task) returns (e: Stats)
    ensures e == Tallied(entry, task)
  {
    e := entry.(total := entry.total + 1, effort := entry.effort + task.effort);
    if task.status == Completed {
      e := e.(completed := e.completed + 1);
    } else {
      e := e.(active := e.active + 1);
    }
  }

  /** The `forEach` of both summaries: each task's entry is fetched (or
      started at zero), counted and stored back under the task's key. */
  method Tally(tasks: seq<Task>, keyOf: Task -> string) returns (keys: seq<string>, stats: map<string, Stats>)
    ensures keys == Dedup(KeysOf(tasks, keyOf))
    ensures forall k :: k in stats <==> k in keys
    ensures forall k | k in stats :: stats[k] == StatsOf(Filter(tasks, KeyIs(keyOf, k)))
  {
    keys, stats := [], map[];
    for i := 0 to |tasks|
      invariant keys == KeyOrder(tasks[..i], keyOf)
      invariant stats == Tallies(tasks[..i], keyOf)
    {
      var task := tasks[i];
      var key := keyOf(task);
      var entry := Count(if key in stats then stats[key] else NoStats, task);
      stats := stats[key := entry];
      if key !in keys {
        keys := keys + [key];
      }
      assert tasks[..i + 1][..i] == tasks[..i];
    }
    assert tasks[..|tasks|] == tasks;
    KeyOrderFirstOccurrence(tasks, keyOf);
    forall k
      ensures k in stats <==> k in keys
      ensures k in stats ==> stats[k] == StatsOf(Filter(tasks, KeyIs(keyOf, k)))
    {
      TalliesKeys(tasks, keyOf, k);
      if k in stats {
        TalliesEntry(tasks, keyOf, k);
      }
    }
  }

  /** `stats.total ? Math.round((stats.completed / stats.total) * 100) : 0` */
  function CompletionRate(s: Stats): int
  {
    Percent(s.completed, s.total)
  }

  /** The values of `f` over `rows`, added up. */
  function SumNat<R>(rows: seq<R>, f: R -> nat): nat
  {
    if |rows| == 0 then 0 else SumNat(rows[..|rows| - 1], f) + f(rows[|rows| - 1])
  }

  /** Rows that carry the count of their key add up to the count of all keys. */
  lemma {:induction false} RowTotals<R>(rows: seq<R>, f: R -> nat, keys: seq<string>, tasks: seq<Task>, keyOf: Task -> string)
    requires |rows| == |keys|
    requires forall i | 0 <= i < |rows| :: f(rows[i]) == CountKey(tasks, keyOf, keys[i])
    ensures SumNat(rows, f) == SumCounts(keys, tasks, keyOf)
  {
    if |rows| > 0 {
      RowTotals(rows[..|rows| - 1], f, keys[..|keys| - 1], tasks, keyOf);
    }
  }

  /** The groups of a tally partition the tasks: their sizes add up to the
      number of tasks. */
  lemma TallyPartition(tasks: seq<Task>, keyOf: Task -> string)
    ensures SumCounts(Dedup(KeysOf(tasks, keyOf)), tasks, keyOf) == |tasks|
  {
    var keys := Dedup(KeysOf(tasks, keyOf));
    forall i | 0 <= i < |tasks|
      ensures keyOf(tasks[i]) in keys
    {
      assert KeysOf(tasks, keyOf)[i] == keyOf(tasks[i]);
    }
    PartitionCounts(keys, tasks, keyOf);
  }

  /* ---------------- categoryBreakdown ---------------- */

  function CategoryOf(t: Task): string { t.category }

  /** `{ category, total, completed, effort, completionRate }` */
  datatype CategoryRow = CategoryRow(category: string, total: nat, completed: nat, effort: real, completionRate: int)

  /** `({ category, ...stats, completionRate })` */
  function CategoryRowOf(category: string, s: Stats): (row: CategoryRow)
    requires s.active + s.completed == s.total
    ensures row.category == category && row.total == s.total && row.completed == s.completed
    ensures row.effort == s.effort
    ensures row.completed <= row.total && 0 <= row.completionRate <= 100
    ensures row.completionRate == Percent(s.completed, s.total)
    ensures row.total == 0 ==> row.completionRate == 0
    ensures 0 < row.total && row.completed == row.total ==> row.completionRate == 100
  {
    CategoryRow(category, s.total, s.completed, s.effort, CompletionRate(s))
  }

  function CategoryTotal(row: CategoryRow): nat { row.total }

  /** `categoryBreakdown`: one row per category, in the order the categories
      first occur; each row is the entry of exactly the tasks of its
      category, and the row totals add up to the number of tasks. */
  method CategoryBreakdown(tasks: seq<Task>) returns (rows: seq<CategoryRow>)
    ensures |rows| == |Dedup(KeysOf(tasks, CategoryOf))|
    ensures forall i | 0 <= i < |rows| ::
              var category := Dedup(KeysOf(tasks, CategoryOf))[i];
              rows[i] == CategoryRowOf(category, StatsOf(Filter(tasks, KeyIs(CategoryOf, category))))
    ensures SumNat(rows, CategoryTotal) == |tasks|
  {
    var keys, stats := Tally(tasks, CategoryOf);
    rows := seq(|keys|, i requires 0 <= i < |keys| => CategoryRowOf(keys[i], stats[keys[i]]));
    forall i | 0 <= i < |keys|
      ensures rows[i] == CategoryRowOf(keys[i], StatsOf(Filter(tasks, KeyIs(CategoryOf, keys[i]))))
      ensures CategoryTotal(rows[i]) == CountKey(tasks, CategoryOf, keys[i])
    {
      assert keys[i] in stats;
    }
    TallyPartition(tasks, CategoryOf);
    RowTotals(rows, CategoryTotal, keys, tasks, CategoryOf);
  }

  /* ---------------- teamLoad ---------------- */

  /** `task.assigneeId ?? task.assignee` */
  function AssigneeKey(t: Task): (k: string)
    ensures t.assigneeId.Some? ==> k == t.assigneeId.value
    ensures t.assigneeId.None? ==> k == t.assignee
  {
    match t.assigneeId
    case Some(id) => id
    case None => t.assignee
  }

  /** `{ assigneeId, total, active, completed, effort, completionRate }` */
  datatype TeamRow = TeamRow(assigneeId: string, total: nat, active: nat, completed: nat, effort: real, completionRate: int)

  /** `({ assigneeId, ...stats, completionRate })` */
  function TeamRowOf(assigneeId: string, s: Stats): (row: TeamRow)
    requires s.active + s.completed == s.total
    ensures row.assigneeId == assigneeId && row.total == s.total
    ensures row.active == s.active && row.completed == s.completed
    ensures row.effort == s.effort
    ensures row.active + row.completed == row.total && 0 <= row.completionRate <= 100
    ensures row.completionRate == Percent(s.completed, s.total)
    ensures row.total == 0 ==> row.completionRate == 0
    ensures 0 < row.total && row.completed == row.total ==> row.completionRate == 100
  {
    TeamRow(assigneeId, s.total, s.active, s.completed, s.effort, CompletionRate(s))
  }

  function TeamTotal(row: TeamRow): nat { row.total }

  /** `teamLoad`: one row per assignee key, in the order the keys first
      occur; each row is the entry of exactly the tasks of that assignee,
      and the row totals add up to the number of tasks. */
  method TeamLoad(tasks: seq<Task>) returns (rows: seq<TeamRow>)
    ensures |rows| == |Dedup(KeysOf(tasks, AssigneeKey))|
    ensures forall i | 0 <= i < |rows| ::
              var assignee := Dedup(KeysOf(tasks, AssigneeKey))[i];
              rows[i] == TeamRowOf(assignee, StatsOf(Filter(tasks, KeyIs(AssigneeKey, assignee))))
    ensures SumNat(rows, TeamTotal) == |tasks|
  {
    var keys, stats := Tally(tasks, AssigneeKey);
    rows := seq(|keys|, i requires 0 <= i < |keys| => TeamRowOf(keys[i], stats[keys[i]]));
    forall i | 0 <= i < |keys|
      ensures rows[i] == TeamRowOf(keys[i], StatsOf(Filter(tasks, KeyIs(AssigneeKey, keys[i]))))
      ensures TeamTotal(rows[i]) == CountKey(tasks, AssigneeKey, keys[i])
    {
      assert keys[i] in stats;
    }
    TallyPartition(tasks, AssigneeKey);
    RowTotals(rows, TeamTotal, keys, tasks, AssigneeKey);
  }
}

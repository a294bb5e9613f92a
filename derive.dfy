/** The board's view of a task: `mapApiTaskToLuxTask` and the heuristics
    that fill in whatever the stored metadata leaves open (priority, category,
    effort, impact, tags), plus `computeInitials` for the team avatars.
    Instants are integer milliseconds on the local time axis and dates are day
    numbers on the same axis: day `d` starts at `DayStart(d)`. */
module Derive {
  import opened Base
  import opened Text
  import opened Statuses
  import opened Metadata
  import opened TasksApi

  const MsPerDay: int := 86400000

  /** The instant a calendar day starts (`parseISO` of a date-only string). */
  function DayStart(day: int): int
  {
    day * MsPerDay
  }

  /** The calendar day an instant falls on. */
  function Today(now: int): (d: int)
    ensures DayStart(d) <= now < DayStart(d + 1)
  {
    now / MsPerDay
  }

  /** `Math.round`: halves go up. */
  function Round(x: real): (r: int)
    ensures x - 0.5 < r as real <= x + 0.5
  {
    (x + 0.5).Floor
  }

  /** A task on the board. */
  datatype Task = Task(
    id: string,
    rawId: int,
    title: string,
    description: string,
    dueDate: int,
    assigneeId: Option<string>,
    assignee: string,
    status: LuxStatus,
    priority: Priority,
    category: string,
    effort: real,
    impact: real,
    tags: seq<string>,
    metadata: TaskMetadata)

  /** `normalizeDueDate`: a task without a due date is due two weeks from today. */
  function NormalizeDueDate(dueDate: Option<int>, now: int): (r: int)
    ensures dueDate.Some? ==> r == dueDate.value
    ensures dueDate.None? ==> r == Today(now) + 14
  {
    if dueDate.Some? then dueDate.value else Today(now) + 14
  }

  function PriorityRank(p: Priority): int
  {
    match p
    case Low => 0
    case Medium => 1
    case High => 2
    case Critical => 3
  }

  /** `derivePriority`: explicit priority, else `low` once completed, else by
      the number of calendar days left: at most 2 critical, at most 7 high,
      at most 21 medium, beyond that low. */
  function DerivePriority(metadata: TaskMetadata, dueDate: int, status: LuxStatus, now: int): (r: Priority)
    ensures metadata.priority.Some? ==> r == metadata.priority.value
    ensures metadata.priority.None? && status == Completed ==> r == Low
    ensures metadata.priority.None? && status != Completed ==>
              && (r == Critical <==> dueDate - Today(now) <= 2)
              && (r == High <==> 2 < dueDate - Today(now) <= 7)
              && (r == Medium <==> 7 < dueDate - Today(now) <= 21)
              && (r == Low <==> 21 < dueDate - Today(now))
  {
    if metadata.priority.Some? then metadata.priority.value
    else if status == Completed then Low
    else
      var diff := dueDate - Today(now);
      if diff <= 2 then Critical
      else if diff <= 7 then High
      else if diff <= 21 then Medium
      else Low
  }

  /** A later due date never raises a derived priority. */
  lemma PriorityMonotone(metadata: TaskMetadata, due1: int, due2: int, status: LuxStatus, now: int)
    requires metadata.priority.None? && due1 <= due2
    ensures PriorityRank(DerivePriority(metadata, due2, status, now)) <= PriorityRank(DerivePriority(metadata, due1, status, now))
  {
  }

  /** One row of `KEYWORD_CATEGORY_MAP`. */
  datatype CategoryRule = CategoryRule(keywords: seq<string>, category: string)

  const KeywordCategoryMap: seq<CategoryRule> := [
    CategoryRule(["floral", "design", "decor", "style", "canopy", "aesthetic", "mood"], "Design"),
    CategoryRule(["cater", "menu", "chef", "dining", "dessert", "cocktail", "champagne"], "Culinary"),
    CategoryRule(["guest", "rsvp", "concierge", "welcome", "experience"], "Guest Experience"),
    CategoryRule(["vendor", "permit", "logistics", "transport", "fleet", "closure", "shuttle"], "Logistics"),
    CategoryRule(["music", "playlist", "dj", "band", "sound", "rehearsal"], "Entertainment"),
    CategoryRule(["beauty", "hair", "makeup", "dress", "attire"], "Beauty"),
    CategoryRule(["photo", "video", "lighting", "drone"], "Production")
  ]

  /** `entry.keywords.some((keyword) => haystack.includes(keyword))` */
  predicate RuleMatches(rule: CategoryRule, haystack: string)
  {
    exists k | 0 <= k < |rule.keywords| :: Contains(haystack, rule.keywords[k])
  }

  /** The first rule from index `i` on that matches. */
  function FirstMatch(rules: seq<CategoryRule>, haystack: string, i: nat): (r: Option<nat>)
    ensures r.Some? ==> i <= r.value < |rules| && RuleMatches(rules[r.value], haystack)
    ensures r.Some? ==> forall j | i <= j < r.value :: !RuleMatches(rules[j], haystack)
    ensures r.None? ==> forall j | i <= j < |rules| :: !RuleMatches(rules[j], haystack)
    decreases |rules| - i
  {
    if i >= |rules| then None
    else if RuleMatches(rules[i], haystack) then Some(i)
    else FirstMatch(rules, haystack, i + 1)
  }

  /** `${title} ${description}`.toLowerCase() */
  function Haystack(title: string, description: string): string
  {
    Lower(title + " " + description)
  }

  /** `deriveCategory`: a non-empty explicit category, else the category of
      the first rule with a keyword in the lower-cased title and description,
      else `General`. */
  function DeriveCategory(metadata: TaskMetadata, title: string, description: string): (r: string)
    ensures metadata.category.Some? && metadata.category.value != "" ==> r == metadata.category.value
    ensures !(metadata.category.Some? && metadata.category.value != "") ==>
              (r == "General" <==> forall j | 0 <= j < |KeywordCategoryMap| ::
                                      !RuleMatches(KeywordCategoryMap[j], Haystack(title, description)))
    ensures !(metadata.category.Some? && metadata.category.value != "") && r != "General" ==>
              exists i | 0 <= i < |KeywordCategoryMap| ::
                && r == KeywordCategoryMap[i].category
                && RuleMatches(KeywordCategoryMap[i], Haystack(title, description))
                && forall j | 0 <= j < i :: !RuleMatches(KeywordCategoryMap[j], Haystack(title, description))
  {
    if metadata.category.Some? && metadata.category.value != "" then metadata.category.value
    else
      match FirstMatch(KeywordCategoryMap, Haystack(title, description), 0)
      case Some(i) => KeywordCategoryMap[i].category
      case None => "General"
  }

  /** `deriveEffort`: explicit effort, else three points plus one per 35
      words (rounded), capped at 13. */
  function DeriveEffort(metadata: TaskMetadata, description: string): (r: real)
    ensures metadata.effort.Some? ==> r == metadata.effort.value
    ensures metadata.effort.None? ==> 3.0 <= r <= 13.0 && r == r.Floor as real
  {
    if metadata.effort.Some? then metadata.effort.value
    else
      var words := WordCount(description);
      Min(13, Max(2, Round(words as real / 35.0) + 3)) as real
  }

  function Min(a: int, b: int): int { if a <= b then a else b }
  function Max(a: int, b: int): int { if a >= b then a else b }

  /** Where the derived effort reaches its bounds: 3 points below 18 words,
      13 points from 333 words on. */
  lemma EffortBounds(metadata: TaskMetadata, description: string)
    requires metadata.effort.None?
    ensures DeriveEffort(metadata, description) == 3.0 <==> WordCount(description) < 18
    ensures DeriveEffort(metadata, description) == 13.0 <==> WordCount(description) >= 333
  {
    var w := WordCount(description) as real;
    if WordCount(description) < 18 {
      assert w / 35.0 + 0.5 < 1.0;
    } else {
      assert w / 35.0 + 0.5 >= 1.0;
    }
    if WordCount(description) >= 333 {
      assert w / 35.0 + 0.5 >= 10.0;
    } else {
      assert w / 35.0 + 0.5 < 10.0;
    }
  }

  /** More words never mean less derived effort. */
  lemma EffortMonotone(metadata: TaskMetadata, d1: string, d2: string)
    requires metadata.effort.None? && WordCount(d1) <= WordCount(d2)
    ensures DeriveEffort(metadata, d1) <= DeriveEffort(metadata, d2)
  {
    var x1 := WordCount(d1) as real / 35.0;
    var x2 := WordCount(d2) as real / 35.0;
    assert x1 <= x2;
    assert Round(x1) <= Round(x2);
  }

  /** `deriveImpact`: explicit impact, else 9, 8, 6 or 4 by priority. */
  function DeriveImpact(metadata: TaskMetadata, priority: Priority): (r: real)
    ensures metadata.impact.Some? ==> r == metadata.impact.value
    ensures metadata.impact.None? ==> r in {4.0, 6.0, 8.0, 9.0} && (r == 9.0 <==> priority == Critical)
    ensures metadata.impact.None? ==>
              && (priority == High ==> r == 8.0)
              && (priority == Medium ==> r == 6.0)
              && (priority == Low ==> r == 4.0)
  {
    if metadata.impact.Some? then metadata.impact.value
    else
      match priority
      case Critical => 9.0
      case High => 8.0
      case Medium => 6.0
      case Low => 4.0
  }

  /** A higher priority never means a lower derived impact. */
  lemma ImpactMonotone(metadata: TaskMetadata, p1: Priority, p2: Priority)
    requires metadata.impact.None? && PriorityRank(p1) <= PriorityRank(p2)
    ensures DeriveImpact(metadata, p1) <= DeriveImpact(metadata, p2)
  {
  }

  /** `deriveTags`: a non-empty explicit list, else the category and a
      critical-path or momentum tag. */
  function DeriveTags(metadata: TaskMetadata, category: string, priority: Priority): (r: seq<string>)
    ensures r != []
    ensures metadata.tags.Some? && metadata.tags.value != [] ==> r == metadata.tags.value
    ensures !(metadata.tags.Some? && metadata.tags.value != []) ==>
              |r| == 2 && r[0] == category && r[1] in {"Critical Path", "Momentum"}
              && (r[1] == "Critical Path" <==> priority == Critical)
  {
    if metadata.tags.Some? && metadata.tags.value != [] then metadata.tags.value
    else [category, if priority == Critical then "Critical Path" else "Momentum"]
  }

  /** `mapApiTaskToLuxTask`: the board task for one task of the API answer. */
  function MapApiTaskToLuxTask(task: TaskView, now: int): (r: Task)
    ensures r.id == "task-" + IntText(task.id)
    ensures r.rawId == task.id && r.title == task.title && r.description == task.description
    ensures r.assigneeId == task.assigneeId && r.metadata == task.metadata
    ensures task.metadata.statusLux.Some? ==> r.status == task.metadata.statusLux.value
    ensures task.metadata.statusLux.None? ==> r.status == task.statusLux
    ensures task.assignee.Some? ==> r.assignee == task.assignee.value.name
    ensures task.assignee.None? ==> r.assignee == "Unassigned"
    ensures task.dueDate.Some? ==> r.dueDate == task.dueDate.value
    ensures task.dueDate.None? ==> r.dueDate == Today(now) + 14
    // every derived attribute is the heuristic's answer for this task
    ensures r.priority == DerivePriority(task.metadata, r.dueDate, r.status, now)
    ensures r.category == DeriveCategory(task.metadata, task.title, task.description)
    ensures r.effort == DeriveEffort(task.metadata, task.description)
    ensures r.impact == DeriveImpact(task.metadata, r.priority)
    ensures r.tags == DeriveTags(task.metadata, r.category, r.priority)
    ensures r.tags != []
    ensures r.metadata.effort.None? ==> 3.0 <= r.effort <= 13.0
  {
    var dueDate := NormalizeDueDate(task.dueDate, now);
    var status := if task.metadata.statusLux.Some? then task.metadata.statusLux.value else task.statusLux;
    var priority := DerivePriority(task.metadata, dueDate, status, now);
    var category := DeriveCategory(task.metadata, task.title, task.description);
    Task(
      id := "task-" + IntText(task.id),
      rawId := task.id,
      title := task.title,
      description := task.description,
      dueDate := dueDate,
      assigneeId := task.assigneeId,
      assignee := if task.assignee.Some? then task.assignee.value.name else "Unassigned",
      status := status,
      priority := priority,
      category := category,
      effort := DeriveEffort(task.metadata, task.description),
      impact := DeriveImpact(task.metadata, priority),
      tags := DeriveTags(task.metadata, category, priority),
      metadata := task.metadata)
  }

  /** Board ids are distinct for distinct API tasks. */
  lemma BoardIdsDistinct(t1: TaskView, t2: TaskView, now: int)
    ensures MapApiTaskToLuxTask(t1, now).id == MapApiTaskToLuxTask(t2, now).id ==> t1.id == t2.id
  {
    var a := MapApiTaskToLuxTask(t1, now).id;
    var b := MapApiTaskToLuxTask(t2, now).id;
    if a == b {
      assert a[5..] == IntText(t1.id) && b[5..] == IntText(t2.id);
      IntTextInjective(t1.id, t2.id);
    }
  }

  /** For a task the API built, the page's fallback `?? task.statusLux` never
      overrides anything: the board shows the status the API inferred. */
  lemma BoardStatusIsApiStatus(row: TaskRow, today: int, parse: string -> Option<JsonValue.Json>, now: int)
    ensures MapApiTaskToLuxTask(ProjectRow(row, today, parse), now).status == ProjectRow(row, today, parse).statusLux
  {
  }

  /** Stored metadata that names every field is shown unchanged: the
      heuristics only fill gaps. */
  lemma ExplicitMetadataWins(task: TaskView, now: int)
    requires task.metadata.priority.Some? && task.metadata.effort.Some? && task.metadata.impact.Some?
    requires task.metadata.category.Some? && task.metadata.category.value != ""
    requires task.metadata.tags.Some? && task.metadata.tags.value != []
    ensures var t := MapApiTaskToLuxTask(task, now);
      && t.priority == task.metadata.priority.value
      && t.category == task.metadata.category.value
      && t.effort == task.metadata.effort.value
      && t.impact == task.metadata.impact.value
      && t.tags == task.metadata.tags.value
  {
  }

  /** `computeInitials`: `??` for an empty name; otherwise the first two
      characters of a single word, or the first letters of the first and last
      words, upper-cased. */
  function ComputeInitials(name: string): (r: string)
    ensures name == "" ==> r == "??"
    ensures name != "" ==> |r| <= 2
  {
    if name == "" then "??"
    else
      var parts := SplitWhite(Trim(name));
      if |parts| == 1 then Upper(parts[0][..Min(2, |parts[0]|)])
      else
        var first := parts[0];
        var last := parts[|parts| - 1];
        Upper((if first != [] then [first[0]] else []) + (if last != [] then [last[0]] else []))
  }

  /** A one-word name gives its first two characters; a name of white space
      only gives the empty string. */
  lemma InitialsOfOneWord(name: string)
    requires name != ""
    requires forall i | 0 <= i < |Trim(name)| :: !IsWhite(Trim(name)[i])
    ensures ComputeInitials(name) == Upper(Trim(name)[..Min(2, |Trim(name)|)])
  {
    SplitFirst(Trim(name));
  }

  /** The last word of `t` starts at `k`: white space precedes it and none
      follows. */
  predicate LastWordAt(t: string, k: int)
  {
    0 < k < |t| && IsWhite(t[k - 1]) && forall i | k <= i < |t| :: !IsWhite(t[i])
  }

  /** In a trimmed text of several words, the last word is not empty and
      starts right after the last white space. */
  lemma LastWordStart(t: string)
    requires t != [] && Trimmed(t) && |SplitWhite(t)| > 1
    ensures LastPiece(t) != [] && LastWordAt(t, |t| - |LastPiece(t)|)
    ensures t[|t| - |LastPiece(t)|] == LastPiece(t)[0]
  {
    SplitLast(t);
    SplitTrimmedEnds(t);
    var last := LastPiece(t);
    var k := |t| - |last|;
    forall i | k <= i < |t|
      ensures !IsWhite(t[i])
    {
      assert t[i] == last[i - k];
      assert t[i] in last;
    }
  }

  /** A name of several words gives the first character of the first word and
      of the last word (which `LastWordStart` locates). */
  lemma InitialsOfSeveralWords(name: string)
    requires exists i | 0 <= i < |Trim(name)| :: IsWhite(Trim(name)[i])
    ensures |ComputeInitials(name)| == 2
    ensures ComputeInitials(name)[0] == UpperChar(Trim(name)[0])
    ensures ComputeInitials(name)[1] == UpperChar(LastPiece(Trim(name))[0])
  {
    var t := Trim(name);
    SplitFirst(t);
    SplitTrimmedEnds(t);
    LastWordStart(t);
    var parts := SplitWhite(t);
    assert ComputeInitials(name) == Upper([parts[0][0]] + [LastPiece(t)[0]]);
  }
}

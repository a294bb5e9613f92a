/** `luxStatusFromMetadataOrGuess`: the display status of a stored task.
    An explicit `statusLux` in its metadata wins; otherwise the status is
    inferred from the stored status and the distance to the due date. */
module Reconcile {
  import opened Base
  import opened Statuses
  import opened Metadata

  /** `dueDelta` is `differenceInCalendarDays(due, now)`, or `None` when the
      task has no due date. */
  function LuxStatusFromMetadataOrGuess(status: SupabaseStatus, metadata: TaskMetadata, dueDelta: Option<int>): (r: LuxStatus)
    // explicit state always wins
    ensures metadata.statusLux.Some? ==> r == metadata.statusLux.value
    // without it, the guess projects back onto the stored status,
    // except that an imminent `todo` is surfaced for review
    ensures metadata.statusLux.None? ==>
              MapLuxToSupabase(r) == status || (status == Todo && r == Review)
  {
    if metadata.statusLux.Some? then metadata.statusLux.value
    else if status == Done then Completed
    else if status == SupabaseStatus.InProgress then
      if dueDelta.Some? && dueDelta.value <= 2 then Review else LuxStatus.InProgress
    else if dueDelta.Some? && dueDelta.value > 21 then Backlog
    else if dueDelta.Some? && dueDelta.value <= 2 then Review
    else Planning
  }

  /** The inference table for a task without an explicit `statusLux`, stated
      as conditions on the stored status and the due-date distance. */
  lemma InferenceTable(status: SupabaseStatus, metadata: TaskMetadata, dueDelta: Option<int>)
    requires metadata.statusLux.None?
    ensures var r := LuxStatusFromMetadataOrGuess(status, metadata, dueDelta);
      && (r == Completed <==> status == Done)
      && (status == SupabaseStatus.InProgress ==>
            (r == Review <==> dueDelta.Some? && dueDelta.value <= 2)
            && (r == LuxStatus.InProgress <==> !(dueDelta.Some? && dueDelta.value <= 2)))
      && (status == Todo ==>
            (r == Backlog <==> dueDelta.Some? && dueDelta.value > 21)
            && (r == Review <==> dueDelta.Some? && dueDelta.value <= 2)
            && (r == Planning <==> dueDelta.None? || 2 < dueDelta.value <= 21))
  {
  }

  /** Reading a task and writing its guessed status back keeps `done` and
      `in_progress`; a `todo` comes back as `in_progress` exactly when it is
      due within two days. */
  lemma GuessThenMap(status: SupabaseStatus, metadata: TaskMetadata, dueDelta: Option<int>)
    requires metadata.statusLux.None?
    ensures var back := MapLuxToSupabase(LuxStatusFromMetadataOrGuess(status, metadata, dueDelta));
      && (status != Todo ==> back == status)
      && (status == Todo ==> (back == SupabaseStatus.InProgress <==> dueDelta.Some? && dueDelta.value <= 2))
      && (status == Todo ==> (back == Todo <==> !(dueDelta.Some? && dueDelta.value <= 2)))
  {
  }

  /** One read-then-write cycle reaches a fixed point: applying it a second
      time (with the same due-date distance) changes nothing. */
  lemma GuessThenMapStable(status: SupabaseStatus, metadata: TaskMetadata, dueDelta: Option<int>)
    requires metadata.statusLux.None?
    ensures var once := MapLuxToSupabase(LuxStatusFromMetadataOrGuess(status, metadata, dueDelta));
      MapLuxToSupabase(LuxStatusFromMetadataOrGuess(once, metadata, dueDelta)) == once
  {
  }

  /** Keeping the display status in the metadata makes the lossy projection
      harmless: whatever stored status it was projected to, reading gives the
      display status back, for every due date. */
  lemma ExplicitStatusRoundTrip(lux: LuxStatus, metadata: TaskMetadata, dueDelta: Option<int>)
    requires metadata.statusLux == Some(lux)
    ensures LuxStatusFromMetadataOrGuess(MapLuxToSupabase(lux), metadata, dueDelta) == lux
  {
  }

  /** Without it, a `todo` row read close to its due date does not survive
      a read-then-write cycle. */
  lemma ImminentTodoDoesNotRoundTrip(metadata: TaskMetadata, days: int)
    requires metadata.statusLux.None? && days <= 2
    ensures MapLuxToSupabase(LuxStatusFromMetadataOrGuess(Todo, metadata, Some(days))) != Todo
  {
  }
}

/** The two task workflows: the three-state status stored in the `tasks`
    table and the five-state "lux" status the board displays, and the
    projection from the second onto the first. */
module Statuses {
  import opened Base
  import opened JsonValue

  /** `SupabaseTaskStatus`: 'todo' | 'in_progress' | 'done' */
  datatype SupabaseStatus = Todo | InProgress | Done

  /** `LuxTaskStatus`: 'backlog' | 'planning' | 'in_progress' | 'review' | 'completed' */
  datatype LuxStatus = Backlog | Planning | InProgress | Review | Completed

  function LuxName(s: LuxStatus): string
  {
    match s
    case Backlog => "backlog"
    case Planning => "planning"
    case InProgress => "in_progress"
    case Review => "review"
    case Completed => "completed"
  }

  /** `LUX_STATUSES.includes(v)`: the status a JSON value names, if it is one
      of the five literals. */
  function LuxFromJson(v: Option<Json>): (r: Option<LuxStatus>)
    ensures r.None? ==> forall s: LuxStatus :: v != Some(JStr(LuxName(s)))
    ensures r.Some? ==> v == Some(JStr(LuxName(r.value)))
  {
    if v == Some(JStr("backlog")) then Some(Backlog)
    else if v == Some(JStr("planning")) then Some(Planning)
    else if v == Some(JStr("in_progress")) then Some(LuxStatus.InProgress)
    else if v == Some(JStr("review")) then Some(Review)
    else if v == Some(JStr("completed")) then Some(Completed)
    else None
  }

  lemma LuxFromName(s: LuxStatus)
    ensures LuxFromJson(Some(JStr(LuxName(s)))) == Some(s)
  {
    match s
    case Backlog =>
    case Planning =>
    case InProgress =>
    case Review =>
    case Completed =>
  }

  /** `mapLuxToSupabaseStatus` on one of the five statuses. */
  function MapLuxToSupabase(status: LuxStatus): (r: SupabaseStatus)
    ensures r == Done <==> status == Completed
    ensures r == SupabaseStatus.InProgress <==> status == LuxStatus.InProgress || status == Review
    ensures r == Todo <==> status == Backlog || status == Planning
  {
    match status
    case Completed => Done
    case InProgress | Review => SupabaseStatus.InProgress
    case Backlog | Planning => Todo
  }

  /** `mapLuxToSupabaseStatus` applied to a raw request value: the `switch`
      compares strings, so anything that is not one of the five literals takes
      the `default` branch. */
  function MapRawLuxToSupabase(v: Json): (r: SupabaseStatus)
    ensures r == Done <==> v == JStr("completed")
    ensures r == SupabaseStatus.InProgress <==> v == JStr("in_progress") || v == JStr("review")
  {
    match LuxFromJson(Some(v))
    case Some(s) => MapLuxToSupabase(s)
    case None => Todo
  }
}

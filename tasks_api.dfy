/** The request handlers of the task API (`GET`, `POST`, `PATCH`) with the
    database, the session and the HTTP layer taken out: what each handler
    decides from the values those hand it. Dates are day numbers; `today` is
    the day the request is served. */
module TasksApi {
  import opened Base
  import opened Text
  import opened JsonValue
  import opened Statuses
  import opened Metadata
  import opened Reconcile
  import opened Codec

  /** The answer of one database query that may fail or find nothing. */
  datatype Lookup<T> = LookupFailed | NotFound | Found(value: T)

  /** An error response: its HTTP status and its `error` message. */
  datatype Failure = Failure(code: int, error: string)

  /** `if (!userId)`: no session, or an empty user id. */
  predicate SignedIn(userId: Option<string>)
  {
    userId.Some? && userId.value != ""
  }

  const Unauthorized := Failure(401, "Unauthorized")

  // ---------------------------------------------------------------- GET

  /** The `weddings` row; dates are day numbers. */
  datatype Wedding = Wedding(
    id: string,
    title: string,
    partner1: Option<string>,
    partner2: Option<string>,
    weddingDate: Option<int>,
    location: Option<string>,
    organizerId: string)

  datatype Resolved = WeddingFailure(failure: Failure) | WeddingFound(wedding: Wedding)

  /** Which wedding `GET` lists: the one named by `?weddingId=` when that is a
      non-empty string, otherwise the organizer's earliest (`byDefault` is the
      answer of that query). */
  function ResolveWedding(userId: string, requested: Option<string>, byId: Lookup<Wedding>, byDefault: Lookup<Wedding>): (r: Resolved)
    // a wedding asked for by id is shown only to its organizer
    ensures requested.Some? && requested.value != "" && r.WeddingFound? ==>
              byId == Found(r.wedding) && r.wedding.organizerId == userId
    ensures requested.Some? && requested.value != "" ==>
              (r.WeddingFound? <==> byId.Found? && byId.value.organizerId == userId)
    // a failed query is a 500; a missing or foreign wedding is a 404
    ensures requested.Some? && requested.value != "" && byId.LookupFailed? ==>
              r == WeddingFailure(Failure(500, "Failed to load wedding"))
    ensures requested.Some? && requested.value != "" && !byId.LookupFailed? && r.WeddingFailure? ==>
              r == WeddingFailure(Failure(404, "Wedding not found"))
    // without one, the default query decides alone
    ensures (requested.None? || requested.value == "") ==>
              (r.WeddingFound? <==> byDefault.Found?) && (r.WeddingFound? ==> r.wedding == byDefault.value)
    ensures (requested.None? || requested.value == "") && byDefault.LookupFailed? ==>
              r == WeddingFailure(Failure(500, "Failed to load wedding"))
    ensures (requested.None? || requested.value == "") && byDefault.NotFound? ==>
              r == WeddingFailure(Failure(404, "No weddings found"))
    ensures r.WeddingFailure? ==> r.failure.code in {404, 500}
  {
    if requested.Some? && requested.value != "" then
      match byId
      case LookupFailed => WeddingFailure(Failure(500, "Failed to load wedding"))
      case NotFound => WeddingFailure(Failure(404, "Wedding not found"))
      case Found(w) =>
        if w.organizerId != userId then WeddingFailure(Failure(404, "Wedding not found"))
        else WeddingFound(w)
    else
      match byDefault
      case LookupFailed => WeddingFailure(Failure(500, "Failed to load wedding"))
      case NotFound => WeddingFailure(Failure(404, "No weddings found"))
      case Found(w) => WeddingFound(w)
  }

  /** The `couple` label: both partner names joined by ` & ` when both are
      non-empty, the wedding title otherwise. */
  function Couple(w: Wedding): (r: string)
    ensures w.partner1.Some? && w.partner1.value != "" && w.partner2.Some? && w.partner2.value != "" ==>
              r == w.partner1.value + " & " + w.partner2.value
    ensures w.partner1.None? || w.partner1.value == "" || w.partner2.None? || w.partner2.value == "" ==>
              r == w.title
  {
    if w.partner1.Some? && w.partner1.value != "" && w.partner2.Some? && w.partner2.value != "" then
      w.partner1.value + " & " + w.partner2.value
    else w.title
  }

  /** `full_name ?? email ?? 'Unnamed'`: `??` replaces only a missing value,
      so an empty name is kept. */
  function DisplayName(fullName: Option<string>, email: Option<string>): (r: string)
    ensures fullName.Some? ==> r == fullName.value
    ensures fullName.None? && email.Some? ==> r == email.value
    ensures fullName.None? && email.None? ==> r == "Unnamed"
  {
    match fullName
    case Some(n) => n
    case None =>
      match email
      case Some(e) => e
      case None => "Unnamed"
  }

  /** The joined `users` row of a task's assignee. */
  datatype StoredAssignee = StoredAssignee(id: string, fullName: Option<string>, email: Option<string>)

  /** A `tasks` row as the select returns it. */
  datatype TaskRow = TaskRow(
    id: int,
    weddingId: string,
    title: string,
    description: Option<string>,
    dueDate: Option<int>,
    status: SupabaseStatus,
    assigneeId: Option<string>,
    assignee: Option<StoredAssignee>)

  datatype AssigneeView = AssigneeView(id: string, name: string, email: Option<string>)

  /** A task as the API returns it. */
  datatype TaskView = TaskView(
    id: int,
    weddingId: string,
    title: string,
    description: string,
    dueDate: Option<int>,
    status: SupabaseStatus,
    statusLux: LuxStatus,
    assigneeId: Option<string>,
    assignee: Option<AssigneeView>,
    metadata: TaskMetadata)

  /** `differenceInCalendarDays(due, now)` on day numbers; no due date, no delta. */
  function DueDelta(dueDate: Option<int>, today: int): (r: Option<int>)
    ensures r.Some? <==> dueDate.Some?
    ensures r.Some? ==> dueDate.value == today + r.value
  {
    if dueDate.Some? then Some(dueDate.value - today) else None
  }

  /** The response object built from a row once its description has been
      split into clean text and metadata. `GET` passes the sanitized block
      (`ProjectRow`); `POST` and `PATCH` pass the sent metadata under the
      written block (`WrittenView`). */
  function View(row: TaskRow, clean: string, metadata: TaskMetadata, today: int): (v: TaskView)
    ensures v.id == row.id && v.weddingId == row.weddingId && v.title == row.title
    ensures v.dueDate == row.dueDate && v.status == row.status && v.assigneeId == row.assigneeId
    ensures v.description == clean && v.metadata == metadata
    ensures v.assignee.Some? <==> row.assignee.Some?
    ensures row.assignee.Some? ==>
              var a := row.assignee.value;
              v.assignee == Some(AssigneeView(a.id, DisplayName(a.fullName, a.email), a.email))
    // the display status is the inferred one, whose cases `InferenceTable` lists
    ensures v.statusLux == LuxStatusFromMetadataOrGuess(row.status, metadata, DueDelta(row.dueDate, today))
    ensures metadata.statusLux.Some? ==> v.statusLux == metadata.statusLux.value
    ensures metadata.statusLux.None? ==>
              MapLuxToSupabase(v.statusLux) == row.status || (row.status == Todo && v.statusLux == Review)
  {
    TaskView(
      id := row.id,
      weddingId := row.weddingId,
      title := row.title,
      description := clean,
      dueDate := row.dueDate,
      status := row.status,
      statusLux := LuxStatusFromMetadataOrGuess(row.status, metadata, DueDelta(row.dueDate, today)),
      assigneeId := row.assigneeId,
      assignee :=
        match row.assignee
        case None => None
        case Some(a) => Some(AssigneeView(a.id, DisplayName(a.fullName, a.email), a.email)),
      metadata := metadata)
  }

  /** One element of `parsedTasks` in `GET`: decode, sanitize, infer the status. */
  function ProjectRow(row: TaskRow, today: int, parse: string -> Option<Json>): (v: TaskView)
    ensures v.id == row.id && v.weddingId == row.weddingId && v.title == row.title
    ensures v.dueDate == row.dueDate && v.status == row.status && v.assigneeId == row.assigneeId
    ensures v.description == ParseTaskDescription(row.description, parse).clean
    ensures v.metadata == Sanitize(Some(ParseTaskDescription(row.description, parse).metadata))
    ensures row.assignee.Some? ==>
              var a := row.assignee.value;
              v.assignee == Some(AssigneeView(a.id, DisplayName(a.fullName, a.email), a.email))
    ensures row.assignee.None? ==> v.assignee.None?
    ensures v.statusLux == LuxStatusFromMetadataOrGuess(row.status, v.metadata, DueDelta(row.dueDate, today))
    ensures v.metadata.statusLux.Some? ==> v.statusLux == v.metadata.statusLux.value
    ensures v.metadata.statusLux.None? ==>
              MapLuxToSupabase(v.statusLux) == row.status || (row.status == Todo && v.statusLux == Review)
  {
    var decoded := ParseTaskDescription(row.description, parse);
    View(row, decoded.clean, Sanitize(Some(decoded.metadata)), today)
  }

  /** Reading back a row whose description this API wrote: the text comes
      back trimmed, the metadata comes back whole, and a stored display status
      is shown as it was stored, whatever the row's own status. */
  lemma ProjectWrittenRow(row: TaskRow, text: string, metadata: TaskMetadata, today: int,
                          stringify: Json -> string, parse: string -> Option<Json>)
    requires row.description == Some(AppendMetadataToDescription(text, metadata, stringify))
    requires !Contains(stringify(ToJson(metadata)), Prefix)
    requires !Contains(stringify(ToJson(metadata)), Suffix)
    requires parse(Trim(stringify(ToJson(metadata)))) == Some(ToJson(metadata))
    ensures ProjectRow(row, today, parse).description == Trim(text)
    ensures ProjectRow(row, today, parse).metadata == metadata
    ensures metadata.statusLux.Some? ==> ProjectRow(row, today, parse).statusLux == metadata.statusLux.value
  {
    RoundTrip(text, metadata, stringify, parse);
    SanitizeToJson(metadata);
  }

  /** `.filter((id) => Boolean(id))` on optional ids: present, non-empty ones. */
  function Present(ids: seq<Option<string>>): (r: seq<string>)
    ensures forall x :: x in r <==> x != "" && Some(x) in ids
  {
    if |ids| == 0 then []
    else
      var last := ids[|ids| - 1];
      assert forall o :: o in ids <==> o in ids[..|ids| - 1] || o == last;
      Present(ids[..|ids| - 1]) + (if last.Some? && last.value != "" then [last.value] else [])
  }

  /** Everything offered to `participantIds`, in order: the organizer
      (unconditionally), the tasks' assignees, then the wedding's clients
      unless loading them failed (`None`). */
  function Candidates(organizerId: string, assigneeIds: seq<Option<string>>, clientIds: Option<seq<Option<string>>>): seq<string>
  {
    [organizerId] + Present(assigneeIds) + (if clientIds.Some? then Present(clientIds.value) else [])
  }

  /** One more id offered to a list of candidates. */
  lemma PresentSnoc(head: seq<string>, ids: seq<Option<string>>, k: nat)
    requires k < |ids|
    ensures head + Present(ids[..k + 1])
            == head + Present(ids[..k]) + (if ids[k].Some? && ids[k].value != "" then [ids[k].value] else [])
  {
    assert ids[..k + 1][..k] == ids[..k];
  }

  /** One `participantIds.add(id)` step of the loop below. */
  lemma AddStep(ids: seq<string>, head: seq<string>, rows: seq<Option<string>>, j: nat)
    requires j < |rows| && ids == Dedup(head + Present(rows[..j]))
    ensures Dedup(head + Present(rows[..j + 1]))
            == if rows[j].Some? && rows[j].value != "" && rows[j].value !in ids then ids + [rows[j].value] else ids
  {
    PresentSnoc(head, rows, j);
    if rows[j].Some? && rows[j].value != "" {
      DedupSnoc(head + Present(rows[..j]), rows[j].value);
    } else {
      assert head + Present(rows[..j + 1]) == head + Present(rows[..j]);
    }
  }

  /** `.forEach((id) => participantIds.add(id))` over the present ids of `rows`. */
  method AddPresent(ids0: seq<string>, head: seq<string>, rows: seq<Option<string>>) returns (ids: seq<string>)
    requires ids0 == Dedup(head)
    ensures ids == Dedup(head + Present(rows))
  {
    ids := ids0;
    var j := 0;
    assert head + Present(rows[..0]) == head;
    while j < |rows|
      invariant 0 <= j <= |rows|
      invariant ids == Dedup(head + Present(rows[..j]))
    {
      var id := rows[j];
      AddStep(ids, head, rows, j);
      if id.Some? && id.value != "" && id.value !in ids {
        ids := ids + [id.value];
      }
      j := j + 1;
    }
    assert rows[..j] == rows;
  }

  /** The `participantIds` set of `GET`, built by adding one id at a time. */
  method CollectParticipantIds(organizerId: string, assigneeIds: seq<Option<string>>, clientIds: Option<seq<Option<string>>>)
    returns (ids: seq<string>)
    ensures ids == Dedup(Candidates(organizerId, assigneeIds, clientIds))
  {
    ids := [organizerId];
    assert [organizerId][..0] == [];
    ids := AddPresent(ids, [organizerId], assigneeIds);
    if clientIds.Some? {
      ids := AddPresent(ids, [organizerId] + Present(assigneeIds), clientIds.value);
    } else {
      assert [organizerId] + Present(assigneeIds) + [] == [organizerId] + Present(assigneeIds);
    }
  }

  /** What `participantIds` holds: the organizer first, then every present
      assignee and (unless loading them failed) client id, each once. */
  lemma ParticipantIds(organizerId: string, assigneeIds: seq<Option<string>>, clientIds: Option<seq<Option<string>>>)
    ensures var ids := Dedup(Candidates(organizerId, assigneeIds, clientIds));
      && ids != [] && ids[0] == organizerId
      && (forall i, j | 0 <= i < j < |ids| :: ids[i] != ids[j])
      && (forall x :: x in ids <==>
            || x == organizerId
            || (x != "" && Some(x) in assigneeIds)
            || (x != "" && clientIds.Some? && Some(x) in clientIds.value))
  {
    var c := Candidates(organizerId, assigneeIds, clientIds);
    assert c[0] == organizerId;
    forall x
      ensures x in c <==>
            || x == organizerId
            || (x != "" && Some(x) in assigneeIds)
            || (x != "" && clientIds.Some? && Some(x) in clientIds.value)
    {
      if clientIds.Some? {
        assert x in c <==> x == organizerId || x in Present(assigneeIds) || x in Present(clientIds.value);
      } else {
        assert x in c <==> x == organizerId || x in Present(assigneeIds);
      }
    }
  }

  /** A `users` row of a participant. */
  datatype UserRow = UserRow(id: string, fullName: Option<string>, email: Option<string>, role: Option<string>)

  datatype TeamMember = TeamMember(id: string, name: string, email: Option<string>, role: string)

  /** `team`: one member per loaded user row, in order; the role defaults to
      `collaborator` only when it is missing. */
  function Team(users: seq<UserRow>): (r: seq<TeamMember>)
    ensures |r| == |users|
    ensures forall i | 0 <= i < |users| ::
              r[i].id == users[i].id && r[i].email == users[i].email
              && r[i].name == DisplayName(users[i].fullName, users[i].email)
              && (users[i].role.Some? ==> r[i].role == users[i].role.value)
              && (users[i].role.None? ==> r[i].role == "collaborator")
  {
    seq(|users|, i requires 0 <= i < |users| =>
      TeamMember(users[i].id, DisplayName(users[i].fullName, users[i].email), users[i].email,
                 if users[i].role.Some? then users[i].role.value else "collaborator"))
  }

  // --------------------------------------------------------------- POST

  /** The row `POST` inserts; `dueDate` is passed through as sent. */
  datatype NewRow = NewRow(
    weddingId: string,
    title: string,
    description: string,
    dueDate: Json,
    status: SupabaseStatus,
    assigneeId: Option<string>)

  /** `description ?? ''` for a description that is a string or null. */
  function TextOrEmpty(description: Option<Json>): (r: string)
    ensures description.Some? && description.value.JStr? ==> r == description.value.s
    ensures description.None? || description == Some(JNull) ==> r == ""
  {
    if description.Some? && description.value.JStr? then description.value.s else ""
  }

  /** `dueDate ?? null` */
  function OrNull(v: Option<Json>): Json
  {
    if v.Some? then v.value else JNull
  }

  /** The wedding a new task goes to: `weddingId` when it is a non-empty
      string, otherwise the answer of the default query. */
  function ResolveDefault(sent: Option<Json>, defaultWedding: Lookup<string>): (r: Lookup<string>)
    ensures sent.Some? && sent.value.JStr? && sent.value.s != "" ==> r == Found(sent.value.s)
    ensures !(sent.Some? && sent.value.JStr? && sent.value.s != "") ==> r == defaultWedding
  {
    if sent.Some? && sent.value.JStr? && sent.value.s != "" then Found(sent.value.s) else defaultWedding
  }

  /** What `POST` does before the insert: refuse, insert a row, or fail with a
      `TypeError` (a `description` that is neither a string nor null has no
      `trim`). */
  datatype Creation = CreateRejected(failure: Failure) | CreateThrows | CreateInsert(row: NewRow)

  /** `POST`: validates the payload, resolves the wedding (`defaultWedding` is
      the answer of the organizer's-earliest-wedding query, read only when no
      usable `weddingId` was sent) and builds the row to insert. */
  function CreateTask(userId: Option<string>, payload: Option<Json>, defaultWedding: Lookup<string>,
                      stringify: Json -> string): (r: Creation)
    ensures !SignedIn(userId) ==> r == CreateRejected(Unauthorized)
    // a title must be a non-empty string
    ensures SignedIn(userId) && !(Field(payload, "title").Some? && Field(payload, "title").value.JStr?
                                   && Field(payload, "title").value.s != "") ==>
              r == CreateRejected(Failure(400, "Title is required"))
    // a valid request is inserted: signed in, a title, a wedding, and a
    // description that is a string, null or absent
    ensures r.CreateInsert? <==>
              && SignedIn(userId)
              && Field(payload, "title").Some? && Field(payload, "title").value.JStr? && Field(payload, "title").value.s != ""
              && ResolveDefault(Field(payload, "weddingId"), defaultWedding).Found?
              && (Field(payload, "description").None? || Field(payload, "description").value == JNull
                  || Field(payload, "description").value.JStr?)
    ensures r.CreateInsert? ==> Field(payload, "title") == Some(JStr(r.row.title)) && r.row.title != ""
    // the wedding: the one sent, else the default one
    ensures r.CreateInsert? ==> r.row.weddingId == ResolveDefault(Field(payload, "weddingId"), defaultWedding).value
    ensures r.CreateInsert? && Field(payload, "weddingId").Some? && Field(payload, "weddingId").value.JStr?
              && Field(payload, "weddingId").value.s != "" ==>
              r.row.weddingId == Field(payload, "weddingId").value.s
    ensures SignedIn(userId) && Field(payload, "title").Some? && Field(payload, "title").value.JStr?
            && Field(payload, "title").value.s != ""
            && ResolveDefault(Field(payload, "weddingId"), defaultWedding).LookupFailed? ==>
              r == CreateRejected(Failure(500, "Failed to resolve wedding"))
    ensures SignedIn(userId) && Field(payload, "title").Some? && Field(payload, "title").value.JStr?
            && Field(payload, "title").value.s != ""
            && ResolveDefault(Field(payload, "weddingId"), defaultWedding).NotFound? ==>
              r == CreateRejected(Failure(400, "No wedding available for creation"))
    ensures r.CreateRejected? && r.failure.code == 500 ==> r.failure.error == "Failed to resolve wedding" && defaultWedding.LookupFailed?
    // `dueDate ?? null` is stored as sent
    ensures r.CreateInsert? ==> (Field(payload, "dueDate").Some? ==> r.row.dueDate == Field(payload, "dueDate").value)
    ensures r.CreateInsert? ==> (Field(payload, "dueDate").None? ==> r.row.dueDate == JNull)
    // the stored status is the projection of the requested one, `todo` by default
    ensures r.CreateInsert? ==>
              r.row.status == MapRawLuxToSupabase(
                if Field(payload, "statusLux").None? || Field(payload, "statusLux") == Some(JNull) then JStr("planning")
                else Field(payload, "statusLux").value)
    ensures r.CreateInsert? && (Field(payload, "statusLux").None? || Field(payload, "statusLux") == Some(JNull)) ==>
              r.row.status == Todo
    // the description carries the sanitized metadata block
    ensures r.CreateInsert? ==>
              r.row.description
                == AppendMetadataToDescription(TextOrEmpty(Field(payload, "description")), Sanitize(Field(payload, "metadata")), stringify)
    // a description that is neither a string nor null makes the handler throw
    ensures r == CreateThrows <==>
              SignedIn(userId) && Field(payload, "title").Some? && Field(payload, "title").value.JStr?
              && Field(payload, "title").value.s != ""
              && (ResolveDefault(Field(payload, "weddingId"), defaultWedding)).Found?
              && Field(payload, "description").Some? && Field(payload, "description").value != JNull
              && !Field(payload, "description").value.JStr?
    // only a string assignee id is stored, and then as sent
    ensures r.CreateInsert? ==> (r.row.assigneeId.Some? <==> Field(payload, "assigneeId").Some? && Field(payload, "assigneeId").value.JStr?)
    ensures r.CreateInsert? && r.row.assigneeId.Some? ==> Field(payload, "assigneeId") == Some(JStr(r.row.assigneeId.value))
  {
    if !SignedIn(userId) then CreateRejected(Unauthorized)
    else
      var title := Field(payload, "title");
      if !(title.Some? && title.value.JStr? && title.value.s != "") then
        CreateRejected(Failure(400, "Title is required"))
      else
        match ResolveDefault(Field(payload, "weddingId"), defaultWedding)
        case LookupFailed => CreateRejected(Failure(500, "Failed to resolve wedding"))
        case NotFound => CreateRejected(Failure(400, "No wedding available for creation"))
        case Found(wid) =>
          var safe := Sanitize(Field(payload, "metadata"));
          var description := Field(payload, "description");
          if description.Some? && description.value != JNull && !description.value.JStr? then CreateThrows
          else
            var text := TextOrEmpty(description);
            var statusLux := Field(payload, "statusLux");
            var assignee := Field(payload, "assigneeId");
            CreateInsert(NewRow(
              weddingId := wid,
              title := title.value.s,
              description := AppendMetadataToDescription(text, safe, stringify),
              dueDate := OrNull(Field(payload, "dueDate")),
              status := MapRawLuxToSupabase(if statusLux.None? || statusLux == Some(JNull) then JStr("planning") else statusLux.value),
              assigneeId := if assignee.Some? && assignee.value.JStr? then Some(assignee.value.s) else None))
  }

  /** `{ ...safe, ...stored }`: the stored object's keys override the sent
      ones; spreading anything but an object adds no metadata key. */
  function Spread(safe: TaskMetadata, stored: Json): (r: Json)
    ensures r.JObj?
    ensures forall key :: stored.JObj? && key in stored.fields ==> Get(r, key) == Some(stored.fields[key])
    ensures forall key :: !(stored.JObj? && key in stored.fields) ==> Get(r, key) == FieldJson(safe, key)
  {
    if stored.JObj? then JObj(ToJson(safe).fields + stored.fields) else ToJson(safe)
  }

  /** The metadata `POST` and `PATCH` answer with: the sent (sanitized)
      metadata under what the written row's block holds, sanitized again. */
  function ResponseMetadata(safe: TaskMetadata, stored: Json): (r: TaskMetadata)
    // a block that is not an object adds nothing to what was sent
    ensures !stored.JObj? ==> r == safe
    // otherwise each field is read from the block when the block has the key,
    // and is the sent one when it does not
    ensures stored.JObj? ==>
              && r.priority == (if "priority" in stored.fields then Sanitize(Some(stored)).priority else safe.priority)
              && r.category == (if "category" in stored.fields then Sanitize(Some(stored)).category else safe.category)
              && r.effort == (if "effort" in stored.fields then Sanitize(Some(stored)).effort else safe.effort)
              && r.impact == (if "impact" in stored.fields then Sanitize(Some(stored)).impact else safe.impact)
              && r.tags == (if "tags" in stored.fields then Sanitize(Some(stored)).tags else safe.tags)
              && r.statusLux == (if "statusLux" in stored.fields then Sanitize(Some(stored)).statusLux else safe.statusLux)
  {
    var j := Spread(safe, stored);
    SanitizeToJson(safe);
    SpreadFields(safe, stored);
    Sanitize(Some(j))
  }

  /** Each metadata key of the spread comes from the stored object when it
      has the key, and from the sent record otherwise. */
  lemma SpreadFields(safe: TaskMetadata, stored: Json)
    ensures forall key :: Field(Some(Spread(safe, stored)), key)
              == if stored.JObj? && key in stored.fields then Field(Some(stored), key) else Field(Some(ToJson(safe)), key)
  {
  }

  /** The task `POST` and `PATCH` answer with once the written row is read
      back: its clean text, and the sent metadata under its block. */
  function WrittenView(row: TaskRow, safe: TaskMetadata, today: int, parse: string -> Option<Json>): (v: TaskView)
    ensures v.id == row.id && v.weddingId == row.weddingId && v.title == row.title
    ensures v.dueDate == row.dueDate && v.status == row.status && v.assigneeId == row.assigneeId
    ensures v.description == ParseTaskDescription(row.description, parse).clean
    ensures v.metadata == ResponseMetadata(safe, ParseTaskDescription(row.description, parse).metadata)
    ensures v.statusLux == LuxStatusFromMetadataOrGuess(row.status, v.metadata, DueDelta(row.dueDate, today))
    // a sent display status shows unless the block overrides it
    ensures var block := ParseTaskDescription(row.description, parse).metadata;
            safe.statusLux.Some? && !(block.JObj? && "statusLux" in block.fields) ==>
              v.statusLux == safe.statusLux.value
  {
    var decoded := ParseTaskDescription(row.description, parse);
    View(row, decoded.clean, ResponseMetadata(safe, decoded.metadata), today)
  }

  /** When the row's description is the one written from the sent metadata
      and its block reads back, the handlers' answer is what `GET` shows. */
  lemma WrittenViewOfOwnRow(row: TaskRow, text: string, safe: TaskMetadata, today: int,
                            stringify: Json -> string, parse: string -> Option<Json>)
    requires row.description == Some(AppendMetadataToDescription(text, safe, stringify))
    requires !Contains(stringify(ToJson(safe)), Prefix)
    requires !Contains(stringify(ToJson(safe)), Suffix)
    requires parse(Trim(stringify(ToJson(safe)))) == Some(ToJson(safe))
    ensures WrittenView(row, safe, today, parse) == ProjectRow(row, today, parse)
    ensures WrittenView(row, safe, today, parse).metadata == safe
  {
    RoundTrip(text, safe, stringify, parse);
    ResponseOfRoundTrip(safe);
    ProjectWrittenRow(row, text, safe, today, stringify, parse);
  }

  /** With nothing sent, the handlers' answer is what `GET` shows, whatever
      the row holds. */
  lemma WrittenViewNothingSent(row: TaskRow, today: int, parse: string -> Option<Json>)
    ensures WrittenView(row, Empty, today, parse) == ProjectRow(row, today, parse)
  {
    ResponseWithNothingSent(ParseTaskDescription(row.description, parse).metadata);
  }

  /** When the written block reads back as what was sent, the answer is
      exactly the sent metadata. */
  lemma ResponseOfRoundTrip(safe: TaskMetadata)
    ensures ResponseMetadata(safe, ToJson(safe)) == safe
  {
    var j := Spread(safe, ToJson(safe));
    assert j == ToJson(safe) by {
      assert ToJson(safe).fields + ToJson(safe).fields == ToJson(safe).fields;
    }
    SanitizeToJson(safe);
  }

  /** With nothing sent (a status-only `PATCH`), the answer is the stored
      metadata as `GET` would show it. */
  lemma ResponseWithNothingSent(stored: Json)
    ensures ResponseMetadata(Empty, stored) == Sanitize(Some(stored))
  {
    assert ToJson(Empty).fields == map[] by {
      assert forall key :: Get(ToJson(Empty), key) == FieldJson(Empty, key) == None;
    }
    if stored.JObj? {
      assert ToJson(Empty).fields + stored.fields == stored.fields;
    }
  }

  // -------------------------------------------------------------- PATCH

  /** The `updates` record: each column is present only when it is set. */
  datatype Updates = Updates(status: Option<SupabaseStatus>, description: Option<string>)

  datatype Patch = PatchRejected(failure: Failure) | PatchApply(id: Number, updates: Updates)

  /** `PATCH` up to the update query: `existing` is the answer of the query
      for the task's current description, read only when metadata was sent. */
  method UpdateTask(userId: Option<string>, payload: Option<Json>, existing: Lookup<Option<string>>,
                    parse: string -> Option<Json>, stringify: Json -> string)
    returns (r: Patch)
    ensures !SignedIn(userId) ==> r == PatchRejected(Unauthorized)
    ensures SignedIn(userId) && !(Field(payload, "id").Some? && Field(payload, "id").value.JNum?) ==>
              r == PatchRejected(Failure(400, "Task id is required"))
    ensures r.PatchApply? ==> Field(payload, "id") == Some(JNum(r.id))
    // a status is written exactly when a truthy `statusLux` was sent
    ensures r.PatchApply? ==> (r.updates.status.Some? <==> Truthy(Field(payload, "statusLux")))
    ensures r.PatchApply? && r.updates.status.Some? ==>
              r.updates.status.value == MapRawLuxToSupabase(Field(payload, "statusLux").value)
    // the description is rewritten exactly when truthy metadata was sent:
    // the old clean text with a block holding ONLY the sent metadata
    ensures r.PatchApply? ==> (r.updates.description.Some? <==> Truthy(Field(payload, "metadata")))
    ensures r.PatchApply? && r.updates.description.Some? ==>
              existing.Found? &&
              r.updates.description.value
                == AppendMetadataToDescription(ParseTaskDescription(existing.value, parse).clean,
                                               Sanitize(Field(payload, "metadata")), stringify)
    ensures SignedIn(userId) && Field(payload, "id").Some? && Field(payload, "id").value.JNum?
            && Truthy(Field(payload, "metadata")) && !existing.Found? ==>
              r == PatchRejected(Failure(404, "Task not found"))
    ensures SignedIn(userId) && Field(payload, "id").Some? && Field(payload, "id").value.JNum?
            && !Truthy(Field(payload, "statusLux")) && !Truthy(Field(payload, "metadata")) ==>
              r == PatchRejected(Failure(400, "No updates provided"))
    ensures r.PatchApply? ==> r.updates.status.Some? || r.updates.description.Some?
    // a valid patch is applied
    ensures SignedIn(userId) && Field(payload, "id").Some? && Field(payload, "id").value.JNum?
            && (Truthy(Field(payload, "statusLux")) || Truthy(Field(payload, "metadata")))
            && (!Truthy(Field(payload, "metadata")) || existing.Found?) ==>
              r.PatchApply? && r.id == Field(payload, "id").value.n
  {
    if !SignedIn(userId) {
      return PatchRejected(Unauthorized);
    }
    var id := Field(payload, "id");
    var statusLux := Field(payload, "statusLux");
    var metadata := Field(payload, "metadata");
    if !(id.Some? && id.value.JNum?) {
      return PatchRejected(Failure(400, "Task id is required"));
    }
    var safe := Sanitize(metadata);
    var updates := Updates(None, None);
    if Truthy(statusLux) {
      updates := updates.(status := Some(MapRawLuxToSupabase(statusLux.value)));
    }
    if Truthy(metadata) {
      if !existing.Found? {
        return PatchRejected(Failure(404, "Task not found"));
      }
      var clean := ParseTaskDescription(existing.value, parse).clean;
      updates := updates.(description := Some(AppendMetadataToDescription(clean, safe, stringify)));
    }
    if updates.status.None? && updates.description.None? {
      return PatchRejected(Failure(400, "No updates provided"));
    }
    r := PatchApply(id.value.n, updates);
  }

  /** A metadata update replaces the stored block instead of merging into it:
      whatever the task held before, reading it back gives its old clean text
      (trimmed) and exactly the sent metadata. */
  lemma PatchReplacesMetadata(existing: Option<string>, sent: Option<Json>, today: int, row: TaskRow,
                              parse: string -> Option<Json>, stringify: Json -> string)
    requires row.description == Some(AppendMetadataToDescription(ParseTaskDescription(existing, parse).clean,
                                                                Sanitize(sent), stringify))
    requires !Contains(stringify(ToJson(Sanitize(sent))), Prefix)
    requires !Contains(stringify(ToJson(Sanitize(sent))), Suffix)
    requires parse(Trim(stringify(ToJson(Sanitize(sent))))) == Some(ToJson(Sanitize(sent)))
    ensures ProjectRow(row, today, parse).metadata == Sanitize(sent)
    ensures ProjectRow(row, today, parse).description == Trim(ParseTaskDescription(existing, parse).clean)
  {
    ProjectWrittenRow(row, ParseTaskDescription(existing, parse).clean, Sanitize(sent), today, stringify, parse);
  }
}

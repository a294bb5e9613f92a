/** `TaskMetadata` and `sanitizeMetadata`: the optional attributes carried in
    a task's description block, and the validator that keeps only well-typed
    ones out of an arbitrary client- or storage-supplied value. */
module Metadata {
  import opened Base
  import opened JsonValue
  import opened Statuses

  datatype Priority = Low | Medium | High | Critical

  function PriorityName(p: Priority): string
  {
    match p
    case Low => "low"
    case Medium => "medium"
    case High => "high"
    case Critical => "critical"
  }

  /** `LUX_PRIORITIES.includes(v ?? '')`: the priority a JSON value names. */
  function PriorityFromJson(v: Option<Json>): (r: Option<Priority>)
    ensures r.None? ==> forall p: Priority :: v != Some(JStr(PriorityName(p)))
    ensures r.Some? ==> v == Some(JStr(PriorityName(r.value)))
  {
    if v == Some(JStr("low")) then Some(Low)
    else if v == Some(JStr("medium")) then Some(Medium)
    else if v == Some(JStr("high")) then Some(High)
    else if v == Some(JStr("critical")) then Some(Critical)
    else None
  }

  lemma PriorityFromName(p: Priority)
    ensures PriorityFromJson(Some(JStr(PriorityName(p)))) == Some(p)
  {
    match p
    case Low =>
    case Medium =>
    case High =>
    case Critical =>
  }

  /** Every field is optional; `None` is JavaScript's `undefined`.
      Numbers are exact rationals: only finite values are ever kept. */
  datatype TaskMetadata = TaskMetadata(
    priority: Option<Priority>,
    category: Option<string>,
    effort: Option<real>,
    impact: Option<real>,
    tags: Option<seq<string>>,
    statusLux: Option<LuxStatus>)

  /** `{}` */
  const Empty := TaskMetadata(None, None, None, None, None, None)

  /** `typeof tag === 'string'` */
  predicate IsString(j: Json)
  {
    j.JStr?
  }

  /** `tags.filter((tag) => typeof tag === 'string')`: the string items, in
      their order and with their repetitions. */
  function StringsOf(items: seq<Json>): (r: seq<string>)
    ensures |r| <= |items|
    ensures StringsToJson(r) == Filter(items, IsString)
  {
    if |items| == 0 then []
    else
      var init := StringsOf(items[..|items| - 1]);
      var last := items[|items| - 1];
      var r := init + (if last.JStr? then [last.s] else []);
      assert StringsToJson(r) == StringsToJson(init) + (if last.JStr? then [last] else []);
      r
  }

  /** Membership both ways: a string is kept exactly when it is an item. */
  lemma StringsOfMembers(items: seq<Json>, t: string)
    ensures t in StringsOf(items) <==> JStr(t) in items
  {
    var r := StringsOf(items);
    FilterMember(items, IsString, JStr(t));
    if t in r {
      var i :| 0 <= i < |r| && r[i] == t;
      assert StringsToJson(r)[i] == JStr(t);
    }
    if JStr(t) in items {
      var i :| 0 <= i < |StringsToJson(r)| && StringsToJson(r)[i] == JStr(t);
      assert r[i] == t;
    }
  }

  /** A finite number, as `typeof v === 'number' && Number.isFinite(v)` accepts. */
  function FiniteFromJson(v: Option<Json>): (r: Option<real>)
    ensures r.Some? <==> v.Some? && v.value.JNum? && v.value.n.Finite?
    ensures r.Some? ==> v == Some(JNum(Finite(r.value)))
  {
    if v.Some? && v.value.JNum? && v.value.n.Finite? then Some(v.value.n.value) else None
  }

  /** `typeof v === 'string'` */
  function StringFromJson(v: Option<Json>): (r: Option<string>)
    ensures r.Some? <==> v.Some? && v.value.JStr?
    ensures r.Some? ==> v == Some(JStr(r.value))
  {
    if v.Some? && v.value.JStr? then Some(v.value.s) else None
  }

  /** `sanitizeMetadata(metadata)`. A falsy argument gives `{}`; otherwise each
      field is read from the argument and kept only when it has the right
      shape. A truthy value that is not an object has none of the fields. */
  function Sanitize(metadata: Option<Json>): (r: TaskMetadata)
    ensures !Truthy(metadata) ==> r == Empty
    ensures metadata.Some? && !metadata.value.JObj? ==> r == Empty
    ensures r.priority.Some? ==> Field(metadata, "priority") == Some(JStr(PriorityName(r.priority.value)))
    ensures r.category.Some? ==> Field(metadata, "category") == Some(JStr(r.category.value))
    ensures r.effort.Some? ==> Field(metadata, "effort") == Some(JNum(Finite(r.effort.value)))
    ensures r.impact.Some? ==> Field(metadata, "impact") == Some(JNum(Finite(r.impact.value)))
    ensures r.statusLux.Some? ==> Field(metadata, "statusLux") == Some(JStr(LuxName(r.statusLux.value)))
    ensures r.tags.Some? ==> Field(metadata, "tags").Some? && Field(metadata, "tags").value.JArr?
    ensures r.tags.Some? ==> StringsToJson(r.tags.value) == Filter(Field(metadata, "tags").value.items, IsString)
  {
    if !Truthy(metadata) then Empty
    else
      var tags := Field(metadata, "tags");
      TaskMetadata(
        priority := PriorityFromJson(Field(metadata, "priority")),
        category := StringFromJson(Field(metadata, "category")),
        effort := FiniteFromJson(Field(metadata, "effort")),
        impact := FiniteFromJson(Field(metadata, "impact")),
        tags := if tags.Some? && tags.value.JArr? then Some(StringsOf(tags.value.items)) else None,
        statusLux := LuxFromJson(Field(metadata, "statusLux")))
  }

  /** What sanitizing keeps: every well-shaped field of an object survives. */
  lemma SanitizeKeepsWellShaped(metadata: Json)
    requires metadata.JObj?
    ensures forall p: Priority :: Get(metadata, "priority") == Some(JStr(PriorityName(p)))
              ==> Sanitize(Some(metadata)).priority == Some(p)
    ensures forall c: string :: Get(metadata, "category") == Some(JStr(c))
              ==> Sanitize(Some(metadata)).category == Some(c)
    ensures forall x: real :: Get(metadata, "effort") == Some(JNum(Finite(x)))
              ==> Sanitize(Some(metadata)).effort == Some(x)
    ensures forall x: real :: Get(metadata, "impact") == Some(JNum(Finite(x)))
              ==> Sanitize(Some(metadata)).impact == Some(x)
    ensures forall s: LuxStatus :: Get(metadata, "statusLux") == Some(JStr(LuxName(s)))
              ==> Sanitize(Some(metadata)).statusLux == Some(s)
    ensures forall items: seq<Json> :: Get(metadata, "tags") == Some(JArr(items))
              ==> Sanitize(Some(metadata)).tags == Some(StringsOf(items))
  {
    var r := Sanitize(Some(metadata));
    forall p: Priority | Get(metadata, "priority") == Some(JStr(PriorityName(p)))
      ensures r.priority == Some(p)
    {
      PriorityFromName(p);
    }
    forall s: LuxStatus | Get(metadata, "statusLux") == Some(JStr(LuxName(s)))
      ensures r.statusLux == Some(s)
    {
      LuxFromName(s);
    }
  }

  /** The JSON form of one field of a record; `None` when the field is `undefined`. */
  function FieldJson(m: TaskMetadata, key: string): Option<Json>
  {
    if key == "priority" then (if m.priority.Some? then Some(JStr(PriorityName(m.priority.value))) else None)
    else if key == "category" then (if m.category.Some? then Some(JStr(m.category.value)) else None)
    else if key == "effort" then (if m.effort.Some? then Some(JNum(Finite(m.effort.value))) else None)
    else if key == "impact" then (if m.impact.Some? then Some(JNum(Finite(m.impact.value))) else None)
    else if key == "tags" then (if m.tags.Some? then Some(JArr(StringsToJson(m.tags.value))) else None)
    else if key == "statusLux" then (if m.statusLux.Some? then Some(JStr(LuxName(m.statusLux.value))) else None)
    else None
  }

  const FieldNames: set<string> := {"priority", "category", "effort", "impact", "tags", "statusLux"}

  /** The JSON object that `JSON.stringify` sees for a metadata record:
      `undefined` fields are absent. */
  function ToJson(m: TaskMetadata): (j: Json)
    ensures j.JObj?
    ensures forall key :: Get(j, key) == FieldJson(m, key)
  {
    JObj(map key | key in FieldNames && FieldJson(m, key).Some? :: FieldJson(m, key).value)
  }

  function StringsToJson(tags: seq<string>): (r: seq<Json>)
    ensures |r| == |tags| && forall i | 0 <= i < |tags| :: r[i] == JStr(tags[i])
  {
    seq(|tags|, i requires 0 <= i < |tags| => JStr(tags[i]))
  }

  lemma StringsOfStringsToJson(tags: seq<string>)
    ensures StringsOf(StringsToJson(tags)) == tags
  {
    var js := StringsToJson(tags);
    FilterAll(js, IsString);
    var r := StringsOf(js);
    assert StringsToJson(r) == js;
    forall i | 0 <= i < |r|
      ensures r[i] == tags[i]
    {
      assert StringsToJson(r)[i] == js[i];
    }
  }


  /** Sanitizing the JSON form of any metadata record gives the record back:
      sanitizing loses nothing that a record can hold. */
  lemma SanitizeToJson(m: TaskMetadata)
    ensures Sanitize(Some(ToJson(m))) == m
  {
    var j := ToJson(m);
    var r := Sanitize(Some(j));
    assert r.priority == m.priority by {
      assert Field(Some(j), "priority") == FieldJson(m, "priority");
      if m.priority.Some? {
        PriorityFromName(m.priority.value);
      }
    }
    assert r.category == m.category by {
      assert Field(Some(j), "category") == FieldJson(m, "category");
    }
    assert r.effort == m.effort by {
      assert Field(Some(j), "effort") == FieldJson(m, "effort");
    }
    assert r.impact == m.impact by {
      assert Field(Some(j), "impact") == FieldJson(m, "impact");
    }
    assert r.tags == m.tags by {
      assert Field(Some(j), "tags") == FieldJson(m, "tags");
      if m.tags.Some? {
        StringsOfStringsToJson(m.tags.value);
      }
    }
    assert r.statusLux == m.statusLux by {
      assert Field(Some(j), "statusLux") == FieldJson(m, "statusLux");
      if m.statusLux.Some? {
        LuxFromName(m.statusLux.value);
      }
    }
  }

  /** `sanitizeMetadata` is idempotent: sanitizing an already sanitized value
      (as it is re-read from its JSON form) changes nothing. */
  lemma SanitizeIdempotent(metadata: Option<Json>)
    ensures Sanitize(Some(ToJson(Sanitize(metadata)))) == Sanitize(metadata)
  {
    SanitizeToJson(Sanitize(metadata));
  }
}

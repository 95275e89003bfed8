/**
 * The TracOS work-order record: one status value plus deletion and sync
 * metadata.
 */
module TracOSModels {
  import opened Wrappers
  import opened Json

  datatype Status = Pending | InProgress | Completed | OnHold | Cancelled | Deleted

  /** Every status, in declaration order. */
  const AllStatuses: seq<Status> := [Pending, InProgress, Completed, OnHold, Cancelled, Deleted]

  /** The string each status is stored and validated as. */
  function StatusValue(s: Status): string {
    match s
    case Pending => "pending"
    case InProgress => "in_progress"
    case Completed => "completed"
    case OnHold => "on_hold"
    case Cancelled => "cancelled"
    case Deleted => "deleted"
  }

  /** The status whose value is `v`, if there is one. */
  function StatusFromValue(v: string): (r: Option<Status>)
    ensures r.Some? ==> StatusValue(r.value) == v
    ensures r.None? ==> forall s: Status :: StatusValue(s) != v
  {
    if v == "pending" then Some(Pending)
    else if v == "in_progress" then Some(InProgress)
    else if v == "completed" then Some(Completed)
    else if v == "on_hold" then Some(OnHold)
    else if v == "cancelled" then Some(Cancelled)
    else if v == "deleted" then Some(Deleted)
    else None
  }

  /** The enumeration has exactly six members, with six different values. */
  lemma SixStatuses()
    ensures |AllStatuses| == 6
    ensures forall s: Status :: s in AllStatuses
    ensures forall i, j :: 0 <= i < j < |AllStatuses| ==> StatusValue(AllStatuses[i]) != StatusValue(AllStatuses[j])
  {
    forall s: Status
      ensures s in AllStatuses
    {
      match s
      case Pending => assert AllStatuses[0] == s;
      case InProgress => assert AllStatuses[1] == s;
      case Completed => assert AllStatuses[2] == s;
      case OnHold => assert AllStatuses[3] == s;
      case Cancelled => assert AllStatuses[4] == s;
      case Deleted => assert AllStatuses[5] == s;
    }
  }

  lemma StatusValueRoundTrip(s: Status)
    ensures StatusFromValue(StatusValue(s)) == Some(s)
  {
  }

  /** Defaults are the ones the record model declares; the other fields are required. */
  datatype TracOSWorkOrder = TracOSWorkOrder(
    number: int,
    status: Status := Pending,
    title: string,
    description: string,
    createdAt: Timestamp,
    updatedAt: Timestamp,
    deleted: bool := false,
    isSynced: bool := false,
    syncedAt: Option<Timestamp> := None,
    deletedAt: Option<Timestamp> := None
  )

  /** The sync bookkeeping agrees with itself: synced exactly when a sync time is recorded. */
  predicate SyncConsistent(w: TracOSWorkOrder) {
    w.isSynced <==> w.syncedAt.Some?
  }

  const RequiredFields: set<string> := {"number", "title", "description", "createdAt", "updatedAt"}

  /** The status field: absent means the default, otherwise it must be one of the six values. */
  function StatusField(m: Fields): Result<Status, ValidationError> {
    if "status" !in m then Success(Pending)
    else if m["status"].JString? && StatusFromValue(m["status"].s).Some? then Success(StatusFromValue(m["status"].s).value)
    else Failure(WrongType("status"))
  }

  /**
   * Builds a record from a decoded document, or rejects it. Every field must
   * hold a value of its own kind; keys the record does not declare are ignored.
   */
  function ValidateTracOS(raw: JsonValue, parse: TimeParser): (r: Result<TracOSWorkOrder, ValidationError>)
    ensures !raw.JObject? ==> r == Failure(NotAnObject)
    ensures r.Success? ==> RequiredFields <= raw.fields.Keys
    ensures raw.JObject? && "number" in raw.fields && !raw.fields["number"].JInt? ==> r.Failure?
    ensures r.Success? ==> raw.fields["number"] == JInt(r.value.number)
    ensures r.Success? ==> raw.fields["title"] == JString(r.value.title) && raw.fields["description"] == JString(r.value.description)
    ensures r.Success? ==>
              if "status" in raw.fields then raw.fields["status"] == JString(StatusValue(r.value.status))
              else r.value.status == Pending
    ensures r.Success? ==>
              && raw.fields["createdAt"].JString? && parse(raw.fields["createdAt"].s) == Some(r.value.createdAt)
              && raw.fields["updatedAt"].JString? && parse(raw.fields["updatedAt"].s) == Some(r.value.updatedAt)
    ensures r.Success? ==>
              if "deleted" in raw.fields then raw.fields["deleted"] == JBool(r.value.deleted) else !r.value.deleted
    ensures r.Success? ==>
              if "isSynced" in raw.fields then raw.fields["isSynced"] == JBool(r.value.isSynced) else !r.value.isSynced
    ensures r.Success? ==>
              (r.value.syncedAt.None? <==> "syncedAt" !in raw.fields || raw.fields["syncedAt"] == JNull)
    ensures r.Success? ==>
              (r.value.deletedAt.None? <==> "deletedAt" !in raw.fields || raw.fields["deletedAt"] == JNull)
    ensures r.Success? && r.value.syncedAt.Some? ==>
              raw.fields["syncedAt"].JString? && parse(raw.fields["syncedAt"].s) == r.value.syncedAt
    ensures r.Success? && r.value.deletedAt.Some? ==>
              raw.fields["deletedAt"].JString? && parse(raw.fields["deletedAt"].s) == r.value.deletedAt
  {
    if !raw.JObject? then Failure(NotAnObject)
    else
      var m := raw.fields;
      var number :- IntField(m, "number");
      var status :- StatusField(m);
      var title :- StringField(m, "title");
      var description :- StringField(m, "description");
      var createdAt :- TimeField(m, "createdAt", parse);
      var updatedAt :- TimeField(m, "updatedAt", parse);
      var deleted :- BoolField(m, "deleted", Some(false));
      var isSynced :- BoolField(m, "isSynced", Some(false));
      var syncedAt :- OptionalTimeField(m, "syncedAt", parse);
      var deletedAt :- OptionalTimeField(m, "deletedAt", parse);
      Success(TracOSWorkOrder(
        number := number, status := status, title := title, description := description,
        createdAt := createdAt, updatedAt := updatedAt, deleted := deleted,
        isSynced := isSynced, syncedAt := syncedAt, deletedAt := deletedAt))
  }

  /** The document `model_dump` gives for a record, with datetimes rendered by `format`. */
  function DumpTracOS(w: TracOSWorkOrder, format: TimeFormatter): JsonValue {
    JObject(map[
      "number" := JInt(w.number),
      "status" := JString(StatusValue(w.status)),
      "title" := JString(w.title),
      "description" := JString(w.description),
      "createdAt" := TimeJson(w.createdAt, format),
      "updatedAt" := TimeJson(w.updatedAt, format),
      "deleted" := JBool(w.deleted),
      "isSynced" := JBool(w.isSynced),
      "syncedAt" := OptionalTimeJson(w.syncedAt, format),
      "deletedAt" := OptionalTimeJson(w.deletedAt, format)
    ])
  }

  /** The number, status, texts and flags of a dumped record read back as they were dumped. */
  lemma DumpedScalarsReadBack(w: TracOSWorkOrder, format: TimeFormatter)
    ensures var m := DumpTracOS(w, format).fields;
            && IntField(m, "number") == Success(w.number)
            && StatusField(m) == Success(w.status)
            && StringField(m, "title") == Success(w.title)
            && StringField(m, "description") == Success(w.description)
            && BoolField(m, "deleted", Some(false)) == Success(w.deleted)
            && BoolField(m, "isSynced", Some(false)) == Success(w.isSynced)
  {
    StatusValueRoundTrip(w.status);
  }

  /** The timestamps of a dumped record read back as they were dumped. */
  lemma DumpedTimesReadBack(w: TracOSWorkOrder, format: TimeFormatter, parse: TimeParser)
    requires parse(format(w.createdAt)) == Some(w.createdAt)
    requires parse(format(w.updatedAt)) == Some(w.updatedAt)
    requires w.syncedAt.Some? ==> parse(format(w.syncedAt.value)) == Some(w.syncedAt.value)
    requires w.deletedAt.Some? ==> parse(format(w.deletedAt.value)) == Some(w.deletedAt.value)
    ensures var m := DumpTracOS(w, format).fields;
            && TimeField(m, "createdAt", parse) == Success(w.createdAt)
            && TimeField(m, "updatedAt", parse) == Success(w.updatedAt)
            && OptionalTimeField(m, "syncedAt", parse) == Success(w.syncedAt)
            && OptionalTimeField(m, "deletedAt", parse) == Success(w.deletedAt)
  {
  }

  /**
   * A stored record reads back as itself whenever its timestamps survive
   * rendering and parsing: what an insert writes, a lookup returns.
   */
  lemma DumpValidateRoundTrip(w: TracOSWorkOrder, format: TimeFormatter, parse: TimeParser)
    requires parse(format(w.createdAt)) == Some(w.createdAt)
    requires parse(format(w.updatedAt)) == Some(w.updatedAt)
    requires w.syncedAt.Some? ==> parse(format(w.syncedAt.value)) == Some(w.syncedAt.value)
    requires w.deletedAt.Some? ==> parse(format(w.deletedAt.value)) == Some(w.deletedAt.value)
    ensures ValidateTracOS(DumpTracOS(w, format), parse) == Success(w)
  {
    DumpedScalarsReadBack(w, format);
    DumpedTimesReadBack(w, format, parse);
  }

  /** Only the five required fields given: everything else takes its default. */
  lemma ValidateTracOSDefaults(number: int, title: string, description: string,
                               created: string, updated: string, parse: TimeParser)
    requires parse(created).Some? && parse(updated).Some?
    ensures var raw := JObject(map[
              "number" := JInt(number), "title" := JString(title), "description" := JString(description),
              "createdAt" := JString(created), "updatedAt" := JString(updated)]);
            ValidateTracOS(raw, parse) == Success(TracOSWorkOrder(
              number := number, title := title, description := description,
              createdAt := parse(created).value, updatedAt := parse(updated).value))
  {
  }

  /** Ill-typed required fields are rejected. */
  lemma ValidateTracOSRejectsIllTyped(parse: TimeParser)
    ensures var raw := JObject(map[
              "number" := JString("not_an_integer"), "title" := JInt(123), "description" := JInt(456),
              "createdAt" := JString("not_a_datetime"), "updatedAt" := JString("not_a_datetime")]);
            ValidateTracOS(raw, parse).Failure?
  {
  }
}

/**
 * The customer's work-order record: five independent status flags, which the
 * record itself never forces to be mutually exclusive.
 */
module CustomerModels {
  import opened Wrappers
  import opened Json

  /** Defaults are the ones the record model declares; the other fields are required. */
  datatype CustomerWorkOrder = CustomerWorkOrder(
    orderNo: int,
    isActive: bool := true,
    isCanceled: bool,
    isDeleted: bool,
    isDone: bool,
    isOnHold: bool,
    isPending: bool,
    isSynced: bool := false,
    summary: string,
    creationDate: Timestamp,
    lastUpdateDate: Timestamp,
    deletedDate: Option<Timestamp> := None
  )

  /** The fields a record must carry: those without a default. */
  const RequiredFields: set<string> :=
    {"orderNo", "isCanceled", "isDeleted", "isDone", "isOnHold", "isPending",
     "summary", "creationDate", "lastUpdateDate"}

  /**
   * Builds a record from a decoded JSON value, or rejects it. Every field must
   * hold a value of its own JSON kind; keys the record does not declare are
   * ignored.
   */
  function ValidateCustomer(raw: JsonValue, parse: TimeParser): (r: Result<CustomerWorkOrder, ValidationError>)
    ensures !raw.JObject? ==> r == Failure(NotAnObject)
    // required fields
    ensures r.Success? ==> RequiredFields <= raw.fields.Keys
    ensures raw.JObject? && "orderNo" in raw.fields && !raw.fields["orderNo"].JInt? ==> r.Failure?
    // what a success carries
    ensures r.Success? ==> raw.fields["orderNo"] == JInt(r.value.orderNo)
    ensures r.Success? ==>
              && raw.fields["isPending"] == JBool(r.value.isPending)
              && raw.fields["isOnHold"] == JBool(r.value.isOnHold)
              && raw.fields["isDone"] == JBool(r.value.isDone)
              && raw.fields["isCanceled"] == JBool(r.value.isCanceled)
              && raw.fields["isDeleted"] == JBool(r.value.isDeleted)
    ensures r.Success? ==> raw.fields["summary"] == JString(r.value.summary)
    ensures r.Success? ==>
              && raw.fields["creationDate"].JString?
              && parse(raw.fields["creationDate"].s) == Some(r.value.creationDate)
              && raw.fields["lastUpdateDate"].JString?
              && parse(raw.fields["lastUpdateDate"].s) == Some(r.value.lastUpdateDate)
    // defaults
    ensures r.Success? ==>
              if "isActive" in raw.fields then raw.fields["isActive"] == JBool(r.value.isActive) else r.value.isActive
    ensures r.Success? ==>
              if "isSynced" in raw.fields then raw.fields["isSynced"] == JBool(r.value.isSynced) else !r.value.isSynced
    ensures r.Success? ==>
              (r.value.deletedDate.None? <==> "deletedDate" !in raw.fields || raw.fields["deletedDate"] == JNull)
    ensures r.Success? && r.value.deletedDate.Some? ==>
              raw.fields["deletedDate"].JString? && parse(raw.fields["deletedDate"].s) == r.value.deletedDate
  {
    if !raw.JObject? then Failure(NotAnObject)
    else
      var m := raw.fields;
      var orderNo :- IntField(m, "orderNo");
      var isActive :- BoolField(m, "isActive", Some(true));
      var isCanceled :- BoolField(m, "isCanceled", None);
      var isDeleted :- BoolField(m, "isDeleted", None);
      var isDone :- BoolField(m, "isDone", None);
      var isOnHold :- BoolField(m, "isOnHold", None);
      var isPending :- BoolField(m, "isPending", None);
      var isSynced :- BoolField(m, "isSynced", Some(false));
      var summary :- StringField(m, "summary");
      var creationDate :- TimeField(m, "creationDate", parse);
      var lastUpdateDate :- TimeField(m, "lastUpdateDate", parse);
      var deletedDate :- OptionalTimeField(m, "deletedDate", parse);
      Success(CustomerWorkOrder(
        orderNo := orderNo, isActive := isActive, isCanceled := isCanceled,
        isDeleted := isDeleted, isDone := isDone, isOnHold := isOnHold,
        isPending := isPending, isSynced := isSynced, summary := summary,
        creationDate := creationDate, lastUpdateDate := lastUpdateDate,
        deletedDate := deletedDate))
  }

  /** The JSON object `model_dump` followed by `json.dump` writes for a record. */
  function DumpCustomer(c: CustomerWorkOrder, format: TimeFormatter): JsonValue {
    JObject(map[
      "orderNo" := JInt(c.orderNo),
      "isActive" := JBool(c.isActive),
      "isCanceled" := JBool(c.isCanceled),
      "isDeleted" := JBool(c.isDeleted),
      "isDone" := JBool(c.isDone),
      "isOnHold" := JBool(c.isOnHold),
      "isPending" := JBool(c.isPending),
      "isSynced" := JBool(c.isSynced),
      "summary" := JString(c.summary),
      "creationDate" := TimeJson(c.creationDate, format),
      "lastUpdateDate" := TimeJson(c.lastUpdateDate, format),
      "deletedDate" := OptionalTimeJson(c.deletedDate, format)
    ])
  }

  /** Each flag of a dumped record, and its number, read back as the values they were dumped from. */
  lemma DumpedFlagsReadBack(c: CustomerWorkOrder, format: TimeFormatter)
    ensures var m := DumpCustomer(c, format).fields;
            && IntField(m, "orderNo") == Success(c.orderNo)
            && BoolField(m, "isActive", Some(true)) == Success(c.isActive)
            && BoolField(m, "isCanceled", None) == Success(c.isCanceled)
            && BoolField(m, "isDeleted", None) == Success(c.isDeleted)
            && BoolField(m, "isDone", None) == Success(c.isDone)
            && BoolField(m, "isOnHold", None) == Success(c.isOnHold)
            && BoolField(m, "isPending", None) == Success(c.isPending)
            && BoolField(m, "isSynced", Some(false)) == Success(c.isSynced)
  {
  }

  /** The summary and the timestamps of a dumped record read back as the values they were dumped from. */
  lemma DumpedTextReadsBack(c: CustomerWorkOrder, format: TimeFormatter, parse: TimeParser)
    requires parse(format(c.creationDate)) == Some(c.creationDate)
    requires parse(format(c.lastUpdateDate)) == Some(c.lastUpdateDate)
    requires c.deletedDate.Some? ==> parse(format(c.deletedDate.value)) == Some(c.deletedDate.value)
    ensures var m := DumpCustomer(c, format).fields;
            && StringField(m, "summary") == Success(c.summary)
            && TimeField(m, "creationDate", parse) == Success(c.creationDate)
            && TimeField(m, "lastUpdateDate", parse) == Success(c.lastUpdateDate)
            && OptionalTimeField(m, "deletedDate", parse) == Success(c.deletedDate)
  {
  }

  /** A dumped record validates back to itself whenever its timestamps parse back. */
  lemma DumpValidateRoundTrip(c: CustomerWorkOrder, format: TimeFormatter, parse: TimeParser)
    requires parse(format(c.creationDate)) == Some(c.creationDate)
    requires parse(format(c.lastUpdateDate)) == Some(c.lastUpdateDate)
    requires c.deletedDate.Some? ==> parse(format(c.deletedDate.value)) == Some(c.deletedDate.value)
    ensures ValidateCustomer(DumpCustomer(c, format), parse) == Success(c)
  {
    DumpedFlagsReadBack(c, format);
    DumpedTextReadsBack(c, format, parse);
  }

  /** The flags are not exclusive: a record with all five set is accepted as it is. */
  lemma FlagsNotExclusive(t: Timestamp, parse: TimeParser)
    requires parse("2025-12-14T10:00:00") == Some(t)
    ensures var raw := JObject(map[
              "orderNo" := JInt(7), "isCanceled" := JBool(true), "isDeleted" := JBool(true),
              "isDone" := JBool(true), "isOnHold" := JBool(true), "isPending" := JBool(true),
              "summary" := JString("S"), "creationDate" := JString("2025-12-14T10:00:00"),
              "lastUpdateDate" := JString("2025-12-14T10:00:00")]);
            ValidateCustomer(raw, parse) == Success(CustomerWorkOrder(
              orderNo := 7, isCanceled := true, isDeleted := true, isDone := true,
              isOnHold := true, isPending := true, summary := "S",
              creationDate := t, lastUpdateDate := t))
  {
  }
}

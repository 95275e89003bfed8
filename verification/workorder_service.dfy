/**
 * Translation between the two record shapes, and the insert-or-update step
 * against the store.
 */
module WorkOrderService {
  import opened Wrappers
  import opened Json
  import opened TracOSModels
  import opened CustomerModels
  import opened WorkOrderRepository

  /** The five customer status flags. */
  datatype Flag = IsPending | IsOnHold | IsDone | IsCanceled | IsDeleted

  function FlagValue(c: CustomerWorkOrder, f: Flag): bool {
    match f
    case IsPending => c.isPending
    case IsOnHold => c.isOnHold
    case IsDone => c.isDone
    case IsCanceled => c.isCanceled
    case IsDeleted => c.isDeleted
  }

  /** Flag to status, in the order the flags are tried. */
  const StatusMapping: seq<(Flag, Status)> :=
    [(IsPending, Pending), (IsOnHold, OnHold), (IsDone, Completed), (IsCanceled, Cancelled), (IsDeleted, Deleted)]

  /** Status to flag; `in_progress` has no flag. */
  function FlagFor(s: Status): Option<Flag> {
    match s
    case Pending => Some(IsPending)
    case OnHold => Some(IsOnHold)
    case Completed => Some(IsDone)
    case Cancelled => Some(IsCanceled)
    case Deleted => Some(IsDeleted)
    case InProgress => None
  }

  /** The two tables are inverse: each row of the flag table is found again in the status table. */
  lemma MappingsAgree()
    ensures forall i :: 0 <= i < |StatusMapping| ==> FlagFor(StatusMapping[i].1) == Some(StatusMapping[i].0)
    ensures forall s: Status :: FlagFor(s).None? <==> s == InProgress
    ensures forall s: Status :: FlagFor(s).Some? ==> exists i :: 0 <= i < |StatusMapping| && StatusMapping[i] == (FlagFor(s).value, s)
  {
    forall s: Status | FlagFor(s).Some?
      ensures exists i :: 0 <= i < |StatusMapping| && StatusMapping[i] == (FlagFor(s).value, s)
    {
      match s
      case Pending => assert StatusMapping[0] == (FlagFor(s).value, s);
      case OnHold => assert StatusMapping[1] == (FlagFor(s).value, s);
      case Completed => assert StatusMapping[2] == (FlagFor(s).value, s);
      case Cancelled => assert StatusMapping[3] == (FlagFor(s).value, s);
      case Deleted => assert StatusMapping[4] == (FlagFor(s).value, s);
    }
  }

  /** The status of the first row of `table` whose flag is set on `c`. */
  function FirstSetFlag(c: CustomerWorkOrder, table: seq<(Flag, Status)>): (r: Option<Status>)
    ensures r.None? <==> forall i :: 0 <= i < |table| ==> !FlagValue(c, table[i].0)
    ensures r.Some? ==>
              exists i :: 0 <= i < |table| && FlagValue(c, table[i].0) && table[i].1 == r.value
                          && forall j :: 0 <= j < i ==> !FlagValue(c, table[j].0)
    decreases |table|
  {
    if table == [] then None
    else if FlagValue(c, table[0].0) then Some(table[0].1)
    else
      FirstSetFlag(c, table[1..])
  }

  /** The status priority written out: pending, on hold, done, canceled, deleted. */
  function PriorityStatus(c: CustomerWorkOrder): Option<Status> {
    if c.isPending then Some(Pending)
    else if c.isOnHold then Some(OnHold)
    else if c.isDone then Some(Completed)
    else if c.isCanceled then Some(Cancelled)
    else if c.isDeleted then Some(Deleted)
    else None
  }

  /** Searching the table is the written-out priority. */
  lemma TableSearchIsPriority(c: CustomerWorkOrder)
    ensures FirstSetFlag(c, StatusMapping) == PriorityStatus(c)
  {
  }

  /**
   * Raised when no status flag is set: the status variable is only bound
   * inside the search loop, so the pending fallback is never reached.
   */
  datatype ConversionError = UnboundStatus

  /** Customer record to TracOS record. */
  function CustomerToTracOS(c: CustomerWorkOrder): (r: Result<TracOSWorkOrder, ConversionError>)
    ensures r.Failure? <==> !c.isPending && !c.isOnHold && !c.isDone && !c.isCanceled && !c.isDeleted
    ensures r.Success? ==> Some(r.value.status) == PriorityStatus(c)
    ensures r.Success? ==>
              && r.value.number == c.orderNo
              && r.value.title == c.summary && r.value.description == c.summary
              && r.value.createdAt == c.creationDate && r.value.updatedAt == c.lastUpdateDate
              && r.value.deleted == c.isDeleted && r.value.deletedAt == c.deletedDate
    ensures r.Success? ==> !r.value.isSynced && r.value.syncedAt.None?
  {
    TableSearchIsPriority(c);
    match FirstSetFlag(c, StatusMapping)
    case None => Failure(UnboundStatus)
    case Some(status) =>
      Success(TracOSWorkOrder(
        number := c.orderNo,
        status := status,
        title := c.summary,
        description := c.summary,
        createdAt := c.creationDate,
        updatedAt := c.lastUpdateDate,
        deleted := c.isDeleted,
        deletedAt := c.deletedDate))
  }

  /** TracOS record to customer record. */
  function TracOSToCustomer(t: TracOSWorkOrder): (r: CustomerWorkOrder)
    ensures r.isPending <==> t.status == Pending
    ensures r.isOnHold <==> t.status == OnHold
    ensures r.isDone <==> t.status == Completed
    ensures r.isCanceled <==> t.status == Cancelled
    ensures r.isDeleted <==> t.status == Deleted
    ensures r.orderNo == t.number && r.summary == t.title
    ensures r.creationDate == t.createdAt && r.lastUpdateDate == t.updatedAt && r.deletedDate == t.deletedAt
    ensures r.isActive && !r.isSynced
  {
    var flag := FlagFor(t.status);
    CustomerWorkOrder(
      orderNo := t.number,
      summary := t.title,
      creationDate := t.createdAt,
      lastUpdateDate := t.updatedAt,
      deletedDate := t.deletedAt,
      isPending := flag == Some(IsPending),
      isOnHold := flag == Some(IsOnHold),
      isDone := flag == Some(IsDone),
      isCanceled := flag == Some(IsCanceled),
      isDeleted := flag == Some(IsDeleted))
  }

  /** How many of the five status flags are set. */
  function FlagCount(c: CustomerWorkOrder): nat {
    (if c.isPending then 1 else 0) + (if c.isOnHold then 1 else 0) + (if c.isDone then 1 else 0)
    + (if c.isCanceled then 1 else 0) + (if c.isDeleted then 1 else 0)
  }

  /** An exported record carries one flag, or none for `in_progress`. */
  lemma ExportedFlags(t: TracOSWorkOrder)
    ensures FlagCount(TracOSToCustomer(t)) == if t.status == InProgress then 0 else 1
  {
  }

  /**
   * TracOS to customer and back keeps status, number, title, timestamps and
   * deletion time; the description becomes the title, `deleted` becomes
   * "status is deleted", and the sync state is reset.
   */
  lemma TracOSRoundTrip(t: TracOSWorkOrder)
    requires t.status != InProgress
    ensures CustomerToTracOS(TracOSToCustomer(t))
            == Success(t.(description := t.title, deleted := t.status == Deleted, isSynced := false, syncedAt := None))
  {
  }

  /** An `in_progress` record exported and read back fails: no flag is set. */
  lemma InProgressRoundTripFails(t: TracOSWorkOrder)
    requires t.status == InProgress
    ensures CustomerToTracOS(TracOSToCustomer(t)) == Failure(UnboundStatus)
  {
  }

  /**
   * Customer to TracOS and back gives back the record with `isActive` and
   * `isSynced` at their defaults, exactly when one flag was set.
   */
  lemma CustomerRoundTrip(c: CustomerWorkOrder)
    requires CustomerToTracOS(c).Success?
    ensures TracOSToCustomer(CustomerToTracOS(c).value) == c.(isActive := true, isSynced := false)
            <==> FlagCount(c) == 1
  {
    // With several flags set, the record that comes back has only one.
  }

  /** Which branch an upsert took. */
  datatype UpsertAction = Inserted | Updated

  datatype UpsertResult = UpsertResult(store: Store, action: UpsertAction)

  /**
   * Looks the record up by number; updates the stored one in place when it is
   * there and inserts otherwise.
   */
  function Upsert(s: Store, t: TracOSWorkOrder): (r: UpsertResult)
    ensures r.action == Updated <==> t.number in s
    ensures FindByNumber(r.store, t.number) == Some(t)
    ensures forall n :: n != t.number ==> FindByNumber(r.store, n) == FindByNumber(s, n)
    ensures |r.store| == if t.number in s then |s| else |s| + 1
  {
    match FindByNumber(s, t.number)
    case Some(existing) => UpsertResult(Update(s, existing.number, t).store, Updated)
    case None => UpsertResult(Insert(s, t), Inserted)
  }

  /** Whichever branch is taken, the record ends up stored under its number. */
  lemma UpsertOverwrites(s: Store, t: TracOSWorkOrder)
    ensures Upsert(s, t).store == s[t.number := t]
  {
  }

  /** A second upsert of the same record changes nothing. */
  lemma UpsertIdempotent(s: Store, t: TracOSWorkOrder)
    ensures Upsert(Upsert(s, t).store, t).store == Upsert(s, t).store
    ensures Upsert(Upsert(s, t).store, t).action == Updated
  {
    UpsertOverwrites(s, t);
    UpsertOverwrites(Upsert(s, t).store, t);
  }

  /** Status priority: pending wins over deleted, and `deleted` still copies the flag. */
  lemma PendingBeatsDeleted(c: CustomerWorkOrder)
    requires c.isPending && c.isDeleted
    ensures CustomerToTracOS(c).Success?
    ensures CustomerToTracOS(c).value.status == Pending && CustomerToTracOS(c).value.deleted
  {
  }
}

/**
 * The document store, as an in-memory map from work-order number to record.
 * A map holds at most one record per number, and the subset type keeps each
 * record under its own number.
 */
module WorkOrderRepository {
  import opened Wrappers
  import opened TracOSModels

  type Store = s: map<int, TracOSWorkOrder> | (forall n :: n in s ==> s[n].number == n) witness map[]

  /** The record with the given number, if any. */
  function FindByNumber(s: Store, number: int): (r: Option<TracOSWorkOrder>)
    ensures r.Some? <==> number in s
    ensures r.Some? ==> r.value == s[number] && r.value.number == number
  {
    if number in s then Some(s[number]) else None
  }

  /** Stores a new record under its number. */
  function Insert(s: Store, t: TracOSWorkOrder): (r: Store)
    ensures FindByNumber(r, t.number) == Some(t)
    ensures forall n :: n != t.number ==> FindByNumber(r, n) == FindByNumber(s, n)
  {
    s[t.number := t]
  }

  /** What an update reports: the record when the store changed, otherwise `None`. */
  datatype UpdateResult = UpdateResult(store: Store, modified: Option<TracOSWorkOrder>)

  /**
   * Overwrites every field of the record stored under `number` with those of
   * `t`. The number field is overwritten too, so the record ends up under
   * `t.number`. No record under `number` means nothing changes.
   */
  function Update(s: Store, number: int, t: TracOSWorkOrder): (r: UpdateResult)
    ensures number !in s ==> r.store == s
    ensures number in s ==> FindByNumber(r.store, t.number) == Some(t)
    ensures number in s && number != t.number ==> number !in r.store
    ensures forall n :: n != number && n != t.number ==> FindByNumber(r.store, n) == FindByNumber(s, n)
    ensures r.modified.Some? <==> number in s && s[number] != t
    ensures r.modified.Some? ==> r.modified.value == t
  {
    if number !in s then UpdateResult(s, None)
    else
      var moved := (s - {number})[t.number := t];
      UpdateResult(moved, if s[number] != t then Some(t) else None)
  }

  /** The records whose sync flag equals `isSynced`. */
  function FindIsSynced(s: Store, isSynced: bool): (r: Store)
    ensures forall n :: n in r <==> n in s && s[n].isSynced == isSynced
    ensures forall n :: n in r ==> r[n] == s[n]
  {
    map n | n in s && s[n].isSynced == isSynced :: s[n]
  }

  /** Every stored record keeps its sync bookkeeping consistent. */
  predicate AllSyncConsistent(s: Store) {
    forall n :: n in s ==> SyncConsistent(s[n])
  }
}

/**
 * The import run: every `.json` file of the inbound directory is validated as
 * a customer record, converted, and upserted by number. A file that fails at
 * any step is skipped and the run goes on with the next one.
 */
module Inbound {
  import opened Wrappers
  import opened Json
  import opened TracOSModels
  import opened CustomerModels
  import opened WorkOrderRepository
  import opened WorkOrderService

  /**
   * One directory entry: its name, and the value reading and decoding it
   * gave, or `None` when the read or the decode failed.
   */
  datatype DirEntry = DirEntry(name: string, content: Option<JsonValue>)

  const JsonSuffix: string := ".json"

  predicate IsJsonName(name: string) {
    |name| >= |JsonSuffix| && name[|name| - |JsonSuffix|..] == JsonSuffix
  }

  /**
   * The record one entry would upsert, if it gets that far: the conversion of
   * the customer record the file validates to.
   */
  function IngestFile(entry: DirEntry, parse: TimeParser): (r: Option<TracOSWorkOrder>)
    ensures !IsJsonName(entry.name) || entry.content.None? ==> r.None?
    ensures r.Some? <==>
              && IsJsonName(entry.name) && entry.content.Some?
              && ValidateCustomer(entry.content.value, parse).Success?
              && FlagCount(ValidateCustomer(entry.content.value, parse).value) > 0
    ensures r.Some? ==> CustomerToTracOS(ValidateCustomer(entry.content.value, parse).value) == Success(r.value)
    ensures r.Some? ==> r.value.number == ValidateCustomer(entry.content.value, parse).value.orderNo
    ensures r.Some? ==> !r.value.isSynced && r.value.syncedAt.None? && r.value.status != InProgress
  {
    if !IsJsonName(entry.name) then None
    else
      match entry.content
      case None => None
      case Some(data) =>
        match ValidateCustomer(data, parse)
        case Failure(_) => None
        case Success(client) => CustomerToTracOS(client).ToOption()
  }

  /** The store after one entry: its record upserted, unless there is none or the upsert failed. */
  function ApplyIngest(r: Store, t: Option<TracOSWorkOrder>, fails: bool): Store {
    if t.Some? && !fails then Upsert(r, t.value).store else r
  }

  /**
   * The record stored under `number` by the last of the first `count` entries
   * whose upsert went through, if any did.
   */
  function LastIngested(entries: seq<DirEntry>, parse: TimeParser, storageFails: nat -> bool,
                        count: nat, number: int): Option<TracOSWorkOrder>
    requires count <= |entries|
    decreases count
  {
    if count == 0 then None
    else
      var t := IngestFile(entries[count - 1], parse);
      if t.Some? && t.value.number == number && !storageFails(count - 1) then t
      else LastIngested(entries, parse, storageFails, count - 1, number)
  }

  /** What lookup by `number` gives after the first `count` entries, by the reference definition. */
  function Expected(store: Store, entries: seq<DirEntry>, parse: TimeParser, storageFails: nat -> bool,
                    count: nat, number: int): Option<TracOSWorkOrder>
    requires count <= |entries|
  {
    var last := LastIngested(entries, parse, storageFails, count, number);
    if last.Some? then last else FindByNumber(store, number)
  }

  /** The loop invariant: after `count` entries, the store holds what they upserted over the original. */
  ghost predicate IngestedSoFar(store: Store, entries: seq<DirEntry>, parse: TimeParser,
                                storageFails: nat -> bool, count: nat, r: Store)
  {
    && count <= |entries|
    && (forall n :: FindByNumber(r, n) == Expected(store, entries, parse, storageFails, count, n))
    && (AllSyncConsistent(store) ==> AllSyncConsistent(r))
  }

  /** One more entry changes the expectation only for the number it upserted. */
  lemma ExpectedNext(store: Store, entries: seq<DirEntry>, parse: TimeParser,
                     storageFails: nat -> bool, count: nat, n: int)
    requires count < |entries|
    ensures var t := IngestFile(entries[count], parse);
            Expected(store, entries, parse, storageFails, count + 1, n)
            == if t.Some? && !storageFails(count) && n == t.value.number then t
               else Expected(store, entries, parse, storageFails, count, n)
  {
  }

  lemma IngestStep(store: Store, entries: seq<DirEntry>, parse: TimeParser,
                   storageFails: nat -> bool, count: nat, r: Store, r': Store)
    requires count < |entries|
    requires IngestedSoFar(store, entries, parse, storageFails, count, r)
    requires r' == ApplyIngest(r, IngestFile(entries[count], parse), storageFails(count))
    ensures IngestedSoFar(store, entries, parse, storageFails, count + 1, r')
  {
    var t := IngestFile(entries[count], parse);
    if t.Some? && !storageFails(count) {
      var w := t.value;
      UpsertOverwrites(r, w);
      assert r' == r[w.number := w];
      forall n
        ensures FindByNumber(r', n) == Expected(store, entries, parse, storageFails, count + 1, n)
      {
        ExpectedNext(store, entries, parse, storageFails, count, n);
      }
      assert SyncConsistent(w);
    } else {
      forall n
        ensures FindByNumber(r', n) == Expected(store, entries, parse, storageFails, count + 1, n)
      {
        ExpectedNext(store, entries, parse, storageFails, count, n);
      }
    }
  }

  /**
   * One import run. `inboundDir` is `None` when the directory does not exist;
   * otherwise it lists the entries in the order the directory yields them.
   * `storageFails(i)` says the upsert for the i-th entry raised a storage error.
   */
  method ProcessFiles(store: Store, inboundDir: Option<seq<DirEntry>>, parse: TimeParser,
                      storageFails: nat -> bool)
    returns (r: Store)
    ensures inboundDir.None? ==> r == store
    ensures inboundDir.Some? ==>
              forall n :: FindByNumber(r, n) == Expected(store, inboundDir.value, parse, storageFails, |inboundDir.value|, n)
    ensures AllSyncConsistent(store) ==> AllSyncConsistent(r)
  {
    if inboundDir.None? {
      return store;
    }
    var entries := inboundDir.value;
    r := store;
    var i := 0;
    while i < |entries|
      invariant IngestedSoFar(store, entries, parse, storageFails, i, r)
    {
      // A name not ending in ".json", a file that could not be read, a failed
      // validation or conversion, or a storage error each skip this file only.
      var next := ApplyIngest(r, IngestFile(entries[i], parse), storageFails(i));
      IngestStep(store, entries, parse, storageFails, i, r, next);
      r := next;
      i := i + 1;
    }
  }
}

/**
 * The export run: every record not yet synced is converted to the customer
 * shape, written to its own file, and then marked synced in the store.
 */
module Outbound {
  import opened Wrappers
  import opened Json
  import opened TracOSModels
  import opened CustomerModels
  import opened WorkOrderRepository
  import opened WorkOrderService
  import Decimal

  /**
   * `os.path.join` of two POSIX path components: an absolute `name` replaces
   * `dir`; otherwise a separator is put between them unless `dir` is empty or
   * already ends in one.
   */
  function JoinPath(dir: string, name: string): (r: string)
    ensures |name| > 0 && name[0] == '/' ==> r == name
    ensures !(|name| > 0 && name[0] == '/') ==>
              && |r| >= |dir| + |name|
              && r[..|dir|] == dir
              && r[|r| - |name|..] == name
              && (|r| == |dir| + |name| <==> dir == [] || dir[|dir| - 1] == '/')
              && (|r| > |dir| + |name| ==> r[|dir|..|r| - |name|] == "/")
  {
    if |name| > 0 && name[0] == '/' then name
    else if dir == [] || dir[|dir| - 1] == '/' then dir + name
    else dir + "/" + name
  }

  const FilePrefix: string := "workorder_"
  const FileSuffix: string := ".json"

  /** The export file name: the prefix, the order number in decimal, the suffix. */
  function FileName(orderNo: int): (name: string)
    ensures |name| > |FilePrefix| + |FileSuffix|
    ensures name[..|FilePrefix|] == FilePrefix && name[|name| - |FileSuffix|..] == FileSuffix
    ensures var digits := name[|FilePrefix|..|name| - |FileSuffix|];
            && Decimal.Canonical(digits)
            && Decimal.ParseInt(digits) == orderNo
  {
    var digits := Decimal.IntToString(orderNo);
    Decimal.IntRoundTrip(orderNo);
    var name := FilePrefix + digits + FileSuffix;
    assert name[|FilePrefix|..|name| - |FileSuffix|] == digits;
    name
  }

  /** Where the record with number `orderNo` is exported to. */
  function OutputPath(dir: string, orderNo: int): string {
    JoinPath(dir, FileName(orderNo))
  }

  /** Two records with different numbers never share an export file. */
  lemma OutputPathInjective(dir: string, a: int, b: int)
    requires OutputPath(dir, a) == OutputPath(dir, b)
    ensures a == b
  {
    // FileName ends both paths, and its digits determine the number.
  }

  /** The record as stored once its export has gone through. */
  function MarkSynced(w: TracOSWorkOrder, now: Timestamp): TracOSWorkOrder {
    w.(isSynced := true, syncedAt := Some(now))
  }

  /** The store part of the export loop: records already visited are marked, unless their upsert failed. */
  ghost predicate MarkedSoFar(store: Store, selected: Store, remaining: set<int>, r: Store,
                              storageFails: int -> bool, clock: int -> Timestamp)
  {
    && remaining <= selected.Keys <= store.Keys
    && r.Keys == store.Keys
    && (forall n :: n in store && (n !in selected || n in remaining) ==> r[n] == store[n])
    && (forall n :: n in selected && n !in remaining ==>
          r[n] == if storageFails(n) then store[n] else MarkSynced(store[n], clock(n)))
  }

  lemma MarkStep(store: Store, selected: Store, remaining: set<int>, r: Store,
                 storageFails: int -> bool, clock: int -> Timestamp, n: int)
    requires selected == FindIsSynced(store, false)
    requires MarkedSoFar(store, selected, remaining, r, storageFails, clock)
    requires n in remaining
    ensures var r' := if storageFails(n) then r else Upsert(r, MarkSynced(selected[n], clock(n))).store;
            MarkedSoFar(store, selected, remaining - {n}, r', storageFails, clock)
  {
    if !storageFails(n) {
      UpsertOverwrites(r, MarkSynced(selected[n], clock(n)));
    }
  }

  /** The file part of the export loop: each visited record whose write succeeded has its file. */
  ghost predicate WrittenSoFar(store: Store, selected: Store, remaining: set<int>, paths: map<int, string>,
                               files: map<string, CustomerWorkOrder>, owner: map<string, int>,
                               writeFails: int -> bool)
  {
    && remaining <= selected.Keys <= store.Keys
    && selected.Keys <= paths.Keys
    && (forall n :: n in selected && n !in remaining && !writeFails(n) ==>
          paths[n] in files && files[paths[n]] == TracOSToCustomer(store[n]))
    && files.Keys == owner.Keys
    && (forall path :: path in owner ==>
          owner[path] in selected && owner[path] !in remaining && !writeFails(owner[path]) && path == paths[owner[path]])
  }

  /** Once every selected record is visited, the store is exactly the marked one. */
  lemma MarkedAll(store: Store, selected: Store, r: Store, storageFails: int -> bool, clock: int -> Timestamp)
    requires selected == FindIsSynced(store, false)
    requires MarkedSoFar(store, selected, {}, r, storageFails, clock)
    ensures forall n :: n in store && store[n].isSynced ==> r[n] == store[n]
    ensures forall n :: n in store && !store[n].isSynced ==>
              r[n] == if storageFails(n) then store[n] else MarkSynced(store[n], clock(n))
    ensures forall n :: n in FindIsSynced(r, false) <==> n in store && !store[n].isSynced && storageFails(n)
    ensures AllSyncConsistent(store) ==> AllSyncConsistent(r)
  {
  }

  lemma WriteStep(store: Store, selected: Store, remaining: set<int>, paths: map<int, string>,
                  files: map<string, CustomerWorkOrder>, owner: map<string, int>,
                  writeFails: int -> bool, n: int)
    requires selected == FindIsSynced(store, false)
    requires forall a, b :: a in paths && b in paths && paths[a] == paths[b] ==> a == b
    requires WrittenSoFar(store, selected, remaining, paths, files, owner, writeFails)
    requires n in remaining
    ensures var files', owner' :=
              if writeFails(n) then files else files[paths[n] := TracOSToCustomer(selected[n])],
              if writeFails(n) then owner else owner[paths[n] := n];
            WrittenSoFar(store, selected, remaining - {n}, paths, files', owner', writeFails)
  {
    if !writeFails(n) {
      var files', owner' := files[paths[n] := TracOSToCustomer(selected[n])], owner[paths[n] := n];
      forall m | m in selected && m !in remaining - {n} && !writeFails(m)
        ensures paths[m] in files' && files'[paths[m]] == TracOSToCustomer(store[m])
      {
        if m != n {
          assert paths[m] != paths[n];
        }
      }
    }
  }

  /** Once every selected record is visited, the files are exactly those of the successful writes. */
  lemma WrittenAll(store: Store, selected: Store, paths: map<int, string>, files: map<string, CustomerWorkOrder>,
                   owner: map<string, int>, writeFails: int -> bool, outboundDir: string)
    requires selected == FindIsSynced(store, false)
    requires paths == map n | n in selected :: OutputPath(outboundDir, n)
    requires WrittenSoFar(store, selected, {}, paths, files, owner, writeFails)
    ensures forall n :: n in store && !store[n].isSynced && !writeFails(n) ==>
              OutputPath(outboundDir, n) in files && files[OutputPath(outboundDir, n)] == TracOSToCustomer(store[n])
    ensures forall path :: path in files ==>
              exists n :: n in store && !store[n].isSynced && !writeFails(n) && path == OutputPath(outboundDir, n)
  {
    forall path | path in files
      ensures exists n :: n in store && !store[n].isSynced && !writeFails(n) && path == OutputPath(outboundDir, n)
    {
      var n := owner[path];
      assert n in store && !store[n].isSynced && !writeFails(n) && path == OutputPath(outboundDir, n);
    }
  }

  /**
   * One export run. The store picks the order in which the selected records
   * are visited. For each record: convert it, write its file (a failed write is
   * only logged, so `writeFails` does not stop the record from being marked),
   * then mark it synced through an upsert. A storage error for one record
   * (`storageFails`) leaves that record as it was, and the run goes on with the
   * next. `clock` gives the time read when a record is marked. Creating the
   * directory and reading the selection happen before any record is handled
   * and outside that per-record guard: when either raises (`selectionFails`),
   * the run ends with nothing written and nothing marked.
   */
  method ProcessFiles(store: Store, outboundDir: string, selectionFails: bool,
                      writeFails: int -> bool, storageFails: int -> bool, clock: int -> Timestamp)
    returns (r: Store, files: map<string, CustomerWorkOrder>)
    ensures selectionFails ==> r == store && files == map[]
    ensures r.Keys == store.Keys
    ensures forall n :: n in store && store[n].isSynced ==> r[n] == store[n]
    ensures forall n :: n in store && !store[n].isSynced ==>
              r[n] == if selectionFails || storageFails(n) then store[n] else MarkSynced(store[n], clock(n))
    ensures forall n :: n in store && !store[n].isSynced && !selectionFails && !writeFails(n) ==>
              OutputPath(outboundDir, n) in files && files[OutputPath(outboundDir, n)] == TracOSToCustomer(store[n])
    ensures forall path :: path in files ==>
              exists n :: n in store && !store[n].isSynced && !writeFails(n) && path == OutputPath(outboundDir, n)
    ensures !selectionFails ==>
              forall n :: n in FindIsSynced(r, false) <==> n in store && !store[n].isSynced && storageFails(n)
    ensures AllSyncConsistent(store) ==> AllSyncConsistent(r)
  {
    if selectionFails {
      return store, map[];
    }
    var selected := FindIsSynced(store, false);
    // Where each selected record goes; no two records share a path.
    ghost var paths := map n | n in selected :: OutputPath(outboundDir, n);
    forall a, b | a in paths && b in paths && paths[a] == paths[b]
      ensures a == b
    {
      OutputPathInjective(outboundDir, a, b);
    }
    r := store;
    files := map[];
    ghost var owner: map<string, int> := map[];
    var remaining := selected.Keys;
    while remaining != {}
      invariant MarkedSoFar(store, selected, remaining, r, storageFails, clock)
      invariant WrittenSoFar(store, selected, remaining, paths, files, owner, writeFails)
      decreases remaining
    {
      var n :| n in remaining;
      var workorder := selected[n];
      var customer := TracOSToCustomer(workorder);
      var path := OutputPath(outboundDir, customer.orderNo);
      assert path == paths[n];
      WriteStep(store, selected, remaining, paths, files, owner, writeFails, n);
      if !writeFails(n) {
        files := files[path := customer];
        owner := owner[path := n];
      }
      MarkStep(store, selected, remaining, r, storageFails, clock, n);
      if !storageFails(n) {
        r := Upsert(r, MarkSynced(workorder, clock(n))).store;
      }
      remaining := remaining - {n};
    }
    MarkedAll(store, selected, r, storageFails, clock);
    WrittenAll(store, selected, paths, files, owner, writeFails, outboundDir);
  }
}

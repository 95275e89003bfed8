# Work-order synchronisation: a Dafny model

This project models the core of a service that keeps work orders in sync between a
customer system and TracOS.

- A **customer work order** carries five independent status flags: `isPending`, `isOnHold`,
  `isDone`, `isCanceled` and `isDeleted`.
- A **TracOS work order** carries one status value, a `deleted` flag, a deletion time, and
  sync bookkeeping (`isSynced`, `syncedAt`).

The model covers:

- both record models, with their defaults and field validation (`CustomerModels`, `TracOSModels`);
- the translation in both directions (`WorkOrderService.CustomerToTracOS`,
  `WorkOrderService.TracOSToCustomer`);
- the insert-or-update step against a store keyed by work-order number (`WorkOrderService.Upsert`);
- the store itself, as an in-memory map from number to record (`WorkOrderRepository`);
- the inbound run, which ingests a directory of customer files (`Inbound.ProcessFiles`);
- the outbound run, which exports every unsynced TracOS record to its own file and then marks it
  synced (`Outbound.ProcessFiles`).

Files: `wrappers.dfy` (Option, Result), `json.dfy` (decoded JSON values, field readers, opaque
timestamps), `tracos_models.dfy`, `customer_models.dfy`, `workorder_repository.dfy`,
`workorder_service.dfy`, `decimal.dfy` (decimal rendering for file names), `inbound.dfy` and
`outbound.dfy`.

Three behaviours of the code differ from what its surrounding structure suggests. The model
follows the code in each:

- **No status flag set.** The conversion ends in `or TracOSWorkOrderStatusEnum.PENDING`
  (src/service/workorder_service.py:31), which reads as a pending fallback. But the status
  variable is bound only inside the search loop (src/service/workorder_service.py:24-27). With no
  flag set, the fallback is never reached and the conversion raises. `CustomerToTracOS` returns
  `Failure(UnboundStatus)`, so the inbound run skips such a file.
- **`isSynced` on export.** The customer record is built without an `isSynced` argument
  (src/service/workorder_service.py:88-95), so the exported value is always the default, `false`,
  whatever the TracOS record says.
- **Failed writes.** The write helper catches and logs every error
  (src/modules/outbound.py:39-45), so the run goes on to mark the record synced even when its file
  was not written. `Outbound.ProcessFiles` states this: whether a record is marked depends only on
  its storage call, not on its write.

Environment effects are parameters:

- Datetime parsing and `isoformat` rendering are the functions `parse` and `format`.
- Which per-record storage calls raise is given by `storageFails`.
- Whether the outbound run aborts before its loop is given by `selectionFails`. This covers creating
  the directory and reading the unsynced selection, both outside the per-record guard.
- Which file writes fail is given by `writeFails`.
- The time read when a record is marked synced is given by `clock`.
- A directory is a sequence of entries, each with its name and its decoded content, or `None`
  when reading or decoding failed.

## Model

| member | source | states |
|---|---|---|
| TracOSModels.StatusFromValue | src/models/tracOS_models.py:7-13 | A string is accepted as a status exactly when some status has it as its value, and the status returned has that value. |
| TracOSModels.SixStatuses | src/models/tracOS_models.py:7-13 | The status enumeration has exactly six members, every status is among them, and their six string values are pairwise different. |
| TracOSModels.StatusValueRoundTrip | src/models/tracOS_models.py:7-13 | Reading back a status's own value gives that status. |
| TracOSModels.ValidateTracOS | src/models/tracOS_models.py:16-26 | Success needs an object carrying number, title, description, createdAt and updatedAt, each of its own kind. A non-integer number is rejected. Status defaults to pending; deleted and isSynced default to false; syncedAt and deletedAt are none exactly when absent or null, and otherwise the parse of a text value. Every present field is read as given. |
| TracOSModels.ValidateTracOSDefaults | src/models/tests/test_tracos_models.py:33-44 | A document with only the five required fields validates to a record with status pending, deleted false, isSynced false, and no syncedAt or deletedAt. |
| TracOSModels.ValidateTracOSRejectsIllTyped | src/models/tests/test_tracos_models.py:47-55 | A document with a text number, numeric title and description, and unparseable dates is rejected. |
| TracOSModels.DumpValidateRoundTrip | src/models/tracOS_models.py:16-26 | The document dumped for a record validates back to the same record, provided its timestamps parse back after rendering. A record the repository stores is therefore the record a lookup reads back. |
| CustomerModels.ValidateCustomer | src/models/customer_models.py:6-18 | Success needs an object carrying orderNo, the five status flags, summary, creationDate and lastUpdateDate, each of its own kind. A non-integer orderNo is rejected. isActive defaults to true, isSynced to false, and deletedDate to none (also when it is null). Every present field is read as given. |
| CustomerModels.DumpValidateRoundTrip | src/models/customer_models.py:6-18 | The JSON object written for a record validates back to the same record, provided its timestamps parse back after rendering. |
| CustomerModels.FlagsNotExclusive | src/models/customer_models.py:9-13 | A record with all five status flags set is accepted unchanged: the model imposes no exclusivity. |
| WorkOrderRepository.FindByNumber | src/repositories/mongo/mongo_workorder_repository.py:45-49 | Lookup by number finds a record exactly when one is stored under that number, and the record found is the stored one, carrying that number. |
| WorkOrderRepository.Insert | src/repositories/mongo/mongo_workorder_repository.py:51-55 | After an insert, lookup by the record's number finds the record, and every other number finds what it found before. |
| WorkOrderRepository.Update | src/repositories/mongo/mongo_workorder_repository.py:57-62 | With no record under the given number, nothing changes. Otherwise every field is overwritten, so the record is found under its new number and no longer under the old one. Other numbers are untouched. The record is returned exactly when the stored one differed from it. |
| WorkOrderRepository.FindIsSynced | src/repositories/mongo/mongo_workorder_repository.py:64-71 | The selection holds exactly the stored records whose isSynced equals the argument, each unchanged. |
| WorkOrderService.MappingsAgree | src/service/workorder_service.py:76-82 | The status-to-flag table inverts the flag-to-status table row by row; in_progress is the only status without a flag. |
| WorkOrderService.FirstSetFlag | src/service/workorder_service.py:24-27 | The search gives none exactly when no flag of the table is set on the record. Otherwise it gives the status of a row whose flag is set and no earlier row's flag is set. |
| WorkOrderService.TableSearchIsPriority | src/service/workorder_service.py:16-27 | Searching the table gives the fixed priority: pending, then on hold, then done, then canceled, then deleted. |
| WorkOrderService.CustomerToTracOS | src/service/workorder_service.py:11-38 | Conversion fails exactly when no flag is set; otherwise the status is the highest-priority set flag. number, title, description, createdAt, updatedAt and deletedAt are copied. deleted copies isDeleted whatever the status. isSynced is false and syncedAt none. |
| WorkOrderService.PendingBeatsDeleted | src/service/workorder_service.py:16-36 | A record with both isPending and isDeleted set converts to status pending with deleted true. |
| WorkOrderService.TracOSToCustomer | src/service/workorder_service.py:63-95 | Each flag is set exactly when the status is its table entry, so in_progress sets none. orderNo, summary (from title), creationDate, lastUpdateDate and deletedDate are copied. isActive is true and isSynced false. |
| WorkOrderService.ExportedFlags | src/service/workorder_service.py:68-86 | An exported record has exactly one flag set, or none when the status is in_progress. |
| WorkOrderService.TracOSRoundTrip | src/service/workorder_service.py:11-95 | For any status but in_progress, TracOS to customer and back keeps number, status, title, createdAt, updatedAt and deletedAt. description becomes the title, deleted becomes "status is deleted", and the sync state is reset. |
| WorkOrderService.InProgressRoundTripFails | src/service/workorder_service.py:24-31 | An in_progress record exported and converted back fails with an unbound status. |
| WorkOrderService.CustomerRoundTrip | src/service/workorder_service.py:11-95 | Customer to TracOS and back returns the record with isActive true and isSynced false, if and only if exactly one flag was set. |
| WorkOrderService.Upsert | src/service/workorder_service.py:40-60 | The update branch is taken exactly when the number is already stored. Afterwards lookup by the number finds the new record and every other number is unchanged. The store grows by one record on insert and by none on update. |
| WorkOrderService.UpsertOverwrites | src/service/workorder_service.py:46-57 | Either branch leaves the store equal to the old store with the record set under its number. |
| WorkOrderService.UpsertIdempotent | src/service/workorder_service.py:40-60 | Upserting the same record a second time changes nothing and takes the update branch. |
| Decimal.NatRoundTrip | src/modules/outbound.py:68 | Parsing the decimal digits written for a natural number gives that number back. |
| Decimal.IntRoundTrip | src/modules/outbound.py:68 | The decimal text of any integer, with a minus sign when negative, parses back to that integer. |
| Decimal.CanonicalRoundTrip | src/modules/outbound.py:68 | Every canonical decimal text is what the rendering writes for the integer it denotes, so rendering and parsing are inverse on canonical text. |
| Decimal.IntToStringInjective | src/modules/outbound.py:68 | Different integers get different decimal texts. |
| Outbound.FileName | src/modules/outbound.py:66-69 | The export file name is "workorder_", then the order number in canonical decimal (no leading zero, a minus sign only for negatives, never "-0"), which parses back to the number, then ".json". |
| Outbound.JoinPath | src/modules/outbound.py:66-69 | An absolute name replaces the directory. Otherwise the result is the directory, one separator unless the directory is empty or already ends in one, then the name. |
| Outbound.OutputPathInjective | src/modules/outbound.py:66-69 | Two records with different numbers never share an export path in the same directory. |
| Outbound.ProcessFiles | src/modules/outbound.py:47-83 | When creating the directory or reading the selection raises, the run ends with no file written and no record changed. Otherwise only records with isSynced false are exported, and synced ones are left as they were. Each unsynced record is marked synced with its time, other fields unchanged, unless its own storage call failed; then it stays unsynced and the run goes on. A failed write does not stop the marking. Each successful write leaves the converted record at the record's own path, and no other file is written. Afterwards the unsynced selection holds exactly the records whose storage call failed. Consistent sync bookkeeping is preserved. |
| Inbound.IngestFile | src/modules/inbound.py:58-79 | A file contributes a record exactly when its name ends in ".json", it was read, it validates, and at least one flag is set. The record is the conversion of the customer record the file validates to, so it carries the file's orderNo, is unsynced, and is never in_progress. |
| Inbound.ProcessFiles | src/modules/inbound.py:49-89 | A missing directory changes nothing. Otherwise every number ends up holding the record of the last file whose upsert for it went through, or what it held before when no such file exists. A file failing any step leaves the store as the other files make it. Consistent sync bookkeeping is preserved. |

## Left out

- The Mongo driver, `connect_with_retries`, and the repository factory. The store is an in-memory map keyed by number, so it cannot hold two documents with the same number.
- WorkOrderRepository.Insert: inserting a number that is already stored replaces the record, where the document store would keep both. The core inserts only after a lookup found nothing.
- WorkOrderRepository.Update: when the new record's number belongs to another stored record, the map keeps one of them, where the document store would keep both. The core only updates a record with its own number.
- The store's millisecond precision for datetimes is not modelled.
- Documents are not re-validated when they are read back; the store holds typed records. An invalid stored document would make the outbound selection raise; that outcome is the `selectionFails` abort.
- `upsert_workorder` takes the key field as a parameter. Every caller passes `number`, and the model fixes it.
- File-system I/O is not modelled: listing, opening, `os.makedirs`, and `json.load`/`json.dump` text encoding. A directory is a sequence of entries with their decoded contents. The outbound files are a map from path to customer record; `CustomerModels.DumpCustomer` gives the JSON object written. A partially written file left by a failed write is not modelled.
- Datetime parsing and `isoformat` rendering are parameters; timestamps are opaque.
- Validation follows each field's own JSON kind. Pydantic's lax coercions are not modelled: numeric strings for integers, 0/1 or "true" for booleans, numbers for datetimes. Floats and arrays are always rejected, and a rejection names the first offending field only.
- CustomerModels.ValidateCustomer: the contract states what a success implies and which inputs fail. Acceptance of a well-formed object is proved only for objects in the exported layout (`DumpValidateRoundTrip`).
- TracOSModels.ValidateTracOS: as for the customer validator, the contract states what a success implies. Acceptance is stated only for the required-fields-only document (`ValidateTracOSDefaults`) and for dumped records (`DumpValidateRoundTrip`).
- Logging, `async`/`await`, the `main.py` orchestration, and the environment configuration are not modelled; every run is sequential. This includes the `EnvironmentError` raised when a directory variable is missing.
- Per-record storage failures come from the `storageFails` parameter: a failed lookup or write leaves the store unchanged. A write that commits and then raises is not modelled. A failure of the outbound selection itself is the `selectionFails` parameter. An inbound directory that exists but cannot be listed aborts before any file is read; it is the same outcome as a missing directory (`None`).
- The order in which the outbound run visits the selected records is left to the store (`:|` choice). The inbound order is the order of the entry sequence.

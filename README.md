# ZkemAPI in Dafny

ZkemAPI is an ASP.NET Core web API in front of ZKTeco biometric readers. The readers are
reached through the vendor's COM SDK, which sits behind the `IZkemDevice` interface. This
project models the parts of it that decide what a request does:

- **Device connection manager** (`connection_manager.dfy`). It keeps one `SemaphoreSlim(1, 1)`
  per reader key `ip:port` and runs an operation while holding that reader's permit. The
  operation is retried with a delay between attempts, a cancellation of the caller's token
  becomes a `TimeoutException`, and the permit is returned in `finally`. The manager can also
  release one reader, force its permit free, clean up every reader, and dispose everything.
  `Slot` and `Manager` are classes whose methods update their fields as the C# objects do.
  The retry loop is a `while` loop proved against the recursive function `Retry`.
- **Settings** (`settings.dfy`). The defaults, and the millisecond conversions written out in
  32-bit wrap-around arithmetic.
- **The reader** (`reader.dfy`). `IZkemDevice`, as the controllers use it, is a class with its
  tables (users, fingerprint templates, attendance and operation logs, clock), the SDK's
  buffers (card-number buffer and record iterators), the enabled and connected flags, and a
  ghost trace of the calls whose order the controllers promise. Which calls report failure is
  part of the reader's state (`refuses`), as is which `SSR_GetUserInfo` lookups throw
  (`raises`).
- **The five controllers** (`employee_controller.dfy`, `fingerprint_controller.dfy`,
  `log_controller.dfy`, `attendance_controller.dfy`, `device_controller.dfy`). Every action is
  a method on the reader: connect, disable, the action's own calls, then re-enable and
  disconnect in `finally`. Each has its HTTP responses and its error paths. The employee
  actions run under the connection manager: one run of the lambda is a method, and the catch
  clauses are a function from the manager's outcome to the response.
- **The status report** (`device_status.dfy`). `DeviceStatusResponse` and its factories.
- **Request filtering** (`request_filtering.dfy`, `ip_whitelist.dfy`). The host filter and the
  client-IP filter built in `Program.cs`, and the separate `IpWhitelistMiddleware`.
- **Helpers.** `text.dfy` has C# string interpolation of integers, `int.TryParse`, `Split` /
  `string.Join` and OrdinalIgnoreCase comparison. `calendar.dfy` has the `DateTime`
  constructor's validation and the chronological order. `sorting.dfy` has LINQ's stable
  `OrderBy`. `common.dfy` has options, exceptions, outcomes and HTTP responses.

Where the written description of the system and the code disagree, the model follows the
code:

- The device key is not normalised.
- Disposing the manager does not make later operations fail: the dictionary is cleared and new
  semaphores are created on demand.
- With `RetryAttempts <= 0` the operation never runs, and the call ends with
  `InvalidOperationException`.
- A cancellation during the wait for the permit surfaces as `OperationCanceledException`, not as
  `TimeoutException`, because the wait is outside the `try`.
- The operation-log year shift applies to every year below 2000, so 1999 becomes 3999.

## Model

| member | source | states |
|---|---|---|
| ConnectionManager.DeviceKey | ZkemAPI.SDK/Services/DeviceConnectionManager.cs:240-243 | the key is the address, a colon, and digits that parse back to the port; there is no colon after the separator |
| ConnectionManager.DeviceKeyInjective | ZkemAPI.SDK/Services/DeviceConnectionManager.cs:240-243 | two readers share a key exactly when address and port are both equal |
| ConnectionManager.Slot.constructor | ZkemAPI.SDK/Services/DeviceConnectionManager.cs:286-290 | a new semaphore holds its single permit and is not disposed |
| ConnectionManager.Slot.Wait | ZkemAPI.SDK/Services/DeviceConnectionManager.cs:53 | a disposed semaphore throws ObjectDisposed; a cancelled token throws a cancellation and takes nothing; a free permit is taken; a taken permit makes the caller wait |
| ConnectionManager.Slot.Release | ZkemAPI.SDK/Services/DeviceConnectionManager.cs:77 | releasing returns the permit; a second release throws SemaphoreFull; a disposed semaphore throws ObjectDisposed; the count stays 0 or 1 |
| ConnectionManager.Slot.Dispose | ZkemAPI.SDK/Services/DeviceConnectionManager.cs:292-295 | the semaphore is disposed afterwards |
| ConnectionManager.Delay | ZkemAPI.SDK/Services/DeviceConnectionManager.cs:224-227 | Task.Delay rejects values below -1, ends with a cancellation on a cancelled token, never ends for -1, and otherwise elapses |
| ConnectionManager.Surface | ZkemAPI.SDK/Services/DeviceConnectionManager.cs:65-74 | a cancellation seen while the caller's token is cancelled becomes a TimeoutException; every other exception is rethrown unchanged |
| ConnectionManager.RetryBounds | ZkemAPI.SDK/Services/DeviceConnectionManager.cs:205-229 | from any loop state, the loop runs the operation at most RetryAttempts times and delays at most once per run |
| ConnectionManager.RetryRunsAtMostN | ZkemAPI.SDK/Services/DeviceConnectionManager.cs:205-229 | the operation runs at most max(RetryAttempts, 0) times, with no more delays than runs |
| ConnectionManager.RetryNonPositive | ZkemAPI.SDK/Services/DeviceConnectionManager.cs:205-234 | with RetryAttempts <= 0 the operation never runs and the call throws InvalidOperation with the "failed after N attempts" message |
| ConnectionManager.PlainFailuresFrom | ZkemAPI.SDK/Services/DeviceConnectionManager.cs:205-229 | a run of ordinary failures advances the loop one attempt and one delay per failure, keeping the last exception |
| ConnectionManager.RetryPersistentFailure | ZkemAPI.SDK/Services/DeviceConnectionManager.cs:205-234 | when every attempt fails with an ordinary exception, the operation runs exactly RetryAttempts times with one delay less, and the last attempt's exception is thrown |
| ConnectionManager.RetryFirstSuccess | ZkemAPI.SDK/Services/DeviceConnectionManager.cs:205-229 | after j ordinary failures, a success at attempt j is returned after j + 1 runs and j delays |
| ConnectionManager.RetryCancellationNotCounted | ZkemAPI.SDK/Services/DeviceConnectionManager.cs:209-216 | a cancellation, whether seen at the check or thrown by the operation, ends the loop at once and is not retried |
| ConnectionManager.HeldCancellationIsTimeout | ZkemAPI.SDK/Services/DeviceConnectionManager.cs:55-74 | a token cancelled before the first attempt makes the call throw the TimeoutException naming the key and the minutes |
| ConnectionManager.HeldRetriesKeyNotFound | ZkemAPI.SDK/Services/DeviceConnectionManager.cs:55-74 | an operation that keeps throwing KeyNotFound runs RetryAttempts times and the KeyNotFound reaches the caller |
| ConnectionManager.Manager.constructor | ZkemAPI.SDK/Services/DeviceConnectionManager.cs:25-31 | a new manager has no semaphores, is not disposed and has built no device |
| ConnectionManager.Manager.GetOrCreateSlot | ZkemAPI.SDK/Services/DeviceConnectionManager.cs:248-255 | a registered semaphore is returned unchanged; otherwise a fresh one with a free permit is registered under the key, and nothing else changes |
| ConnectionManager.Manager.PendingOperations | ZkemAPI.SDK/Services/DeviceConnectionManager.cs:106-118 | the result is 1 exactly when the reader has a semaphore whose permit is taken, and 0 otherwise |
| ConnectionManager.Manager.Enter | ZkemAPI.SDK/Services/DeviceConnectionManager.cs:47-53 | the key gets a semaphore; a cancelled wait leaves its count alone, a taken permit blocks, a free permit is taken; other readers are untouched |
| ConnectionManager.Manager.RunHeld | ZkemAPI.SDK/Services/DeviceConnectionManager.cs:55-74 | exactly one device is built, and the held work ends as Held says (factory error, retry loop, exception translation) |
| ConnectionManager.Manager.ExecuteWithRetry | ZkemAPI.SDK/Services/DeviceConnectionManager.cs:200-235 | the loop's result, number of runs and number of delays are those of the Retry specification |
| ConnectionManager.Manager.Leave | ZkemAPI.SDK/Services/DeviceConnectionManager.cs:75-79 | the permit is returned; an exception from Release (disposed, or already free) replaces the operation's outcome |
| ConnectionManager.Manager.Execute | ZkemAPI.SDK/Services/DeviceConnectionManager.cs:45-80 | a cancelled wait builds nothing and keeps the count; a taken permit waits; otherwise one device is built, the outcome is the held work's, and the permit is back unless a Task.Delay(-1) never ends; other readers are unchanged |
| ConnectionManager.Manager.ExecuteWithDefaultTimeout | ZkemAPI.SDK/Services/DeviceConnectionManager.cs:36-40 | a total timeout below -1 throws ArgumentOutOfRange before anything happens; a zero timeout cancels the wait without building a device |
| ConnectionManager.Manager.ReleaseDevice | ZkemAPI.SDK/Services/DeviceConnectionManager.cs:123-132 | the reader's semaphore is removed from the table and disposed with its count unchanged; an unknown reader is a no-op |
| ConnectionManager.Manager.ForceReleaseDevice | ZkemAPI.SDK/Services/DeviceConnectionManager.cs:137-162 | a taken permit of this reader is made free; every other count, and the table, stay as they were |
| ConnectionManager.Manager.CleanupHangingOperations | ZkemAPI.SDK/Services/DeviceConnectionManager.cs:167-195 | every registered permit is free afterwards, and the table is unchanged |
| ConnectionManager.Manager.Dispose | ZkemAPI.SDK/Services/DeviceConnectionManager.cs:257-277 | the first call disposes every semaphore and empties the table; a second call changes nothing |
| ConnectionManager.ForceReleaseDuringHold | ZkemAPI.SDK/Services/DeviceConnectionManager.cs:137-162 | forcing the permit free while an operation holds it makes the pending count drop to 0, and the holder's own release then throws SemaphoreFull |
| ConnectionManager.ForceReleaseAdmitsSecondHolder | ZkemAPI.SDK/Services/DeviceConnectionManager.cs:137-162 | after a forced release a second operation is admitted while the first still runs; the first ends normally and the second's release throws SemaphoreFull |
| ConnectionManager.ReleaseDeviceDuringHold | ZkemAPI.SDK/Services/DeviceConnectionManager.cs:123-132 | ReleaseDevice while an operation holds the permit makes that operation end with ObjectDisposed, and the next caller is admitted on a new semaphore |
| ConnectionManager.ExecuteAfterDispose | ZkemAPI.SDK/Services/DeviceConnectionManager.cs:257-277 | an operation started after Dispose still runs and returns its value; its key is still registered after a second Dispose |
| ConnectionManager.ReleaseDeviceTwice | ZkemAPI.SDK/Services/DeviceConnectionManager.cs:123-132 | releasing a reader twice is harmless: the key is unregistered after each call |
| Settings.DeviceSettings.TotalTimeoutMilliseconds | ZkemAPI.SDK/Models/DeviceSettings.cs:31 | the two-step product minutes * 60 * 1000 equals minutes * 60000 taken modulo 2^32 |
| Settings.ConversionsExact | ZkemAPI.SDK/Models/DeviceSettings.cs:31-41 | each conversion is the exact product when that fits in Int32, in particular for timeouts of up to 35791 minutes |
| Settings.DefaultValues | ZkemAPI.SDK/Models/DeviceSettings.cs:11-41 | the defaults are 5 min, 30 s, 3 attempts and 5 s, that is 300000, 30000 and 5000 ms |
| Settings.TotalTimeoutWraps | ZkemAPI.SDK/Models/DeviceSettings.cs:31 | 35792 minutes overflows Int32, giving a negative total below -1 |
| Reader.Find | ZkemAPI.SDK/Services/ZkemDevice.cs:251-254 | a lookup finds a record with that enroll number, or none exists |
| Reader.UpsertFind | ZkemAPI.SDK/Services/ZkemDevice.cs:101-122 | after a save, that enroll number finds the saved record and every other number finds what it found before |
| Reader.RemoveFind | ZkemAPI.SDK/Services/ZkemDevice.cs:135-147 | after a delete, that enroll number finds nothing and every other number finds what it found before |
| Reader.UpsertElements | ZkemAPI.SDK/Services/ZkemDevice.cs:101-122 | a save adds no record other than the saved one |
| Reader.RemoveElements | ZkemAPI.SDK/Services/ZkemDevice.cs:135-147 | a delete keeps only existing records, none with the deleted number |
| Reader.UpsertKeepsUnique | ZkemAPI.SDK/Services/ZkemDevice.cs:101-122 | saving keeps enroll numbers unique |
| Reader.RemoveKeepsUnique | ZkemAPI.SDK/Services/ZkemDevice.cs:135-147 | deleting keeps enroll numbers unique |
| Reader.WithoutTemplatesOf | ZkemAPI.SDK/Services/ZkemDevice.cs:135-147 | deleting a user drops exactly that user's fingerprint templates and keeps every other one unchanged |
| Reader.SaveOutcomeStores | ZkemAPI.SDK/Services/ZkemDevice.cs:101-122 | a save succeeds exactly when the card write (for a non-empty card) and the user write succeed; on success the user has the given fields, with the buffered card when no card is given; on failure nothing changes; other users never change |
| Reader.Device.constructor | ZkemAPI.Core/Interfaces/IZkemDevice.cs:5-104 | a reader starts disconnected and enabled, with empty buffers, an empty trace and the given tables |
| Reader.Device.ConnectNet | ZkemAPI.SDK/Services/ZkemDevice.cs:22 | the connection succeeds unless the reader refuses it, and the attempt is recorded |
| Reader.Device.Disconnect | ZkemAPI.SDK/Services/ZkemDevice.cs:23 | the reader is disconnected and the call recorded |
| Reader.Device.EnableDevice | ZkemAPI.SDK/Services/ZkemDevice.cs:173-174 | the flag changes only over a live connection, and the call is recorded |
| Reader.Device.GetUserInfo | ZkemAPI.SDK/Services/ZkemDevice.cs:251-254 | a lookup that raises throws the COM fault; otherwise it returns the stored record (or none when refused) and loads that record's card into the buffer |
| Reader.Device.GetStrCardNumber | ZkemAPI.SDK/Services/ZkemDevice.cs:33-34 | the buffered card is reported, or failure with "" |
| Reader.Device.SetUserInfo | ZkemAPI.SDK/Services/ZkemDevice.cs:101-122 | the buffer, the result and the user table are those SaveOutcomeStores describes |
| Reader.Device.DeleteEnrollData | ZkemAPI.SDK/Services/ZkemDevice.cs:135-147 | the delete succeeds exactly for an existing user whose delete is not refused; it then removes that user and their templates, otherwise nothing changes |
| Reader.Device.ClearData | ZkemAPI.Core/Interfaces/IZkemDevice.cs:99 | unless refused, every user and template is gone |
| Reader.Device.ReadAllUserId | ZkemAPI.SDK/Services/ZkemDevice.cs:163-164 | unless refused, the user iterator is positioned at the whole table |
| Reader.Device.GetAllUserInfo | ZkemAPI.SDK/Services/ZkemDevice.cs:303-320 | the next record is handed out and its card loaded into the buffer; an exhausted iterator reports nothing |
| Reader.Device.ReadAllTemplate | ZkemAPI.SDK/Services/ZkemDevice.cs:445-455 | the template load succeeds unless refused and is recorded |
| Reader.Device.GetUserTemplate | ZkemAPI.SDK/Services/ZkemDevice.cs:457-470 | a stored, non-refused template is returned, otherwise nothing; the read is recorded |
| Reader.Device.SetUserTemplate | ZkemAPI.SDK/Services/ZkemDevice.cs:472-482 | unless refused, the template for that user and finger is replaced; the write and its result are recorded |
| Reader.Device.ReadGeneralLogData | ZkemAPI.SDK/Services/ZkemDevice.cs:156-157 | unless refused, the attendance iterator is positioned at the whole log |
| Reader.Device.GetGeneralLogData | ZkemAPI.SDK/Services/ZkemDevice.cs:211-236 | the next attendance record is handed out; an exhausted iterator reports nothing |
| Reader.Device.GetSuperLogData | ZkemAPI.SDK/Services/ZkemDevice.cs:407-443 | the next operation record is handed out; an exhausted iterator reports nothing |
| Reader.Device.GetDeviceTime | ZkemAPI.SDK/Services/ZkemDevice.cs:26-27 | the clock is reported unless refused, in which case the ref arguments keep their zeros |
| Reader.Device.SetDeviceTime | ZkemAPI.SDK/Services/ZkemDevice.cs:29-30 | unless refused, the clock becomes the given time |
| EmployeeController.Listed | ZkemAPI.Web/Controllers/EmployeeController.cs:152-167 | the listing has one entry per record, in order, each with the card GetStrCardNumber reports |
| EmployeeController.GetInfoBody | ZkemAPI.Web/Controllers/EmployeeController.cs:54-78 | a lookup fault is thrown as it is; a missing or refused user throws KeyNotFound; otherwise the stored user is returned with the reported card |
| EmployeeController.GetEmployeeInfoAttempt | ZkemAPI.Web/Controllers/EmployeeController.cs:33-87 | a failed connection throws InvalidOperation; otherwise the reader is disabled and re-enabled around the lookup and disconnected, and KeyNotFound is thrown exactly when the user is missing |
| EmployeeController.EmployeeInfoResponse | ZkemAPI.Web/Controllers/EmployeeController.cs:88-112 | 200 exactly for a returned user, 404 exactly for KeyNotFound, and 500 with the prefixed message otherwise |
| EmployeeController.MissingEmployeeIsNotFound | ZkemAPI.Web/Controllers/EmployeeController.cs:26-112 | a missing employee is retried by the manager and still answered with 404 |
| EmployeeController.EnrollSortKey | ZkemAPI.Web/Controllers/EmployeeController.cs:169 | the key is an Int32, and int.MaxValue for an enroll number that does not parse |
| EmployeeController.GetAllBody | ZkemAPI.Web/Controllers/EmployeeController.cs:141-169 | a refused ReadAllUserID throws InvalidOperation; otherwise the result is every listed user, ordered by the sort key |
| EmployeeController.GetAllConnected | ZkemAPI.Web/Controllers/EmployeeController.cs:133-177 | once connected: disable, list, re-enable and disconnect whatever the listing does; the listing's outcome is passed on unchanged |
| EmployeeController.GetAllEmployeesAttempt | ZkemAPI.Web/Controllers/EmployeeController.cs:121-177 | the connect / disable / enable / disconnect bracket, the two failure messages, and the ordered listing on success |
| EmployeeController.GetAllEmployeesOrder | ZkemAPI.Web/Controllers/EmployeeController.cs:169 | the listing is a permutation of the users, sorted by numeric enroll number, stable for equal keys, with non-numeric numbers last |
| EmployeeController.GetAllEmployeesResponse | ZkemAPI.Web/Controllers/EmployeeController.cs:178-193 | 200 exactly for a returned listing, otherwise 500 with the prefixed message |
| EmployeeController.FirstConflict | ZkemAPI.Web/Controllers/EmployeeController.cs:231-243 | none exactly when no other user holds the card; otherwise the first such user in listing order |
| EmployeeController.ScanForConflict | ZkemAPI.Web/Controllers/EmployeeController.cs:231-243 | the loop stops at the first conflicting user of the listing, as FirstConflict says |
| EmployeeController.SaveWithCardCheckBody | ZkemAPI.Web/Controllers/EmployeeController.cs:205-274 | `SavedWithCardCheck`: a refused listing or a card held by another user throws with no change; a lookup that throws is a device fault with no change; otherwise the employee is stored with the card exactly when the card write and the save are accepted, and the message says Updated when the number existed, Added when not, and the save-failed text when a write is refused |
| EmployeeController.SaveWithoutCardCheckBody | ZkemAPI.Web/Controllers/EmployeeController.cs:305-349 | `SavedWithoutCardCheck`: no card check; the employee is stored exactly when the card write (if any) and the save are accepted, with the requested card or else the buffered one (the existing user's, if any); Updated / Added / save-failed as on the card-check path |
| EmployeeController.SaveEmployeeAttempt | ZkemAPI.Web/Controllers/EmployeeController.cs:200-288 | the bracket; a failed connection changes no user; once connected the card-check or no-card-check outcome holds as the request selects it; a card conflict changes no user; a conflict-free accepted save stores exactly the requested employee; after any save that returns, the employee is present and every other enroll number's record is unchanged |
| EmployeeController.SaveConnected | ZkemAPI.Web/Controllers/EmployeeController.cs:202-286 | disable, the selected save path, enable and disconnect: the trace gains exactly that bracket and the path's outcome predicate holds |
| EmployeeController.SaveChangesOnlyItsRecord | ZkemAPI.Web/Controllers/EmployeeController.cs:205-349 | on either path, a save that returns leaves the employee listed (exactly the requested record on the card-check path) and every other number's record as it was |
| EmployeeController.SaveEmployeeResponse | ZkemAPI.Web/Controllers/EmployeeController.cs:289-302 | 200 exactly for a completed save, otherwise 500; never 400 or 404 |
| EmployeeController.ChangeEnrollBody | ZkemAPI.Web/Controllers/EmployeeController.cs:400-443 | `EnrollChanged`: a lookup that throws is a device fault, a missing old number is KeyNotFound, a taken new number is InvalidOperation, all with no change; otherwise the old record is deleted (a refused delete goes unnoticed and the record stays) and recreated under the new number with its fields and card, succeeding exactly when the card write and save are accepted; a refused recreate throws after the delete |
| EmployeeController.ChangeEnrollAttempt | ZkemAPI.Web/Controllers/EmployeeController.cs:378-449 | the bracket; a failed connection changes nothing; once connected `EnrollChanged` holds; once both lookups pass: success exactly when the recreate is accepted, and then the new number holds the old record; an accepted delete leaves the old number gone (and the table is the old one minus it when the recreate fails); a refused delete leaves the old record in place beside the new one; every other number is unchanged |
| EmployeeController.ChangeConnected | ZkemAPI.Web/Controllers/EmployeeController.cs:398-448 | disable, the body, enable and disconnect: the trace gains exactly that bracket and `EnrollChanged` holds |
| EmployeeController.EnrollChangedFinds | ZkemAPI.Web/Controllers/EmployeeController.cs:425-442 | from `EnrollChanged` once both lookups pass: success iff the recreate is accepted, the new number's record, the old number gone or kept as the delete is accepted or refused, every other number unchanged |
| EmployeeController.ChangeEnrollResponse | ZkemAPI.Web/Controllers/EmployeeController.cs:452-473 | 200 exactly for a completed change, 404 exactly for KeyNotFound, 500 otherwise |
| EmployeeController.ChangeEnrollAfterFailedRecreate | ZkemAPI.Web/Controllers/EmployeeController.cs:425-443 | when the recreate fails, the user is gone, and the retried lambda then reports the old number as not found |
| EmployeeController.FailedRecreateIsReportedNotFound | ZkemAPI.Web/Controllers/EmployeeController.cs:452-473 | under the default settings that failed recreate reaches the client as 404 "old number not found" |
| EmployeeController.BatchEntries | ZkemAPI.Web/Controllers/EmployeeController.cs:505-563 | one result per employee, in order, under its enroll number; Error exactly when its lookup throws; success exactly when its lookup does not throw and the reader accepts its card write (if any) and save; Failed exactly when its lookup does not throw and the save is refused; Updated exactly for a success on a number listed after the employees before it; success exactly for Updated or Added |
| EmployeeController.BatchStepEntry | ZkemAPI.Web/Controllers/EmployeeController.cs:507-561 | one iteration: Error iff the lookup throws, success iff not and the save is accepted, Failed iff not and refused, Updated / Added iff success on a listed / unlisted number |
| EmployeeController.BatchFoldEntryAt | ZkemAPI.Web/Controllers/EmployeeController.cs:505-563 | the i-th result is the one the i-th iteration produces on the reader state the earlier employees left |
| EmployeeController.BatchBody | ZkemAPI.Web/Controllers/EmployeeController.cs:506-565 | the loop's results, user table and card buffer are those of the left-to-right fold over the batch |
| EmployeeController.SaveEmployeesAttempt | ZkemAPI.Web/Controllers/EmployeeController.cs:493-573 | the bracket, the failed connection, and the fold's results and table on success |
| EmployeeController.SaveEmployees | ZkemAPI.Web/Controllers/EmployeeController.cs:480-591 | an empty batch is 400 without touching the manager; a finished non-empty batch is 200 or 500 |
| EmployeeController.SaveEmployeesResponse | ZkemAPI.Web/Controllers/EmployeeController.cs:575-590 | 200 exactly for a completed batch, otherwise 500 with the prefixed message |
| EmployeeController.DeleteBody | ZkemAPI.Web/Controllers/EmployeeController.cs:620-642 | a missing user is KeyNotFound with no change; a refused delete is InvalidOperation with no change; otherwise the user and their templates are removed |
| EmployeeController.DeleteEmployeeAttempt | ZkemAPI.Web/Controllers/EmployeeController.cs:597-650 | KeyNotFound exactly for a missing user; on success the user is gone and every other user is as before |
| EmployeeController.DeleteEmployeeResponse | ZkemAPI.Web/Controllers/EmployeeController.cs:652-674 | 200 exactly for a completed delete, 404 exactly for KeyNotFound, 500 otherwise |
| EmployeeController.DeleteAllEmployeesAttempt | ZkemAPI.Web/Controllers/EmployeeController.cs:681-712 | unless ClearData is refused, no user remains; if it is refused, nothing changes |
| EmployeeController.DeleteAllEmployeesResponse | ZkemAPI.Web/Controllers/EmployeeController.cs:714-728 | 200 exactly for a completed clear, otherwise 500 with the prefixed message |
| FingerprintController.FingersSpec | ZkemAPI.Web/Controllers/FingerprintController.cs:44-62 | the list holds, in increasing finger order, exactly the readable fingers 0..9, each with its stored template |
| FingerprintController.GetFingerprints | ZkemAPI.Web/Controllers/FingerprintController.cs:24-84 | a failed connection is 400; otherwise 200 with those fingerprints, after loading the templates and reading fingers 0..9 in order inside the bracket |
| FingerprintController.FirstRefused | ZkemAPI.Web/Controllers/FingerprintController.cs:107-122 | none exactly when every write succeeds; otherwise the first refused fingerprint |
| FingerprintController.WrittenSpec | ZkemAPI.Web/Controllers/FingerprintController.cs:107-122 | other users' templates are untouched; a finger never written keeps its template; otherwise a finger holds its last successfully written template |
| FingerprintController.WriteUntilRefused | ZkemAPI.Web/Controllers/FingerprintController.cs:107-122 | the loop writes fingerprints in order and stops after the first refused one |
| FingerprintController.SetFingerprints | ZkemAPI.Web/Controllers/FingerprintController.cs:90-144 | 200 when every write succeeds, otherwise 400 naming the first refused finger; writes stop after it; the bracket surrounds the writes |
| FingerprintController.FailuresEmpty | ZkemAPI.Web/Controllers/FingerprintController.cs:178-190 | a user's error list is empty exactly when every one of their writes succeeds |
| FingerprintController.WriteUser | ZkemAPI.Web/Controllers/FingerprintController.cs:171-190 | every fingerprint of the user is attempted, failures are collected and not stopped at |
| FingerprintController.BulkResultMeaning | ZkemAPI.Web/Controllers/FingerprintController.cs:169-193 | result i belongs to user i and reports success exactly when all of that user's writes succeeded |
| FingerprintController.WriteUsers | ZkemAPI.Web/Controllers/FingerprintController.cs:169-193 | the outer loop's results, templates and calls are those of writing the users in order |
| FingerprintController.SetBulkFingerprints | ZkemAPI.Web/Controllers/FingerprintController.cs:150-215 | a failed connection is 400; otherwise 200 with one result per user, every write attempted, inside the bracket |
| LogController.Clamp | ZkemAPI.Web/Controllers/LogController.cs:69-73 | the value is kept inside the range and moved to the nearer bound outside it |
| LogController.Normalize | ZkemAPI.Web/Controllers/LogController.cs:68-73 | month, day, hour, minute and second are forced into their ranges, and years below 2000 get 2000 added |
| LogController.NormalizeKeepsValidTimes | ZkemAPI.Web/Controllers/LogController.cs:68-73 | a valid time from the year 2000 on passes unchanged |
| LogController.NormalizeFailsExactly | ZkemAPI.Web/Controllers/LogController.cs:68-75 | after clamping, the constructor can only fail on the year or on a day past the month's end |
| LogController.NormalizeShiftsFourDigitYears | ZkemAPI.Web/Controllers/LogController.cs:68 | the shift also applies to four-digit years: 1999 becomes 3999 |
| LogController.OperationName | ZkemAPI.Web/Controllers/LogController.cs:124-150 | codes 0..19 get their own entry of the fixed name list; every other code gets the "unknown operation" text, and only those start with it |
| LogController.UnknownOperationNamesDiffer | ZkemAPI.Web/Controllers/LogController.cs:148 | different unknown codes get different names |
| LogController.ToOperationLogSpec | ZkemAPI.Web/Controllers/LogController.cs:75-99 | one log per record with its index, admin, operation code and name; the work code starts with the three parameters; a bad date gives `now` and a note appended to the work code, and only a bad date does |
| LogController.ToOperationLogsElements | ZkemAPI.Web/Controllers/LogController.cs:50-100 | the response has one log per record, in order |
| LogController.ReadOperationLogs | ZkemAPI.Web/Controllers/LogController.cs:50-100 | the loop converts every record the iterator hands out and exhausts it |
| LogController.GetOperationLogs | ZkemAPI.Web/Controllers/LogController.cs:24-122 | a failed connection is 400 with the iterator untouched; otherwise 200 with every record converted, inside the bracket |
| AttendanceController.FirstBadTime | ZkemAPI.Web/Controllers/AttendanceController.cs:56-77 | none exactly when every record's time is a valid DateTime; otherwise the first bad one |
| AttendanceController.ToAttendanceLogsElements | ZkemAPI.Web/Controllers/AttendanceController.cs:66-76 | each log carries its record's user, time, modes and work code |
| AttendanceController.ReadLogs | ZkemAPI.Web/Controllers/AttendanceController.cs:56-77 | one log per record in reader order; the first bad time ends the loop with the constructor's exception, leaving the iterator just after it |
| AttendanceController.NewestFirstOrder | ZkemAPI.Web/Controllers/AttendanceController.cs:82 | the response is a permutation of the logs, newest first, with equal times in reader order |
| AttendanceController.LogsResponse | ZkemAPI.Web/Controllers/AttendanceController.cs:78-100 | 200 with the newest-first logs exactly when the loop finished, otherwise 500 with the prefixed message |
| AttendanceController.AttendanceConnected | ZkemAPI.Web/Controllers/AttendanceController.cs:38-91 | once connected: a refused ReadGeneralLogData is 400, otherwise the sorted response for the whole log; re-enable and disconnect follow in every case |
| AttendanceController.GetAttendanceLogs | ZkemAPI.Web/Controllers/AttendanceController.cs:24-101 | a failed connection or a refused ReadGeneralLogData is 400; otherwise the response for the whole attendance log, inside the bracket |
| AttendanceController.GetAllAttendanceLogs | ZkemAPI.Web/Controllers/AttendanceController.cs:109-176 | the same loop without ReadGeneralLogData: it reads the records left in the iterator |
| DeviceController.TestConnection | ZkemAPI.Web/Controllers/DeviceController.cs:21-49 | a failed connection is 400; otherwise 200 with the formatted clock or the "no time" text; the connection is left open |
| DeviceController.DisconnectDevice | ZkemAPI.Web/Controllers/DeviceController.cs:52-63 | the reader is disconnected and the answer is 200 |
| DeviceController.SetTimeBody | ZkemAPI.Web/Controllers/DeviceController.cs:91-120 | a refused write changes nothing; otherwise the clock is the new time and the read-back is that time, or null when it cannot be read |
| DeviceController.SetDeviceTime | ZkemAPI.Web/Controllers/DeviceController.cs:71-138 | the requested time, or now when none is given, is written; a refused write is 400; the bracket surrounds the write |
| DeviceController.CountsPartition | ZkemAPI.Web/Controllers/DeviceController.cs:193-214 | every user is counted exactly once, as a manager (privilege above 0) or as a user |
| DeviceController.CountRecords | ZkemAPI.Web/Controllers/DeviceController.cs:193-214 | the loop's two counts are those of the whole table, and the iterator is exhausted |
| DeviceController.DeviceInfoMeaning | ZkemAPI.Web/Controllers/DeviceController.cs:177-266 | the summary is returned exactly for a readable, valid clock and then holds that time and counts every user once; an unreadable clock is 500 |
| DeviceController.InfoBody | ZkemAPI.Web/Controllers/DeviceController.cs:169-250 | the try block's result is the clock and the counts the specification gives |
| DeviceController.GetDeviceInfo | ZkemAPI.Web/Controllers/DeviceController.cs:144-267 | a failed connection is 400; otherwise the response for the clock and the user table, inside the bracket |
| DeviceStatus.StatusValueRoundTrip | ZkemAPI.Core/Models/DeviceStatus.cs:8-24 | every status has its own value 0..2, and the value gives the status back |
| DeviceStatus.CreateOnline | ZkemAPI.Core/Models/DeviceStatus.cs:71-81 | an available report for the reader with a zero wait estimate |
| DeviceStatus.CreateOffline | ZkemAPI.Core/Models/DeviceStatus.cs:83-93 | an unavailable report with the given reason, or the default text; no wait estimate |
| DeviceStatus.CreateBusy | ZkemAPI.Core/Models/DeviceStatus.cs:95-105 | an unavailable busy report carrying the given estimate |
| DeviceStatus.FactoriesAreDistinct | ZkemAPI.Core/Models/DeviceStatus.cs:59-105 | the three factories never build the same report, and only the online one is available |
| RequestFiltering.EffectiveHosts | ZkemAPI.Web/Program.cs:14-32 | a parsed file with a list gives that list; anything else keeps localhost and 127.0.0.1 |
| RequestFiltering.AllowedHostsSetting | ZkemAPI.Web/Program.cs:22-25 | a parsed file overwrites the setting with the comma-joined list; otherwise the configured value stays |
| RequestFiltering.HostDecision | ZkemAPI.Web/Program.cs:111-123 | a request passes exactly when the set is empty or holds its host up to case; otherwise it gets 400 "Invalid host header" |
| RequestFiltering.HostDecisionIgnoresCase | ZkemAPI.Web/Program.cs:105-108 | hosts differing only in ASCII case get the same decision |
| RequestFiltering.SettingRoundTrip | ZkemAPI.Web/Program.cs:25 | joining plain host names with commas and splitting them again gives the list back |
| RequestFiltering.ParsedHostsDecide | ZkemAPI.Web/Program.cs:105-115 | with a parsed list of plain names, a host passes exactly when it matches one up to case, or the list is empty |
| RequestFiltering.NullListFallsBackToDefaults | ZkemAPI.Web/Program.cs:22 | a file whose list is null admits exactly localhost and 127.0.0.1, in any case |
| RequestFiltering.AllowedIps | ZkemAPI.Web/Program.cs:139-152 | the set is the loopback pair plus every listed address, and nothing else |
| RequestFiltering.ClientIpFilter.constructor | ZkemAPI.Web/Program.cs:132-160 | the constructor's loop builds exactly that set |
| RequestFiltering.ClientIpFilter.Decide | ZkemAPI.Web/Program.cs:162-176 | a request passes exactly when it has no address or its address is in the set; otherwise 403 |
| RequestFiltering.ClientIpFilterAdmits | ZkemAPI.Web/Program.cs:139-176 | loopback, listed and addressless requests always pass; any other address is refused with 403 |
| IpWhitelist.WhitelistSet | Middleware/IpWhitelistMiddleware.cs:17-19 | the set holds exactly the configured addresses, and is empty without the section |
| IpWhitelist.WhitelistDecision | Middleware/IpWhitelistMiddleware.cs:24-33 | a request passes exactly when it has an address in the set; a refusal is 403 naming the address |
| IpWhitelist.MissingSectionDeniesAll | Middleware/IpWhitelistMiddleware.cs:17-33 | without the configuration section every request is refused |
| IpWhitelist.NullAddressTreatedOppositely | Middleware/IpWhitelistMiddleware.cs:26 | an addressless request passes the client-IP filter but is refused here; loopback has no exemption here |
| Text.IntToStringRoundTrip | ZkemAPI.SDK/Services/DeviceConnectionManager.cs:242 | an interpolated integer parses back to itself |
| Text.IntToStringInjective | ZkemAPI.SDK/Services/DeviceConnectionManager.cs:242 | different integers are written as different texts |
| Text.TryParseInt32OfIntToString | ZkemAPI.Web/Controllers/EmployeeController.cs:169 | int.TryParse accepts every printed Int32 and gives it back |
| Text.SplitJoinRoundTrip | ZkemAPI.Web/Program.cs:25-106 | splitting a joined list at a separator that occurs in no item gives the list back |
| Text.EqualsIgnoreCaseIsEquivalence | ZkemAPI.Web/Program.cs:107 | OrdinalIgnoreCase comparison is reflexive, symmetric and transitive |
| Calendar.TicksOrder | ZkemAPI.Web/Controllers/AttendanceController.cs:82 | the ticks order is exactly the chronological order, and equal ticks mean equal times |
| Sorting.SortByIsSortedPermutation | ZkemAPI.Web/Controllers/EmployeeController.cs:169 | OrderBy gives a sorted permutation of its input |
| Sorting.SortByIsStable | ZkemAPI.Web/Controllers/EmployeeController.cs:169 | OrderBy keeps elements with equal keys in input order |

## Left out

- Concurrency. The connection manager is `async` and thread-safe. The model runs interleavings
  one step at a time (`Enter`, `RunHeld`, `Leave`, and the scenario methods), not as real
  threads. A caller waiting for the permit is reported as `WaitsForPermit` and is not resumed.
- Time. A `CancellationTokenSource` timer is not modelled. Whether the token is cancelled at
  each point is an input (`Env`, `Attempt`). `Task.Delay(-1)` that never ends is the outcome
  `Hangs`.
- The `Action` overloads (DeviceConnectionManager.cs:85-101). They wrap the operation as one
  returning null, so they behave like the generic `Execute` and are not modelled separately.
- ConnectionManager.Manager.ExecuteWithDefaultTimeout: a positive timeout is treated like any
  other token, because cancellation is an input.
- Settings.DeviceSettings.OperationTimeoutMilliseconds: converted like the others but used
  nowhere in the core, so no property beyond ConversionsExact.
- Logging through `ILogger` and `Console`, Swagger, dependency injection and middleware
  registration: none of them affects a result.
- `GlobalExceptionMiddleware` and ASP.NET's own `HostFiltering` middleware are not part of this
  model. The `AllowedHosts` value from appsettings is an input (`configured`).
- Reading and deserializing `allowedHosts.json` and `allowedIps.json`. What they yield is an
  input (`HostsFile`, `IpsFile`).
- The reader is an abstract model of the COM SDK. Which calls report failure (`refuses`) and
  which lookups throw (`raises`) are fixed inputs. Of `ZkemDevice.cs`, only its delegation and
  the card-before-user write in `SSR_SetUserInfo` are modelled. COM marshalling is not.
- The `DeviceNumber` / machine number argument is ignored: one reader per `Device`.
- The iterators of `ReadAllUserID`, `ReadGeneralLogData` and the operation log are buffers in
  the reader. When the SDK resets them between connections is not modelled. The operation-log
  iterator starts at the whole log.
- `TemplateLength` in a fingerprint listing is the template's length. The SDK's own length
  output is not modelled.
- Null request lists and null names are taken as non-null, except the fields that are `Option`
  in the model (password, card number, requested time, reasons, allow lists).
- Non-ASCII case folding: OrdinalIgnoreCase is modelled for ASCII letters only.
- GetDeviceInfo's firmware, MAC, platform, serial, manufacturer and product-type getters
  (DeviceController.cs:169-174) are not modelled: their values are only copied into the
  response. The status-statistics call is not modelled either.
- `DateTime.Now` and `DateTime.UtcNow` are parameters (`now`, `checkedAt`), read once per call.
- The clock does not advance between the write and the read-back in SetDeviceTime, so the
  read-back is the time just written.
- Reader.Device.DeleteEnrollData: the backup number is not modelled. The model takes both
  numbers the controllers pass (11 in ChangeEnrollNumber, 12 in DeleteEmployee) to delete the
  whole record and its templates. The SDK wrapper (ZkemDevice.cs:129-133) documents 11 as all
  data and lists no 12, so what a real reader does with 12 is not captured.
- Common.Exc.Message: the framework texts other than DateTime's are stand-ins. The
  ArgumentOutOfRange text of a negative delay is the parameter name `millisecondsDelay`. The
  ObjectDisposed text is the exception's default without the object name.
- The manager-run actions (SaveEmployees, ChangeEnrollNumber and the others) take the manager's
  script of attempts (`Env`) as a parameter of its own, not derived from the `*Attempt`
  methods. Lemmas that compose the two, such as MissingEmployeeIsNotFound and
  FailedRecreateIsReportedNotFound, state the matching script in their requires.
- The 500 paths that cannot be reached are not modelled: SetDeviceTime's read-back constructor,
  and the outer catch of the fingerprint and operation-log actions, whose loops cannot throw in
  the model.
- LINQ's `OrderBy` / `OrderByDescending` are evaluated eagerly. Their deferred execution is not
  observable here.
- The year addition in the operation-log action is on unbounded integers. It cannot overflow
  for years the reader reports.

# print-vending: a Dafny model of the kiosk's rules

print-vending is a self-service print kiosk. A customer picks files on the kiosk page. The
page counts each file's pages and prices them at ₹4 a page. After a simulated payment the
files go to a printer. A sign-up page is meant to register a user and optionally upload one
PDF; as the repository stands it is not routed, and its submit always fails (see Findings). A
context object tracks the user's submitted print jobs and takes status updates over a
WebSocket. An upload service stores files under sanitised paths and offers a per-user
quota check, which the upload itself does not call. A desktop printer client polls the job queue and prints what it finds.

This project models the rules inside those pieces:

- `page_calculator.dfy`: page counting by MIME type. It includes the PDF marker scan, which
  is the regular expression `/\/Type\s*\/Page[^s]/g` written as a byte scanner. It also
  has the price.
- `kiosk_page.dfy`: the kiosk's selection list. A file is admitted through four ordered
  guards. Entries can be removed, the totals are kept, and the payment flow is modelled.
- `sign_up.dfy`: the sign-up form rules, the single-PDF gate, the storage path, and the
  submit sequence.
- `print_job_context.dfy`: the client's list of active jobs, its status updates, and the
  submission limits.
- `websocket_service.dfy`: the socket service. It covers the listener registry, which is
  a plain object, so types named like `Object.prototype`'s properties make its array calls
  throw. It also covers notification that stops at the first throwing listener, the
  bounded reconnect counter, the send guard, and the module-level singleton.
- `file_upload_service.dfy`: file-name sanitisation, the upload path, the upload's
  outcomes, and the quota check.
- `printer_client.dfy`: the printer client's poll and job processing over an in-memory
  `printer_queue` table.
- Shared definitions:
  - `files.dfy`: file records and page totals.
  - `text.dfy`: JavaScript string length in UTF-16 code units, and decimal rendering.
  - `app_config.dfy`: the configured limits.
  - `wrappers.dfy`: `Option` and `Result`.

Every collaborator the code calls is a parameter or an outcome datatype:

- the browser's `FileReader`: `ReadOutcome`;
- Supabase auth, storage and tables: `AuthOutcome`, `StorageOutcome`, `CountQuery`,
  `FileLookup`, `FetchOutcome`;
- the print server: `ServiceOutcome`;
- the printer integration's answer: a `bool`;
- downloading and printing a file: `DeviceOutcome`;
- the zod email check: a `bool`;
- `Date.now()`: a `nat`;
- the ISO timestamp: a string.

Socket events and timer firings are method calls. Because `disconnect` leaves the old
socket's handlers attached, that socket's later close event still counts an attempt and
schedules a reconnect (`WebSocket.ReconnectScenario`). State that React or a class keeps
becomes a Dafny `class`. Its methods state the new state in terms of the old state, and
the functions they use carry the proved properties.

JavaScript strings are measured in UTF-16 code units:

- `Text.Utf16Length` counts a character above U+FFFF twice.
- zod's `min(6)` and the length of a sanitised name use this measure.
- The sanitising regular expression has no `u` flag, so it replaces each code unit on its
  own. A character above U+FFFF therefore becomes `__`.

## Model

| member | source | states |
|---|---|---|
| PageCalculator.SpaceRunEnd | src/components/PageCalculator.ts:14 | `\s*` is greedy: the run it returns holds only whitespace bytes (9–13, 32, 160) and is followed by a non-whitespace byte or the end |
| PageCalculator.MarkerLength | src/components/PageCalculator.ts:14 | a match of the marker at the start of the text consumes either nothing or at least 11 bytes and stays inside the text |
| PageCalculator.MarkerLengthCharacterised | src/components/PageCalculator.ts:14 | a match of length n exists at the start exactly when the text begins with `/Type`, a maximal whitespace run, `/Page` and one byte other than `s`, consuming n bytes in total |
| PageCalculator.MarkerUnique | src/components/PageCalculator.ts:14 | the pattern can match at a position in only one way, so the global match is deterministic |
| PageCalculator.PagesEntryNotCounted | src/components/PageCalculator.ts:14 | `/Type /Pages` (any whitespace run followed by `s`) is not a match |
| PageCalculator.MarkerExamples | src/components/PageCalculator.ts:14-15 | `/Type /Page ` counts 1; in `/Type/Page/Type/Page ` the first match consumes the second `/`, so it counts 1 (matches do not overlap) |
| PageCalculator.CountMarkers | src/components/PageCalculator.ts:14-15 | the number of non-overlapping matches; each consumes at least 11 bytes, so 11·count ≤ length |
| PageCalculator.PdfPageCount | src/components/PageCalculator.ts:11-17 | the PDF count is between 1 and 8000/11, whatever the file holds |
| PageCalculator.PdfIgnoresTail | src/components/PageCalculator.ts:13 | bytes after the first 8000 never change the PDF count |
| PageCalculator.SizeEstimate | src/components/PageCalculator.ts:31-33 | max(1, ceil(size/256000)) stated as a ceiling: (pages−1)·256000 < size ≤ pages·256000 for size > 0, and 1 page for size 0 |
| PageCalculator.SizeEstimateMonotone | src/components/PageCalculator.ts:31-33 | the size estimate never decreases as the size grows |
| PageCalculator.CalculatePages | src/components/PageCalculator.ts:5-36 | every branch, including read errors and exceptions, yields at least one page |
| PageCalculator.ImageIsOnePage | src/components/PageCalculator.ts:28-29 | every `image/*` type is one page, whatever the read gives |
| PageCalculator.OtherTypesBySize | src/components/PageCalculator.ts:30-33 | a type that is neither PDF nor image is priced by the size estimate |
| PageCalculator.ReadFailureIsOnePage | src/components/PageCalculator.ts:18-26 | a PDF whose read fails or whose handler throws counts one page |
| PageCalculator.CostAdditive | src/components/PageCalculator.ts:52-54 | the price of a sum of page counts is the sum of the prices, and zero pages cost 0 |
| Files.TotalPagesAppend | src/pages/Index.tsx:172-174 | the page total of a concatenation is the sum of the totals |
| Files.TotalPagesRemove | src/pages/Index.tsx:146-152 | removing an entry lowers the total by exactly that entry's pages |
| KioskPage.AdmitExactlyWhenAllGuardsPass | src/pages/Index.tsx:26-70 | for `KioskPage.Admit`: a file is admitted if and only if its type is allowed, its size ≤ 10 MiB, fewer than 5 files are selected and the new total ≤ 50; the admitted entry carries the file's name, type, size, URL and computed pages |
| KioskPage.GuardOrder | src/pages/Index.tsx:31-47 | the guards run in order: a disallowed type is refused for its type, then an oversized file for its size, then a full list for the count, before any page reading |
| KioskPage.AdmitKeepsInvariant | src/pages/Index.tsx:44-70 | appending an admitted file keeps at most 5 files, at most 50 pages, and every entry of an allowed type, ≤ 10 MiB and ≥ 1 page |
| KioskPage.RemoveKeepsInvariant | src/pages/Index.tsx:146-152 | removing any entry keeps that invariant |
| KioskPage.TotalCostIsSumOfCosts | src/pages/Index.tsx:172-178 | the total cost is 4 × the total pages, equals the files' costs added up, and is at most 200 on a valid list |
| KioskPage.PrintRequests | src/pages/Index.tsx:88-92 | one print request per selected file, in the same order, with its URL, name and page count |
| KioskPage.Kiosk.HandleFileSelect | src/pages/Index.tsx:26-74 | no file does nothing; a rejected file sets that guard's message and leaves the list; an admitted file clears the error and is appended; the list invariant is kept |
| KioskPage.Kiosk.HandlePrintRequest | src/pages/Index.tsx:76-79 | an empty list does nothing; otherwise the payment dialog opens |
| KioskPage.Kiosk.ConfirmPayment | src/pages/Index.tsx:81-144 | the print requests sent are the mapping of the selection; the dialog closes; on success the success flag is set and a reset is scheduled, on failure the error message is set |
| KioskPage.Kiosk.PaymentResetElapsed | src/pages/Index.tsx:132-135 | a pending reset clears the success flag and the list |
| KioskPage.Kiosk.ClearFile | src/pages/Index.tsx:146-152 | removes exactly entry `index` and keeps the others in order; past the end nothing changes |
| KioskPage.Kiosk.ClearAllFiles | src/pages/Index.tsx:154-160 | empties the list and closes the preview |
| Text.Utf16Length | src/pages/SignUp.tsx:19 | JavaScript length: between |s| and 2·|s| code units, and |s| when every character is in the basic plane |
| Text.Utf16LengthAppend | src/pages/SignUp.tsx:19 | code-unit length adds up over concatenation |
| SignUp.FormValidIff | src/pages/SignUp.tsx:17-24 | the form is valid exactly when the email check passes, the password has at least 6 code units and the two passwords are equal |
| SignUp.IssuesAttachToTheirFields | src/pages/SignUp.tsx:17-24 | a short password yields an issue on `password`; a mismatch yields the mismatch message on `confirmPassword`; every issue names the field its rule checks |
| SignUp.PasswordLengthInCodeUnits | src/pages/SignUp.tsx:19 | three emoji are 6 code units long and pass `min(6)`; `abcde` is 5 |
| SignUp.GateOrder | src/pages/SignUp.tsx:42-80 | for `SignUp.GateFile`: a non-PDF is refused before any size or page check, and an oversized PDF before any page count; the file is accepted exactly when it is a PDF of at most 10 MiB with at most 50 pages |
| SignUp.StoragePathSplits | src/pages/SignUp.tsx:112-114 | the path is `userId + "/" + fileName`: its first `/` sits right after the user id, and the rest is the file name |
| SignUp.SubmitEffectsSpec | src/pages/SignUp.tsx:96-171 | for `SignUp.SubmitSignUp`: a failed sign-up uploads, records and navigates nothing; a successful one navigates even when the upload or the insert fails; the upload happens exactly when a user id and a file exist; a row, with status `uploaded` and the public URL of that key, exists exactly when the upload and then the insert succeeded |
| SignUp.SubmitAsWiredDoesNothing | src/pages/SignUp.tsx:27-100 | as the page is wired the sign-up call throws, so whatever the form, the file and storage would give, nothing is uploaded or recorded and the page does not navigate |
| SignUp.SignUpPage.HandleFileSelect | src/pages/SignUp.tsx:42-94 | the selected file changes only to a file passing all three gates; a rejected file leaves the previous one |
| PrintJobContext.FindJob | src/contexts/PrintJobContext.tsx:31 | `findIndex`: the first entry with that id, or the length when there is none |
| PrintJobContext.StatusUpdateChangesOneEntry | src/contexts/PrintJobContext.tsx:27-54 | for `PrintJobContext.StatusUpdated`: the length is kept; no or empty `jobId` and an unknown id leave the list; otherwise only the first matching entry changes, and only its status and `updatedAt` |
| PrintJobContext.LimitCheck | src/contexts/PrintJobContext.tsx:77-92 | a submission is refused exactly when it has more than 10 files or more than 500 pages, with `success` false and an empty `jobId` |
| PrintJobContext.NewJob | src/contexts/PrintJobContext.tsx:99-122 | a job is appended exactly when the answer is a success with a non-empty `jobId`; it is `queued`, carries that id and the submission's name |
| PrintJobContext.SubmissionNameSpec | src/contexts/PrintJobContext.tsx:103 | one file gives its own name, otherwise `"<n> files"` |
| PrintJobContext.PrintJobProvider.HandleJobStatusUpdate | src/contexts/PrintJobContext.tsx:27-54 | the job list becomes the updated list and nothing else changes |
| PrintJobContext.PrintJobProvider.SubmitPrintJob | src/contexts/PrintJobContext.tsx:72-142 | the service is called exactly when the limits pass; a refusal appends nothing; a call appends only the new job; `submitting` ends false |
| WebSocket.Without | src/services/WebSocketService.ts:89-93 | `filter(l => l !== listener)` keeps exactly the other listeners |
| WebSocket.WithoutKeepsOrder | src/services/WebSocketService.ts:89-93 | filtering distributes over concatenation, so the other listeners keep their order |
| WebSocket.WithoutAbsent | src/services/WebSocketService.ts:89-93 | removing a listener that is not there leaves the list as it is |
| WebSocket.WithoutCounts | src/services/WebSocketService.ts:89-93 | every registration of the listener goes and every other registration stays, counted with multiplicity |
| WebSocket.WebSocketService.Connect | src/services/WebSocketService.ts:20-54 | a created socket becomes the current one, connecting; a failed constructor changes nothing |
| WebSocket.WebSocketService.SocketOpened | src/services/WebSocketService.ts:25-29 | an open resets the attempt count to 0 and marks the current socket open |
| WebSocket.WebSocketService.SocketClosed | src/services/WebSocketService.ts:45-48 | a close increments the attempt count and schedules a reconnect only while it is below 5 |
| WebSocket.WebSocketService.HandleReconnect | src/services/WebSocketService.ts:56-64 | below 5 attempts, one more attempt and one more pending timer; at 5, nothing |
| WebSocket.WebSocketService.ReconnectTimerFired | src/services/WebSocketService.ts:60 | a pending timer fires and connects again |
| WebSocket.WebSocketService.Disconnect | src/services/WebSocketService.ts:66-71 | the service holds no socket afterwards |
| WebSocket.WebSocketService.Send | src/services/WebSocketService.ts:73-80 | sends exactly when the socket is open; otherwise nothing is sent |
| WebSocket.StopsAtFirstThrowUnique | src/services/WebSocketService.ts:97 | the calls of a `forEach` that stops at the first throwing listener are determined by the listeners, the data and which calls throw; with no throwing call every listener is called |
| WebSocket.WebSocketService.On | src/services/WebSocketService.ts:82-87 | appends the listener to its type's list, creating it if absent, other types unchanged; a type named like an `Object.prototype` property without an own entry throws and changes nothing |
| WebSocket.WebSocketService.Off | src/services/WebSocketService.ts:89-93 | filters the listener out of its type's list; a type without an entry is a no-op, and an inherited one throws |
| WebSocket.WebSocketService.NotifyListeners | src/services/WebSocketService.ts:95-99 | calls the type's listeners in registration order with the data, stopping right after the first that throws and reporting the throw; none for an unregistered type; an inherited type throws before any call |
| WebSocket.WebSocketService.MessageReceived | src/services/WebSocketService.ts:31-38 | a parsed message notifies its type's listeners up to the first that throws, and the error is swallowed; unparseable text or an inherited type notifies none |
| WebSocket.RegistryScenario | src/services/WebSocketService.ts:82-99 | example: register 1, 2, 1 for `job_status` and remove 1; a `job_status` message calls only 2, and an `error` message calls no one |
| WebSocket.ThrowScenario | src/services/WebSocketService.ts:82-99 | example: with listeners 2 and 3, a throw in 2 means 3 is not called; `on('constructor', …)` throws |
| WebSocket.ReconnectScenario | src/services/WebSocketService.ts:45-71 | example: the sixth close in a row schedules nothing; after an open and a `disconnect`, the old socket's close still schedules a reconnect; `send` while disconnected transmits nothing |
| WebSocket.ServiceSingleton.GetWebSocketService | src/services/WebSocketService.ts:105-113 | an existing instance is returned; otherwise one is created only when a url is given, else the call fails with the not-initialised message |
| WebSocket.ServiceSingleton.InitWebSocketService | src/services/WebSocketService.ts:115-118 | always replaces the instance with a fresh service for that url |
| FileUploadService.SanitizeChar | src/services/fileUploadService.ts:35 | one replacement per UTF-16 code unit of the character |
| FileUploadService.Sanitize | src/services/fileUploadService.ts:35 | the sanitised name has the original's code-unit length, and every character is in `[A-Za-z0-9._-]` |
| FileUploadService.SanitizeAppend | src/services/fileUploadService.ts:35 | sanitisation works character by character: it distributes over concatenation |
| FileUploadService.SanitizeKeepsAllowedName | src/services/fileUploadService.ts:35 | a name made only of allowed characters is unchanged |
| FileUploadService.SanitizeIdempotent | src/services/fileUploadService.ts:35 | sanitising twice is sanitising once |
| FileUploadService.SanitizeKeepsPositions | src/services/fileUploadService.ts:35 | an allowed character stays at its code-unit position; any other becomes `_` there |
| Text.NatToString | src/services/fileUploadService.ts:35 | the timestamp's decimal text is non-empty and all digits |
| Text.NatToStringRoundTrip | src/services/fileUploadService.ts:35 | reading the decimal text back gives the timestamp |
| Text.NatToStringInjective | src/services/fileUploadService.ts:35 | different timestamps give different texts |
| FileUploadService.NoSlashAfterUser | src/services/fileUploadService.ts:35 | neither the timestamp's digits, the `_` nor the sanitised name contain a `/` |
| Text.IndexOfAfterPrefix | src/services/fileUploadService.ts:35 | the first `/` of `prefix + "/" + rest` is right after a prefix free of `/` |
| FileUploadService.UploadPathSegments | src/services/fileUploadService.ts:35 | the sanitised name holds no `/`; the path is the user id, one `/`, then the timestamp, `_` and the sanitised name with no further `/` |
| FileUploadService.UploadFileSpec | src/services/fileUploadService.ts:32-83 | for `FileUploadService.UploadFile`: the upload is attempted at that path, the row is inserted only after storage succeeded, and the response is a success exactly when the bucket check, storage and insert all succeeded, with the public URL and page count; otherwise its error is the message of the first failing step: the thrown error's own message when it is an `Error`, and `Unknown error occurred` when it is any other value |
| FileUploadService.CountUploaded | src/services/fileUploadService.ts:85-97 | the count of the user's `uploaded` rows is at most the table size |
| FileUploadService.InsertedRowCounts | src/services/fileUploadService.ts:56-69 | an inserted `uploaded` row raises the owner's count by one and nobody else's |
| FileUploadService.UploadsAddUp | src/services/fileUploadService.ts:85-97 | rows of the user with status `uploaded` added to any table raise the user's count by exactly their number |
| FileUploadService.TenUploadsReachTheLimit | src/services/fileUploadService.ts:85-97 | for `FileUploadService.CheckFileUploadLimit`: ten more `uploaded` rows of the user, added to any table, make the check refuse |
| FileUploadService.OtherRowsIgnored | src/services/fileUploadService.ts:86-90 | rows of other users or with another status change neither the count nor the answer, for every query outcome |
| FileUploadService.QuotaStaysClosed | src/services/fileUploadService.ts:85-97 | adding rows never lowers the count, so a refused user stays refused |
| PrinterClient.ApplyWritesAppend | printer-client/index.js:97-99 | applying two runs of status writes one after the other is applying them together |
| PrinterClient.ProcessJobEffect | printer-client/index.js:33-80 | processing touches only the job's row; a missing file leaves it; otherwise it ends `complete` exactly when the print succeeded, else `failed`, never `printing`, with this printer's id |
| PrinterClient.QueuedInOrder | printer-client/index.js:86-89 | only existing `queued` rows of scanned ids, as they are in the table; each at most once when the scan has no repeats |
| PrinterClient.QueuedInOrderComplete | printer-client/index.js:86-89 | every `queued` row the scan reaches is among the matches |
| PrinterClient.QueuedInOrderKeepsScanOrder | printer-client/index.js:86-89 | in a scan without repeats the matches come in the order the scan reaches them |
| PrinterClient.SelectJobs | printer-client/index.js:86-90 | min(5, number of matches) rows, and exactly the first ones of the matches; each an existing `queued` row as it is in the table; distinct when the scan is |
| PrinterClient.SelectJobsTakesFirstQueued | printer-client/index.js:86-90 | the selected rows come in scan order, and a `queued` row the scan reaches is left out only when 5 rows scanned before it were selected |
| PrinterClient.PollResults | printer-client/index.js:97-99 | one result per processed job, in order: true exactly when its file was found and printed |
| PrinterClient.PollStep | printer-client/index.js:97-99 | one more iteration appends that job's writes and result and applies its writes to the table left so far |
| PrinterClient.PollKeepsKeys | printer-client/index.js:97-99 | a poll's writes never add or remove a job row |
| PrinterClient.PollLeavesOthers | printer-client/index.js:50-76 | a row that no processed job names keeps its contents |
| PrinterClient.PollProcessed | printer-client/index.js:97-99 | among distinct jobs, each processed row ends as processing that job alone would leave it |
| PrinterClient.PollEffect | printer-client/index.js:97-99 | processing distinct jobs one at a time leaves each processed row as processing it alone would, and every other row unchanged |
| PrinterClient.PollOutcome | printer-client/index.js:82-103 | after a poll only selected rows changed; each ends `complete`/`failed` or, with its file missing, stays `queued`; no row is `printing` that was not already |
| PrinterClient.PrinterClient.WriteStatus | printer-client/index.js:12 | a status write sets the status and `PRINTER_ID` on that job's row only, and is logged |
| PrinterClient.PrinterClient.ProcessPrintJob | printer-client/index.js:33-80 | the result is true exactly when the file was found and printed; the writes are none, or `printing` then `complete`/`failed` |
| PrinterClient.PrinterClient.ProcessAll | printer-client/index.js:97-99 | the jobs are processed one at a time in the order given; the table and log are the result of their writes in that order, and the results are theirs in that order |
| PrinterClient.PrinterClient.PollForPrintJobs | printer-client/index.js:82-103 | a fetch error changes nothing; otherwise the selected rows are processed in the returned order |

## Left out

- `formatFileSize`: it is floating-point formatting (logarithm, power, `toFixed`).
- Rendering and display: the JSX of every page and component, toasts, console logging,
  object-URL creation and revocation, resetting the file input, and `previewFile`
  (`window.open`).
- `PrintJobService.ts` and `PrinterIntegration.ts`: each is backend or browser calls with
  no rule of its own. Their results enter as parameters.
- `AuthContext.tsx`: its context value holds only `user`, `session`, `isAdmin` and
  `loading` (src/contexts/AuthContext.tsx:5-10, :84), and `App.tsx` mounts no
  `AuthProvider` and gives `SignUp` no route. `SubmitSignUp` takes the outcome that the
  intended `signUp` call would give as a parameter; `AuthAsWired` is the outcome it gives
  as written.
- The database update to `printed` in `handlePaymentConfirm`: only its console output
  depends on it.
- Supabase storage and table calls, `createBucketIfNeeded`, the axios download, `fs` and
  `pdf-to-printer`: these are outcome parameters. `createBucketIfNeeded` ignores the
  errors its calls return, so the `bucket` outcome of `UploadFile` stands for one of
  them throwing. The printer client ignores the errors its status writes return; the
  model applies every write to the table.
- appConfig's `maxFileSizeMB` and `costPerPage`: the first only sizes the bucket that
  `createBucketIfNeeded` creates, and no code reads the second. The pages write their
  own 10 MiB limit and their own price of ₹4 a page.
- Timer durations: the 1.5 s simulated payment, 3 s reconnect delay, 5 s reset and 30 s
  poll interval. Pending timers are counters, and their firing is a method call.
- The zod email validator: its result is a parameter.
- Concurrency:
  - two `handleFileSelect` calls overlapping across their `await`;
  - several printer clients polling the same table;
  - a listener that registers or removes listeners while being notified.

  Every operation here runs to completion before the next begins.
- The `isCountingPages` spinner flag of the kiosk page: it does not affect what is
  selected.
- The sign-up page's `catch` around the submit: only a throwing sign-up call reaches it
  (`AuthThrew`), which as written is every submit. A storage call that throws is not modelled.
- The socket's `onerror` handler: it logs and rejects the promise `connect` returned.
  That promise is not modelled, and the handler changes no state of the service.
- The sign-up page's toasts: a failed storage upload or a failed insert is only shown as a
  message, so only its effect on the stored row is modelled.
- The `useEffect` in `PrintJobContext.tsx` that subscribes `handleJobStatusUpdate` to the
  service: this is wiring, and `HandleJobStatusUpdate` takes the message directly.
- Lone surrogates: `Text.Utf16Length` counts Dafny characters, which are Unicode scalar
  values.
- PageCalculator.SizeEstimate: uses exact integer ceiling division. JavaScript's
  floating-point `Math.ceil` agrees with it for every size below 2^53.
- A claim, lease, retry or deduplication protocol for printer jobs: the printer client
  does not have one. It selects queued rows and then updates them in separate writes, so
  the model does the same.
- PrinterClient.ProcessJobEffect, PrinterClient.PollOutcome: assume that the download
  and the print each finish. `downloadFile` (printer-client/index.js:15-31) never settles
  when the response stream fails: `pipe` does not pass the error on to the file stream,
  and the axios call sets no timeout. The job then stays `printing` and the rest of that
  poll never runs. `DeviceOutcome` has no case for a step that never finishes.
- PrinterClient.SelectJobs: the order in which the database returns matching rows is a
  parameter. Their distinctness is a requirement of `PollOutcome`, since a table returns
  each row once.

## Findings

| source | as written | input that shows it | evidently intended | confidence | as-written member | corrected member |
|---|---|---|---|---|---|---|
| src/pages/SignUp.tsx:27-100 | `const { signUp } = useAuth()` reads a member the auth context does not have (src/contexts/AuthContext.tsx:5-10, :84), so `signUp(email, password)` at :100 throws a `TypeError`, the `catch` at :162-167 shows it, and :104-159 never run | any valid email and password, with or without a PDF | the user is registered, the PDF is stored and recorded with status `uploaded`, and the page navigates to `/` | not executed | SignUp.SubmitAsWiredDoesNothing | SignUp.SubmitEffectsSpec |

# Verified model of agentic-velociraptor-mcp

agentic-velociraptor-mcp lets an agent ask a Velociraptor server for collections, hunts, cancellations
and downloads. Every such write needs an approval that a human has recorded in a store file; the approval
covers one exact operation and can be used once. This project models the code that carries that promise
and proves it, together with the smaller algorithms around it: redaction, the rotating audit log, result
paging and chunked downloads.

`dafny verify dfyconfig.toml` checks everything. Dafny 4.11.

## How it is built

**The approval store** (`Records`, `FileStoreClass`, `StoreMachine`, `StoreTheorems`, `Progress`, `LockOrder`).
`Records.Atomic` is the store as one map and one step per operation. `FileStoreClass.FileStore` is the
class as written, used by one caller. `StoreMachine` is the protocol: any number of instances in any
number of processes, each with any number of threads, on one file. Its steps are taking and releasing the
in-process mutex and the file lock (with the lock handle's own "already locked" flag), loading, executing,
writing and renaming the temp file, timeouts, failed reads and saves, process stops and the clock.
`EveryInterleavingIsAtomic` says that every run of these steps is a run of the atomic map. `StoreSettles` says
that the protocol cannot get stuck or leak a lock: from every reachable state all operations in progress can
return, and then no lock is held. `LockOrder` shows that the other lock order is wrong: from every file with an unused approval it reaches a state in
which a consume was answered with success and the approval is unused.

**The fingerprint** (`Fingerprint`). The method writes a request field by field into a hash accumulator.
`StreamIdentifiesTarget` says that two requests give the same bytes exactly when they ask for the same
thing. The digest itself is any function; where a theorem needs it, the conclusion is "the same target, or
here is a collision of the digest".

**The write tools** (`Hunts`, `Ioc`, `Gates`, `HandlerCall`, `Handlers`, `HandlerInvariant`, `HandlerOps`,
`HandlerTheorems`, `Completion`). `Gates.Admit` is what each of the eight approval-gated tools checks
before it looks at an approval, the request it then asks the approval to match, and the backend writes it
plans. `HandlerCall.Handler` is one call as the handlers run it. `Handlers.Step` interleaves any number of
such calls and operator commands with every step of the store protocol and with process stops; every call
carries the configuration of the server it runs in, so servers may differ and be restarted with another policy
or other profiles. An invariant over all reachable states (`MovesKeep`) gives the main theorem, `ApprovedAndAtMostOnce`: every backend write
is the one a human approved, and under one approval the planned writes of one call happen at most once.
`ApprovedCallCanComplete` is the other half: from every reachable state an approved call can run to its end,
and then it has made exactly its planned writes.

**Around them.** `Redaction` and `SanitizeTree` (audit/sanitize.go and sanitizeTLSError), `Rotation`
(audit/jsonl.go), `Cursors` and `Paging` (flow result pages), `Download` (chunked downloads). The redaction
loops take their markers and placeholder as a parameter and are proved for any that do not run into each
other; `PemSafe` shows that the ones in the program are of that kind.

A Go string is a Dafny `string` with one `char` per byte, and in `SanitizeTree`, where names are lower-cased,
one `char` per rune; no theorem depends on how many characters there are. Times are integers. Clocks, lock and file failures, validators that are regular expressions, map
iteration order, the server's answers and the outcome of each backend call are parameters or arbitrary
choices. Integers are unbounded except for cursors, where the 64-bit range is written out.

## Where the code and its comments disagree

- internal/audit/jsonl.go:95-102 says that after a failed rotation the next write appends to the existing
  file and tries again. That is so when a rename fails. When the close or the reopen fails, the writer keeps
  a closed handle and accepts nothing any more; the same goes for a failed write, because a json.Encoder keeps
  its first write error (`AcceptedExactly`, `ClosedForGood`).
- internal/velociraptor/grpcclient_flows.go:266-271 and internal/mcpserver/tools_flows.go:286-291: a page cut
  by both the row limit and the byte limit carries the client's cursor, which skips the rows the byte limit
  dropped. `EveryRowOnce` gives the exact condition under which following the cursors delivers every row, and
  `DroppedRowNeverComes` what happens outside it.
- internal/mcpserver/tools_flows.go:694: the truncated flag looks only at the configured limit. A recorded
  upload size that is too small cuts the file without the flag (`StaleSizeCuts`); `UnflaggedIsWhole` gives the
  exact condition.

## Model

| member | source | states |
|---|---|---|
| `StoreTheorems.EveryInterleavingIsAtomic` | internal/approval/filestore.go:139-264 | in every run of any number of threads, instances and processes, with timeouts, failed saves and stops, the file is the result of the logged operations one after another, every answer is the atomic store's answer at that point, a call answered "unavailable" did nothing, and at most one thread is between load and save |
| `StoreTheorems.StepSimulates` | internal/approval/filestore.go:219-264 | each protocol step leaves file and log alone or performs exactly one atomic operation on both, so a process stopping anywhere in a save leaves the old or the new map |
| `Progress.StoreSettles` | internal/approval/filestore.go:139-171 | from every state of every run, whatever failed or stopped before, the operations in progress can all return; then no mutex, handle flag or file lock is held, and no decided record has changed that none of them consumes |
| `StoreMachine.StepKeeps` | internal/approval/filestore.go:113-171 | every step of the mutex-first protocol keeps the lock, copy and linearization invariant |
| `StoreMachine.RunKeeps` | internal/approval/filestore.go:139-171 | so does every run |
| `StoreTheorems.ShortcutNeverTaken` | internal/approval/filestore.go:132-134 | with the mutex first, in no run does a thread that comes to the file lock find its own handle already marked locked |
| `LockOrder.FlockFirstResurrects` | internal/approval/filestore.go:113-129 | with the file lock first, every file with an unused approval has a run in which a consume is answered with success and the approval is unused afterwards |
| `StoreTheorems.ReplayExtends` | internal/approval/filestore.go:268-375 | over any run records are never removed, requests and decisions never change, consumption sticks |
| `StoreTheorems.ReplayKeepsDeciders` | internal/approval/filestore.go:306-325 | every decision in the store names the person who made it, in every run |
| `StoreTheorems.ConsumeSticks` | internal/approval/filestore.go:363-375 | after a successful consume the reference stays consumed |
| `StoreTheorems.ConsumedAtMostOnce` | internal/approval/filestore.go:363-375 | a reference is consumed with success at most once in a run |
| `StoreTheorems.ApprovalShape` | internal/approval/filestore.go:327-361 | the answers of IsApproved that one instance gives for one reference over any run are false, then true, then false for good |
| `Records.ApprovalNeverReturns` | internal/approval/filestore.go:327-361 | once an approval has turned from true to false, by use or by age, no later state makes it true |
| `Records.ConsumeOnce` | internal/approval/filestore.go:363-375 | Consume succeeds exactly on a present, unused reference, and then marks that one used |
| `Records.DecideStores` | internal/approval/filestore.go:306-325 | a decision is stored exactly on a present, undecided request and with a named approver, with the verdict, approver and note that were given; request and use of that record and all other records stay; each refusal has its own exact condition |
| `Records.CreateStores` | internal/approval/filestore.go:268-304 | a request is stored exactly when its fields are there and its reference is new, as it was given up to a missing time stamp, undecided and unused, and nothing else changes; each refusal has its own exact condition |
| `Records.GetTells` | internal/approval/filestore.go:327-346 | the record as it is, expired exactly when more than the time to live has passed since its creation; nothing changes |
| `Records.IsApprovedExactly` | internal/approval/filestore.go:348-361 | true exactly of a present, approved, unused record that is not too old |
| `StoreTheorems.EveryRecordIsTraced` | internal/approval/filestore.go:268-375 | in every run each request on file was there at the start or came in by a logged Create of it, each decision was there or was given by a logged Decide of the same verdict by the same person, and a record is used only if it was or a logged Consume succeeded |
| `FileStoreClass.FileStore.Enter` | internal/approval/filestore.go:139-171 | both locks and a fresh copy of the file, or nothing held |
| `FileStoreClass.FileStore.SaveRecords` | internal/approval/filestore.go:219-264 | through create, write, chmod, sync, close and rename of a temp file, each of which may fail: the store file is the old map or the whole new one, succeeding exactly when every call did; no other temp file is touched, and its own stays behind only when the save failed and its removal did too |
| `FileStoreClass.FileStore.Create` | internal/approval/filestore.go:268-304 | the atomic Create, or unavailable with the file untouched and both locks free |
| `FileStoreClass.FileStore.Decide` | internal/approval/filestore.go:306-325 | the atomic Decide, or unavailable with the file untouched and both locks free |
| `FileStoreClass.FileStore.Get` | internal/approval/filestore.go:327-346 | the atomic Get on the present file, or unavailable |
| `FileStoreClass.FileStore.IsApproved` | internal/approval/filestore.go:348-361 | true exactly for a decided, approving, unused, unexpired record; an unknown reference is false, not an error |
| `FileStoreClass.FileStore.Consume` | internal/approval/filestore.go:363-375 | the atomic Consume, or unavailable with the file untouched and both locks free |
| `Fingerprint.StreamIdentifiesTarget` | internal/approval/hash.go:37-81 | two requests give the same hashed bytes exactly when their scalar target fields are equal, their parameter maps are equal and their client ids are equal as multisets, for arbitrary bytes |
| `Fingerprint.EncodeInjective` | internal/approval/hash.go:72-81 | a sequence of fields can be read back from its encoding, whatever bytes the values hold |
| `Fingerprint.FieldReadable` | internal/approval/hash.go:77-81 | one field can be split off an encoding in only one way |
| `Fingerprint.SortForgetsOrder` | internal/approval/hash.go:62-67 | sorting makes two lists equal exactly when they are equal as multisets |
| `Fingerprint.LeqIsByteOrder` | internal/approval/hash.go:55-55 | the order sorted by is the byte order: a prefix comes first, else the first difference decides |
| `Fingerprint.RequestFingerprint` | internal/approval/hash.go:37-70 | the bytes written are the request's stream, whatever order the map iteration takes |
| `Fingerprint.RangeKeys` | internal/approval/hash.go:51-54 | every parameter key once, in some order |
| `Fingerprint.Hash.WriteField` | internal/approval/hash.go:77-81 | appends exactly the encoded field |
| `HandlerTheorems.ApprovedAndAtMostOnce` | internal/mcpserver/server.go:314-355 | in every run every backend write is sanctioned, and all writes under one reference are the first steps of one call's plan |
| `HandlerTheorems.EveryWriteIsSanctioned` | internal/mcpserver/server.go:280-355 | each write's reference holds an approving decision by a named person and is spent; request and decision were on file from the start or were made, by a logged Create and a logged Decide with that verdict, before the call read them; the call's server is not read-only, has an approval store and a backend that supports the operation; the call read that approval unexpired, put its attempt on record if its server has a sink, then consumed, then wrote; the stored request has the call's target and covers the write under that server's policy and profiles, or the digest collides |
| `HandlerTheorems.OneCallPerApproval` | internal/mcpserver/server.go:346-355 | two writes under one reference come from the same call, however many calls had verified it |
| `HandlerTheorems.WritesFollowOnePlan` | internal/mcpserver/tools_collection.go:294-314 | all writes ever made under one reference, in order, are a prefix of the plan of one call |
| `HandlerTheorems.SpentMeansWritten` | internal/mcpserver/tools_collection.go:271-314 | all a returned call ever asked of the store was to read and to consume its own reference; if it spent its approval it made a backend write, and if not it changed no record and wrote nothing |
| `HandlerTheorems.HuntsAreCreated` | internal/velociraptor/grpcclient_hunts.go:247-262 | in real mode every hunt write of every run reaches CreateHunt with exactly its artifact, its parameters and its client limit, which is between 1 and the policy maximum, and without a condition only if policy allows all clients |
| `HandlerTheorems.SpentHuntIsCreated` | internal/mcpserver/tools_hunts.go:225-256 | in real mode a hunt call that returned after spending its approval has made a write that reached CreateHunt |
| `HandlerTheorems.HuntsStayInScope` | internal/velociraptor/grpcclient_hunts.go:247-262 | in addition its condition is none exactly when the approved request targets all clients and else exactly the approved label, and its artifact and parameters are those of the approved request or of a member of its profile, or the digest collides |
| `HandlerOps.MovesKeeping` | internal/mcpserver/server.go:314-355 | in every run the only store operations of a call since its start are reads and consumes of its own reference |
| `HandlerInvariant.MovesKeep` | internal/mcpserver/server.go:218-355 | every sequence of moves of calls, operators, store steps and stops keeps the system invariant |
| `HandlerInvariant.MoveKeeps` | internal/mcpserver/server.go:218-355 | every single move does |
| `Completion.ApprovedCallCanComplete` | internal/mcpserver/tools_collection.go:280-333 | from every reachable state, a call whose gates hold and whose backend is able, and whose reference holds an approved, unused and not too old record with the same target that nobody is just consuming, can run to its end: it makes exactly its planned writes, and its approval is used and otherwise as it was |
| `Completion.ApprovedCallCompletes` | internal/mcpserver/tools_collection.go:280-333 | when the store is free it does so without any other step, and marks exactly its approval used |
| `Completion.OperationCompletes` | internal/approval/filestore.go:139-264 | a store operation that nobody disturbs runs to its end with its atomic effect and all locks free |
| `HandlerCall.Handler.VerifyApproval` | internal/mcpserver/server.go:314-344 | lets a call through only on a matching, approved, unused, unexpired record, and always on such a one when the store can be read |
| `HandlerCall.Handler.GateAudit` | internal/mcpserver/server.go:218-234 | with a sink, passes exactly when the attempt is on record |
| `HandlerCall.Handler.RunPlan` | internal/mcpserver/tools_collection.go:300-314 | makes the planned writes in order up to and including the first that fails, and no other |
| `HandlerCall.Handler.Handle` | internal/mcpserver/tools_collection.go:280-314 | spends the approval and makes the planned writes up to the first failure, or changes neither store nor backend; spends it whenever everything it depends on allows it |
| `Gates.AdmitExactly` | internal/mcpserver/server.go:280-288 | each of the eight tools lets a call through to the approval store if and only if the server is in controlled mode with an approval store, every field is well formed, and artifact, profile, scope and download directory are allowed, as that handler demands |
| `Gates.UsableProfiles` | internal/dfir/validate.go:16-29 | a profile can be used exactly when it is known, allowed, sound and not empty and every artifact in it is allowed |
| `Gates.CandidatesMatch` | internal/mcpserver/server.go:314-325 | an approval made for one admitted call has the target of another exactly when both use the same tool, case and targets, up to the order of client ids, whoever asks, why and with whatever client limit |
| `Gates.AdmittedOps` | internal/mcpserver/server.go:297-305 | the backend is asked about the operation the plan consists of and about the scope the call names |
| `Gates.PlanFollowsInput` | internal/mcpserver/tools_collection.go:300-314 | a profile call plans exactly one write per artifact of the profile, in order, and any other call exactly one |
| `Gates.ApprovesExactly` | internal/mcpserver/server.go:314-344 | a stored record lets a call through exactly when its fingerprint matches and it is approved, unused and not too old |
| `Gates.PlanAuthorized` | internal/mcpserver/tools_collection.go:111-166 | everything an admitted call of any of the eight tools plans is covered by the request it asks the approval to match and lies within policy, and there is always something to do |
| `Gates.HuntPlanAuthorized` | internal/mcpserver/tools_hunts.go:300-400 | the same for the profile hunt, artifact by artifact |
| `Gates.CollectPlanAuthorized` | internal/mcpserver/tools_collection.go:224-314 | the same for the profile collection |
| `Gates.TargetDecides` | internal/approval/hash.go:37-70 | two requests with the same target authorize the same writes |
| `Gates.MatchMeansTarget` | internal/mcpserver/server.go:323-325 | a fingerprint match means the same target or a collision of the digest |
| `Gates.AdmitScopes` | internal/mcpserver/tools_hunts.go:792-797 | the hunts of a plan use the very client ids the check before consume looks at |
| `Gates.ClientLimit` | internal/mcpserver/tools_hunts.go:211-214 | between 1 and the policy maximum, and the requested number exactly when that is in this range |
| `Gates.LimitRule` | internal/mcpserver/tools_hunts.go:799-807 | the requested number when it is between 1 and the configured maximum, or 100 if none is configured, and that maximum otherwise |
| `Hunts.ValidateHuntScope` | internal/validation/scope.go:25-53 | accepts exactly the scopes with one targeting mode whose ids or label are well formed |
| `Hunts.ScopeCheckAgrees` | internal/velociraptor/grpcclient_hunts.go:38-54 | in real mode the check before consume accepts exactly the scopes the translator can express, and on a validated scope the translation means what the scope says |
| `Ioc.HashKinds` | internal/vql/render.go:45-62 | a hash is 32, 40 or 64 hexadecimal digits, and its length decides the parameter |
| `Ioc.BuiltFromHash` | internal/vql/render.go:97-117 | a request can be built exactly for a valid hash and scope; it is for the hash-hunting artifact with the value under the parameter of its kind, for this case and scope, and holds no other target |
| `Ioc.ApprovalMatchesCall` | internal/mcpserver/tools_ioc.go:65-92 | an indicator approval passes the fingerprint check of a call exactly when case, value bytes, label and all-flag agree and the client ids agree up to order |
| `Redaction.SanitizeString` | internal/audit/sanitize.go:181-201 | the rewriting loop ends and computes the one-pass redaction of the text |
| `Redaction.SanitizeTLSError` | internal/velociraptor/grpcclient.go:553-577 | computes the same text, and no error stays no error |
| `Redaction.PemSafe` | internal/audit/sanitize.go:24-24 | the program's markers and placeholder do not run into each other, and a rewrite removes at least nine bytes |
| `Redaction.PemRedacted` | internal/audit/sanitize.go:176-201 | the redacted text has no begin marker, redacting again changes nothing, and exactly the texts with a begin marker are changed |
| `Redaction.RedactLeavesNoMarker` | internal/audit/sanitize.go:176-201 | the redacted text has no begin marker, for any safe markers |
| `Redaction.RedactIdempotent` | internal/audit/sanitize.go:176-201 | redacting is idempotent and changes exactly the texts with a begin marker |
| `Redaction.BlockExcised` | internal/audit/sanitize.go:187-199 | a block becomes the placeholder whatever it holds, the text before it stays, and the text after its end line is treated as if it stood alone |
| `Redaction.OpenBlockTakesAll` | internal/audit/sanitize.go:187-191 | a block without an end marker is blotted out to the end of the text |
| `Redaction.UnfinishedLineTakesAll` | internal/audit/sanitize.go:195-198 | so is a block whose end line has no newline |
| `Redaction.EveryTextReads` | internal/audit/sanitize.go:181-201 | every text is plain text and blocks, the last of which may be cut off |
| `Redaction.RedactBlotsBlocks` | internal/audit/sanitize.go:181-201 | redacting such a text replaces exactly its blocks by the placeholder and keeps the rest |
| `Redaction.BlocksDoNotMatter` | internal/audit/sanitize.go:181-201 | texts that differ only inside their blocks redact alike, so nothing of a block gets out |
| `Redaction.RewriteShrinks` | internal/audit/sanitize.go:187-199 | every rewrite that does not end the loop shortens the text by the length of both markers and a newline less the placeholder |
| `SanitizeTree.NormalizeSpelling` | internal/audit/sanitize.go:69-74 | two names normalize alike exactly when they are spellings of one name: same letters in any case, with underscores and hyphens anywhere, for any lower-casing of runes that leaves these two alone |
| `SanitizeTree.NewSanitizer` | internal/audit/sanitize.go:51-60 | exactly the spellings of the built-in names and of the extra names are redacted |
| `SanitizeTree.SanitizeAny` | internal/audit/sanitize.go:108-144 | computes the cleaned tree, in whatever order maps are walked |
| `SanitizeTree.SanitizeStruct` | internal/audit/sanitize.go:149-174 | computes the cleaned fields; a later field with the same wire name wins |
| `SanitizeTree.CleanGuards` | internal/audit/sanitize.go:108-174 | the output holds only the placeholder under any listed name at any depth and no begin marker in any string leaf |
| `SanitizeTree.CleanFixedPoint` | internal/audit/sanitize.go:108-174 | sanitizing changes exactly the trees that are not already of that form, and doing it again changes nothing |
| `SanitizeTree.HiddenDoesNotMatter` | internal/audit/sanitize.go:108-174 | two trees that differ only under listed names and in unexported fields have the same output |
| `SanitizeTree.EverythingInPlace` | internal/audit/sanitize.go:108-174 | along every path into a tree the output shows the placeholder where the name is listed or the field hidden, the sanitized value where not, and nothing where there is nothing; of several fields with one wire name the last shows |
| `SanitizeTree.WireNameRule` | internal/audit/sanitize.go:158-166 | a field is written under the name in its tag up to the comma, and under its Go name when the tag gives none or a dash |
| `SanitizeTree.ListedFieldIsHidden` | internal/audit/sanitize.go:167-170 | a field is hidden exactly when the name in its tag or its Go name is listed |
| `SanitizeTree.LeavesAsTheyWere` | internal/audit/sanitize.go:126-143 | texts are redacted, other leaves are kept, containers keep their shape |
| `Rotation.JSONLWriter.Write` | internal/audit/jsonl.go:81-93 | accepts exactly when the handle is open, its encoder has not failed before and the event can be encoded and written; then appends the line and rotates when over the limit |
| `Rotation.JSONLWriter.RotateLocked` | internal/audit/jsonl.go:103-125 | close, shift every numbered file up from the highest, move the current file to .1, reopen; any of them may fail |
| `Rotation.KeepsSuffix` | internal/audit/jsonl.go:81-125 | when renames fail only for a missing source, the files read from the highest number down hold the newest part of all lines there ever were |
| `Rotation.KeepsSubsequence` | internal/audit/jsonl.go:81-125 | whatever fails, they hold whole lines, in order, none twice |
| `Rotation.NoLimitKeepsAll` | internal/audit/jsonl.go:87-91 | with no size limit nothing is lost or moved: the current file grows by exactly what is accepted |
| `Rotation.LossOnlyWhenFull` | internal/audit/jsonl.go:81-125 | starting without rotated files and with working renames, a line is lost only when every slot is filled beyond the size limit |
| `Rotation.FootprintCapped` | internal/audit/jsonl.go:22-35 | with working renames and stats, no file is more than one line over the limit, and all files together hold at most (files + 1) times that |
| `Rotation.NoFileAboveLimit` | internal/audit/jsonl.go:107-118 | no run creates or changes a file numbered above the limit |
| `Rotation.ShiftDropsOldest` | internal/audit/jsonl.go:111-118 | a working rotation overwrites only the oldest file, and only when the slot below it is taken |
| `Rotation.AcceptedExactly` | internal/audit/jsonl.go:81-125 | in every run a call is accepted exactly when its event can be encoded and written and no earlier call failed to write, to close the old file or to open the new one; failed renames and stats never stop the log |
| `Rotation.ClosedForGood` | internal/audit/jsonl.go:103-125 | once the handle is closed or its encoder has failed, no call is accepted and no file changes |
| `Cursors.CursorRoundTrip` | internal/velociraptor/table.go:111-125 | a printed offset is read back as it was, for every non-negative 64-bit integer |
| `Cursors.CursorOutOfRange` | internal/velociraptor/table.go:111-125 | beyond that range it is read as the beginning |
| `Cursors.CursorCanonical` | internal/velociraptor/table.go:111-125 | printing the parsed offset gives the cursor back exactly when the cursor is a printed offset |
| `Cursors.ParseExactly` | internal/velociraptor/table.go:111-120 | a cursor is read as a positive offset exactly when it is the prefix, at most a plus sign, and digits of that value within 64 bits |
| `Cursors.ReadersAgree` | internal/mcpserver/tools_flows.go:376-388 | the handler's reader and the client's parser give the same offset on every string |
| `Paging.BoundLimit` | internal/velociraptor/grpcclient.go:257-265 | at least 1 and at most the ceiling or 100; the request itself exactly when it is in that range, and the ceiling for a request of 0 or less |
| `Paging.BoundRows` | internal/mcpserver/tools_flows.go:346-374 | returns the longest prefix of at most the row limit, or 100, and the byte limit, or 1048576, and flags truncation exactly when that prefix is strict |
| `Paging.HandlerPage` | internal/mcpserver/tools_flows.go:240-303 | the page the handler returns is the client's window cut by the byte limit, with the client's cursor or else its own |
| `Paging.PageAtOffset` | internal/velociraptor/grpcclient_flows.go:241-271 | the page at any cursor holds the rows from its offset on, and its cursor parses to the next offset or is empty when the reading stops |
| `Paging.UntruncatedReachesEnd` | internal/velociraptor/grpcclient_flows.go:260-267 | a page not flagged truncated ends with the last row and has no cursor |
| `Paging.FlagTellsRowsRemain` | internal/mcpserver/tools_flows.go:286-287 | on every page the flag says exactly whether rows remain behind the ones returned |
| `Paging.NeverTwice` | internal/mcpserver/tools_flows.go:286-291 | following the cursors never delivers a row twice or out of order |
| `Paging.EveryRowOnce` | internal/velociraptor/grpcclient_flows.go:241-271 | following the cursors from the start delivers every row once, in order, if and only if every page cut by the row limit fits the byte limit whole and every row of the last window fits it alone |
| `Paging.DroppedRowNeverComes` | internal/mcpserver/tools_flows.go:286-291 | a row that the byte limit drops from a page cut by the row limit is never delivered, because that page keeps the client's cursor |
| `Paging.MiddleRowLost` | internal/mcpserver/tools_flows.go:286-291 | three rows, two a page, a byte limit that holds one and a half: row 1 is never delivered |
| `Download.DownloadFlowUpload` | internal/velociraptor/grpcclient_uploads.go:150-182 | ends for every server; from an honest one it is a prefix of the file, no longer than the configured limit (10485760 without one) and a known recorded size; with full reads it is the whole file or as long as these two allow; it fails only when a read fails |
| `Download.UnflaggedIsWhole` | internal/mcpserver/tools_flows.go:686-694 | with full reads and a configured limit, "not flagged means whole" holds if and only if the recorded size is unknown, or at least the limit, or at least the size of the file; without a limit nothing is flagged and the file has to fit |
| `Download.RightSizeIsEnough` | internal/mcpserver/tools_flows.go:663-694 | so it holds for every configured limit when the recorded size is right or unknown |
| `Download.StaleSizeCuts` | internal/velociraptor/grpcclient_uploads.go:150-153 | a recorded size that is too small cuts the file without the flag |

## Left out

- SHA-256 and hexadecimal encoding: the fingerprint theorem is about the bytes hashed, and the handler theorems name the digest collision they exclude.
- JSON encoding of the store file and of audit events, file modes and permission checks, nil records, durability beyond an atomic rename.
- NewFileStore: it may write an empty store before taking the lock; all runs start from an existing file.
- gofrs/flock beyond the behaviour written down at internal/approval/filestore.go:113-134.
- gRPC, TLS, generated protobuf code, YAML loading, command-line parsing and Docker files.
- The operator's command line is any sequence of Create, Decide and Get calls, in any order, which includes all it can do.
- Terminal audit events and their texts: only the attempt event before a consume is modelled.
- Syntax validators built from regular expressions are arbitrary predicates; only the hash check and the scope check are modelled.
- Paging of velo_list_flows, velo_list_hunts and velo_get_hunt_results, which do not follow the cursor scheme of flow results.
- Flow results of a server whose total disagrees with its rows, source selection and the not-found answers of GetFlowResults.
- The search for the upload's row before a download, and the file the download handler writes locally.
- Field names that are not valid UTF-8, map keys that are not strings, and the JSON form of a struct (embedded fields, omitempty, fields tagged "-").
- A partly written line when encoding an audit event fails; a failed write is taken to leave the file as it was.
- The read-only tools that compare DFIR profiles, plan a triage or list clients, artifacts and the server's own state, and the loading of the artifact catalog and the profile registry: they change nothing and only select, format or parse.
- Overflow of byte counts beyond 64 bits.

# FireCrow: a verified model of its hard cores

This project models, in Dafny, the parts of FireCrow where a mistake is easy to make and
hard to see, and proves what they are for. Everything is stated for all inputs, all
schedules and all runs; what the program asks of the outside (a clock, a resolver, a
database's choice of row, a JSON decoder) is an arbitrary parameter.

## What is modelled

**The streaming tar extractor and its inventory** (`TarFormat`, `TarDisk`, `TarArchive`,
`TarExtract`, `TarSnapshot`, `TarRoundTrip`, `TarFetch`). The inflater is a finite byte
sequence that is delivered in arbitrary short reads and may end in a decoding error; the
directory is a map from component lists to nodes; cancellation may be raised at any poll.
`TarArchive` gives the meaning of an archive: a *positional* reading of the inflated bytes
(`Cut`) replayed on a tree (`Replay`). `TarExtract` is the program's own loop nest, and is
proved to end, for every schedule of reads, with the outcome and tree of that reading. The
header format is the "ustar Interchange Format" and the "pax Extended Header" of the `pax`
utility in IEEE Std 1003.1, with the program's own deviations (see below).

**Three concurrent protocols**, each as a state machine whose runs are arbitrary action
sequences, with the handlers beside it as imperative methods that let any other actions
happen between any two of their statements:

- job admission, delivery de-duplication, cancel and retry (`Admission`, `AdmissionCap`,
  `JobStore`);
- login challenges and recovery codes, with a clock and expiring claims (`Mfa`, `MfaStore`);
- the live job stream over the lossy broadcast channel (`JobStream`, `SseHandler`).

**The authorization engine**: strict base64 (`Base64`, section 4 of RFC 4648), the
host-path gate (`HostPath`), how a request path and query are read (`PluginPath`,
`PluginQuery`), the create policy (`PluginCreate`), and the decisions with the registry
that grows over a run (`AuthzPlugin`).

**Request plumbing**: address ranges and the forwarded-hop walk (`Cidr`, `ClientIp`,
section 3.1 of RFC 4632), the resolve-once-then-pin proxy, one connection and all at once
(`EgressProxy`, `EgressRun`, section 9.3.6 of RFC 9110), and the log's redaction and truncation (`Redaction`, section 3 of RFC 3629).

**Scanner results**: which JSON values a report may be (`Report`), what a run may be taken
for (`Scanner`), what is read from a written report (`ReportReading`), and how advisory
records are merged and identified (`Osv`). `JsonValue` is the JSON tree; `Text` holds
splitting, trimming, numbers and UTF-8.

A method and the function that specifies it share constants and tests. So the limits, flags,
headers, keys, verbs and statuses that decide the results are written out once more, in
statements that do not go through those functions.

## What came out

- *The admission cap can be exceeded without any retry.* A worker that opens an execution
  puts a failed, cancelled, partial or engine-less job back in the queue
  (backend/src/orchestrator/execution.rs:85-96) without the lock. So live jobs are bounded by
  the configured limit plus the user's retries plus such reopenings (`Admission.CapHolds`), and any sum of
  the two is attained (`AdmissionCap.BoundIsAttained`). A requeue keeps the user within the
  cap if and only if, before it, the live jobs and the call that has counted and will commit
  are strictly fewer than the cap (`AdmissionCap.RevivalIsSafeExactlyWhen`); looking at the
  live jobs alone is not enough (`AdmissionCap.BelowCapIsNotEnough`).
- *One session per challenge holds as long as the redemptions do not dawdle.* A claim lives
  3900 seconds and is then dropped; a second claim needs a request that has been under way
  that long since its token was accepted, or, when its own revocation read had failed, an
  hour less the token library's leeway (`Mfa.SecondClaimIsLate`). Both limits are exact:
  two sessions are possible within T seconds if and only if T is at least 3900
  (`Mfa.TwoSessionsExactlyWhen`), and the shorter one is attained
  (`Mfa.BlindLimitIsAttained`).
- *The recovery-code counter is exact if and only if every redemption's UPDATE matched one
  row* (`Mfa.CounterTracksCodes`), which distinct hashes guarantee; equal hashes make it
  drift for good (`Mfa.EqualHashesDrift`).
- *A completion is never lost unless the latest catch-up read failed*
  (`JobStream.NoLostCompletion`), also across retries. A failed read is answered with
  silence; then the completion still arrives if and only if the stream lags again or a
  terminal message of the job is still in the channel ahead of it
  (`JobStream.AfterFailedRead`), and a run that loses it for good is reachable
  (`JobStream.LossIsReachable`).
- *A scanner report without its keys would read as clean by its shape alone*, because fields
  have defaults (`Scanner.ShapeAloneAcceptsDrift`); the key check is what keeps it from being
  a success (`Scanner.DriftIsNeverAResult`), for the top key only
  (`Scanner.NestedDriftReadsClean`). The second key that is checked, `paths`, decides
  nothing (`Scanner.PathsKeyIsImplied`).
- *The plugin trusts the id of any response*, not only of a create that it let through
  (`AuthzPlugin.AnyResponseRegisters`). The check that it lacks is exact, for one response
  (`AuthzPlugin.ObserveKeepsOwnExactlyWhen`) and for a whole run
  (`AuthzPlugin.OnlyOwnExactlyWhen`).
- *Normalizing a request path is not idempotent* (`PluginPath.NotIdempotent`): only one
  version prefix is dropped, and a path whose first segment starts with a character of more
  than one byte, with another segment behind it, makes the slice panic
  (docker-authz-plugin/src/lib.rs:228-229), so that no answer is given. Exactly these two
  break it (`PluginPath.IdempotentExactlyWhen`).
- *A scratch mount can pass without the options it must have*: the words are looked for in
  the whole text, values included, and options that are not a text are not looked at
  (`PluginCreate.PassesWithoutOptions`); `PluginCreate.TmpfsCarriesExactly` says exactly when
  a mount that passes has them.
- *Header fields are trimmed*, so a name with outer white space or a NUL cannot be spelled in
  a ustar field; exactly the trimmed names can (`TarRoundTrip.FieldSpells`).
- *An IPv6 range with prefix 0 holds its own address only*: the shift by the whole width
  shifts by nothing (`Cidr.ContainsIsSameNetwork` says so exactly; shifts are modelled as the
  release build performs them).
- *Base64 accepts non-zero bits under the padding*: decoding and encoding again gives the text
  with those bits cleared (`Base64.EncodeOfDecode`).
- Where comment and code differ, the code is modelled: the first zero block ends an archive,
  although a comment speaks of two (backend/src/agents/fetch.rs:1016-1019).

## Model

| member | source | states |
|---|---|---|
| TarFormat.ParseSize | backend/src/agents/fetch.rs:1219-1238 | the size field's value, octal text or base 256 modulo 2^64, or the octal error, as `SizeOf` says |
| TarFormat.SizeOfWritten | backend/src/agents/fetch.rs:1219-1238 | a size written in octal or base 256 at any width that holds it is read back |
| TarFormat.FieldIsNumber | backend/src/agents/fetch.rs:1219-1238 | which fields are numbers at all: binary ones modulo 2^64, blank ones as zero, and octal digits within 64 bits behind at most one plus sign |
| TarFormat.ReadPaxPath | backend/src/agents/fetch.rs:1240-1250 | the first `path` record of a pax header, line by line |
| TarFormat.SafeJoin | backend/src/agents/fetch.rs:1176-1207 | the components of a name or the reason it is refused, checks in the program's order; a name is accepted exactly when, after leading `./`, it is not empty, has at most 1024 characters, does not start with a slash, and none of its pieces is `..` or longer than 255 bytes |
| TarFormat.JoinedExactlyWhen | backend/src/agents/fetch.rs:1176-1207 | that condition for all names, and that an accepted name leads to its pieces without the empty and `.` ones, in order |
| TarFormat.ResolvedIsContained | backend/src/agents/fetch.rs:1176-1207 | every accepted name leads to ordinary components of at most 255 bytes only, so never out of the destination |
| TarFormat.ResolveOfPrinted | backend/src/agents/fetch.rs:1176-1207 | every ordinary path within the length limit is accepted as itself |
| TarArchive.ApplyKeepsSound | backend/src/agents/fetch.rs:1026-1124 | every entry keeps the tree free of links and inside ordinary components, keeps both budgets, and is charged its exact cost: file bytes twice, other bodies once |
| TarArchive.TotalIsExact | backend/src/agents/fetch.rs:1011-1137 | after any number of whole entries the total is exactly twice the file bytes plus all other bodies so far, the count exactly that of files and directories, and both are within the caps |
| TarArchive.SuccessIsPaidFor | backend/src/agents/fetch.rs:1011-1137 | a successful extraction passed every entry, charged exactly twice the archive's file bytes plus all its other bodies, and ended within both caps |
| TarArchive.BodiesAreCapped | backend/src/agents/fetch.rs:1057-1061 | no body that can end up in a file is above the file cap |
| TarArchive.ReplayLeavesWholeFiles | backend/src/agents/fetch.rs:1087-1093 | however an extraction ends, every file is the complete body of an entry or was there before |
| TarArchive.SuccessHasNoLinks | backend/src/agents/fetch.rs:1112-1116 | if an extraction succeeds, no entry of the archive has the flag `1` or `2` |
| TarArchive.LinkIsRefused | backend/src/agents/fetch.rs:1112-1116 | an extraction whose loop head stands before such an entry ends in the link error, with the tree as it was |
| TarArchive.NameEntry | backend/src/agents/fetch.rs:1027-1049 | `L` and `x` entries, by their bytes: refused above 64 KiB or over the budget, otherwise charged once, nothing written or counted, and the pending name set (or, for a header without a path, kept) |
| TarArchive.FileEntry | backend/src/agents/fetch.rs:1053-1094 | `0`, NUL and `7` entries: the three caps, the refusal of a bad name and of a link in the way, all before anything is touched; otherwise counted once, charged twice, the pending name used up and the file there |
| TarArchive.DirectoryEntry | backend/src/agents/fetch.rs:1095-1110 | `5` entries: counted once, charged once, the pending name used up and the directory there |
| TarArchive.SkippedEntry | backend/src/agents/fetch.rs:1050-1131 | every other flag but a link: charged once, nothing written or counted; `g` keeps the pending name, the rest drop it |
| TarExtract.FillBlock | backend/src/agents/fetch.rs:902-917 | for every schedule of short reads: a whole block, a clean end exactly at a block boundary, or the truncation or decoding error |
| TarExtract.ChargeBytes | backend/src/agents/fetch.rs:920-926 | the shared budget after a chunk, or its refusal |
| TarExtract.StreamExact | backend/src/agents/fetch.rs:931-956 | exactly the next bytes reach the output; the result is the charge of what was there, or cancellation |
| TarExtract.ReadMetaBody | backend/src/agents/fetch.rs:960-972 | a bounded name payload, charged, or its refusal |
| TarExtract.Discard | backend/src/agents/fetch.rs:979-986 | a skipped body is consumed and charged and leaves the disk alone |
| TarExtract.ExtractFile | backend/src/agents/fetch.rs:1053-1094 | a regular file is stored whole or not at all, also when cancelled |
| TarExtract.ExtractDir | backend/src/agents/fetch.rs:1095-1110 | a directory entry: counted, any claimed body consumed first |
| TarExtract.ExtractEntry | backend/src/agents/fetch.rs:1026-1124 | the match on the type flag does what the replay of the entry says, in every branch |
| TarExtract.ParseBlock | backend/src/agents/fetch.rs:1017-1024 | the header fields of a block, the end marker, or the octal error, as the reader of the positional reading gives them |
| TarExtract.Round | backend/src/agents/fetch.rs:1006-1137 | one turn of the loop, in every type branch, advances by a whole number of 512-byte blocks (so every header starts on the block grid and the loop ends) and continues, ends or fails as the positional reading does |
| TarExtract.ExtractTarball | backend/src/agents/fetch.rs:990-1140 | unless cancelled: the outcome and tree of the positional reading, for every read schedule; success means that no entry is a link, and coming to a link means the link error; cancelled: the tree of some loop head, or of the next entry given up; always: the disk stays valid and within its ceiling, every file is whole and within the file cap or was there before, and at most one chunk of 65536 bytes is streamed after the flag rose |
| TarSnapshot.SnapshotRepo | backend/src/agents/fetch.rs:741-834 | the walk with a stack counts every file once and no link, or refuses exactly when a cap is passed |
| TarSnapshot.ReplayWithinCaps | backend/src/agents/fetch.rs:1057-1067 | a freshly extracted tree has at most as many files and bytes as the inventory's caps allow |
| TarSnapshot.SnapshotAcceptsExtraction | backend/src/agents/fetch.rs:779-786 | the inventory never rejects a freshly extracted tree |
| TarRoundTrip.RoundTrip | backend/src/agents/fetch.rs:1021-1136 | any stream of laid-out members whose headers are read as prefix-free files and directories within the caps extracts to exactly those |
| TarRoundTrip.ExpectedMeaning | backend/src/agents/fetch.rs:1078-1110 | the tree that comes back: the files with their bytes, the directories, those above them, and nothing else |
| TarRoundTrip.UstarPlanIsPlanned | backend/src/agents/fetch.rs:1209-1238 | a trimmed NUL-free name of at most 100 bytes, written in the name field, with an octal or base-256 size, is read as what was meant |
| TarRoundTrip.PrefixPlanIsPlanned | backend/src/agents/fetch.rs:1159-1168 | so is a name split over the prefix and name fields |
| TarRoundTrip.GnuPlanIsPlanned | backend/src/agents/fetch.rs:1027-1039 | so is any name not ending in NUL behind a GNU long name, with any NUL padding |
| TarRoundTrip.PaxPlanIsPlanned | backend/src/agents/fetch.rs:1040-1046 | so is any name without line feed behind a pax path record |
| TarRoundTrip.WrittenRoundTrip | backend/src/agents/fetch.rs:1021-1136 | any prefix-free files and directories within the caps, each under a name that leads to it and with name and size in spellings of its own, come back exactly |
| TarRoundTrip.EveryItemIsSpellable | backend/src/agents/fetch.rs:1176-1207 | every item within the path and file caps has a spelling, so the round trip misses none |
| TarRoundTrip.LongNameSays | backend/src/agents/fetch.rs:1028-1039 | a GNU long name spells every name that does not end in NUL, with any NUL padding |
| TarRoundTrip.FieldSpells | backend/src/agents/fetch.rs:1213-1217 | a header field can spell a name exactly when the name is trimmed and free of NUL, within the width |
| TarFetch.Unpack | backend/src/agents/fetch.rs:249-253 | only the extraction can fail; a tree it produced is always inventoried, exactly |
| TarFetch.UnpackWritten | backend/src/agents/fetch.rs:249-253 | end to end: a written stream unpacks to the items it was written from |
| Admission.CapHolds | backend/src/api/routes_audit.rs:173-236 | in every interleaving the user's queued and running jobs are at most the configured limit (or one, if that is less than one) plus the user's retries plus the user's reopenings |
| AdmissionCap.ExcessIsRevivals | backend/src/api/routes_audit.rs:401-418 | a user's excess is exactly how often a finished job of that user was made live again, whatever happened to other users |
| AdmissionCap.CapHoldsWithoutRevivals | backend/src/api/routes_audit.rs:173-236 | a user none of whose finished jobs is made live again never exceeds the cap, whatever is requeued for others |
| AdmissionCap.SafeExactlyWhen | backend/src/api/routes_audit.rs:185-236 | from any state, every continuation without a requeue of the user stays within the cap if and only if the live jobs and the calls that have counted and can still commit fit under it |
| AdmissionCap.RevivalIsSafeExactlyWhen | backend/src/api/routes_audit.rs:401-418 | what a requeue would have to check beforehand: it is safe if and only if live jobs plus committing calls are strictly below the cap |
| AdmissionCap.BelowCapIsNotEnough | backend/src/api/routes_audit.rs:401-418 | a retry, and a reopening, that finds the live jobs below the cap and leaves them within it, with no other requeue, after which the cap is passed |
| AdmissionCap.BoundIsAttained | backend/src/orchestrator/execution.rs:76-104 | for every limit and any numbers of retries and reopenings, some run has exactly that many queued and running jobs: the limit (or one) plus both numbers |
| Admission.LockExcludes | backend/src/api/routes_audit.rs:185-190 | a call holds its user's advisory lock exactly while it is inside its transaction, and no two calls hold one key |
| Admission.OneJobPerDelivery | backend/src/api/routes_audit.rs:160-250 | calls with one delivery id, of any users at any time: one row at most, and every accepted call names it |
| Admission.RedeliveryIsFound | backend/src/api/routes_audit.rs:160-172 | once a delivery has its row, a fresh call with it gets that job before any gate |
| Admission.RefusalLeavesNoRow | backend/src/api/routes_audit.rs:207-250 | each row comes from one call, which was told its id or lost the reply; a refused call left none |
| Admission.StatusMovesLegally | backend/migrations/20260901001300_audit_jobs_lifecycle_guard.sql:17-70 | rows never disappear and their status moves only along the lifecycle guard, transition by transition |
| Admission.LegalMovesHappen | backend/migrations/20260901001300_audit_jobs_lifecycle_guard.sql:17-70 | and every one of those transitions can happen, changing that row's status and nothing else |
| Admission.RowsWritten | backend/src/api/routes_audit.rs:207-250 | a commit adds one queued row with its call's user and delivery id; a retry puts a failed, cancelled, partial or engine-less job of the user back in the queue, takes its cancel flag back, and changes no other row |
| Admission.CompletedIsFinal | backend/migrations/20260901001300_audit_jobs_lifecycle_guard.sql:25-32 | a completed job stays completed in every continuation of every run |
| JobStore.Store.CreateAuditJob | backend/src/api/routes_audit.rs:132-251 | the handler, under arbitrary interference and faults: what each reply means, a fresh job without a delivery id, refusal for the cap only when at its count the user had at least as many queued and running jobs as configured (or one), acceptance of a new row only when there were fewer, an existing delivery answered with its job, and giving up only after as many tries as it has patience |
| JobStore.Store.Submit | backend/src/api/routes_audit.rs:185-250 | lock, count, insert and commit end in a reply that the database bears out |
| JobStore.Store.RetryJob | backend/src/api/routes_audit.rs:358-421 | accepted only if the guarded UPDATE found the user's job failed, cancelled, partial or engine-less, and then the row is queued with its cancel flag taken back; refused only for a reason that held |
| JobStore.Store.CancelJob | backend/src/api/routes_audit.rs:321-356 | sets the flag of a live job of the user and changes nothing else |
| Mfa.OneSessionPerChallenge | backend/src/api/routes_auth.rs:840-858 | two redemptions that each take less than their limit (a claim's life, or an hour less the leeway after a failed revocation read) never both get a session from one challenge, however long others take; a session rests on a TOTP match or on codes that no other session spent |
| Mfa.SecondClaimIsLate | backend/src/services/auth.rs:316-350 | two claims of one challenge imply a request that was under way for a claim's whole life, or an hour less the leeway if its revocation read failed |
| Mfa.TwoSessionsExactlyWhen | backend/src/api/routes_auth.rs:843-858 | from two proven requests for one unclaimed challenge, some continuation of at most T seconds gives both a session if and only if T is at least 3900 |
| Mfa.BothProvenIsReachable | backend/src/api/routes_auth.rs:746-840 | such a state is reached from the empty database |
| Mfa.BlindLimitIsAttained | backend/src/services/auth.rs:316-350 | a reachable run gives one challenge two sessions, the second to a request whose revocation read failed and which took exactly the shorter limit |
| Mfa.CounterTracksCodes | backend/src/api/routes_mfa.rs:308-336 | rows ever used are at least the counter plus the redemptions between their two updates or missing the second, and exactly that many if and only if every UPDATE matched one row |
| Mfa.UsedCodesMatchCounter | backend/src/api/routes_mfa.rs:308-336 | without deletions and with distinct hashes, the used codes are exactly the counter plus those redemptions |
| Mfa.EqualHashesDrift | backend/src/api/routes_mfa.rs:308-318 | two unused rows with one hash leave the counter short |
| Mfa.StepKeepsGood | backend/src/api/routes_auth.rs:746-898 | every step keeps: claims apart by a claim's life, spent rows disjoint, factor before claim before session |
| Mfa.SpendsOwnCodes | backend/src/api/routes_mfa.rs:299-318 | in every run each row that a redemption spent was inserted under the configuration that its user is enrolled with and with the hash that it presented |
| Mfa.WrongCodeIsTrue | backend/src/api/routes_mfa.rs:299-321 | a redemption refused for a wrong code: at some moment of the run its user had no enrolment, or no unused row with the hash under it |
| Mfa.FlipTakesAll | backend/src/api/routes_mfa.rs:308-318 | a code that is there is taken: every unused row of the user's configuration with the hash is marked used, every other row stays as it was |
| Mfa.SessionIsForItsUser | backend/src/api/routes_auth.rs:746-840 | a session's challenge was minted for its user, and its token was accepted within 300 seconds and the leeway |
| MfaStore.Store.TryConsumeRecoveryCode | backend/src/api/routes_mfa.rs:294-337 | consumed and counted; or no such unused code under the user's enrolment during the call; or a failure that says whether the code is gone; every row it spent was inserted under that enrolment with that hash |
| MfaStore.Store.LoginMfa | backend/src/api/routes_auth.rs:746-898 | the handler under arbitrary interference: what a session rests on (a challenge minted for this user, a TOTP match or codes of this user with this hash), and a true reason for every refusal, including the lost race that costs its code |
| JobStream.NoLostCompletion | backend/src/api/routes_sse.rs:60-191 | in every run, across retries, a live stream whose latest catch-up read worked still has the announced completion ahead of it or behind a pending lag |
| JobStream.CompletionArrives | backend/src/api/routes_sse.rs:120-183 | and it yields it within as many polls as the channel keeps messages |
| JobStream.DeliveredIffAhead | backend/src/api/routes_sse.rs:120-183 | whatever reads failed before, polling delivers an announced completion if and only if the stream lags or a terminal message of the job lies at or after its cursor |
| JobStream.AfterFailedRead | backend/src/api/routes_sse.rs:146-184 | after a failed catch-up read: delivered if and only if the stream lags again or a terminal message of the job lies at or after the oldest kept; for a job never requeued that message is the completion itself |
| JobStream.LossIsReachable | backend/src/api/routes_sse.rs:146-184 | a run from the start leaves a live stream without its announced completion for good |
| JobStream.OneLastEvent | backend/src/api/routes_sse.rs:84-119 | the final event is yielded once, last, and only about a job that was finished |
| JobStream.EndedStays | backend/src/api/routes_sse.rs:120-190 | an ended stream yields nothing more |
| JobStream.YieldsExactly | backend/src/api/routes_sse.rs:60-191 | what a stream yields in every run: the error alone, or one event, `update` or final by the row, for every row and message of the job that reached it, in order; without a lag these are the snapshot and exactly the messages of the job that the channel carried from the subscription to the cursor |
| SseHandler.Handler.Serve | backend/src/api/routes_sse.rs:60-191 | the handler's loop is a run of the machine that takes a turn per poll while it is live, each read working or failing; it yields one event for each row and message that reached it and, without a lag, the snapshot and every message of the job sent since the subscription, each once; its position and what it can still deliver are as above |
| SseHandler.Handler.HandleMessage | backend/src/api/routes_sse.rs:128-184 | the receive branch from the channel's log and the cursor: a lag exactly when more than 1024 messages behind; else the next message, yielded as an update or as the final event if it is of the job, and passed over if not; the end of a closed channel |
| SseHandler.Handler.ReadLatest | backend/src/api/routes_sse.rs:146-184 | the catch-up read: one event for the row it read, final if that is terminal, and nothing for a read that failed |
| SseHandler.Handler.RecvMessage | backend/src/state.rs:18-38 | the channel's receive: lag to the oldest kept message, next message, nothing, or closed |
| Base64.Decode | docker-authz-plugin/src/lib.rs:146-198 | accepts exactly the well-padded texts, white space aside, and returns the bytes they spell |
| Base64.DecodeOfEncode | docker-authz-plugin/src/lib.rs:146-198 | decoding the encoding of any non-empty byte string returns it |
| Base64.EncodeOfDecode | docker-authz-plugin/src/lib.rs:177-198 | encoding what was decoded gives the text with its cut-off bits cleared; the length is three per quantum less the pads |
| Base64.StripInserted | docker-authz-plugin/src/lib.rs:157 | ASCII white space inserted anywhere changes nothing |
| Base64.AlphabetOfTheStandard | docker-authz-plugin/src/lib.rs:147-157 | the alphabet, the pad and the white space, letter by letter |
| HostPath.CanonicalHostPath | docker-authz-plugin/src/lib.rs:308-320 | prints where the path leads lexically |
| HostPath.CanonicalIsIdempotent | docker-authz-plugin/src/lib.rs:308-320 | canonicalizing a canonical path changes nothing |
| HostPath.InsertionsChangeNothing | docker-authz-plugin/src/lib.rs:308-320 | inserting a slash, `.`, or a name and `..` between two slashes changes nothing |
| HostPath.HostSourceDenied | docker-authz-plugin/src/lib.rs:325-339 | a source is denied exactly when it is relative, leads to the root, or leads into a denied tree, the ten trees name by name |
| PluginPath.NormalizePath | docker-authz-plugin/src/lib.rs:206-239 | the printed route of a URI, or nothing where the slice behind the first byte panics |
| PluginPath.VersionPrefix | docker-authz-plugin/src/lib.rs:225-238 | a version in front of any path is dropped and the segments behind it count as they stand; the route is that of the path alone if and only if the path is refused anyway, or has segments of which the first of several is neither a version nor makes the slice panic |
| PluginPath.EncodedIsRefused | docker-authz-plugin/src/lib.rs:206-213 | a path with an encoded slash or NUL leads nowhere |
| PluginPath.DotsAreRefused | docker-authz-plugin/src/lib.rs:206-224 | nor does one with a `.` or `..` segment anywhere, or one that does not start with a slash |
| PluginPath.PlainIsItself | docker-authz-plugin/src/lib.rs:206-239 | every other path without version is its segments |
| PluginPath.IdempotentExactlyWhen | docker-authz-plugin/src/lib.rs:206-238 | normalizing a normalized path changes nothing if and only if not both: several segments are left, and the first is a version or makes the slice panic |
| PluginPath.NotIdempotent | docker-authz-plugin/src/lib.rs:225-238 | `/v1/v2/x` and `/v1/é/x` are the two kinds of input at which it is not |
| PluginPath.DoubledSlash | docker-authz-plugin/src/lib.rs:214-221 | a doubled slash changes nothing |
| AuthzPlugin.Decide | docker-authz-plugin/src/lib.rs:369-422 | the textual tests on the path decide as the policy on segments does; a request is let through if and only if it is on the closed list |
| AuthzPlugin.AllowedExactlyWhen | docker-authz-plugin/src/lib.rs:369-524 | the closed list, verbs and segments written out: a TLS identity that is listed, a usable route, and `HEAD` or `GET _ping`, `GET version`, a `POST containers/create` or `images/create` that passes, a `POST` start, attach, wait, stop or kill or a `DELETE` of a container that is owned or has a scanner name; nothing else is let through |
| AuthzPlugin.DeniedByName | docker-authz-plugin/src/lib.rs:369-422 | an unusable path is no endpoint, and `POST grpc` is refused as such |
| AuthzPlugin.TargetsAreOwned | docker-authz-plugin/src/lib.rs:398-524 | after any history, a lifecycle or removal request passes if and only if its identity is listed and its target has a scanner name or an id that some response gave before |
| AuthzPlugin.ObserveKeepsOwnExactlyWhen | docker-authz-plugin/src/lib.rs:859-886 | the check that `observe` lacks: a response keeps the registry to own containers if and only if it gives no id, a scanner name, an id made here already, or answers a create that had passed |
| AuthzPlugin.OnlyOwnExactlyWhen | docker-authz-plugin/src/lib.rs:859-886 | over a whole run: only own containers are registered at every moment if and only if every response, as it came, would have met that check |
| AuthzPlugin.OnlyOwnContainers | docker-authz-plugin/src/lib.rs:398-524 | then every container touched has a scanner name or was made through this channel |
| AuthzPlugin.AnyResponseRegisters | docker-authz-plugin/src/lib.rs:859-886 | without the check it fails: the id in the response to a request that passed and created nothing is taken |
| AuthzPlugin.SpellingDecidesNothing | docker-authz-plugin/src/lib.rs:200-239 | a query, a doubled slash, or a version prefix (where the path is not delicate) changes no verdict that does not read the query |
| AuthzPlugin.Plugin.Observe | docker-authz-plugin/src/lib.rs:859-886 | registers exactly the id that the response gives, if it gives one |
| AuthzPlugin.IdIsRead | docker-authz-plugin/src/lib.rs:859-886 | a response body in base64 whose JSON holds an `Id` gives just that id, and none if it is empty or missing |
| PluginQuery.PullPolicy | docker-authz-plugin/src/lib.rs:430-492 | the loops and the recombination pass exactly what `PullPasses` passes |
| PluginQuery.PullPassesExactly | docker-authz-plugin/src/lib.rs:430-492 | a pull passes if and only if it spells one approved image: the whole reference, with or without its own tag again, or name and tag |
| PluginQuery.DecodedOfEncoded | docker-authz-plugin/src/lib.rs:241-259 | percent-encoded bytes are read back |
| PluginQuery.WrittenPullPasses | docker-authz-plugin/src/lib.rs:430-492 | a written query, `fromImage` alone or with `tag`, each percent-encoded, passes exactly when it spells one of the approved images |
| PluginQuery.ApprovedExactly | docker-authz-plugin/src/lib.rs:22-26 | the approved references, letter by letter |
| PluginQuery.WrittenNameIsRead | docker-authz-plugin/src/lib.rs:261-267 | a written `name` is read back, and a later one does not count |
| PluginQuery.ScannerNameExactly | docker-authz-plugin/src/lib.rs:285-302 | a scanner name, letter by letter |
| PluginCreate.CreatePolicy | docker-authz-plugin/src/lib.rs:528-856 | all the checks of a create request, in loops, pass exactly the requests that may create, field by field (next row) |
| PluginCreate.CreatePassesExactly | docker-authz-plugin/src/lib.rs:528-856 | what passes, each field with its values written out: image, user, entrypoint, command, name and body size; `Privileged` absent or false, no added and all dropped capabilities, staging binds only, no mounts, volumes or devices, two networks, four unshared namespaces, a read-only root, `no-new-privileges`, scratch mounts and no restarts |
| PluginCreate.CheckBind | docker-authz-plugin/src/lib.rs:620-656 | a bind passes if and only if it is a host path outside the denied trees, one of the two mount points, and options with `ro` |
| PluginCreate.PassingCreateIsConfined | docker-authz-plugin/src/lib.rs:528-856 | a create that passes has permitted binds only, no other volumes, and scratch mounts under `/work` only |
| PluginCreate.TmpfsCarriesExactly | docker-authz-plugin/src/lib.rs:792-829 | a scratch mount that passes has the options noexec, nosuid and nodev if and only if its options are a text that still holds the words once the values are cut off |
| PluginCreate.PassesWithoutOptions | docker-authz-plugin/src/lib.rs:792-829 | `size=noexecnosuidnodev`, and options that are not a text, pass without them |
| Cidr.ContainsIsSameNetwork | backend/src/middleware/cloudflare.rs:76-124 | an address is in a range exactly when family and quotient by two to the host bits agree; an IPv6 range of prefix 0 holds its own address only |
| Cidr.LongerPrefixIsNarrower | backend/src/middleware/cloudflare.rs:76-99 | longer prefixes imply shorter ones |
| ClientIp.ParseTrustedProxyCidrs | backend/src/middleware/cloudflare.rs:134-164 | the ranges of all entries in order, or an error as soon as one is malformed |
| ClientIp.ListDistributes | backend/src/middleware/cloudflare.rs:134-164 | the list of two texts joined by a comma is the two lists joined, all or nothing |
| ClientIp.PrefixesInRange | backend/src/middleware/cloudflare.rs:150-163 | every listed prefix is within its family's width |
| ClientIp.EntryIsRead | backend/src/middleware/cloudflare.rs:134-164 | a written entry is read back: an address stands for itself alone, and behind a slash exactly the prefixes up to 32 or 128 are taken |
| ClientIp.BlanksAside | backend/src/middleware/cloudflare.rs:137-139 | a blank entry is none, and blanks around an entry do not count |
| ClientIp.ForwardedClientIp | backend/src/middleware/cloudflare.rs:208-230 | the right-to-left walk over at most 64 hops |
| ClientIp.StopIsAnswer | backend/src/middleware/cloudflare.rs:208-230 | the nearest hop that is neither blank nor a proxy decides: its address, or nothing if it does not parse |
| ClientIp.NoStopIsOutermost | backend/src/middleware/cloudflare.rs:208-230 | if every hop seen is blank or a proxy, the answer is the leftmost proxy seen |
| ClientIp.PrependedText | backend/src/middleware/cloudflare.rs:208-230 | any text put in front of a chain changes nothing when the walk stops right of its first hop |
| ClientIp.PrependedHops | backend/src/middleware/cloudflare.rs:208-230 | hops put in front change nothing when the walk stops |
| ClientIp.ResolveClientIpWith | backend/src/middleware/cloudflare.rs:258-317 | which header speaks first, case by case: for the edge its own header, the real address, the chain; for a listed proxy the chain, the real address; then the peer; and nobody speaks for any other peer |
| ClientIp.UntrustedPeerIsItself | backend/src/middleware/cloudflare.rs:268-275 | with an untrusted peer the answer does not depend on the headers |
| ClientIp.AppendedHopWins | backend/src/middleware/cloudflare.rs:294-300 | a listed proxy that appends its caller's address decides the answer, whatever the caller sent |
| EgressProxy.AuthorityIsRead | backend/src/bin/egress_proxy.rs:156-183 | exactly the two spellings within the length limit are read, as the host and port they spell |
| EgressProxy.PrintedAuthorityIsRead | backend/src/bin/egress_proxy.rs:156-183 | a printed host and port are read back |
| EgressProxy.PrintedBracketsAreRead | backend/src/bin/egress_proxy.rs:156-183 | so are a bracketed host and port |
| EgressRun.Proxy.ServeConnection | backend/src/bin/egress_proxy.rs:253-347 | the effects of one connection, in order, while the others go on, case by case as in the next row |
| EgressProxy.ServedExactly | backend/src/bin/egress_proxy.rs:253-347 | 400 for no request; 403 without a resolution for a refused target; one resolution and 403 if it failed, was empty or held a refused address; else attempts in order, and 200 with a tunnel to the first address that answers, or 502 if none does |
| EgressProxy.HeadCompleteExactly | backend/src/bin/egress_proxy.rs:274-296 | a head is complete exactly when its first blank line ends within 8192 bytes |
| EgressProxy.ConnectLineIsRead | backend/src/bin/egress_proxy.rs:135-150 | a request line is read exactly when it says CONNECT and one of the two versions, and asks for what its authority spells |
| EgressProxy.ServedIsContained | backend/src/bin/egress_proxy.rs:188-239 | one reply; at most one resolution, none for a refused target; every address tried or tunnelled to is of that one answer, all of which the policy let through |
| EgressRun.Proxy.CheckCandidates | backend/src/bin/egress_proxy.rs:202-217 | one refused address refuses the whole answer |
| EgressRun.Proxy.ConnectPinned | backend/src/bin/egress_proxy.rs:224-239 | the validated addresses in order up to the first that answers, and no others |
| EgressRun.Proxy.HandleAccept | backend/src/bin/egress_proxy.rs:380-388 | a connection is served, or refused at once exactly when 128 are in service at that moment; served, its effects are those of its request |
| EgressRun.ServiceIsBounded | backend/src/bin/egress_proxy.rs:366-388 | in every run of any overlapping connections at most 128 are in service, and a new one is refused if and only if there are 128 |
| EgressRun.FullIsReached | backend/src/bin/egress_proxy.rs:366-388 | every number up to 128 is reached |
| EgressRun.EveryConnectionIsContained | backend/src/bin/egress_proxy.rs:188-347 | at every moment of every run every connection has replied at most once, resolved at most once and only for a target the policy passed, and touched only addresses of that one answer, all let through; all permits are back exactly when nothing is in service |
| Redaction.RedactJsonValue | backend/src/middleware/http_logger.rs:16-61 | the redacted tree, key by key, with the keys and marks of the row below |
| Redaction.OpenPlacesShown | backend/src/middleware/http_logger.rs:16-61 | which keys hide their values, word by word; at every place that none hides, a text that starts like a token is replaced by its mark and every other text, number, truth value and null is shown as it is, and a hidden key holds its mark |
| Redaction.RedactRevealsAlikeness | backend/src/middleware/http_logger.rs:16-61 | the log reveals exactly this: two trees redact alike if and only if they differ below hidden keys and in token texts only |
| Redaction.RedactIsIdempotent | backend/src/middleware/http_logger.rs:16-61 | redacting again changes nothing |
| Redaction.OpenPlacesStay | backend/src/middleware/http_logger.rs:16-61 | at every place not below a hidden key stands the redaction of what stood there, and a hidden key holds the mark |
| Redaction.RedactUriForLog | backend/src/middleware/http_logger.rs:84-112 | the redacted URI |
| Redaction.HiddenQueryKeysExactly | backend/src/middleware/http_logger.rs:63-77 | the query keys that hide their values, in capitals or not |
| Redaction.PairShown | backend/src/middleware/http_logger.rs:95-112 | a pair with such a key keeps the key and shows the mark, any other pair is shown as it is |
| Redaction.RedactedUriKeepsPairs | backend/src/middleware/http_logger.rs:84-112 | the path and the number and order of pairs stay; pairs of other keys are untouched |
| Redaction.RedactUriIsIdempotent | backend/src/middleware/http_logger.rs:84-112 | redacting a redacted URI changes nothing |
| Redaction.LoggedUriRevealsAlikeness | backend/src/middleware/http_logger.rs:84-112 | the log reveals exactly this: two URIs are logged alike if and only if path and query mark agree and the pairs, as many, differ in values of hidden keys only |
| Redaction.TruncateUtf8Safe | backend/src/middleware/http_logger.rs:122-128 | the longest run of whole characters that fits, and the mark, or the whole text |
| Scanner.DriftIsNeverAResult | backend/src/agents/scanner.rs:887-905 | output that is not JSON, or JSON without the object key `results`, such as an array, an empty object or a misspelt key, is never a success, whatever the exit status |
| Scanner.ShapeAloneAcceptsDrift | backend/src/agents/scanner.rs:621-633 | it is the key check that prevents it: the shapes with their defaults accept those documents as empty ones |
| Scanner.NestedDriftReadsClean | backend/src/agents/scanner.rs:635-641 | below the top key nothing is checked: whatever stands under a misspelt `packages`, the report counts nothing |
| Scanner.PathsKeyIsImplied | backend/src/agents/scanner.rs:894-902 | the check for `paths` decides nothing, since without it no scanned file is read |
| Scanner.OsvCountsTheReport | backend/src/agents/scanner.rs:1370-1425 | an OSV success counts the groups of all listed packages, or their records where there are no groups; it is clean if and only if no listed package has any |
| Scanner.SemgrepCountsTheReport | backend/src/agents/scanner.rs:1000-1065 | a Semgrep success had no errors and a scanned file, and its findings and refused detections are all that was reported |
| Scanner.ExitStatusDecidesOnlyBlankOutput | backend/src/agents/scanner.rs:500-545 | the exit status decides only on blank output, which is a result for a successful Gitleaks run alone |
| Scanner.Classify | backend/src/agents/scanner.rs:483-1035 | a success if and only if the run ended and its report has the required keys and shape (and for Semgrep no errors and a scanned file); then exactly the report's findings; anything else has no findings and unknown coverage |
| Scanner.DetectionsArePartitioned | backend/src/agents/scanner.rs:1050-1088 | valid and rejected detections together are the results, none lost or doubled |
| Scanner.PayloadIsInjective | backend/src/agents/scanner.rs:1293-1307 | two detections share a pre-hash payload only at one place, if rule ids are free of the separator |
| Scanner.PayloadSpelled | backend/src/agents/scanner.rs:1293-1307 | the pre-hash payload of a detection, letter by letter |
| ReportReading.DetectionIsRead | backend/src/agents/scanner.rs:803-828 | a written Semgrep detection is read with its own rule, path and lines, and accepted exactly when rule and path are not blank and the lines count from one, in order |
| ReportReading.SemgrepIsRead | backend/src/agents/scanner.rs:772-905 | a written Semgrep report is a result exactly when it has no errors and scanned something, and gives its detections in order |
| ReportReading.VulnIsRead | backend/src/agents/scanner.rs:1575-1588 | a written advisory record is read with its own id, aliases and affected packages, and with the severity that its database names |
| ReportReading.AffectedIsRead | backend/src/agents/scanner.rs:698-731 | a written affected package is read with its name and, range by range, the fixed versions |
| ReportReading.EventIsRead | backend/src/agents/scanner.rs:722-731 | an event gives its fixed version, and none if it has none |
| ReportReading.PackageIsRead | backend/src/agents/scanner.rs:652-671 | a written package is read with its name, version and ecosystem, its records and its groups |
| ReportReading.SourceIsRead | backend/src/agents/scanner.rs:1370-1377 | a written source is read with its packages and its manifest |
| ReportReading.SourcesAreRead | backend/src/agents/scanner.rs:1340-1377 | a written report is read with its sources, and `null` in their place is a report without findings |
| ReportReading.ListInNoiseIsRead | backend/src/agents/scanner.rs:2079-2101 | a Gitleaks list that stands in other output is found |
| Osv.GroupFinding | backend/src/agents/scanner.rs:1432-1460 | aliases and fixed versions are the sorted sets of what the records say, the severity is the worst stated one |
| Osv.MergeIgnoresOrder | backend/src/agents/scanner.rs:1432-1460 | a merge does not depend on the order or repetition of records and later ids |
| Osv.PackageFindings | backend/src/agents/scanner.rs:1387-1425 | one finding per alias group, or per record without groups, in order, merged from the records listed under the group's ids, each id's last |
| Osv.ReportedExactlyWhen | backend/src/agents/scanner.rs:1387-1425 | a listed record reaches a finding if and only if it is the last of its id and, where the package has groups, a group names it |
| Osv.AffectedFixed | backend/src/agents/scanner.rs:1615-1663 | every fixed version of an entry about the package, once, in order |
| Osv.PayloadIsInjective | backend/src/agents/scanner.rs:1688-1699 | advisory payloads determine their fields, if all but the manifest are free of the separator |
| Osv.PayloadSpelled | backend/src/agents/scanner.rs:1688-1699 | the pre-hash payload of an advisory, letter by letter |
| Osv.WorstByName | backend/src/agents/scanner.rs:1589-1600 | the worst severity, level by level |
| Osv.LessExactly | backend/src/agents/scanner.rs:1615-1663 | the order of the sorted lists: a proper beginning, or the smaller letter at the first difference |

## Left out

- TarExtract.ExtractTarball: the gzip inflater is a finite byte sequence that may end in an error, and the destination is a fresh private directory in which nothing else writes; spontaneous failures of the operating system (a full disk, a path too long for it) are not modelled.
- TarSnapshot.SnapshotRepo: does not model the lists of languages, manifests, binary and sensitive files; they are taken from each file alone.
- TarExtract.Round: the header reader is passed as a function value, of which the program's own is the instance in ExtractTarball and in the round trip.
- JobStore.Store.RetryJob: the rows of running executions are outside the model, so their count is an arbitrary answer.
- JobStore.Store.CreateAuditJob: the checks of the repository URL, branch and commit before the first statement are not modelled; a wait for a lock or for another transaction's row ends after an arbitrary number of tries.
- Mfa.OneSessionPerChallenge: stated for one monotone clock and a leeway below an hour.
- MfaStore.Store.LoginMfa: signatures, TOTP and hashing are given answers; the rows of login failures appear only as the lockout's answer; disabling MFA (which deletes a configuration) is not an action of the model.
- JobStream.NoLostCompletion: payloads are a job's identity, whether it is finished, and its attempt; phases and rendering are left out.
- HostPath.HostSourceDenied: symbolic links on the host are not resolved, as in the program.
- Cidr.ContainsIsSameNetwork: the edge's published ranges are a parameter, so the results hold for every table.
- ClientIp.ResolveClientIpWith: the standard library's address parser is a parameter; header values are texts or absent.
- EgressRun.Proxy.ServeConnection: the address policy, the resolver's answer and reachability are parameters; time-outs are failures to answer, and the copying of bytes through a tunnel is left out.
- Redaction.RedactJsonValue: rewrites values instead of a tree in place, and the lower-casing of keys is a parameter.
- Scanner.Classify: the JSON grammar, the lower-casing of texts and the path rule are parameters; execution records, redaction of stderr and titles are left out.
- Osv.GroupFinding: descriptions, references, CWE ids, the retained ranges and the manifest line are left out.
- AuthzPlugin.Decide: the rules and messages of a refused create or pull are one each, and the decision log is left out.
- Downloads, GitHub calls, the scanner sandbox, JWT and bcrypt, the regular-expression redaction of texts, and the frontend.
- Single sign-on, tenants, access management and configuration: plumbing with single-branch claims.

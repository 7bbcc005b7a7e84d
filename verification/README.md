# PrivChat server: a verified model

A Dafny 4.11 model of the parts of the PrivChat chat server whose correctness
depends on interleavings, histories or exact text formats. `dafny verify
dfyconfig.toml` checks all of it.

Three protocols are state machines over unbounded runs, in which every SQL
statement is one atomic step and anything may happen between two steps:

- **Schema migrations** (`Migrations`, `MigrationSafety`, `MigrationRunner`).
  Any number of processes poll an advisory lock, read the ledger, and run each
  pending migration in a transaction of its own. A statement or hook may fail,
  and a session may die, anywhere. Main results: `LedgerIsHistory`,
  `LedgerOnlyGrows`, `CommitsAreDistinct`, `SuccessIsLasting`,
  `SecondRunIsEmpty`, `BaselineFirstIsExact`. `MigrationRunner` holds the loops
  themselves, verified with other sessions running between any two statements.
- **Device sessions and tokens** (`DeviceSessions`, `TokenLifetimes`,
  `UnifiedTokens`). A session version is read in one step and signed into a
  token in a later one. Main results: `OldCredentialsStayDead`,
  `OldCredentialsMintNothing`, `AcceptedIffCurrent`, `KickOthersIsEffective`,
  `OnlyReactivateThaws`, `RefreshIffActive`, `VerifiedIff`, `ActiveIff`,
  `IssuedTokenWorks`.
- **Idempotent sends** (`DedupKeys`, `DedupSweep`, `IdempotentSend`,
  `SendSafety`). Pre-check, claim, commit and reply are separate steps; crashes,
  retries, other writers and the retention sweep come in anywhere. Main results:
  `OneMessagePerKey`, `RepliesAgree`, `RetryIsAnswered`, `RepliesDoNotMix`,
  `ZeroNeverDeduplicates`, `SequencesSharedIff`, `StoredUntilDissolved`.

Beside the theorems over runs stand laws of single steps (`DecidedBy`,
`SessionMoves`, `VersionsRead`, `LookupsAnswer`, `CommitStores`, `OthersWrite`),
which fix what each statement does without naming the functions that define it.

The rest are loops, parsers and indexes with exact specifications: the daily log
file and its archives (`ArchiveNames`, `LogRotation`, whose `Run` ranges over any sequence of writes
and starts), the attachment key table
(`AttachmentKeys`, `KeyTable`), log redaction (`JsonValue`, `LogRedaction`),
message payloads (`Utf8`, `PayloadText`), the in-memory device registry
(`DeviceIndex`) and the transfer validators (`TransferValidation`). `Text` holds
strings, numbers and splitting.

Where the source updates state in place, the model is a class whose methods are
proved against specification functions: `Server`, `DeviceManagerDb`,
`UnifiedTokenService`, `Database`, `DailyRenameAppender`, `DeviceManager`,
`TokenRevocationService`. `Server.Others`, `DeviceManagerDb.OtherRequests` and
`Database.Others` stand for what other requests do meanwhile: their bodies do nothing, but their
callers may rely on nothing except the contract, which allows any interference.

Where code and documentation disagree, the model follows the code:

- The comment at src/auth/device_manager_db.rs:453 says a repeated login keeps
  the session version; the statement at src/auth/device_manager_db.rs:488 raises
  it. The comment at src/auth/token_issue_service.rs:91 has the same slip.
- The comment at src/logging.rs:159 says the purge touches only names of its own
  making. It looks at the name only up to the dot after the date:
  `ForeignFilePurged` gives a file that is lost, `ForeignFilesKeptIff` says
  exactly when none is.
- The baseline is meant to run on an empty database only
  (src/migrate.rs:217-224). The guard compares with the ledger as it was when
  the run began. A baseline that drops the ledger table, as the comment at
  src/migrate.rs:49 describes it (the shipped one does not), therefore loses no
  row exactly when it is listed first: `BaselineFirstIsExact`.
- Sequence numbers order the messages of a channel, but the announcement of a new
  member (src/repository/message_repo.rs:1312-1343) is stored under 0 beside the
  counter: `AnnouncementsShareZero`, `SequencesSharedIff`.
- Removing a user's devices (src/auth/device_manager.rs:172-188) also unindexes
  a device that has since registered under another user:
  `MovedDeviceUnindexed`, `OthersSparedIff`.

## Model

| member | source | states |
|---|---|---|
| `MigrationSafety.DecidedBy` | src/migrate.rs:189-237 | A named row with the same digest is skipped, with another or none refused under its own error; an unnamed entry runs, unless it is the baseline and the snapshot is not empty. |
| `MigrationSafety.LockMoves` | src/migrate.rs:127-176 | Exactly which statements take, keep and free the advisory lock, and that a session may be lost at any point. |
| `MigrationSafety.SessionMoves` | src/migrate.rs:118-291 | Where every statement and failure leads a session, with its outcome, path and executed list, and what it does to the database. |
| `MigrationSafety.FreshName` | src/migrate.rs:189-216 | A migration inside a transaction has a name that no committed migration has: neither the snapshot nor anything executed since contains it. |
| `MigrationSafety.EffectsStep` | src/migrate.rs:242-279 | Of all statements and failures only a commit changes the committed effects; it appends exactly the row of the migration being run, under a name not yet there, and the ledger equals the effects afterwards. |
| `MigrationSafety.OwnSession` | src/migrate.rs:118-291 | Every statement or failure of a session leaves that session's own part of the invariant intact, phase by phase. |
| `MigrationSafety.OtherSession` | src/migrate.rs:118-176 | A session that does not step is not changed by one that does, and its part of the invariant survives the other's commit because a committer is alone under the lock. |
| `MigrationSafety.ExclusiveStep` | src/migrate.rs:127-176 | Polling, timing out, a failing lock statement, unlocking, a failing unlock and a lost connection keep the lock exclusive. |
| `MigrationSafety.InvStep` | src/migrate.rs:118-291 | The invariant (ledger equals effects, distinct names, lock exclusive, every session consistent) is kept by every event of every session, and effects only grow. |
| `MigrationSafety.RunInv` | src/migrate.rs:118-291 | The invariant holds in every state of every run of any number of sessions, with a crash or a failing statement or hook anywhere. |
| `MigrationSafety.LedgerIsHistory` | src/migrate.rs:118-291 | In every reachable state the ledger lists exactly the committed migrations, in commit order, each name once. |
| `MigrationSafety.LedgerOnlyGrows` | src/migrate.rs:258-279 | No ledger row is ever lost or reordered between any two states of a run, although the baseline may drop the table holding them. |
| `MigrationSafety.CommitsAreDistinct` | src/migrate.rs:118-291 | Exactly once: two commits of a run never carry the same name, nor a name in the ledger at the start. |
| `MigrationSafety.OneRunnerAtATime` | src/migrate.rs:123-176 | Two sessions are never both between taking the lock and releasing it. |
| `MigrationSafety.UniqueNeverFires` | src/migrate.rs:268-275 | The ledger insert never meets an existing name. |
| `MigrationSafety.StartsInPublic` | src/migrate.rs:252-285 | Every migration after the first one executed by a run starts with the session search path set to public. |
| `MigrationSafety.SuccessIsLasting` | src/migrate.rs:186-291 | After a successful run every embedded migration is in the ledger with its current digest, in all later states. |
| `MigrationSafety.MismatchStopsTheRun` | src/migrate.rs:190-216 | A listed name recorded with another digest, or none, keeps the run from executing that entry or any after it, and from succeeding or being about to. |
| `MigrationSafety.IdleStep` | src/migrate.rs:186-216 | A session whose whole list is on record stays without a transaction under any step of any session. |
| `MigrationSafety.SecondRunIsEmpty` | src/migrate.rs:186-216 | A run that starts with everything on record never opens a transaction and no event of it changes the ledger rows or the committed effects; it ends with an empty list, without the lock, or with a failing statement, nothing else. |
| `MigrationSafety.BaselineFirstIsExact` | src/migrate.rs:217-237 | The guard on the baseline looks at the snapshot taken at the start: with a baseline that may drop the ledger table, sessions embedding a list with distinct names never lose a ledger row if and only if nothing is listed before the baseline. |
| `MigrationRunner.OthersRely` | src/migrate.rs:118-176 | Whatever other sessions do between two statements, a session is untouched, and while it holds the lock so is the database. |
| `MigrationRunner.PlanIsPending` | src/migrate.rs:189-237 | When nothing is refused, what a run executes is exactly what the snapshot does not name. |
| `MigrationRunner.FailsIff` | src/migrate.rs:189-289 | A turn fails exactly if it does not go well: the entry is on record under its digest, or is unnamed, is no baseline over a used ledger, and every statement and hook succeeds. |
| `MigrationRunner.ErrorIsReason` | src/migrate.rs:189-289 | The error of a failing turn names what stopped it: digest changed, digest missing, baseline refused, hook or statement failed. |
| `MigrationRunner.Server.AcquireLock` | src/migrate.rs:127-159 | With readings of the clock at least a sleep apart, the polling loop ends after at most 121 attempts: with the lock, with the error of a failing lock statement, or with a timeout, the latter exactly once a reading has reached the deadline; the ledger keeps its rows meanwhile. |
| `MigrationRunner.Server.RunSqlAndHook` | src/migrate.rs:242-250 | Begin, SQL and hook change nothing committed; they fail exactly where told to, with the error of that point. |
| `MigrationRunner.Server.Record` | src/migrate.rs:252-275 | Search path, ledger table and ledger row change nothing committed; the insert never meets an existing name; each may fail. |
| `MigrationRunner.Server.Finalize` | src/migrate.rs:277-288 | The commit makes the migration and its row visible together; a failing commit may have landed, and a failing path restore leaves it committed although the run ends with an error. |
| `MigrationRunner.Server.MigrateOne` | src/migrate.rs:239-288 | Wherever its turn fails, from begin to path restore, a migration is committed whole with its row or leaves nothing behind; the error is exactly that of the failing point; other sessions run between any two statements. |
| `MigrationRunner.Server.Turn` | src/migrate.rs:189-289 | One turn skips, refuses or executes; it fails exactly when the entry does not go well, with the error that says why, and the ledger grows by exactly the migration that landed. |
| `MigrationRunner.Server.ApplyLocked` | src/migrate.rs:181-291 | The whole loop: the ledger is extended by the rows of a first part of the pending list, on success by all of them, and the reported names are exactly the listed ones the ledger lacked; it succeeds if and only if the ledger can be read and every entry goes well, and a failure carries the reason of the first entry that does not. |
| `MigrationRunner.Server.ApplyPending` | src/migrate.rs:118-176 | Lock, run, unlock: on success the whole list is on record and the report is what the ledger lacked when the lock was obtained; the lock is released unless the unlock fails. |
| `DeviceSessions.VersionsNeverFall` | src/auth/device_manager_db.rs:195-546 | Over any statements a row's version never falls, and a row stops being Active only with a higher version. |
| `DeviceSessions.MarksStayOk` | src/auth/device_manager_db.rs:241-546 | The kick mark is set exactly on Kicked and Revoked rows: kept by every sequence of statements. |
| `DeviceSessions.OnlyReactivateThaws` | src/auth/device_manager_db.rs:90-115 | On a Frozen, PendingVerify or out-of-range row no logins, kicks, bumps, increments or revokes make any token verify. |
| `DeviceSessions.ReactivateThaws` | src/auth/device_manager_db.rs:414-442 | Right after a reactivation exactly the tokens not older than the row verify. |
| `DeviceSessions.KickOthersIsEffective` | src/auth/device_manager_db.rs:146-238 | With any statements between the SELECT and the UPDATE, every device of the user other than the current one that was Active is inactive right after, at a version above the old one, with the kick recorded, and no token up to the old version verifies; every other row is unchanged. |
| `DeviceSessions.Report` | src/auth/device_manager_db.rs:218-238 | The loop reports exactly the selected devices, each once, with the version of the SELECT and that version plus one. |
| `DeviceSessions.DeviceManagerDb.VerifyDeviceSession` | src/auth/device_manager_db.rs:57-138 | Every verdict exactly: valid, not found, inactive with its state (an out-of-range one counts as Revoked), version mismatch with both versions; a malformed device id or a failing query is an error. |
| `DeviceSessions.DeviceManagerDb.KickDevice` | src/auth/device_manager_db.rs:241-293 | Kicks exactly the Active row of that device with version, time, kicker and reason; not found exactly when there is none; errors change nothing. |
| `DeviceSessions.DeviceManagerDb.KickOtherDevices` | src/auth/device_manager_db.rs:146-238 | The SELECT, other requests, the UPDATE and the report: exactly the other Active devices of the user are reported, each once, and are then inactive at no less than the reported version; every other row, the current device's included, is as the other requests left it; either statement may fail. |
| `DeviceSessions.DeviceManagerDb.IncrementSessionVersion` | src/auth/device_manager_db.rs:296-332 | Raises the one row's version by one, writes the reason and returns the version, or fails and changes nothing. |
| `DeviceSessions.DeviceManagerDb.BumpUserSessions` | src/auth/device_manager_db.rs:341-366 | Raises exactly the user's Active rows by one and counts them. |
| `DeviceSessions.DeviceManagerDb.RevokeAllDevices` | src/auth/device_manager_db.rs:369-399 | Revokes exactly the user's Active rows, raising their versions; afterwards no token of the user verifies anywhere. |
| `DeviceSessions.DeviceManagerDb.ReactivateDevice` | src/auth/device_manager_db.rs:414-442 | Makes the row Active and clears its marks without touching its version. |
| `DeviceSessions.DeviceManagerDb.RegisterOrUpdateDevice` | src/auth/device_manager_db.rs:456-546 | A new row starts Active at version 1; an existing one is raised by one and, only from Kicked or Revoked, made Active with its kick marks cleared; the exact table is stated. |
| `TokenLifetimes.InvStep` | src/auth/token_issue_service.rs:89-130 | No step puts a token, or a version about to be signed, ahead of its row; this includes signing version 1 after a failed upsert. |
| `TokenLifetimes.RunInv` | src/auth/unified_token_service.rs:189-223 | On every reachable state no signed version is ahead of its row, versions being read in one step and signed in a later one. |
| `TokenLifetimes.AcceptedIffCurrent` | src/auth/device_manager_db.rs:117-137 | For every token ever signed the less-than test accepts exactly those equal to the current version of an Active row. |
| `TokenLifetimes.RefreshKeepsVersion` | src/auth/unified_token_service.rs:338-354 | Either refresh path signs exactly the version of the refresh token it was given. |
| `TokenLifetimes.VersionsRead` | src/auth/token_issue_service.rs:89-130 | The version each request will sign: the row's after an upsert or lookup, 1 without a row or for a device just enrolled, the refresh token's own or the row's on the two refresh paths. |
| `TokenLifetimes.RefreshTakes` | src/auth/unified_token_service.rs:334-354 | Both refresh paths accept exactly the signed refresh tokens whose row is Active and not ahead of them. |
| `TokenLifetimes.IssuedTokenWorks` | src/auth/unified_token_service.rs:189-223 | A token issued and signed undisturbed verifies exactly unless its row was frozen, pending or out of range. |
| `TokenLifetimes.LoginTokenWorks` | src/auth/token_issue_service.rs:89-130 | A login on a known device yields a token that verifies exactly if the row is Active; one on an unknown device always does. |
| `TokenLifetimes.RefreshedTokenWorks` | src/auth/unified_token_service.rs:334-354 | An access token from an accepted refresh verifies. |
| `TokenLifetimes.AlwaysPossible` | src/auth/token_issue_service.rs:89-130 | Statements, issues and logins are possible in every state, so the theorems range over all of them. |
| `TokenLifetimes.ChangeRaisesVersion` | src/auth/device_manager_db.rs:195-546 | Every statement that changes a row, other than reactivating it, raises its version by one. |
| `TokenLifetimes.OldOnesStayOld` | src/auth/unified_token_service.rs:189-223 | Versions read up to some moment stay at most the row version of that moment, in tokens and in requests under way, over any continuation. |
| `TokenLifetimes.OldCredentialsStayDead` | src/auth/device_manager_db.rs:57-138 | Once a kick, bump, revoke, increment or repeated login changes a row, no token whose version was read before verifies again in any continuation, later signings, logins and reactivations included. |
| `TokenLifetimes.OldCredentialsMintNothing` | src/auth/unified_token_service.rs:334-354 | Nor does either refresh path accept such a token in any continuation. |
| `TokenLifetimes.ReactivationNeverRevivesKicked` | src/auth/device_manager_db.rs:414-442 | If any statements took an Active row out of that state, reactivating it does not make valid a token that was good before. |
| `UnifiedTokens.IssuedIsAccepted` | src/auth/token_service.rs:208-296 | An issued token passes verification for its own type alone, until its expiry plus the leeway, exactly if its audience meets the configured one. |
| `UnifiedTokens.VerifiedIff` | src/auth/token_service.rs:247-296 | A token is accepted exactly if it is sealed with the configured algorithm and key, its kid is absent or ours (RS256), it has not expired with the leeway, its issuer and one of its audiences are ours and its type is the expected one; expiry and an unknown kid are reported exactly as such. |
| `UnifiedTokens.IssuedCarries` | src/auth/token_service.rs:208-244 | Every claim of an issued token, field by field. |
| `UnifiedTokens.CtEq` | src/auth/unified_token_service.rs:504-513 | The accumulating comparison answers equality. |
| `UnifiedTokens.RefreshIffActive` | src/auth/unified_token_service.rs:265-470 | Refresh succeeds exactly when introspection on the same state and instant reports the token active, it is a refresh token of that device and its hash is the stored one, although the two check in different orders. |
| `UnifiedTokens.RefreshNeverRaises` | src/auth/unified_token_service.rs:338-354 | Refresh never signs a version above that of its refresh token. |
| `UnifiedTokens.MintedFrom` | src/auth/unified_token_service.rs:338-354 | A refresh mints user, device, scope, audience and systems from the refresh token and the version from the row. |
| `UnifiedTokens.ActiveIff` | src/auth/unified_token_service.rs:394-470 | Introspection calls a token active exactly if it passes as access or refresh token, its row is Active and not ahead, and, for a refresh token, its record is neither revoked nor expired; it then reports the token's user and claims. |
| `UnifiedTokens.InactiveBecause` | src/auth/unified_token_service.rs:394-470 | Which reason an inactive token is given, for each cause. |
| `UnifiedTokens.DeviceChosen` | src/auth/unified_token_service.rs:152-167 | The requested device id is used as it is unless absent or blank, else the generated one. |
| `UnifiedTokens.RevokedStaysRevoked` | src/repository/refresh_token_repository.rs:120-205 | A revoked record keeps its revocation time under every later operation, and both pipelines refuse its token on every device table. |
| `UnifiedTokens.RevocationsMark` | src/repository/refresh_token_repository.rs:169-205 | Revoking by user and device, or by user, marks exactly the matching records not revoked yet and changes nothing else. |
| `UnifiedTokens.UnifiedTokenService.Issue` | src/auth/unified_token_service.rs:152-259 | Upsert, sign, store: exact device row, both tokens and the record on success; each error exactly when its check or statement fails, with the device row written and no record after a failing insert. |
| `UnifiedTokens.UnifiedTokenService.RefreshToken` | src/auth/unified_token_service.rs:265-391 | The imperative pipeline succeeds exactly when the pure one does and every query answers; it is unavailable exactly when all checks before a query passed and that query did not answer, and else refuses with the pure one's error; it signs from the row's version and changes only the last-used time. |
| `UnifiedTokens.UnifiedTokenService.Revoke` | src/auth/unified_token_service.rs:473-491 | By jti or by the token itself: marks exactly the unrevoked records meant, keeps earlier marks, and counts. |
| `UnifiedTokens.IssueThenRefresh` | src/auth/unified_token_service.rs:152-354 | Right after an issue its refresh token can be used exactly when the row is Active, the audience meets the configured one and the lifetime is positive; the minted version is the issued one. |
| `UnifiedTokens.RefreshIsAStep` | src/auth/unified_token_service.rs:334-354 | A refresh that succeeds is a step the token machine allows for that token, reading the version that is then minted: the lifetime theorems apply to it. |
| `UnifiedTokens.IssueIsAStep` | src/auth/unified_token_service.rs:189-223 | An issue is the machine's upsert followed by the signing of both tokens, with the same device table and versions. |
| `DedupKeys.ClientKeyInjective` | src/handler/send_message_handler.rs:206-208 | The key string determines user, device and local id for every device text, colons included. |
| `DedupKeys.ClientKeyIsSweepable` | src/server.rs:2144-2149 | No client key falls under the exempted call-summary prefix. |
| `DedupKeys.KeyText` | src/handler/send_message_handler.rs:206-208 | The text of a client key, and which keys LIKE 'call-summary:%' matches. |
| `DedupKeys.PayloadCannotImpersonate` | src/handler/send_message_handler.rs:215-230 | A claimed sender never changes who the sender is; it is refused exactly when it names someone else. |
| `DedupKeys.SenderIs` | src/handler/send_message_handler.rs:215-230 | The sender is the session's user and device; refused exactly without a session, with a malformed user id, an empty device, or another sender in the payload. |
| `DedupSweep.Database.DeleteBatch` | src/server.rs:2144-2153 | One round deletes only expired, unexempted keys, as many as there are up to the batch size. |
| `DedupSweep.Database.Sweep` | src/server.rs:2135-2172 | With any other writers between two rounds, each round deletes only keys older than seven days outside the exemption; a tick without a failing statement ends after twenty full batches or with no such key left; undisturbed, it deletes exactly as many as there are up to that many; the total is exact. |
| `SendSafety.NewIsFresh` | src/repository/message_repo.rs:464-515 | A message is stored only under an unused id and a free key. |
| `SendSafety.OpenClaimsStep` | src/repository/message_repo.rs:466-479 | An uncommitted claim belongs to one request and excludes a committed claim of the key, at every step. |
| `SendSafety.KeysHeldStep` | src/handler/send_message_handler.rs:1159-1210 | A stored message keeps its key until the sweep takes it, at every step. |
| `SendSafety.AnswersOkStep` | src/handler/send_message_handler.rs:277-347 | Every answer given or about to be given names a message stored under its key, with its sequence number, at every step; a message gone with its channel is not found by a later lookup. |
| `SendSafety.SequencesOkStep` | src/repository/message_repo.rs:518-560 | Sequence numbers of a channel stay at most the counter, 0 marks exactly the announcements, and no other number is shared or still reserved, at every step. |
| `SendSafety.InvStep` | src/handler/send_message_handler.rs:1159-1210 | The whole invariant is kept by every step: sends, retries, refusals, crashes, other writers, announcements without a number, late projections, edits, dissolved channels, sweeps, time. |
| `SendSafety.RunInv` | src/handler/send_message_handler.rs:277-347 | The invariant holds in every state of every run. |
| `SendSafety.OneMessagePerKey` | src/handler/send_message_handler.rs:1159-1210 | For every interleaving at most one message per key exists until the sweep takes the key, and it is the one the key's row names. |
| `SendSafety.RepliesAgree` | src/handler/send_message_handler.rs:277-347 | All success replies to one user, device and nonzero local id carry the same message id and sequence number until the sweep takes the key. |
| `SendSafety.RetryIsAnswered` | src/handler/send_message_handler.rs:277-347 | A repeated send whose key is on record and whose message is present is answered with that message's id and number, storing nothing. |
| `SendSafety.FirstSendIsStored` | src/handler/send_message_handler.rs:1159-1210 | A send under a free key, undisturbed, stores one message under the next number of its channel and the client's key, and replies with both. |
| `SendSafety.LookupsAnswer` | src/handler/send_message_handler.rs:277-347 | Pre-check and conflict lookup find exactly the present message recorded under the client's key; without one the request goes on or fails. |
| `SendSafety.ClaimTakes` | src/repository/message_repo.rs:464-479 | A claim is taken exactly if no committed claim has the key; a zero local id claims nothing. |
| `SendSafety.CommitStores` | src/repository/message_repo.rs:481-545 | A commit stores message, claim and counter together and nothing else. |
| `SendSafety.ResponseSays` | src/handler/send_message_handler.rs:1159-1210 | A success reply carries what was found or saved and ends the request. |
| `SendSafety.FailureRollsBack` | src/handler/send_message_handler.rs:1159-1210 | A refused or crashed request leaves the tables as they were and frees its open claim. |
| `SendSafety.OthersWrite` | src/repository/message_repo.rs:518-560 | What every other writer, edit, dissolution and sweep does to the tables. |
| `SendSafety.AlwaysPossible` | src/handler/send_message_handler.rs:277-347 | In every state numbers can be taken, channels dissolved, time can pass and a request can fail. |
| `SendSafety.YoungIsNotSwept` | src/server.rs:2135-2149 | The sweep never takes the key of a message younger than seven days, so for these the two results above hold outright. |
| `SendSafety.RepliesDoNotMix` | src/handler/send_message_handler.rs:202-208 | Replies to different user, device or local id never name the same message. |
| `SendSafety.ZeroNeverDeduplicates` | src/handler/send_message_handler.rs:277-347 | With local id 0 two requests are never answered with one message. |
| `SendSafety.SequencesSharedIff` | src/repository/message_repo.rs:518-545 | In every reachable state two messages of a channel share a sequence number if and only if both are administrative announcements; these and only these carry 0. |
| `SendSafety.AnnouncementsShareZero` | src/repository/message_repo.rs:1312-1343 | Counterexample to distinct numbers: from any start two announcements in one channel are both stored under 0. |
| `SendSafety.NewNumber` | src/repository/message_repo.rs:518-545 | A new message gets 0 if it is an announcement, and otherwise a number that no message of its channel has and no later writer holds. |
| `SendSafety.StoredUntilDissolved` | src/service/channel_service.rs:717-775 | Over any run a stored message keeps its channel, sequence number, key, time and origin, and stays in its table exactly until its channel is dissolved; edits, revocations and soft deletions remove nothing. |
| `SendSafety.GoneKeyIsRefused` | src/repository/message_repo.rs:481-515 | While its row lasts, the key of a message gone with its channel is neither answered nor stored under again: the send ends in an error. |
| `SendSafety.ExemptForGood` | src/server.rs:2144-2149 | A call-summary claim is never removed or changed, over any run. |
| `SendSafety.SweepIsAStep` | src/server.rs:2141-2153 | Every batch the sweep loop deletes is a step the send machine allows, with the same resulting table. |
| `ArchiveNames.WindowIsLastDays` | src/logging.rs:165-181 | Not being before today minus (retention - 1) means being later than today or among the last retention days, across months, leap years and year ends. |
| `ArchiveNames.MonthLengths` | src/logging.rs:165-181 | The Gregorian calendar: month lengths, leap years, first and last year. |
| `ArchiveNames.ParseFormatted` | src/logging.rs:186-192 | The lenient date reader reads back every formatted date, years outside 0 to 9999 included. |
| `ArchiveNames.ReadIffSpelled` | src/logging.rs:186-192 | A text is read as a date exactly if it spells one: white space before each number, one or two digits for month and day, a year of up to four digits or signed. |
| `ArchiveNames.NameKeepsDate` | src/logging.rs:231-246 | Every name rotation can produce is read by the purge as the same date. |
| `ArchiveNames.NamesDiffer` | src/logging.rs:231-246 | Date and index can be told from an archive name. |
| `ArchiveNames.SearchEndsIff` | src/logging.rs:238-245 | Iterating the saturating 32-bit increment from 1, the search for a name ends exactly when some index up to 2^32 - 1 is free. |
| `ArchiveNames.FreeIndexIff` | src/logging.rs:238-245 | Some index is free if and only if fewer than 2^32 - 1 of the indexed names of that date are taken, whatever else the directory holds. |
| `ArchiveNames.NextArchiveName` | src/logging.rs:231-246 | The loop ends with a name not in the directory: the plain one if free, else the lowest free index. |
| `LogRotation.PurgeByDate` | src/logging.rs:165-201 | An archive of rotation is expired exactly when retention is on and its date is neither later than today nor among the last retention days; the base file never is. |
| `LogRotation.ForeignFilesKeptIff` | src/logging.rs:152-201 | Files rotation cannot have named (index 0 or beyond 32 bits included) all survive a purge if and only if none of them reads, up to the dot after the date, as an expired archive. |
| `LogRotation.ForeignFilePurged` | src/logging.rs:152-201 | Counterexample to the documented promise: server.log.2026-07-01.tar.gz is not a name of rotation and is purged on 7 August 2026, keeping seven days. |
| `LogRotation.CompressedCopyPurged` | src/logging.rs:152-201 | The whole family: a compressed copy of any expired archive of any log file is no name of rotation and is purged. |
| `LogRotation.RemoveExpired` | src/logging.rs:182-201 | The directory loop removes exactly the expired entries the system lets it remove. |
| `LogRotation.HistoryKeepsSegments` | src/logging.rs:107-151 | Over any sequence of operations of any days, each with its own cut-off, every stretch of accepted bytes keeps its content as a prefix and is purged only if its archive was expired at one of the cut-offs. |
| `LogRotation.HistoryKeepsFiles` | src/logging.rs:165-201 | Over any such sequence a file that no operation writes and no cut-off expires is as it was. |
| `LogRotation.DailyRenameAppender.Archive` | src/logging.rs:127-151 | Renames the base file to a name of that date nothing had, or fails and changes nothing; every other file is untouched. |
| `LogRotation.DailyRenameAppender.PurgeExpired` | src/logging.rs:165-201 | Removes exactly the expired names and no accepted byte elsewhere. |
| `LogRotation.DailyRenameAppender.RotateIfDayChanged` | src/logging.rs:127-151 | At a change of day the base file moves to an unused name of the day it was written for and an empty one is opened; it fails exactly when the flush, the rename or the open does, and then every accepted byte is still in a file; only expired archives disappear. |
| `LogRotation.DailyRenameAppender.Append` | src/logging.rs:107-116 | Appends to the file behind the handle and nowhere else. |
| `LogRotation.DailyRenameAppender.Write` | src/logging.rs:107-116 | The accepted bytes grow by exactly those taken, a failing flush, rename, open or write accepts none; all accepted bytes stay in order in files of their own until an expired archive goes. |
| `LogRotation.DailyRenameAppender.Restart` | src/logging.rs:57-95 | A start moves a base file last written on an earlier day to an unused name of that day, keeps a current one, fails exactly when a call it makes does, and loses no accepted byte but those of expired archives. |
| `LogRotation.DailyRenameAppender.Run` | src/logging.rs:57-229 | Over any sequence of writes, day changes and starts, with any failures, up to the first whose search for a name would not end: the accepted bytes are exactly those taken, in order; without failures every write is taken; a stretch is gone only if a purge found its archive expired; every file not the log's own is untouched unless a purge found it expired. |
| `AttachmentKeys.DecodeEncode` | src/config.rs:1635-1639 | Unpadded base64url (section 5 of RFC 4648) decodes what it encodes, for every byte string. |
| `AttachmentKeys.EncodeDecode` | src/config.rs:1635-1639 | Whatever decodes is the encoding of the result: stray bits, foreign characters and impossible lengths are refused. |
| `AttachmentKeys.SameBits` | src/config.rs:1635-1639 | Four symbols and three bytes are the same 24 bits, high end first (section 5 of RFC 4648). |
| `AttachmentKeys.Alphabet` | src/config.rs:1635-1639 | The 64 symbols in their order. |
| `KeyTable.AcceptedIffSound` | src/config.rs:1623-1659 | A table is accepted exactly when ids are distinct and every key is a distinct material of 32 bytes. |
| `KeyTable.RefusedBecause` | src/config.rs:1623-1659 | A refused table is sound up to some item, and the error names that item's fault: repeated id, not base64url, not 32 bytes, repeated key. |
| `KeyTable.AttachmentMaterial` | src/config.rs:1623-1659 | The loop gives the verdict and the table of the specification, with the error of the first faulty item. |
| `KeyTable.MaterialForSound` | src/config.rs:61-68 | On a sound table a lookup is defined exactly on its ids and yields that item's material. |
| `KeyTable.LookupOnAccepted` | src/config.rs:61-68 | On an accepted table the lookup is defined exactly on the listed ids and different ids give different keys. |
| `KeyTable.ParseAttachmentKeysEnv` | src/config.rs:1590-1620 | The loop over the entries of the variable gives the table or the first error of the specification. |
| `KeyTable.EntryIs` | src/config.rs:1600-1617 | An entry is an 8-bit id, the first colon and a key, each with white space around it; either error carries its position. |
| `KeyTable.EntriesOf` | src/config.rs:1603 | Blank entries are dropped, the others trimmed, in order. |
| `KeyTable.ParsedEntries` | src/config.rs:1600-1620 | Either all entries are read, in order, or the first bad one is reported. |
| `KeyTable.RenderRoundTrip` | src/config.rs:1590-1659 | Writing any non-empty valid table as id:key items joined by commas and parsing it returns the same table in the same order. |
| `KeyTable.AcceptedTextIsSound` | src/config.rs:1590-1659 | Every accepted text yields a non-empty sound table, which rendering and parsing reproduce. |
| `LogRedaction.RedactedEqualIff` | src/server.rs:117-135 | Two JSON values redact to the same value if and only if they differ only beneath secret keys, at any depth. |
| `LogRedaction.WiderAbsorbs` | src/server.rs:117-135 | A wider redaction after a narrower one is the wider one alone; with equal keys, redaction is idempotent. |
| `LogRedaction.OpenPartsKept` | src/server.rs:117-135 | Along every path that passes no secret key the redacted value has the same shape and every scalar is unchanged. |
| `LogRedaction.RedactFieldsOf` | src/server.rs:117-135 | The loops over members and elements compute the redaction. |
| `LogRedaction.RedactionsCompose` | src/handler/send_message_handler.rs:38-52 | The log redaction subsumes the attachment-key redaction of message metadata, and each is idempotent. |
| `LogRedaction.SensitiveIff` | src/server.rs:137-158 | A key is secret exactly if, ignoring ASCII case, it is listed, ends in _token, or contains jwt, secret or password. |
| `LogRedaction.LowerIs` | src/server.rs:137-138 | Letters A to Z become a to z; every other character stays. |
| `LogRedaction.JwtIff` | src/server.rs:160-163 | Trimmed text looks like a token exactly if it is three dotless parts joined by dots, the first beginning with eyJ. |
| `LogRedaction.TruncatedEqualIff` | src/server.rs:164-177 | Truncation shows exactly the first characters and the true length. |
| `LogRedaction.TruncatedStarts` | src/server.rs:164-177 | Text within the limit is left alone; longer text keeps exactly its first characters before the note. |
| `LogRedaction.LogIsBlindToSecrets` | src/server.rs:65-85 | Payloads that differ only beneath secret keys give the same log line; of a payload that is not JSON only the size, or that it resembles a JWT, is shown. |
| `LogRedaction.LogShows` | src/server.rs:65-85 | What the line does show: redacted JSON in full up to 512 characters, and of anything else its kind or its size in bytes. |
| `LogRedaction.LogTellsRest` | src/server.rs:65-85 | Given a faithful printer, two JSON payloads logged in full read the same exactly when they agree outside the secret keys. |
| `LogRedaction.MetadataLogIsBlindToKeys` | src/handler/send_message_handler.rs:55-67 | Metadata that differs only in attachment keys, or does not parse, gives the same log text. |
| `LogRedaction.MetadataLogShows` | src/handler/send_message_handler.rs:38-67 | Absent, unreadable and readable metadata are logged as None, withheld, and in full but for the two attachment keys. |
| `Utf8.DecodeEncode` | src/handler/send_message_handler.rs:1540-1547 | UTF-8 (section 4 of RFC 3629) decodes what it encodes. |
| `Utf8.EncodeDecode` | src/handler/send_message_handler.rs:1540-1547 | Well-formed bytes are the encoding of what they decode to. |
| `Utf8.LossyExactIff` | src/handler/send_message_handler.rs:1578 | Lossy decoding loses nothing if and only if the bytes are well-formed, and is then strict decoding. |
| `PayloadText.TextIffNoControl` | src/handler/send_message_handler.rs:1540-1547 | The guard's scan of bytes equals a scan of characters: text is well-formed UTF-8 without control characters other than tab, line feed and carriage return. |
| `PayloadText.StrippedIsPieces` | src/handler/send_message_handler.rs:1578 | What is left of a text are the stretches between its NULs, joined in order. |
| `PayloadText.AcceptedIff` | src/handler/send_message_handler.rs:1566-1586 | A payload is refused exactly when it is no envelope and either not UTF-8 or holds a control character other than tab, line feed and carriage return. |
| `PayloadText.EnvelopeIsKept` | src/handler/send_message_handler.rs:1566-1636 | Of a decoded envelope everything is kept: content but for its NULs, metadata, mentions, source, and a reply id that reads back as the number. |
| `PayloadText.SourceKinds` | src/handler/send_message_handler.rs:1605-1627 | The five kinds of message source; a numeric id that is none drops the source. |
| `PayloadText.LegacyIsKept` | src/handler/send_message_handler.rs:1638-1700 | Text that is a legacy JSON envelope is taken apart member by member; any other text is the content as it is. |
| `PayloadText.LegacyShapeIff` | src/handler/send_message_handler.rs:1649-1662 | A JSON value counts as a legacy envelope exactly if it has a text content and at least one of the four other members. |
| `Utf8.SkippedIsMaximal` | src/handler/send_message_handler.rs:1580 | In lossy decoding one U+FFFD stands for the longest part that further bytes could have completed. |
| `PayloadText.PlainTextIsExact` | src/handler/send_message_handler.rs:1566-1586 | A payload taken as plain text is stored byte for byte, without metadata. |
| `PayloadText.TextRoundTrip` | src/handler/send_message_handler.rs:1566-1586 | Every text without control characters that no envelope claims comes back unchanged. |
| `PayloadText.StoredTextHasNoNul` | src/handler/send_message_handler.rs:1566-1595 | No path, envelope, legacy or plain, stores content with a NUL. |
| `DeviceIndex.RegisterKeeps` | src/auth/device_manager.rs:45-66 | Registering, also an id known already or to another user, keeps every indexed device in its owner's list. |
| `DeviceIndex.UpdateKeeps` | src/auth/device_manager.rs:111-141 | Touching or renaming a device keeps it, whichever listed registration changes. |
| `DeviceIndex.RemoveKeeps` | src/auth/device_manager.rs:144-170 | Removing one device keeps it for the others, also when the list becomes empty. |
| `DeviceIndex.RemoveAllKeeps` | src/auth/device_manager.rs:173-197 | Removing a user's devices keeps it and leaves no indexed device of the user. |
| `DeviceIndex.RunKeeps` | src/auth/device_manager.rs:45-227 | Over any sequence of operations every indexed device is in its owner's list and the blacklist only grows. |
| `DeviceIndex.RevokeAllIsComplete` | src/auth/token_revocation.rs:71-96 | After any history, revoking all of a user's devices leaves none listed or indexed, and every token id listed or indexed for the user is revoked in every continuation. |
| `DeviceIndex.RevokeIsComplete` | src/auth/token_revocation.rs:44-68 | Revoking one device unlists and unindexes it and revokes the indexed token id in every continuation. |
| `DeviceIndex.OthersSparedIff` | src/auth/device_manager.rs:173-197 | Removing a user's devices spares the other users' index entries if and only if none of the listed ids has since moved to another user. |
| `DeviceIndex.MovedDeviceUnindexed` | src/auth/device_manager.rs:173-197 | Counterexample: a device registered by one user and then another is unindexed by removing the first user's devices. |
| `DeviceIndex.ChangeFirst` | src/auth/device_manager.rs:121-125 | The search changes the first listed registration of the id and no other. |
| `DeviceIndex.ChangedIs` | src/auth/device_manager.rs:111-141 | An activity update sets the time, a rename the name, and nothing else. |
| `DeviceIndex.WithoutSplits` | src/auth/device_manager.rs:144-170 | Removing an id keeps the order of the other registrations. |
| `DeviceIndex.DeviceManager.RegisterDevice` | src/auth/device_manager.rs:45-66 | Appends to the owner's list and replaces the index entry. |
| `DeviceIndex.DeviceManager.UpdateDevice` | src/auth/device_manager.rs:111-141 | Changes the index entry and the first listed registration; an unknown id changes nothing. |
| `DeviceIndex.DeviceManager.RemoveDevice` | src/auth/device_manager.rs:144-170 | Returns the indexed device and removes every registration of the id from its owner's list, or reports it unknown. |
| `DeviceIndex.DeviceManager.RemoveAllUserDevices` | src/auth/device_manager.rs:173-197 | The loop unindexes every listed id; the list is returned and removed. |
| `DeviceIndex.TokenRevocationService.RevokeDevice` | src/auth/token_revocation.rs:44-68 | Blacklists the indexed token id and removes the device; an unknown id changes nothing. |
| `DeviceIndex.TokenRevocationService.RevokeAllDevices` | src/auth/token_revocation.rs:71-96 | The loop blacklists every listed token id and removes the devices; the count is the length of the list. |
| `TransferValidation.UuidHasEntropy` | src/channel_transfer/validation.rs:148-163 | Every text of UUID v4 shape has at least sixteen alphanumerics. |
| `TransferValidation.UuidV4ShapeIs` | src/channel_transfer/validation.rs:148-163 | Hex groups of 8, 4, 4, 4 and 12 between hyphens, the third beginning with 4. |
| `TransferValidation.RequestIdAcceptedIff` | src/channel_transfer/validation.rs:114-146 | The UUID branch never changes the answer: accepted exactly when non-empty, at most 64 bytes, URL-safe and with at least sixteen alphanumerics. |
| `TransferValidation.RequestIdFaults` | src/channel_transfer/validation.rs:114-146 | Each reason for refusing a request id applies exactly when no earlier one does. |
| `TransferValidation.CharacterClasses` | src/channel_transfer/validation.rs:114-208 | The character classes of request ids, UUIDs and routes, as characters. |
| `TransferValidation.RouteAcceptedIff` | src/channel_transfer/validation.rs:175-208 | Accepted exactly when at most 256 bytes and three non-empty segments of lower-case letters, digits and inner hyphens joined by slashes. |
| `TransferValidation.RouteFaults` | src/channel_transfer/validation.rs:175-208 | Each reason for refusing a route, with the first bad segment deciding between empty and malformed. |

## Left out

Assumptions and abstractions:

- The embedded migration list has distinct names with the baseline first, as build.rs:36-47 arranges it; migration SQL does no transaction control of its own. `BaselineFirstIsExact` shows what the order is worth.
- Digests, token hashes and signatures are abstract: equal digests stand for equal SQL, a token is its claims sealed with a key, hashing is any function, signing does not fail. RSA, bcrypt and SHA-256 are not part of the model.
- PostgreSQL statements are atomic steps, a transaction commits whole or leaves nothing, a lost session frees its advisory lock. The nesting count of an advisory lock taken twice by one session is not modelled. A failing statement of the device and token tables changes nothing.
- The id generator never hands out a message id twice, on any server; request ids of the send machine are names given by the model.
- Session versions and counters are unbounded; 64-bit overflow is not modelled. Decimal ids and the expiry of refresh records do have their bounds.
- Clocks, random ids, sleeping, UUID parsing, JSON reading and printing, FlatBuffers decoding and failures of the database and the file system are parameters. Times read from one clock never run backwards in the send machine.
- JSON objects list their members in some order, as the library's map does; reading and printing are arbitrary functions.
- JSON trees and device lists are owned values in the source, so the loops that rewrite them in place return the new value here: aliasing cannot arise there and is not modelled.
- The date library's leniency (signs, long years, white space before numbers) is modelled as it reads %Y-%m-%d; leap seconds and time zones are not.

Contracts stated with a condition the code does not check:

- LogRotation.DailyRenameAppender.Write: requires that a search for an archive name, if one is needed, ends; `SearchEndsIff` and `FreeIndexIff` say exactly when it does, and `Run` stops there. The same holds of Archive, RotateIfDayChanged and Restart.
- UnifiedTokens.IssueThenRefresh: the clock is between 0 and the largest 64-bit millisecond, because the stored expiry saturates there.
- MigrationRunner.Server.AcquireLock: readings of the clock are at least the half second of the sleep apart.

Not modelled:

- An error reply to a send does not mean that nothing was stored: the mention check of src/handler/send_message_handler.rs:1410-1431 runs after the commit, and the model lets any request be refused at any point.
- PayloadText.StoredTextHasNoNul: speaks of the content; the metadata text comes from the decoders, which are arbitrary here.
- UnifiedTokens.ActiveIff: the queries of an introspection answer; a failing one makes the source report the token as not found. The same holds of InactiveBecause.
- Inserting into a dissolved channel fails in the database; the send machine also allows it, which only adds runs.
- Clock skew between servers, which would let one server's sweep take a key another counts as younger.
- The membership and authorization checks of a send, its fan-out, read receipts and attachment binding, which rest on services outside this model.
- The client registry path of src/repository/message_repo.rs:396-426, another table with claims of its own.
- Interleavings inside one operation of the in-memory device registry: its operations are atomic here.
- A registration replaced by a later one of the same id keeps its token id unrevoked when the device alone is revoked; `RevokeIsComplete` speaks of the indexed one.
- Request validation, service keys and the in-memory registration of src/auth/token_issue_service.rs; the capability matrix, error-code tables and device-type maps: finite tables.
- The body-size check of transfers, which is one comparison; configuration merging and command-line precedence, where each field is overwritten independently.
- Transport, TLS, HTTP, push providers, metrics.

# Verified model of Commit's protocols

Commit is a work tracker for people (Carbons) and agents (Silicons): a Rust service over PostgreSQL, a
Rust command line with a saved sign-in, a web gateway, and a few release and migration scripts. This
project models the parts of it whose guarantees span many steps or many inputs, and proves them in
Dafny. `dafny verify dfyconfig.toml` checks everything.

## What is modelled

- **Saved sign-in of the command line** (`SavedSession`, `SessionProtocol`, `SessionSteps`,
  `SessionSafety`, `SessionTheorems`, `SessionAnswers`, `SessionSharing`, `SessionOutcomes`,
  `SessionClient`). Any number of processes share one session file and one lock, with
  a double-checked read, a marker written before each refresh, and a save before each use. The step
  relation has crashes, failed writes, lost answers, `replace`, `logout` and `remember_account`. The
  server consumes refresh tokens. `SessionClient` is `fresh` as a program over the file, with other
  commands acting while it waits for the lock, and they and the server while its token is on its way; its
  contract says that every outcome is a run of the protocol.
- **UUID backfill** (`UuidText`, `IdentityMapping`, `IdentityJson`, `IdentityMigration`,
  `IdentityDatabase`). The checked CSV mapping, the recursive JSON rewriter, the checks before a change, the
  column updates and the ledger. The rewriter is proved against *places* of a document: what is at the end of a path, and
  whether that place may name an account.
- **Release gate for ELF files** (`GlibcVersions`, `ElfFormat`, `AbiGate`, `ElfSections`, `ElfEncoder`).
  The walk over the version-requirement section, against a relation that says what chain of records a section holds,
  and against an independent encoder for whole ELF32 and ELF64 files.
- **Idempotent mutations** (`MutationReplay`, `MutationRuns`). Probe, preparation and a second, locked
  check before the write, for any number of racing copies, with a clock and aborts anywhere.
- **Project life cycle** (`AccountLookup`, `ProjectMembers`, `Projects`, `ProjectRuns`). Finding the
  accounts a request names, patches that read a snapshot first and lock later, completions, task
  assignments and account deletions with transfer of ownership.
- **Notification settings** (`NotificationSettings`). Optimistic versions with tolerated late retries.
- **Account webhooks** (`AccountEvents`, `Webhooks`, `WebhookEffects`). What each event
  writes, deduplication and convergence of deliveries in sequence, and deliveries that overlap.
- **Bug reports** (`BugReports`). Replay by key and ten reports in any hour.
- **Gateway** (`GatewayRefresh`, `GatewaySession`). Shared refreshes in a timed map, and the
  sessions that calls, started or joined, get from them.
- **Device sign-in** (`DevicePolling`). The polling loop over a clock and a service that keeps when it
  was polled.
- **Encodings** (`Decimal`, `ETags`, `Bytes`, `Framing`). Entity tags of RFC 9110 and the framing of what
  request fingerprints hash.

Clocks, answers of other services, write failures and crashes are parameters or events that may take any
value. Randomness appears only as fresh values. Each database transaction is one step after its unlocked
reads, except in `MutationRuns`, where the lock is held over several steps.

## Where the code does less than its description

- Refresh answers may lack a refresh token (cli/src/session.rs:98-100), and the old one is then kept.
  `SafeIffAnswersCarryTokens` shows that the single-use guarantee holds for all runs exactly when answers
  always carry one, and `SafeIffAnswerCarries` says it answer by answer: one without a token does harm if
  and only if a command waits for it as its account's.
- A webhook is described as applied "exactly once" (src/application/accounts.rs:440), but the duplicate
  check is an unlocked read and the insert's result is not looked at
  (src/infrastructure/postgres/accounts.rs:378-393). `OnceIffWaited` gives the exact condition: however a
  sender that waits for its answers goes on, no id is applied twice if and only if no delivery of the id
  was on its way when this one was checked. `OverlapAppliesTwice` is a failing run of four
  steps from an initial store, and `OverlapCanBlockAgain` a run in which the second copy takes back restored access.
- A replay record's life is counted from the start of the transaction that wrote it, and a later probe
  removes expired records at once (src/infrastructure/postgres/projects.rs:105-120). A slow transaction
  that began before the expiry can therefore mutate again after it: `SweepAllowsALateMutation` is such a
  run for every retention, and `LateMutationIffSwept` says that it does so exactly when the record is gone.
  `OneMutationPerLiveRecord` is stated in the time a mutation becomes visible, which holds in every run.
- Deleting an account deletes its notification rows, so their versions start again.
  `SecondChangeNeedsDeletion` and `DeletionAllowsASecondChange` say that this, and only this, lets a
  request change the settings twice. A deleted account is refused at sign-in
  (src/infrastructure/clients/accounts.rs:523-535), so the second change is open only to a request that was
  let in before the deletion, or to a custodian's with an older lookup of the Silicon. One that expects a
  version above zero also needs that many such changes between the deletion and itself.
- A gateway call that joins a refresh gets the session built from that of the call that started it
  (frontend/server/gateway.ts:334, 364). `ReceivedContinuesIff` says exactly when that is the caller's own
  sign-in; `JoiningCanChangeTheDeadline` is a run in which it is not: two sessions with one refresh token
  and different deadlines, as a sign-in answered twice leaves them.

## Model

| member | source | states |
|---|---|---|
| `SavedSession.StoredSession.Apply` | cli/src/session.rs:93-109 | The whole record after a token answer: the old refresh token, end and scope survive when the answer has none, the marker is cleared, expiry saturates at 64 bits. |
| `SavedSession.ExpiryIsNeverLate` | cli/src/session.rs:101 | Saturation and the fallback for huge lifetimes only ever shorten a session; without overflow the end is exact. |
| `SavedSession.NeedsRefreshIff` | cli/src/session.rs:111-114 | A session needs a refresh exactly when a minute or less is left, wherever the saturating clock arithmetic stands. |
| `SavedSession.JudgeIff` | cli/src/session.rs:341-363 | Exactly when the locked read keeps a session, refuses it, ends it or exchanges its token, in numbers and fields and without regard to the order of the tests. |
| `SavedSession.StoredSession.Mark` | cli/src/session.rs:364-367 | The write-ahead marker changes nothing but itself. |
| `SavedSession.StoredSession.End` | cli/src/session.rs:400-411 | Ending a session clears the marker and keeps the tokens. |
| `SessionClient.Profile.Save` | cli/src/session.rs:271-275 | The file changes exactly when the write succeeds. |
| `SessionClient.Profile.EndSession` | cli/src/session.rs:400-411 | An ended session is in the file unless the write failed, and the error says which. |
| `SessionClient.Profile.Settle` | cli/src/session.rs:371-396 | What each reply and each failed write leaves in the file and returns. |
| `SessionClient.Profile.Exchanged` | cli/src/session.rs:364-396 | Marker, exchange and save, with others acting while the token is on its way, are a legal run that ends in the file and answer the program has. |
| `SessionClient.Profile.FreshLocked` | cli/src/session.rs:341-396 | The same from the second read on, for every file met under the lock. |
| `SessionClient.Profile.Fresh` | cli/src/session.rs:332-397 | `fresh` as a whole refines the protocol: whatever other processes do between the unlocked and the locked read and during the exchange, and for all clocks, replies and write failures, there is a legal run with the same file, the lock released and the same answer. |
| `SessionClient.OthersRun` | cli/src/session.rs:300-316 | Whatever others do, a process stays where it was, and while it holds the lock the file stays as it is. |
| `SessionSafety.StepInv` | cli/src/session.rs:332-397 | Every step of every process, and of the server, keeps the invariant: a session in the file without marker owns an unused token, and a used token belongs to nobody. |
| `SessionTheorems.ReachableInv` | cli/src/session.rs:332-411 | That invariant holds in every reachable state of every interleaving. |
| `SessionTheorems.PresentedAgainOnlyAfterMarker` | cli/src/session.rs:332-397 | A token is presented again, or after the server consumed it, only by a process that saw `refresh_started_at` under the lock. |
| `SessionTheorems.OneRefreshPerRejectedToken` | cli/src/session.rs:336-348 | Of all commands refused with one access token at most one sends a refresh without having seen the marker, while the saved token has its margin left. |
| `SessionTheorems.RefreshedOnlyWhenNeeded` | cli/src/session.rs:341-348 | In every run a refresh is sent only by a command that found the margin gone or was refused with the very token it found saved. |
| `SessionTheorems.ReturnedSessionsWereSaved` | cli/src/session.rs:364-382 | A returned session was in the file first, has not ended, belongs to the expected account and does not carry the refused token. |
| `SessionTheorems.ReturnedIsTheFile` | cli/src/session.rs:336-382 | At the step that returns it, a session is exactly what the file holds. |
| `SessionTheorems.LockIsExclusive` | cli/src/session.rs:300-316 | Two processes are never between lock and release at once. |
| `SessionTheorems.OneAnswerPerToken` | cli/src/session.rs:371-396 | The server answers every refresh token at most once, so of two presentations of one token at most one is answered. |
| `SessionTheorems.FaultlessRunsNeverRepeat` | cli/src/session.rs:332-397 | Without a crash, failed write or lost answer no refresh token is presented twice. |
| `SessionSharing.LosersGetTheWinnersSession` | cli/src/session.rs:336-348 | Of any number of commands refused with one access token, without faults or new sign-ins and while the margin is left, exactly one refreshes, and every other one that gets a session gets the tokens of that refresh. |
| `SessionAnswers.SafeIffAnswersCarryTokens` | cli/src/session.rs:98-100 | The single-use guarantee holds for all runs if and only if every refresh answer carries a new refresh token. |
| `SessionAnswers.SafeIffAnswerCarries` | cli/src/session.rs:93-109 | In every state reached while answers carried tokens, and for the next answer: no continuation presents a token again without a marker seen if and only if this answer carries one or no command waits for it as its account's. |
| `SessionOutcomes.RenewedSession` | cli/src/session.rs:93-109 | The step that saves an answer leaves a session with the answer's tokens, account, end, scope and expiry, and with the old refresh token, end and scope only where the answer has none. |
| `SessionOutcomes.RenewedSignInEnds` | cli/src/session.rs:102-103 | A later command that needs a refresh ends the renewed sign-in from the answer's end on, or from the old end on if the answer has none, and exchanges the answered token before. |
| `SessionOutcomes.EndedForEveryCommand` | cli/src/session.rs:400-411 | After a refused refresh, an answer for another account or a sign-in past its end, every later command is refused; a failed write leaves the file alone. |
| `SessionOutcomes.InstalledSession` | cli/src/session.rs:68-91 | A new sign-in is saved with the tokens, account, end, scope and expiry it brought. |
| `SessionOutcomes.InstalledFile` | cli/src/session.rs:438-475 | The new session is in the file before the old one is revoked, or the file stays as it was. |
| `SessionOutcomes.RememberedDetails` | cli/src/login.rs:641-686 | Reported details are stored only for the account that is still signed in, and nothing else of the session changes. |
| `SessionOutcomes.SignedOutFile` | cli/src/login.rs:689-781 | Signing out removes the file, a live session only after its revocation was tried. |
| `SessionSafety.RememberStep` | cli/src/login.rs:641-686 | Remembering account details under the lock keeps the invariant. |
| `SessionSafety.SignOutStep` | cli/src/login.rs:689-781 | Signing out under the lock keeps the invariant. |
| `SessionSafety.InstallStep` | cli/src/session.rs:438-475 | Replacing the session with a new sign-in keeps the invariant. |
| `IdentityMapping.ReadMapping` | scripts/accounts_uuid128.py:21-47 | Succeeds exactly for the right header and acceptable lines, then lists exactly the lines and is an injective mapping without chains; otherwise names the first bad line or the failing whole-file check. |
| `IdentityMapping.AcceptedIsMapping` | scripts/accounts_uuid128.py:41-46 | Distinct lines whose targets are no sources give an injective, unchained mapping of valid ids. |
| `IdentityMapping.ListedRow` | scripts/accounts_uuid128.py:39-43 | The mapping holds each line's target and kind, carbon for `carbon` and silicon for `silicon`. |
| `UuidText.CanonicalUuid4Iff` | scripts/accounts_uuid128.py:33-38 | Accepted targets are exactly the printed forms of 128-bit numbers whose version digit is 4 and whose variant bits are 10. |
| `IdentityMapping.LineExtends` | scripts/accounts_uuid128.py:27-44 | A line is added exactly when it can stand alone and repeats no source or target. |
| `IdentityMapping.UsableLineIff` | scripts/accounts_uuid128.py:28-40 | Exactly which lines can be used by themselves, in characters, digits and words. |
| `IdentityJson.RewritesEveryPlace` | scripts/accounts_uuid128.py:54-69 | After rewriting, the same paths exist in the same roles; every place that names an account has its id and nothing else replaced, every other place keeps its text, keys and length. |
| `IdentityJson.TextMembersAreRewritten` | scripts/accounts_uuid128.py:59-68 | For each text member of an object: replaced under an identity key, replaced as `id` exactly if the first `type`, or without one `kind`, is carbon or silicon, and kept under any other key. |
| `IdentityJson.MembershipIsRewritten` | scripts/accounts_uuid128.py:64-66 | A `membership_id` keeps its app and has the part behind the first colon replaced. |
| `IdentityJson.OtherMembersAreRewritten` | scripts/accounts_uuid128.py:67-68 | A member that is no text is rewritten as it would be by itself, whatever its key. |
| `IdentityJson.TypedIff` | scripts/accounts_uuid128.py:59 | The test for an account is about the first `type` member, and the first `kind` only where there is no `type`. |
| `IdentityJson.TypedIsKept` | scripts/accounts_uuid128.py:59 | Rewriting never changes the test that makes `id` an account id. |
| `IdentityJson.MemberIsRenamed` | scripts/accounts_uuid128.py:61-68 | The branches for identity keys and for the part after the first colon of `membership_id` replace exactly the named id. |
| `IdentityJson.RewriteIsComplete` | scripts/accounts_uuid128.py:54-69 | No identity position of the result holds a source. |
| `IdentityJson.UnchangedIffFree` | scripts/accounts_uuid128.py:235-238 | A document is left as it is if and only if it names no source. |
| `IdentityJson.RewriteIsIdempotent` | scripts/accounts_uuid128.py:54-69 | A second pass changes nothing. |
| `IdentityJson.UndoRestores` | scripts/accounts_uuid128.py:54-69 | Rewriting with the mapping and then with its inverse gives the original back if and only if the original named no target. |
| `IdentityMigration.PlaceholderIff` | scripts/accounts_uuid128.py:89-92 | The three-part split accepts exactly `iam:`, a canonical UUID, a colon and a canonical UUID. |
| `IdentityMigration.NoMerge` | scripts/accounts_uuid128.py:199-205 | Under an accepted mapping two accounts get the same id only if they are the same account. |
| `IdentityMigration.MigratedIs` | scripts/accounts_uuid128.py:225-263 | Every listed cell and document with its ids replaced, kinds and states kept, everything not listed untouched, recorded pairs kept and new ones added. |
| `IdentityMigration.NothingOmittedIff` | scripts/accounts_uuid128.py:83-96 | A file is refused for omissions exactly when some account would be left without a canonical UUID and is no allowed, unlinked placeholder. |
| `IdentityMigration.KindsAgreeIff` | scripts/accounts_uuid128.py:72-73 | An account and the line that moves it agree exactly if carbon meets `carbon`, silicon meets `silicon`, or an unknown kind is allowed. |
| `IdentityMigration.AccountsStayDistinct` | scripts/accounts_uuid128.py:225-227 | Account ids stay unique. |
| `IdentityMigration.ListedReferencesNeverDangle` | scripts/accounts_uuid128.py:225-229 | Two equal cells of listed columns stay equal, whatever they hold. |
| `IdentityMigration.CellsAgreeIff` | scripts/accounts_uuid128.py:225-229 | And become equal exactly when they were, or when one held a source and the other its target. |
| `IdentityMigration.ReferencesAreKept` | scripts/accounts_uuid128.py:199-227 | Between any two listed columns of accounts, cells are equal afterwards if and only if they were before, so references name exactly the rows they named. |
| `IdentityMigration.CompositeReferencesAreKept` | migrations/0033_silicon_accounts.sql:522-524 | A foreign key of another id and an account, as from subscriptions to todos and their assigners, names exactly the rows it named before. |
| `IdentityMigration.AccountReferencesAreKept` | scripts/accounts_uuid128.py:225-227 | A listed foreign key to the accounts names exactly the account rows it named before, and still only accounts. |
| `IdentityMigration.NothingRemains` | scripts/accounts_uuid128.py:250-255 | No source is left in any listed column or document, so the final check cannot fail. |
| `IdentityMigration.SecondRunIsAccepted` | scripts/accounts_uuid128.py:190-205 | After an applied run the same file passes every check again. |
| `IdentityMigration.SecondRunChangesNothing` | scripts/accounts_uuid128.py:225-263 | And applying it again changes no table. |
| `IdentityMigration.LedgerAfter` | scripts/accounts_uuid128.py:190-195 | An accepted run gives no target a second source in the ledger. |
| `IdentityMigration.LedgerStaysInjective` | scripts/accounts_uuid128.py:186-195 | Over every history of runs, whatever changes between them, the ledger is an injective function. |
| `IdentityMigration.CommittedMappingsStay` | scripts/accounts_uuid128.py:263 | What one run recorded no later run changes or drops. |
| `IdentityMigration.NoMergeAcrossRuns` | scripts/accounts_uuid128.py:186-195 | Two sources moved by any two runs share a target only if they are the same source. |
| `IdentityDatabase.CountUncovered` | scripts/accounts_uuid128.py:83-96 | The reported number is the number of accounts that are neither mapped, canonical nor exempt. |
| `IdentityDatabase.UpdateColumn` | scripts/accounts_uuid128.py:225-229 | Every cell is substituted at once and the count is the number of cells that held a source. |
| `IdentityDatabase.UpdateDocuments` | scripts/accounts_uuid128.py:230-240 | Every document is rewritten and the count is the number that changed. |
| `IdentityDatabase.Database.CheckLedger` | scripts/accounts_uuid128.py:191-193 | True exactly when no source is recorded with another target or kind. |
| `IdentityDatabase.Database.CheckTargets` | scripts/accounts_uuid128.py:194-195 | True exactly when no target belongs to a recorded source outside the file. |
| `IdentityDatabase.Database.CheckAccounts` | scripts/accounts_uuid128.py:199-205 | Passes exactly when kinds agree and every target is free or was put there by an earlier run. |
| `IdentityDatabase.Database.Check` | scripts/accounts_uuid128.py:190-205 | Accepts exactly the acceptable files and otherwise names the first failing check. |
| `IdentityDatabase.Database.UpdateColumns` | scripts/accounts_uuid128.py:225-229 | All listed columns are substituted, the others untouched, also when a column is listed twice. |
| `IdentityDatabase.Database.RewriteDocuments` | scripts/accounts_uuid128.py:230-240 | The same for the listed JSON columns. |
| `IdentityDatabase.Database.Record` | scripts/accounts_uuid128.py:263 | New pairs are recorded and recorded rows stay as they are. |
| `IdentityDatabase.Database.Migrate` | scripts/accounts_uuid128.py:173-266 | A refused or dry run leaves every table alone, an applied one makes exactly the migrated tables, and the report counts what changed per column. |
| `GlibcVersions.NameRoundTrip` | scripts/check_linux_abi.py:86-89 | A version printed as a `GLIBC_` name is read back as itself. |
| `GlibcVersions.ParseIff` | scripts/check_linux_abi.py:86-89 | A name is a version exactly if it is the prefix and two or more numerals with single dots between them, and then it is their numbers. |
| `GlibcVersions.AtMostIff` | scripts/check_linux_abi.py:107-109 | Tuple order in numbers: a beginning of the other, or smaller at the first difference. |
| `GlibcVersions.BaselineIff` | scripts/check_linux_abi.py:107-109 | At most the baseline means 1.x, 2.x with x below 28, or exactly 2.28. |
| `GlibcVersions.AtMostIsTotal` | scripts/check_linux_abi.py:107-109 | Tuple order, with tuples of different lengths, is total and antisymmetric. |
| `GlibcVersions.AtMostIsTransitive` | scripts/check_linux_abi.py:107-109 | And transitive. |
| `GlibcVersions.Max` | scripts/check_linux_abi.py:108 | The maximum is one of the versions and at least each of them. |
| `ElfFormat.ReadNamesIsTheChain` | scripts/check_linux_abi.py:83-95 | The inner walk reads a list of names exactly when the section holds that auxiliary chain. |
| `ElfFormat.ReadNeedsIsTheChain` | scripts/check_linux_abi.py:72-101 | The outer walk, which ends on every input because each hop moves on by a record, reads exactly the chain the section holds, and nothing if it holds none. |
| `ElfFormat.StringAtIff` | scripts/check_linux_abi.py:24-38 | A text is read exactly where its characters stand, all of seven bits and none zero, with a zero behind them. |
| `ElfSections.RecordsInIff` | scripts/check_linux_abi.py:40-71 | Exactly which files the gate reads on, by their bytes: little-endian ELF of either class, a table of sections of the right size, and one requirement section that links to a string table, both inside the file. |
| `AbiGate.ReadAuxiliaries` | scripts/check_linux_abi.py:83-95 | The loop over auxiliaries adds exactly the versions named, or refuses when the chain is broken or a name is unrecognised. |
| `AbiGate.ReadRecord` | scripts/check_linux_abi.py:72-95 | One record with its auxiliaries: the versions it names are added, or the record is refused. |
| `AbiGate.ReadRequirements` | scripts/check_linux_abi.py:72-104 | The loop over records answers for the chain as a whole, including the record count and the empty result. |
| `AbiGate.RequiredGlibcVersions` | scripts/check_linux_abi.py:40-104 | The program answers what the specification function says, for every byte string. |
| `AbiGate.RequiredIsWhatTheFileHolds` | scripts/check_linux_abi.py:40-104 | A set of versions is reported if and only if the file holds a well-formed chain of recognised names that names exactly that non-empty set. |
| `AbiGate.RecognisedIff` | scripts/check_linux_abi.py:86-89 | A name is refused exactly if it begins like a glibc version and is not one. |
| `AbiGate.VerifyGlibcRequirements` | scripts/check_linux_abi.py:107-112 | A file passes exactly when its requirements can be read and each is below 2 in its first part, 2 with less than 28 in its second, or exactly 2.28; the answer is the largest of them. |
| `ElfEncoder.EncodedFileHolds` | scripts/check_linux_abi.py:13-21 | A file written for any requirements, in either ELF class, holds exactly them. |
| `ElfEncoder.GateReadsWhatWasWritten` | scripts/check_linux_abi.py:40-104 | The gate reports exactly the glibc versions a file was written with, and refuses it when a name only looks like one or none is named. |
| `ElfEncoder.VersionsAreReadBack` | scripts/check_linux_abi.py:40-104 | Any list of versions of a library, encoded and read, comes back as that set. |
| `MutationReplay.IdempotencyTable.Acquire` | src/infrastructure/postgres/projects.rs:86-193 | Expired, absent, reused, unreadable and replayable records are told apart, and a refusal rolls the sweep back. |
| `MutationReplay.IdempotencyTable.Save` | src/infrastructure/postgres/projects.rs:196-243 | The record that a mutation leaves, or no change when the retention is not positive. |
| `MutationRuns.OneMutationPerLiveRecord` | src/application/projects.rs:115-208 | A scope's next mutation, with the same or another fingerprint, becomes visible only after the record of the one before has expired. |
| `MutationRuns.LateMutationIffSwept` | src/infrastructure/postgres/projects.rs:91-120 | In every reachable state, a transaction that began before its scope's last mutation expired goes on to mutate if and only if that mutation's record has been removed. |
| `MutationRuns.SweepAllowsALateMutation` | src/infrastructure/postgres/projects.rs:105-120 | For every retention there is a run in which a copy that began before the first one's record expired mutates a second time. |
| `MutationRuns.RepliesReportMutations` | src/application/projects.rs:129-147 | Every success answer is the status and body of a committed mutation of the same scope and fingerprint. |
| `MutationRuns.RepliesAgree` | src/application/projects.rs:129-147 | Two success answers of a scope agree, or one mutation expired before the other was made. |
| `MutationRuns.LiveMutationIsFound` | src/infrastructure/postgres/projects.rs:112-192 | While a mutation is live every look in its scope replays it, or says that the key is taken or the project is not readable. |
| `MutationRuns.ExpiredMutationsAreForgotten` | src/infrastructure/postgres/projects.rs:105-192 | Once all mutations of its scope have expired a request goes on as new, with the same or another fingerprint, stored record or not. |
| `MutationRuns.CommitIsAnswered` | src/application/projects.rs:196-208 | A commit answers its sender, and leaves to its scope, the response with the scope, fingerprint and expiry it was made with. |
| `MutationRuns.StepKeeps` | src/application/projects.rs:864-873 | Probes, second checks, commits, aborts, time and the retention purge, which takes no lock, keep: one holder per scope, records match the log, live mutations are recorded. |
| `ProjectMembers.EnsureUniqueMembers` | src/application/projects.rs:934-947 | True exactly when no two members have the same uuid. |
| `AccountLookup.ResolveAccounts` | src/infrastructure/clients/accounts.rs:888-911 | One account per distinct key in order of first appearance; an id without a key, an account that is not found or of another kind fails the list. |
| `AccountLookup.ResolveMembers` | src/application/projects.rs:893-930 | The caller is put first when named and needs no lookup, all others are looked up, and all have the kind asked for. |
| `AccountLookup.FoundIff` | src/infrastructure/clients/accounts.rs:888-911 | A list is found exactly when each id is usable by itself, and the result holds the account of every id and no other. |
| `AccountLookup.KeyOfIff` | src/infrastructure/clients/accounts.rs:800-821 | What can name an account: prefixed ids in any case, and uuids exactly as written. |
| `AccountLookup.ResolvedIff` | src/application/projects.rs:893-930 | A list resolves exactly when each id is the caller's own or usable, to the caller, if named, and the accounts of the others. |
| `AccountLookup.CallerNeedsNoLookup` | src/application/projects.rs:910-914 | A list that names only the caller, by uuid or public id in any case, resolves whatever the lookup answers. |
| `AccountLookup.EmptyIdIsRefused` | src/application/projects.rs:910-914 | An empty id names nobody and spoils its list. |
| `AccountLookup.CreatorIsResolved` | src/domain/project.rs:384-407 | Whatever is listed, and also without a public id, the creator is in every list that resolves. |
| `ProjectMembers.ReplacedIsTheList` | src/infrastructure/postgres/projects.rs:534-603 | A replaced member list holds exactly the accounts listed, once each, and those that stay keep their order. |
| `Projects.NewProjectIsConsistent` | src/application/projects.rs:115-168 | Every project that is created has distinct members and its owner, the creator, among them, for all requests and all answers of the lookup. |
| `Projects.NewProjectIff` | src/application/projects.rs:115-168 | A project is created exactly when its creator has a public id, every listed id is found by itself, and no account is named twice. |
| `Projects.NewProjectMembers` | src/application/projects.rs:893-930 | Its members are exactly the creator and the accounts listed, by whatever ids. |
| `Projects.UnnamedKindIsKept` | src/application/projects.rs:239-262 | With nothing in between, a patch that names one kind of members leaves the members of the other kind as they were. |
| `Projects.PlannedIff` | src/application/projects.rs:237-281 | A patch is refused exactly if it names a status for a completed project, or members with an account twice or without the owner. |
| `Projects.PatchTakesEffect` | src/application/projects.rs:217-337 | With nothing in between, a planned patch is let through: its status is then the project's, its named accounts the members of their kind, and nothing else changed. |
| `Projects.OnlyWritersGetThrough` | src/application/projects.rs:841-862 | Nothing changes a deleted project or passes a caller who may not write; an invisible project is not found, a readable one denied. |
| `Projects.EntryTakesEffect` | src/application/projects.rs:762-790 | Only a second completion is refused; an entry is the last one then, and completions alone complete. |
| `Projects.AssigneeIsAMember` | src/infrastructure/postgres/projects.rs:564-603 | Who is assigned a task is a member then, and nothing else changed. |
| `Projects.DeletedAccountIsGone` | migrations/0033_silicon_accounts.sql:1369-1403 | A deleted account owns no live project and is a member of none; a project is deleted exactly if it was the account's and no other member is active. |
| `Projects.Plan` | src/application/projects.rs:237-281 | What a patch decides from its unlocked snapshot, in the order of its checks. |
| `Projects.ProjectRow.InsertMissingMembers` | src/infrastructure/postgres/projects.rs:564-603 | Adds each listed account that is not a member yet. |
| `Projects.ProjectRow.EndMemberships` | src/infrastructure/postgres/projects.rs:539-553 | Keeps exactly the listed members, in order. |
| `Projects.ProjectRow.ApplyPatch` | src/infrastructure/postgres/projects.rs:488-561 | The locked half of a patch checks again; a refusal writes nothing. |
| `Projects.ProjectRow.CreateEntry` | src/application/projects.rs:762-790 | An entry is appended, a completion also completes the project, and a second completion is refused. |
| `Projects.SuccessorIsAMember` | migrations/0033_silicon_accounts.sql:1369-1388 | A project passes to a remaining active member if there is one. |
| `ProjectRuns.ProjectsStayConsistent` | src/application/projects.rs:217-337 | In every interleaving: completed if and only if a completion entry exists, at most one, members distinct, owner a member. |
| `ProjectRuns.CompletedIsAbsorbing` | src/application/projects.rs:949-960 | Nothing, and no patch with an older snapshot, brings a completed project back or completes it again. |
| `ProjectRuns.CommittedPatchIsExact` | src/application/projects.rs:283-304 | A committed patch leaves exactly the accounts it planned, or the members alone if it named none. |
| `NotificationSettings.Resource.Replace` | src/application/notifications.rs:86-156 | The row and the answer after one replacement, for settings and for per-todo overrides. |
| `NotificationSettings.AnswerIff` | src/application/notifications.rs:289-307 | When a request changes the row, conflicts or overflows, for every unsigned expected and signed stored version. |
| `NotificationSettings.VersionsGrow` | migrations/0010_monotonic_mutation_timestamps.sql:8-17 | Versions never go back, and one version never stands for two configurations. |
| `NotificationSettings.NoLostUpdate` | src/application/notifications.rs:88-157 | A request changes the row only if the row is still exactly what its sender read. |
| `NotificationSettings.ChangesOnce` | src/application/notifications.rs:197-279 | A request that changed the row never changes it again; a late retry gets the current row if it still matches and a conflict if not. |
| `NotificationSettings.SecondChangeNeedsDeletion` | migrations/0033_silicon_accounts.sql:1404-1406 | Only deleting the account's rows lets a request change them twice. |
| `NotificationSettings.DeletionAllowsASecondChange` | migrations/0033_silicon_accounts.sql:1404-1406 | And for every request that ever changed the row there is a run with a deletion after which the same request changes it again. |
| `AccountEvents.EventMovesForward` | src/infrastructure/postgres/accounts.rs:409-560 | No single event moves a version, a refresh time or a cutoff back, or revives a deleted account. |
| `AccountEvents.AgainAtOnce` | src/infrastructure/postgres/accounts.rs:409-560 | The same timed event at once again changes nothing, except the refresh time after a deletion. |
| `AccountEvents.NewestUpdateWins` | src/infrastructure/postgres/accounts.rs:431-460 | Any number of updates of an account in any order, repeats included, amount to the newest, if it is full and times do not decrease with versions. |
| `AccountEvents.LatestIdWins` | src/infrastructure/postgres/accounts.rs:410-428 | Changes of one public id in any order amount to the latest. |
| `AccountEvents.LatestRevocationWins` | src/infrastructure/postgres/accounts.rs:500-515 | And revocations to the latest. |
| `AccountEvents.IndependentCommutes` | src/infrastructure/postgres/accounts.rs:409-560 | An update of an account and any event of another account, or a sign-out or removal of access of its own, have the same effect in either order. |
| `Webhooks.WebhookStore.ApplyWebhook` | src/application/accounts.rs:441-512 | Effect and record are committed together, a known id changes nothing, a failure rolls both back. |
| `WebhookEffects.SignInsEnd` | src/application/accounts.rs:559-592 | A sign-out for another reason than `app_revoked`, removed access and a deletion set the cutoffs of the account's lifecycle to the later of the old ones and the event's time, each its own, and touch nobody else. |
| `WebhookEffects.AccountSignInsEnd` | src/application/accounts.rs:559-592 | The same in the stored account; a deletion also clears its ids, name and custodian. |
| `WebhookEffects.NothingChanges` | src/application/accounts.rs:474-494 | One revoked sign-in, pings, unknown events and all events that name a retired identity are recorded and change nothing. |
| `WebhookEffects.IdIsWritten` | src/infrastructure/postgres/accounts.rs:410-428 | When a change of id is written, and that it alone is. |
| `WebhookEffects.ProfileIsWritten` | src/infrastructure/postgres/accounts.rs:431-460 | When a profile update is written, and for each field when it takes the update's value and when it keeps its own. |
| `WebhookEffects.CustodianIsWritten` | src/infrastructure/postgres/accounts.rs:464-498 | When a change of custodian is written, and that an unknown custodian becomes known. |
| `WebhookEffects.CutoffIsTheLatest` | src/application/accounts.rs:441-592 | After any deliveries in any order, with repeats and failures, each cutoff of an account is the latest of its old value and the times of the events that set it. |
| `WebhookEffects.RestoreIff` | src/infrastructure/postgres/accounts.rs:562-568 | Access comes back exactly when the removal is still the one seen and the account is not deleted. |
| `Webhooks.OnlyFirstsCount` | src/application/accounts.rs:441-512 | Any sequence of deliveries with repeats, other bodies and failures leaves the state of the first successes alone, in order. |
| `Webhooks.RecordedIffSucceeded` | src/application/accounts.rs:496-506 | An id is recorded exactly when a delivery of it was committed. |
| `Webhooks.FirstsAreDistinct` | src/application/accounts.rs:450-462 | No id counts twice. |
| `Webhooks.DeliveriesMoveForward` | src/application/accounts.rs:441-512 | Over any sequence of deliveries of any events no cutoff, version or time goes back and no deleted account revives. |
| `Webhooks.RunsMoveForward` | src/infrastructure/postgres/accounts.rs:369-407 | The same in every run of overlapping deliveries; removed access comes back only by a sign-in. |
| `Webhooks.NewestDeliveryWins` | src/infrastructure/postgres/accounts.rs:431-460 | Deliveries of any events in any order, with repeats, other bodies under a known id and failures, among them updates of one account: the directory is what the other deliveries alone make of it and then the newest full update. |
| `Webhooks.AppliedTwiceOnlyIfOverlapping` | src/infrastructure/postgres/accounts.rs:369-407 | An id is applied twice only by a delivery that checked before the first was committed. |
| `Webhooks.OnceIffWaited` | src/infrastructure/postgres/accounts.rs:369-407 | From any store where nothing overlapped yet, every continuation by a sender that waits applies each id once if and only if no copy was on its way when this delivery was checked. |
| `Webhooks.OverlapAppliesTwice` | src/infrastructure/postgres/accounts.rs:369-407 | The run from an initial store in which two copies check, then both commit, and the id is applied twice. |
| `Webhooks.SerialDeliveriesApplyOnce` | src/application/accounts.rs:440-462 | A sender that waits for each answer gets every id applied at most once. |
| `Webhooks.OverlapCanBlockAgain` | src/infrastructure/postgres/accounts.rs:551-567 | A run from an initial store in which a second copy takes away access that came back between the two. |
| `BugReports.ReportQueue.Report` | src/api/email.rs:155-207 | Replay, reused key, hourly limit or a new row; a rolled-back report leaves the queue alone and is answered with an error. |
| `BugReports.ReportedIff` | src/api/email.rs:161-205 | A new key is refused exactly when ten reports lie in the hour before and is stored as the last row otherwise; a known key is never stored again. |
| `BugReports.TenInEveryHour` | src/api/email.rs:176-184 | Every window of one hour holds at most ten reports of an account, in every run. |
| `BugReports.StoredKeyAddsNothing` | src/api/email.rs:161-174 | A stored key never adds a row again, with the same body or another one. |
| `GatewayRefresh.Refreshes.Purge` | frontend/server/gateway.ts:332-333 | Exactly the entries whose time has passed go. |
| `GatewayRefresh.Refreshes.Refresh` | frontend/server/gateway.ts:330-369 | Join, refuse or start, and the map afterwards. |
| `GatewayRefresh.Refreshes.CleanUp` | frontend/server/gateway.ts:372-376 | A failure removes the entry only if it is its own. |
| `GatewayRefresh.OneExchangeInFlight` | frontend/server/gateway.ts:330-377 | A refresh token is never in two exchanges at once. |
| `GatewayRefresh.ExchangedAgainOnlyAfter` | frontend/server/gateway.ts:330-377 | A token is exchanged again only after a failure or more than 120 seconds after the start. |
| `GatewayRefresh.CallsShareTheExchange` | frontend/server/gateway.ts:334-369 | All calls within 120 seconds of the start of an exchange that does not fail wait for it. |
| `GatewayRefresh.MapStaysSmall` | frontend/server/gateway.ts:335 | The map never holds more than 1001 entries. |
| `GatewayRefresh.FailureRemovesItsOwn` | frontend/server/gateway.ts:372-376 | In every reachable state a failure takes away its own entry and no other. |
| `GatewaySession.RefreshContinues` | frontend/server/gateway.ts:233-277 | A session made from a refresh answer has the context id, account, organization, deadline, login state and environment of the one before. |
| `GatewaySession.SessionIsTheAnswers` | frontend/server/gateway.ts:233-277 | The session carries the answer's access and refresh token, account and organization, ends ten minutes before the token but not before the request, and a new sign-in lasts seven days. |
| `GatewaySession.AcceptedIff` | frontend/server/gateway.ts:239-260 | Exactly which answers make a session. |
| `GatewayRefresh.ReceivedGoesBack` | frontend/server/gateway.ts:330-364 | Sessions that go back to one sign-in can share exchanges: whichever of them starts one, the call receives that sign-in, and a continuation of its own session. |
| `GatewayRefresh.ReceivedContinuesIff` | frontend/server/gateway.ts:334-364 | In every reachable state, what a call receives continues its own session if and only if its session agrees with that of the call that started the exchange. |
| `GatewayRefresh.ReceivedTokens` | frontend/server/gateway.ts:330-369 | In every reachable state a call receives exactly the tokens its exchange was answered with, and its next refresh exchanges the answered refresh token. |
| `GatewayRefresh.FulfilledIff` | frontend/server/gateway.ts:344-364 | An exchange is fulfilled exactly by a well-formed answer for the account and organization that asked. |
| `GatewayRefresh.CallIsServedIff` | frontend/server/gateway.ts:332-366 | A call joins its token's live entry, starts an exchange without one, and is refused exactly when more than a thousand others are live. |
| `GatewayRefresh.StarterContinues` | frontend/server/gateway.ts:364 | A call that started the exchange always receives its own sign-in. |
| `GatewayRefresh.RefreshesKeepTheContext` | frontend/server/gateway.ts:330-377 | Along any chain of refreshes, each started or joined with some session that goes back to the same sign-in, all of these stay the same. |
| `GatewayRefresh.JoiningCanChangeTheDeadline` | frontend/server/gateway.ts:334-364 | A run in which a joined call receives the deadline of the starter and not its own. |
| `GatewaySession.ReplayedTokensAreNotExtended` | frontend/server/gateway.ts:228-231 | With an answer replayed within the window, a session ends no later than its token exactly when the token outlives the window or was still good at the start. |
| `DevicePolling.WaitForDeviceSignIn` | client/src/auth.rs:346-383 | For all answers and durations: the service is polled exactly at the times of a wait, the last poll ends it with the matching outcome, and every answer that was not final was told. |
| `DevicePolling.WaitsAgree` | client/src/auth.rs:351-382 | The answers and their durations leave only one such sequence of times. |
| `DevicePolling.PollsAreApart` | client/src/auth.rs:353-371 | The first poll comes one interval after the start, each other one the current interval after the answer before it; the interval is the first one and five seconds for every slow-down so far. |
| `DevicePolling.WaitEnds` | client/src/auth.rs:353-382 | A wait is approved exactly if some poll is answered with a sign-in, and ends without a final answer only when the next poll would be too late. |
| `DevicePolling.NoticeAt` | client/src/auth.rs:370-377 | What is told about each poll, with the interval from then on. |
| `DevicePolling.QuadraticBound` | client/src/auth.rs:353-371 | The n-th poll comes no earlier than n first intervals and 5 + 10 + ... + 5 s seconds after s slow-downs. |
| `DevicePolling.PollsFitTheLifetime` | client/src/auth.rs:379-381 | From the second poll on, polls start within the lifetime, and n first intervals and 5 s (s + 1) / 2 seconds fit into it. |
| `Decimal.DigitsOfValue` | src/api/extract.rs:247-257 | Canonical digits are the printed form of their value. |
| `ETags.ParsesExactlyThePrinted` | src/api/extract.rs:235-258 | The parser accepts exactly the printed form of each allowed version below 2^64, and reads it back. |
| `ETags.IfMatchRoundTrip` | src/api/extract.rs:221-233 | The same for diary versions (positive) and notification versions (up to 2^63 - 1). |
| `Bytes.BigEndianRoundTrip` | src/application/idempotency.rs:156-159 | Big-endian bytes of a number that fits read back as the number. |
| `Framing.UnframeFrame` | src/application/idempotency.rs:156-159 | Framed fields can be read back, whatever they contain. |
| `Framing.FrameUnframe` | src/application/idempotency.rs:156-159 | Bytes that read as frames are the framing of what was read. |
| `Framing.FrameIsInjective` | src/application/idempotency.rs:156-159 | Equal framings come from equal lists of fields. |
| `Framing.Hasher.AppendFramed` | src/application/idempotency.rs:156-159 | What one call feeds to the digest. |
| `Framing.Fingerprinted` | src/application/idempotency.rs:67-78 | What a request feeds to the digest is the framing of its three parts. |
| `Framing.FingerprintBindsTheRequest` | src/application/idempotency.rs:67-78 | Two requests feed the digest the same bytes if and only if operation, path and body are the same. |

## Left out

- HTTP, TLS, routing, request tracing, command-line parsing, wording of errors and the user interface.
- Cryptography: SHA-256, HMAC, sealing and token checks. Hashes of different inputs are taken to differ in the gateway's map.
- Session file bytes: `classify` and the JSON format; the file is missing, a session, an old format or unreadable.
- Session fields without influence on refreshes: URLs, method and sign-in time.
- `wait_for_device_sign_in` with durations that overflow, and sleeps that take longer than asked.
- Files whose CSV rows are blank or quoted oddly: the reader starts from the list of cells of each record.
- Bytes that are not text, and the file's SHA-256, in `read_mapping`.
- `migrate`: expiring columns, resealing of proofs, retiring of deliveries, conversation seals, and switching of triggers and constraints.
- SQL errors for columns that do not exist: the manifest's columns are taken to be present.
- Row counts that `migrate` reports for `accounts.uuid` itself.
- Order of the mapping's lines in the kind and merge checks: which of several offending accounts is reported is open.
- Version numbers of more than 4300 digits, which Python's `int` refuses.
- GLIBC names in other libraries than libc are treated alike, as the script does.
- ElfEncoder.EncodedFileHolds: needs a file that its offset fields can address and names without zero bytes, because the format cannot express others.
- Audit rows, outbox rows, todos and tasks that mutations also write.
- Access rules: whether a caller may read or change a project is an input of each step.
- Limits on titles, ids and the number of members.
- Survival of a concurrent change to the member kind a patch did not name.
- AccountEvents.EventMovesForward: does not cover the project, todo and settings rows that `forget_account` changes; the project rows are in `ProjectRuns`, the settings rows in `NotificationSettings`.
- Profile picture and e-mail address in account updates.
- GatewayRefresh.OneExchangeInFlight: rests on exchanges being given up after their 20 second limit, which the model takes as a bound on time.
- Context selection, sign-in cookies and `/auth/activate` of the gateway.
- Pagination of project lists, `freeze_data` and the one retry of `call` in the command line.
- `claim_task`, `allow` and `disallow`, whose guarantees are single conditions.

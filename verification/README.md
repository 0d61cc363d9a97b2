# RailGate, modelled in Dafny

RailGate keeps one truth, the account table in SQLite, in agreement with three things
derived from it: the rendered Xray configuration on disk, the account lists inside the
running Xray process, and the links handed to clients. Around that sit a login limiter,
a process supervisor, an event log, migrations, first-boot key generation, backups and
admin sessions. This project models all of these and proves what they keep.

`dafny verify dfyconfig.toml` checks the whole project.

## How the model is laid out

| files | what they model |
|---|---|
| `Json`, `Text`, `CanonicalText` | JSON trees, comment stripping, `json.dumps(sort_keys=True)` as text |
| `Accounts` | the account table: mutations as functions on rows, and the class that performs them |
| `Rendering`, `RenderingFacts`, `RenderingFrame`, `InboundFrame`, `RenderingOutcomes` | `render_config`, the structural signature, what is taken over from the template, and which templates can be rendered |
| `LiveXray`, `LiveSync` | the running process as account lists per inbound, and reconciling it through its API |
| `Pipeline`, `PipelineFacts`, `ApplyOutcomes`, `Gateway` | `apply_configuration` as a function with all intermediate states, what it keeps, exactly how it ends, and the class that executes it |
| `Reconciliation`, `Service` | whole runs of account operations and expiry sweeps |
| `Interleaving`, `InterleavingRefinement`, `ApplyMoments` | several processes committing, reading and applying under the configuration lock, cut at every write, API call, restart and release; that this is `apply_configuration`, with the same states on the way |
| `InterleavingLists`, `InterleavingFacts` | what every interleaving keeps about the accounts admitted, and what else holds when no apply breaks off at the wrong moment |
| `SlidingWindow`, `RateLimiter` | the login limiter |
| `Supervisor`, `SupervisorFacts`, `SupervisorStarts` | program lifecycle and tick loop, every interleaving of them with commands and crashes, and when the loop starts a program |
| `Utf8`, `PercentEncoding`, `ShareLink`, `ShareLinkFacts`, `ShareLinkTexts` | share links, a reader for them, and which texts are accepted and refused |
| `TailFile`, `EventLog` | the log tail and the trimmed event table |
| `KeyStore`, `Migrations` | crash consistency of first-boot keys and of schema upgrades |
| `Backup`, `BackupFacts`, `BackupStore` | backup and restore |
| `Timestamps`, `Sessions` | stored timestamps and session expiry |

Code that changes things step by step is a class whose methods are proved equal to a
specification function of the old state; the theorems are about that function. The
outside world (Xray, the file system, the clock, spawns, random values) is a parameter
that may answer in any way the real one can: a restart may be refused, may leave no
process, may start an unhealthy one; the Xray API may act on any subset of the accounts
it was asked about and may lose its answer; any write may fail, and a process may die
between any two effects.

## What falls short of its description

The code is modelled as it is. Where it does not meet its own description a theorem says
exactly when it does, and a concrete input stands beside it.

- A host with `?`, `@`, `:` or another character that no name may hold passes
  `_format_host`, but a reader that follows section 3.2.2 of RFC 3986 does not get it back:
  `ShareLinkFacts.AcceptedHostIsLost`; exactly the hosts that come back whole are in
  `RealityRoundTrip`.
- A process that restarts before its fiftieth event never trims, so the table has no
  bound: `EventLog.RestartsDefeatTrimming`; its exact size after any run is
  `EventLog.TableSizeExactly`, and when the bound of 2049 holds is `BoundHoldsIff`.
- `tail_file(path, 0)` returns lines unless there is nothing to read, and the promised
  number otherwise: `TailFile.TailFile`.
- A safety copy made in the same second under the same name replaces the very archive
  being restored: `BackupFacts.SameNameLosesBackup`; exactly when a restore works is
  `RestoreBringsBackIff`.
- A failed spawn is never retried: `SupervisorFacts.FailedSpawnIsForgotten`; exactly when
  a restart is scheduled, failing spawns included, is `ScheduledIff`.
- A stop command that comes between the loop's look at a program and its start is undone:
  `SupervisorStarts.LateStopIsUndone`; exactly when a stop holds is `StopHoldsIff`.
- The active list is read before the lock is taken, so a successful apply can publish a
  stale list and nothing is left pending: `InterleavingFacts.StaleReadShutsOut`; exactly
  when the accounts admitted are the active ones is `InterleavingLists.StandingAdmitsIff`.
- Two key generators at once can leave halves of different pairs:
  `KeyStore.ConcurrentBootsMix`; exactly when the halves belong together is
  `OneGenerationIff`.
- A changed port, a refused restart and an old file that cannot be put back leave Xray with
  a structure other than the file's: `PipelineFacts.RefusedRestartStrands`; the branches that
  do are exactly those of `Strands`: `ApplyConsistentIff`.

## Model

| member | source | states |
|---|---|---|
| Json.StripIsClean | app/xray_manager.py:307-313 | no key beginning with an underscore survives stripping, at any depth |
| Json.StripKeepsExactly | app/xray_manager.py:307-313 | following any path into the stripped tree gives the stripped original, or nothing if the path crosses a hidden key: exactly that is removed |
| CanonicalText.DumpInjective | app/xray_manager.py:396-408 | the canonical text hashed for the signature determines the JSON tree: two trees have the same text only if they are equal |
| Rendering.SignatureMeansSameStructure | app/xray_manager.py:396-408 | equal signatures exactly when the two configurations agree after blanking the client lists of their inbounds |
| RenderingFacts.RenderStructure | app/xray_manager.py:335-393 | for any two user lists, rendering fails with the same error or gives the same signature |
| RenderingFacts.RenderIsClean | app/xray_manager.py:335-393 | no hidden key survives at any depth of a rendered configuration |
| RenderingOutcomes.RenderSucceedsIff | app/xray_manager.py:328-393 | a template can be rendered exactly when each section that is filled in has the shape it needs, both tags are found where they are wanted and every rule can be searched; a missing inbound is named exactly when it is missing |
| RenderingFrame.RenderFrame | app/xray_manager.py:335-393 | log level and API address are the settings'; every other section, and every inbound that is not managed, is the comment-free template's |
| RenderingFrame.KeepsAllOthers | app/xray_manager.py:387-391 | when bittorrent is allowed, exactly the rules that mention it are dropped, each other rule stays as often as it occurred |
| RenderingFrame.KeepsOrder | app/xray_manager.py:387-391 | filtering the rules of two lists one after the other is filtering them together: order is kept, and one malformed rule fails both |
| InboundFrame.RenderedInboundsFrame | app/xray_manager.py:347-384 | a managed inbound keeps every key of the template's that settings, keys and accounts do not decide, at every level, and all other inbounds stay in their order |
| LiveXray.AccountsExactly | app/xray_manager.py:561-607 | with unique usernames an account list holds each account once, under its username at railgate, with its own UUID, and on REALITY its own flow or Vision |
| LiveXray.ClientsAre | app/xray_manager.py:356-381 | client i of a rendered list has exactly the id, e-mail and level of account i and, on REALITY only, its flow, which is Vision when the account has none |
| LiveXray.RenderedInbounds | app/xray_manager.py:335-393 | a rendered configuration has the REALITY inbound with the configured port, keys and target, the WebSocket inbound exactly when enabled and on the loopback address, and each lists exactly the given accounts |
| LiveXray.LoadRendered | app/xray_manager.py:335-393 | what Xray holds after loading a rendered configuration is one list per managed inbound, the given accounts |
| Accounts.StatsPartition | app/models.py:162-173 | active, disabled and expired counts add up to all accounts, and the active count is the number Xray is given |
| Accounts.ActiveMembers | app/models.py:156-160 | the active list holds exactly the rows that are enabled and not expired |
| Accounts.MutateKeepsTable | app/models.py:176-297 | every mutation keeps ids and UUIDs unique, and usernames unique even ignoring case |
| Accounts.MutateEffect | app/models.py:176-297 | every mutation changes only the account it names and in the way asked: who is active, and from when until when, after creating, renewing, enabling, rotating, deleting |
| Accounts.MutateSucceedsIff | app/models.py:176-297 | a mutation is made exactly when it is allowed: a well-formed name that no account has in any case, short notes, a new UUID; an account of that id; no enabling of an expired one; a term to renew by |
| Accounts.MutateRefusedIff | app/models.py:176-297 | each refusal is given exactly for its own reason, and the first reason wins |
| Accounts.StatusMeans | app/models.py:75-80 | a status is expired, disabled or active by expiry and switch, and sweeping changes nobody's |
| Accounts.SweepPreservesActive | app/models.py:300-314 | disabling expired accounts changes nobody's being active, now or later |
| Accounts.SweepDisablesLapsed | app/models.py:300-314 | after a sweep an account is enabled exactly if it was and has not expired, and nothing else about it has changed |
| Accounts.LapsedAreReported | app/models.py:300-314 | exactly the accounts that were switched off are reported |
| Accounts.QuietSweep | app/expiry.py:21-30 | when no enabled account has expired, the active list is that of any earlier moment: why a sweep may skip the apply |
| Accounts.AccountTable.Change | app/models.py:176-297 | performs a mutation in place, or leaves the table alone and reports why |
| Accounts.AccountTable.DisableExpiredUsers | app/models.py:300-314 | the loop over rows disables exactly the lapsed accounts and returns them in order |
| LiveSync.CountForcesAll | app/xray_manager.py:497-544 | a reported count no smaller than the request means that every requested account was acted on, whatever subset the API may pick |
| LiveSync.SyncTagSucceedsIff | app/xray_manager.py:561-607 | reconciling one inbound succeeds exactly when it could be listed and every stale account was removed and every missing one added, both counted |
| LiveSync.SyncTagReconciles | app/xray_manager.py:561-607 | from any live list, success leaves exactly the desired accounts |
| LiveSync.SyncTagCounts | app/xray_manager.py:561-607 | a success reports how many accounts it removed and how many it added |
| LiveSync.OnlyActedOnChanges | app/xray_manager.py:561-607 | after any sync, failed or not, nobody appears, disappears or gets other credentials but by a call that acted on him |
| LiveSync.SyncReconciles | app/xray_manager.py:561-607 | from any live lists, a successful sync leaves on every handled inbound the rendered accounts, besides at most an entry without an e-mail, which the API never lists |
| LiveSync.UnchangedAccountsStay | app/xray_manager.py:561-607 | an account whose UUID and flow are unchanged is present after the removal and after the addition, even if they fail |
| LiveSync.UnchangedStayThroughout | app/xray_manager.py:561-607 | the same at every moment of a whole sync over all inbounds |
| LiveSync.SecondSyncIsIdle | app/xray_manager.py:561-607 | an immediate second sync removes and adds nothing, whatever the API would have done |
| LiveSync.SyncTouchesOnlyLists | app/xray_manager.py:561-607 | a sync changes neither the structure nor inbounds it was not asked about |
| Pipeline.ApplySucceeds | app/xray_manager.py:663-772 | success by API or restart: file and process are both the rendered configuration, without a restart in the first case and with exactly one in the second |
| Pipeline.SyncOnHost | app/xray_manager.py:561-607 | on a process of the same structure, a successful sync leaves what loading the configuration would leave |
| ApplyOutcomes.SyncSucceedsIff | app/xray_manager.py:561-607 | a sync succeeds exactly when on every handled inbound the API lists the accounts, removes each that went or changed and adds each new one, counting both |
| ApplyOutcomes.ApplyEndsIff | app/xray_manager.py:663-772 | all nine ways an apply can end, each with exactly the circumstances that lead to it: through the live API if and only if the file is replaced, Xray runs, only accounts change, no restart is forced and the API does its part |
| ApplyOutcomes.ExchangeDisconnectsNobody | app/xray_manager.py:709-717 | then it is the same Xray process at every moment, and it ends with what the new file would load |
| ApplyOutcomes.ForceNeverExchanges | app/xray_manager.py:709 | a forced restart never ends through the API |
| ApplyOutcomes.WithoutSignatureRaises | app/xray_manager.py:396-408 | inbounds that are no list of objects make the call raise before anything is written |
| ApplyOutcomes.RefusedTouchesNothing | app/xray_manager.py:676-691 | a template that cannot be rendered and a failed validation touch nothing |
| ApplyOutcomes.AccountsNeedNoRestart | app/xray_manager.py:663-772 | between any two account lists of one deployment no restart is needed, whenever the API does its part |
| ApplyOutcomes.UnhinderedSucceeds | app/service.py:62-153 | with files that can be written, a right status and an Xray that starts when asked, every account operation, sweep and resync succeeds, also when the live API does nothing: then by a restart |
| PipelineFacts.ApplyConsistentIff | app/xray_manager.py:663-772 | "running implies structure of process equals structure of file" survives an apply exactly when none of the stranding branches is taken |
| PipelineFacts.ApplyFiles | app/xray_manager.py:439-463 | a failed validation touches nothing; otherwise the new file is active and the old one in the backup, or after a rollback the old one active and the failed one in the backup; at every moment the active file is an accepted one |
| PipelineFacts.DiskAlwaysAccepted | app/xray_manager.py:439-463 | over every run, with rollbacks and deaths between any two effects, the active path only ever holds configurations that validation accepted |
| PipelineFacts.AlwaysConsistent | app/xray_manager.py:663-772 | over every run of applies that do not strand the process, deaths between any two effects of applies that keep the structure, exits and restarts, the running structure is the one on disk |
| PipelineFacts.UnstructuralMoments | app/xray_manager.py:663-772 | at every moment of an apply that does not change the structure, whatever fails, file and process have that one structure |
| PipelineFacts.RefusedRestartStrands | app/xray_manager.py:733-747 | a concrete apply that raises and leaves Xray with the structure of a file that is gone |
| Gateway.XrayHost.WriteConfigAtomic | app/xray_manager.py:439-463 | copies the active file to the backup, then replaces it, with the swallowed and the raised error |
| Gateway.XrayHost.RestartXray | app/xray_manager.py:646-657 | a restart as the environment answers it |
| Gateway.XrayHost.SyncInbound | app/xray_manager.py:561-607 | lists, removes and adds on one inbound of the live process |
| Gateway.XrayHost.SyncUsersViaApi | app/xray_manager.py:561-607 | the loop over inbounds with its early exits |
| Gateway.XrayHost.ApplyConfiguration | app/xray_manager.py:663-772 | validate, compare, write, record, probe, sync, restart, roll back, with every early return |
| Reconciliation.SyncEstablishes | app/service.py:62-69 | a successful sync brings table, file and process into agreement from any consistent host |
| Reconciliation.StepKeepsInSync | app/service.py:72-153 | every account operation, sweep, Xray exit and start keeps file and process on the accounts active at the last reading |
| Reconciliation.RunKeepsInSync | app/expiry.py:21-50 | the same over every run |
| Reconciliation.ActiveListAdmits | app/models.py:156-160 | the active list admits exactly the active rows, each with its own UUID |
| Reconciliation.SweepLeavesExactlyTheActive | app/expiry.py:21-50 | after any run that ends with a sweep, also one that found nothing and skipped the apply, the running Xray admits exactly the accounts active at the reading that sweep used |
| Reconciliation.BootEstablishes | app/service.py:62-69 | the first successful apply after a boot starts such a run |
| Service.AccountService.Sync | app/service.py:62-69 | reads the active list, then applies |
| Service.AccountService.Perform | app/service.py:72-153 | an account operation and, except for notes, the sync after it |
| Service.AccountService.RunExpiryCycle | app/expiry.py:21-50 | disables what lapsed and applies only if something did |
| Interleaving.CommitIsTheOperation | app/models.py:176-314 | a commit of a process is the account operation or the sweep on the table and touches neither file, Xray nor lock |
| Interleaving.ActExclusive | app/xray_manager.py:167-193 | only the holder of the lock is inside an apply |
| InterleavingRefinement.AloneIsApply | app/xray_manager.py:663-772 | the apply cut at each of its effects and API calls, with nobody in between, is `apply_configuration` |
| ApplyMoments.VisitedAreMoments | app/xray_manager.py:663-772 | whatever file, process and lists the cut apply goes through is where it starts or among the moments of `apply_configuration`, over which deaths and "at every moment" are stated |
| ApplyMoments.ApplyEndsAt | app/xray_manager.py:663-772 | the moments end where the apply ends; without any nothing has changed |
| ApplyMoments.TornBackupIsMoment | app/xray_manager.py:439-463 | the first moment is the one in which the backup is being overwritten |
| ApplyMoments.RestartDisconnects | app/xray_manager.py:646-657 | a restart that is not refused has a moment without Xray and with the new file in place |
| InterleavingLists.AppliesNeverOverlap | app/xray_manager.py:167-193 | in every interleaving, with any failures and with processes dying anywhere, at most one process is inside an apply |
| InterleavingLists.SuccessIsOneSnapshot | app/service.py:62-69 | in every interleaving, with any failures and with processes dying anywhere, after a successful apply and until another touches the host, the file is rendered from the one list that apply read and a running Xray has exactly that list on every handled inbound, never a mixture |
| InterleavingLists.QuiescentIsActive | app/service.py:62-69 | in every such interleaving, if the apply that stands read after the last commit, a running Xray admits exactly the accounts active at that read's clock time |
| InterleavingLists.StandingAdmitsIff | app/service.py:62-69 | in every such interleaving, while an apply stands, a running Xray admits exactly the accounts active in the table at that apply's reading if and only if the list it read gives the same e-mails, UUIDs and flows as the accounts active now; later notes do no harm |
| InterleavingFacts.NothingElseIsServed | app/xray_manager.py:663-772 | in every interleaving in which no apply breaks off while Xray's structure is not the file's, no inbound besides the handled ones has an account list, and with the lock free structure and file agree |
| InterleavingFacts.StaleReadShutsOut | app/service.py:62-69 | quiescence alone is not enough: a schedule after which a committed account cannot log in |
| RateLimiter.HistoryRefined | app/auth.py:45-86 | over every sequence of logins in which the client's own attempts follow each other and the memory guard does not fire, its pruned list is the tail of its full history of failures since its last right password, whatever was dropped is too old to matter, and it is locked exactly when the list is full |
| RateLimiter.FailuresAreSpaced | app/auth.py:45-86 | under these conditions any `max_attempts` + 1 consecutive wrong passwords since the last right one span at least the shorter of window and lockout |
| RateLimiter.FailuresPerInterval | app/auth.py:45-86 | a half-open interval no longer than c such spans admits at most `max_attempts` times c failures |
| RateLimiter.RetryAfterSuffices | app/auth.py:60-70 | waiting the returned delay always gets the next attempt admitted, and one second less does not unless the lock ends just then |
| RateLimiter.RefusedMeans | app/auth.py:60-81 | under these conditions a client is refused only after `max_attempts` wrong passwords since its last right one, within one window, and only until the lockout ends |
| RateLimiter.DelayMeans | app/auth.py:60-70 | an admitted attempt has nothing to wait for, a refused one at least a second, and is not recorded |
| RateLimiter.MemoryIsBounded | app/auth.py:72-81 | however many clients there are, at most 4096 have failures remembered |
| RateLimiter.FewKeysGuardSleeps | app/auth.py:72-81 | with at most 4096 client keys the memory guard never fires |
| RateLimiter.Limiter.Check | app/auth.py:60-70 | admits, refuses with a delay, or forgets an expired lock |
| RateLimiter.Limiter.RegisterFailure | app/auth.py:72-81 | prunes, appends, and locks at the limit |
| RateLimiter.Limiter.Authenticate | app/auth.py:104-120 | a password counts only when the check admitted the attempt, and success clears the key |
| Supervisor.ProgramObject.Start | scripts/supervisor.py:111-134 | starts a process unless one is running; a failed spawn leaves none |
| Supervisor.ProgramObject.Reap | scripts/supervisor.py:193-203 | notes an exit once |
| Supervisor.ProgramObject.Stop | scripts/supervisor.py:136-138 | the part of a stop that the supervisor decides: the program is no longer wanted |
| Supervisor.ProgramObject.Reset | scripts/supervisor.py:168-173 | what a restart does between stopping and starting: backoff and schedule are cleared and the restart is counted |
| Supervisor.ProgramObject.Tick | scripts/supervisor.py:363-398 | one program's share of a pass of the loop |
| Supervisor.SupervisorObject.Tick | scripts/supervisor.py:363-398 | the pass over all programs, cut short with exit code 1 by the one that makes the loop give up |
| SupervisorFacts.TickUninterrupted | scripts/supervisor.py:363-398 | the tick cut between its statements is, with nobody in between, the loop body |
| SupervisorFacts.NeverTwoProcesses | scripts/supervisor.py:111-203 | in every interleaving of ticks, deaths and commands a program has at most one live process |
| SupervisorFacts.ReapedIsScheduled | scripts/supervisor.py:363-398 | in every interleaving in which spawns succeed, at the end of each tick a wanted program that was reaped has a restart at most 30 s ahead |
| SupervisorFacts.ScheduledIff | scripts/supervisor.py:384-395 | in every interleaving, with any spawns failing and the first one too, a restart is scheduled, and then at most 30 s ahead, exactly when the last one the loop wrote down was neither taken up by the loop nor replaced by a restart command |
| SupervisorFacts.FailedSpawnIsForgotten | scripts/supervisor.py:388-395 | a schedule with a failed spawn that ends with a wanted program and nothing scheduled |
| SupervisorFacts.GivesUpIffFiveInWindow | scripts/supervisor.py:363-398 | any five consecutive crashes of a critical program span at least 120 s while the loop runs, and it gives up exactly at the crash where that would first fail; other programs never make it |
| SupervisorFacts.BackoffIsExponential | scripts/supervisor.py:363-398 | in every interleaving, for critical and other programs, the backoff after k doublings since the last restart command or settled tick is min(2^k, 30), and a crash is answered by a restart that much ahead |
| SupervisorStarts.LoopStartsIff | scripts/supervisor.py:363-398 | a pass of the loop starts a program exactly when it is wanted, has no process and its restart is due |
| SupervisorStarts.StartMeans | scripts/supervisor.py:111-134 | a start command makes the program wanted and gives it a new process, or none when the spawn fails |
| SupervisorStarts.RestartMeans | scripts/supervisor.py:168-173 | a restart command left alone ends with a new process, the first backoff and nothing scheduled |
| SupervisorStarts.CrashIsRestarted | scripts/supervisor.py:363-398 | a wanted program that died is started again by the first pass that comes its backoff later, however long that is |
| SupervisorStarts.UnwantedExitIsNoCrash | scripts/supervisor.py:363-372 | the exit of a program that is not wanted is noted and neither counted nor answered |
| SupervisorStarts.RestartsAreCounted | scripts/supervisor.py:168-173 | in every interleaving each answered crash and each restart command is counted once |
| SupervisorStarts.StoppedStaysDown | scripts/supervisor.py:136-138 | in every interleaving without a start or restart command a stopped program is not started |
| SupervisorStarts.LateStopIsUndone | scripts/supervisor.py:388-395 | a stop between the loop's look and its start is undone |
| SupervisorStarts.StopHoldsIff | scripts/supervisor.py:388-395 | a stop holds, whatever follows but a command to start, exactly when the loop is not between its look and its start |
| Utf8.DecodeEncoded | app/credential_generator.py:97-98 | decoding gives back every encoded string, whatever bytes follow |
| Utf8.DecodeSplits | app/logstore.py:127 | decoding with replacement can be cut before any ASCII byte, also in malformed input |
| PercentEncoding.UnquoteQuoted | app/credential_generator.py:97-98 | every string survives percent-encoding |
| PercentEncoding.QuoteIsInert | app/credential_generator.py:97-98 | an encoded value holds only unreserved characters and percent signs: no value can introduce a delimiter |
| ShareLinkFacts.QueryRoundTrip | app/credential_generator.py:101-105 | any list of parameters reads back in order without those whose value is empty |
| ShareLinkFacts.UriRoundTrip | app/credential_generator.py:199-203 | a printed link reads back as its account, host, port, parameters and remark exactly when its server text is a reg-name or a bracketed literal |
| ShareLinkFacts.RealityRoundTrip | app/credential_generator.py:173-203 | a REALITY link is printed exactly for a sound target and profile, and reads back whole exactly when the host is a reg-name or an IP literal, with or without its brackets |
| ShareLinkFacts.RealityLinkMeans | app/credential_generator.py:185-196 | every field of the profile is found by the client under its own key |
| ShareLinkFacts.WebSocketRoundTrip | app/credential_generator.py:206-240 | the same for WebSocket links |
| ShareLinkFacts.WebSocketLinkMeans | app/credential_generator.py:206-240 | path, host, security and, with TLS, server name and fingerprint are found under their own keys, and there is no flow |
| ShareLinkFacts.UuidReadsBack | app/credential_generator.py:50-57 | the account in a link is all its digits in order, hyphenated 8-4-4-4-12 |
| ShareLinkFacts.NormalisedWhen | app/credential_generator.py:108-116 | a path is accepted exactly when it is not empty and has no inner whitespace, and always comes out rooted |
| ShareLinkFacts.AcceptedHostIsLost | app/credential_generator.py:72-94 | hosts with `?`, `@` or `:` in them are accepted and printed, and not read back |
| ShareLinkTexts.StripMeans | app/credential_generator.py:72-94 | stripping takes all white space from both ends, by code points, and nothing else |
| ShareLinkTexts.RealityRefusedIff | app/credential_generator.py:173-184 | a REALITY link is refused for the first fault of account, host, port, key, server name, flow or network, and printed without one |
| ShareLinkTexts.WebSocketRefusedIff | app/credential_generator.py:206-225 | the same for WebSocket links, with host and path |
| ShareLinkTexts.PlainHostCarriedIff | app/credential_generator.py:72-94 | a host without percent signs or brackets comes back whole exactly when it is made of letters, digits and the marks a name may hold |
| ShareLinkTexts.EscapedHostIsCarried | app/credential_generator.py:72-94 | a host with whole escapes comes back as it was given |
| ShareLinkTexts.AddressIsCarried | app/credential_generator.py:72-94 | addresses of hexadecimal digits, colons and dots come back, bare or in brackets |
| ShareLinkTexts.KeptMeans | app/credential_generator.py:101-105 | exactly the parameters without a value are left out, and the rest stay in order |
| TailFile.SplitAtNewline | app/logstore.py:128 | `splitlines` can be cut behind any line feed, also one after a carriage return |
| TailFile.SplitMeans | app/logstore.py:128 | a line holds none of the ten line breaks and ends at one, a carriage return with the line feed after it counting once, or with the text |
| TailFile.EnoughRead | app/logstore.py:121-128 | with more than n line feeds read, the last n lines of the tail are those of the whole file, wherever the block boundary fell |
| TailFile.TailFile | app/logstore.py:111-129 | for n of at least one the backwards loop yields exactly the last n lines that splitting the whole file gives; for zero it yields nothing only when there is nothing to read, and for negative n nothing |
| EventLog.TrimKeepsNewest | app/logstore.py:62-69 | with consecutive ids trimming keeps exactly the newest 2000 rows |
| EventLog.RecentMeans | app/logstore.py:74-108 | a reader gets the events that match its filters, newest first, at most as many as it may ask for, and an older one is left out only for that many newer ones |
| Text.LowerMeans | app/logstore.py:74-92 | lower-casing a filter changes nothing but the case of ASCII letters and leaves no capital |
| EventLog.TrimmingShowsIff | app/logstore.py:74-108 | a reader with any filter sees what the full history would show exactly when enough matching rows are left or none was lost |
| EventLog.NeverVisible | app/logstore.py:32-108 | for any processes, in any order, with failures and restarts, an unfiltered reader always gets the newest min(max(limit,1),1000) events of the full history |
| EventLog.TableStaysSmall | app/logstore.py:55-69 | n processes that neither restart nor fail to trim never leave more than 2000 + 49n rows: 2049 for one |
| EventLog.TableSizeExactly | app/logstore.py:55-69 | after any run of any processes, with restarts, failing inserts and failing trims, the table has everything ever in it or two thousand rows and what was inserted since the last trim that worked, whichever is less |
| EventLog.BoundHoldsIff | app/logstore.py:55-69 | from at most 2000 rows the bound of 2049 holds after a run exactly when no more rows ever existed or at most 49 were inserted since the last trim that worked |
| EventLog.RestartsDefeatTrimming | app/logstore.py:55-69 | a process restarted after every 49 writes grows the table without bound |
| EventLog.EventStore.LogEvent | app/logstore.py:32-71 | inserts, counts and trims every fiftieth write, with a failing insert and a failing trim |
| EventLog.EventStore.Recent | app/logstore.py:74-108 | newest first, filtered with the level lower-cased, and clamped; unfiltered it is the full history's |
| KeyStore.RunKeepsCommitted | app/xray_manager.py:257-289 | through any boots, writes and crashes, once the short id is there all three files come from one generation |
| KeyStore.KeysAreOneGeneration | app/xray_manager.py:257-289 | from an empty directory, whatever is ever loaded was generated whole by one boot, and every later boot loads the same |
| KeyStore.FullBootLoads | app/xray_manager.py:266-289 | an uninterrupted boot leaves keys to load whatever earlier boots left behind |
| KeyStore.OneGenerationIff | app/xray_manager.py:266-289 | in every interleaving of any number of generators with fresh keys, the halves loaded are one boot's pair exactly when the same boot wrote last on both files, and the triple one generation exactly when it also wrote the short id last |
| KeyStore.SettledKeysStay | app/xray_manager.py:266-272 | once keys can be loaded and no generator is still writing, no number of generators changes a file |
| KeyStore.ConcurrentBootsMix | app/xray_manager.py:274-280 | a run of two generators that leaves the private half of one pair with the public half of the other |
| KeyStore.KeyDirectory.EnsureRealityKeys | app/xray_manager.py:266-289 | loads, or generates and writes in order, dying after any number of writes: the files are what the crash model says, and a result is always what is on disk |
| Migrations.SortedAscends | app/database.py:164 | migrations run in ascending order of version however they are listed |
| Migrations.ExecutedLeads | app/database.py:169-170 | a transaction executes all its statements, one after another, or fails |
| Migrations.RunExecutes | app/database.py:151-185 | a run, dead, failed or finished, has executed every statement of the migrations it counts, in order, and recorded exactly those; it is finished exactly when none is left |
| Migrations.FirstBootExecutesAll | app/database.py:151-185 | a finished boot on an empty database has executed all statements of all migrations in ascending order of version |
| Migrations.RunResumes | app/database.py:151-185 | running again from where a run died ends as if it had not died |
| Migrations.InterruptedBootsAgree | app/database.py:151-185 | any number of boots dying anywhere and then one left alone reach the schema, applied rows and outcome of one undisturbed boot |
| Migrations.RunNeverRepeats | app/database.py:137-185 | no version is recorded twice, a migration fails only because one of its statements does, and a finished run has recorded all |
| Migrations.RerunAppliesNothing | app/database.py:151-185 | after a finished boot a forced re-run changes nothing and counts zero |
| Migrations.Database.InitDb | app/database.py:151-185 | the loop with its transaction per migration, the process-level shortcut and the count returned |
| Backup.BackupHolds | app/backup.py:63-108 | an archive holds the manifest, the database and exactly the key files that exist, and passes the member check |
| Backup.LookupWrites | app/backup.py:189-204 | a restore overwrites exactly the database and key files the archive has, with the archive's contents |
| BackupFacts.RestoreBringsBackIff | app/backup.py:159-215 | restoring a backup of S over any state gives S's database and key files and leaves keys S lacked, exactly when the safety copy does not overwrite that backup first |
| BackupFacts.SameNameLosesBackup | app/backup.py:172-178 | a restore whose safety copy takes the archive's name reports success and changes nothing |
| BackupFacts.UnexpectedMemberChangesNothing | app/backup.py:145-156 | an archive with any unexpected member never changes the live database or a key file |
| BackupFacts.UnconfirmedTouchesNothing | app/backup.py:159-170 | without confirmation no live file and no archive changes, no safety copy is made, and the refusal names the archive's fault or the missing confirmation |
| BackupFacts.RestoreSucceedsIff | app/backup.py:159-215 | a restore succeeds exactly when it is confirmed, the archive can be inspected, what is then unpacked holds expected regular files only, and no write fails; it names the files written |
| BackupFacts.StoppedRestoreLeaves | app/backup.py:189-210 | a restore stopped by a failing write has overwritten the files before it, in order, and left the others as they were |
| BackupFacts.SafetyCopyUndoes | app/backup.py:159-215 | however a confirmed restore went, also stopped halfway, restoring its safety copy brings back the earlier database and every key file that existed |
| BackupStore.SafeMembers | app/backup.py:145-156 | accepts the members in order, or refuses all for one that is not expected |
| BackupStore.Stage | app/backup.py:185-189 | the staging directory holds the last member of each name |
| BackupStore.Vault.CreateBackup | app/backup.py:63-108 | collects the key files in a loop and writes the archive, with both ways to fail |
| BackupStore.Vault.Overwrite | app/backup.py:191-210 | overwrites database and keys one by one until a write fails |
| BackupStore.Vault.RestoreBackup | app/backup.py:159-215 | inspect, confirm, safety copy, reopen, check, stage, overwrite, with every refusal |
| Timestamps.TextSortsLikeTime | app/util.py:17-23 | for four-digit years stored text compares exactly like the moments, to the second |
| Timestamps.IsoRoundTrip | app/util.py:17-39 | reading stored text back gives the moment in whole seconds |
| Timestamps.ReadsBackIff | app/util.py:17-39 | text of the stored form is read back exactly when it names a month, day and time of day there is |
| Timestamps.ShortYearsSortWrong | app/util.py:17-23 | with a three-digit year the order is reversed |
| Sessions.PurgeDeletesExactlyRejected | app/auth.py:193-201 | comparing text, a purge deletes exactly the sessions that comparing instants rejects at the same clock reading |
| Sessions.CreatedIsFound | app/auth.py:123-173 | a created session is found under its own token with its own user, CSRF secret, times and address until it expires, and nothing else is found differently |
| Sessions.PurgeIsInvisible | app/auth.py:149-201 | no later reader gets another answer because of a purge |
| Sessions.GetIsInvisible | app/auth.py:149-173 | nor because an earlier read destroyed an expired session |
| Sessions.RejectedIsDestroyed | app/auth.py:149-173 | a session that a read refuses to return is gone afterwards, and no other |
| Sessions.InsertThenPurge | app/auth.py:123-147 | a new session survives the purge after it exactly when it has not expired meanwhile |
| Sessions.SessionStore.CreateSession | app/auth.py:123-147 | inserts a row and purges |
| Sessions.SessionStore.GetSession | app/auth.py:149-173 | returns the session or destroys the rejected one |
| Sessions.SessionStore.PurgeExpired | app/auth.py:193-201 | deletes by text comparison and counts |

## Left out

- Reconciliation.SweepLeavesExactlyTheActive: assumes that every apply of the run succeeded, that the status probe told the truth and that the clock did not run backwards; after a failed apply later sweeps find nothing to do, so the statement is false without it.
- Reconciliation.StepKeepsInSync: assumes that Xray refuses a configuration whose inbounds are not a list of objects.
- InterleavingFacts.NothingElseIsServed: assumes that no apply breaks off, by a settings row or an old file that cannot be written, by a refused second restart or by a death, at a moment when Xray's structure is not the file's; the statements of `InterleavingLists` do without.
- InterleavingLists.QuiescentIsActive: the settings stay the same while processes interleave; `allow_restart=False`, forced restarts and a wrong status probe are in `Pipeline` but not in the interleaved model.
- SupervisorFacts.ReapedIsScheduled: assumes spawns succeed, and `SupervisorFacts.ScheduledIff` is the statement without that; shutdown is not part of the interleaved model, and the condition of each branch of the loop is read in one step.
- RateLimiter.FailuresAreSpaced: assumes that the client's own attempts follow one another and that the memory guard does not fire; when it fires it forgets failures by design.
- EventLog.TableStaysSmall: assumes that no process restarts and no trim fails; `EventLog.TableSizeExactly` is the statement without that. Level filters are lower-cased in ASCII only.
- ShareLinkFacts.RealityRoundTrip: the account is what `uuid.UUID` makes of the given text and IPv6 recognition is a parameter; the many spellings `uuid.UUID` accepts are not modelled. The reader checks literals by their characters only, and refuses zone identifiers and names outside ASCII.
- TailFile.TailFile: the file does not grow while it is read, and the scrubbing of each line is an arbitrary function.
- KeyStore.KeysAreOneGeneration: one boot at a time, which `KeyStore.OneGenerationIff` does not assume; no rotation and no restore.
- BackupFacts.RestoreBringsBackIff: a file is overwritten in one step; `-wal` and `-shm` files, file modes, undecodable key files and archive entries that are links are not modelled.
- Migrations.InterruptedBootsAgree: the effect of a statement is a function of the schema that may fail.
- Timestamps.IsoRoundTrip: the calendar is not modelled, so a day of 31 is allowed in every month; other spellings that `fromisoformat` accepts are never stored.
- Accounts.MutateEffect: an operation uses one clock reading for its table part; usernames are not trimmed and listing order is insertion order.
- Nested dictionaries that rendering fills in place are modelled on values, so sharing between parts of the template is not captured.
- Floating-point numbers in JSON are not part of the model; SHA-256 is taken to be injective.
- Settings rows, events and timestamps written on the side of an apply appear only as an error that may be raised.
- The content of archives and manifests beyond member names and contents; listing and inspecting backups for display.
- Signals, sockets, output pumping and log rotation in the supervisor; stop and restart are cut at the points where another thread can get in.
- Password hashing, tokens and CSRF checks: fresh or injective values, with no state to speak of.
- `build_client_config`, QR codes, HTTP routes, templates, the menu and diagnostics: would add only one-branch facts.

# Model of the Anoubis daemon

The Anoubis daemon decides about events that the kernel reports: a process forks,
executes a program, opens, renames or locks a file. Its policy engine, master,
upgrade process and session engine are separate processes that exchange messages.
This project models the policy engine and the messages that connect it with the
other processes, and proves what the daemon relies on.

`dafny verify dfyconfig.toml` checks everything.

## How the model is built

Each part has a specification on values (datatypes, functions and a step function
for a state machine) and, where the program changes things in place, classes whose
methods are proved equal to the functions on values. What the program promises is
then proved about the functions, for every input and every run. The answers themselves,
verdicts, contexts, checksums, replies and the end of upgrades, are also described without
these functions, in terms of rules, stored data and events, and the two descriptions are
proved to agree (Verdicts.dfy, Effects.dfy, UpgradeEvents.dfy, `Pipeline.DiskSays`,
`Replies.Explained`).

| file | part of the daemon |
|---|---|
| Policy.dfy, Contexts.dfy, Processes.dfy | policy database, rule contexts and process tracking as a machine over all events |
| Effects.dfy | what each event does to the tracked processes, in terms of rules and rulesets |
| Connections.dfy | borrowed contexts over whole connections |
| Tracker.dfy | process tracking on the heap: shared, reference counted structures |
| Upgrade.dfy, UpgradeEngine.dfy, FileTree.dfy | marks, holds, the tree of modified files and the end of an upgrade |
| UpgradeEvents.dfy, UpgradeTrust.dfy | what each event does to an upgrade, and whose writes are trusted during one |
| Composition.dfy | process tracking on the heap and the state of upgrades side by side |
| SfsCache.dfy | the checksum cache: hash slots, LRU list, key spellings |
| Pipeline.dfy | policy engine, master and upgrade process with five queues: safety in every reachable state |
| Completion.dfy, Liveness.dfy | the chunk exchange ends in every fair run, and held replies are sent |
| Witnesses.dfy | runs in which the promises of an upgrade are not kept |
| Daemons.dfy | the message handlers of these processes on mutable queues |
| PathRules.dfy, PrefixHash.dfy, RuleLookup.dfy | rules for files, the prefix hash, verdicts with and without it, the rename guard |
| Verdicts.dfy | what the verdicts mean: which rule decides, what it says, and which log level is reported |
| RulePaths.dfy | the paths that the parser puts into rules |
| Channel.dfy | message framing between two processes under any sizes of reads and writes |
| CsumVerify.dfy, EventAsk.dfy | size checks of checksum requests and escalation messages, and the way of an escalation to the client |
| PgFiles.dfy | name files of playgrounds and the streaming of their records |
| Replies.dfy, ReplyFlow.dfy | where the reply to an event is until it is sent, and that the queues do just that |

Several promises hold only under a condition. In each case the condition is stated
and proved exact, for all inputs:

* An exec or open whose uid is not that of the tracked process puts a foreign ruleset
  into a context. `Processes.StepKeepsRulesets` says exactly when, and
  `Processes.ForeignOpenBreaks` is an example.
* A lock event of a process that is not tracked is counted as an upgrade that nothing
  ends. `Upgrade.HandleInv` and `Pipeline.NextInv` hold exactly for all other events;
  `Upgrade.StuckForever` shows the consequence and `Witnesses.StrayLockIsLost` a run.
* A path that does not fit into a chunk ends the upgrade early.
  `Pipeline.AllPathsListed` holds exactly if all paths fit; `Witnesses.LongPathIsDropped`
  is a run from the start in which one does not.
* A borrow is undone by the end of its own connection exactly if nothing was saved before
  (`Contexts.BorrowRoundTrip`, and over runs `Connections.ConnectionRoundTrip`).
* An escalation message is accepted exactly if it is within the size limit
  (`EventAsk.AcceptedExactly`).
* The list of the names of a playground file is finished exactly if every record fits into
  an empty message (`PgFiles.SendRounds`); names below PATH_MAX do (`PgFiles.KernelNamesFit`).

The prefix hash looks up the strings that end before a slash, so it relies on prefixes
without trailing slashes (`PrefixHash.LookedUpExactly`, `PrefixHash.FoundExactly`). The parser
of the policy language provides for that: `RulePaths.NormalizePath` models its
normalization, and `RulePaths.ParsedVerdictHashIsScan` is the resulting theorem for all
policies.

Code and comments of the repository disagree in three places, where the model follows the
code: `pe_ipc_connect` (src/anoubisd/pe_ipc.c:80-96) lets the destination of the message
borrow from the source, not the connecting process from its peer;
`pe_playground_file_add` (src/anoubisd/pe_playground.c:551-643) returns -1 and not 0 if the
name is already in the file; and `dispatch_write_queue` (src/anoubisd/aqueue.c:140-194) returns
zero also if there was nothing to write.

## Model

| member | source | states |
|---|---|---|
| Policy.GetRuleset | src/anoubisd/pe_user.c:616-635 | a ruleset that is returned is in the database |
| Policy.RulesetOrder | src/anoubisd/pe_user.c:616-635 | the ruleset of the first entry of the user is taken if there is one, else what the default user has |
| Policy.RulesetOfStranger | src/anoubisd/pe_user.c:616-635 | a user without an entry gets what the default user has, and none without a default user |
| Policy.InsertOwn | src/anoubisd/pe_user.c:542-573 | an insertion sets the slot of that user and priority and leaves every other slot of every user as it was |
| Policy.InsertSlots | src/anoubisd/pe_user.c:542-573 | after an insertion every filled slot holds the new ruleset or one that was there before |
| Policy.InsertDistinct | src/anoubisd/pe_user.c:542-573 | inserting a fresh ruleset keeps all slots of the database distinct |
| Policy.InsertDropsOld | src/anoubisd/pe_user.c:556-572 | the replaced ruleset is in no slot afterwards, so it may be freed |
| Contexts.SwitchOk | src/anoubisd/pe_context.c:531-555 | a switch leaves a context of the ruleset that the database gives, or one without rules |
| Contexts.RefreshOk | src/anoubisd/pe_context.c:275-321 | a refresh makes current and saved context valid whatever rulesets they had before |
| Contexts.BorrowOk | src/anoubisd/pe_context.c:772-800 | a borrow keeps the context of the borrower within the borrower's own ruleset |
| Contexts.ExecuteOk | src/anoubisd/pe_context.c:571-596 | an exec whose uid becomes the uid of the process keeps its contexts within the active ruleset |
| Contexts.ForeignSwitch | src/anoubisd/pe_context.c:531-555 | a switch under another uid is good if and only if that uid has no ruleset or the same one (also pe_context.c:715-758) |
| Contexts.BorrowRoundTrip | src/anoubisd/pe_context.c:772-820 | the end of its own connection undoes a borrow if and only if nothing was saved before (also pe_proc.c:877-921) |
| Contexts.BorrowKeepsSaved | src/anoubisd/pe_proc.c:877-889 | a borrow over an earlier one changes neither the saved context nor its connection |
| Contexts.FirstBlockExactly | src/anoubisd/pe_context.c:834-862 | a search finds a block if and only if it applies and no earlier one of the chain does |
| Contexts.NamedExactly | src/anoubisd/pe_context.c:431-517 | a list of applications matches a program if and only if it is empty or one element has no name, the path of the program, or a path whose registered, non-empty checksum is that of the program |
| Contexts.BlockAppliesExactly | src/anoubisd/pe_context.c:839-860 | a block applies if and only if its applications name the program and it is not for playgrounds only outside of one |
| Contexts.DecideExactly | src/anoubisd/pe_context.c:990-1041 | a context may change if and only if there is none and the event is an exec, an exec comes under another uid, or a context rule of the asked kind names the program |
| Contexts.ExecuteExactly | src/anoubisd/pe_context.c:571-596 | an exec that may change the context gives it the first applicable blocks of the ruleset found and drops the saved context; any other exec changes nothing |
| Contexts.OpenExactly | src/anoubisd/pe_context.c:715-758 | an open gives the context the first applicable blocks for the file if an open rule names it, keeps the saved context, and otherwise changes nothing |
| Contexts.BorrowExactly | src/anoubisd/pe_context.c:772-800 | a borrow needs a borrow rule for the program of the lender and the same ruleset on both sides; then the rules for that program under the uid of the borrower are taken and the first borrow saves the context with its connection (also pe_proc.c:877-889) |
| Contexts.RefreshExactly | src/anoubisd/pe_context.c:275-321 | a refresh searches current and saved context again, each for the program it was made for, and keeps the connection |
| Processes.UpdateOneOk | src/anoubisd/pe_proc.c:848-864 | the loop body of the insertion refreshes every process whose contexts could be stale |
| Processes.StepKeepsRulesets | src/anoubisd/pe_proc.c:539-618 | one event of any kind keeps "every current and saved context belongs to the active ruleset or has none" if and only if its uid fits process tracking (also pe_proc.c:814-864, pe_context.c:275-321, pe_context.c:531-820) |
| Processes.ForeignOpenBreaks | src/anoubisd/pe_context.c:715-758 | a concrete open event under a foreign uid breaks the invariant, so the condition is needed |
| Processes.RunKeepsRulesets | src/anoubisd/pe_proc.c:813-864 | the invariant holds in every reachable state of every run with fitting uids (also pe_context.c:274-321, pe_user.c:260-306) |
| Processes.InsertLeavesNoStale | src/anoubisd/pe_user.c:541-573 | after the insertion of a policy no context of any process points to the ruleset that is freed (also pe_proc.c:848-864) |
| Processes.ReconfigureLeavesNoStale | src/anoubisd/pe_user.c:260-306 | after a reload no context points to a ruleset of the flushed database (also pe_proc.c:813-828) |
| Processes.PredictionAgrees | src/anoubisd/pe_context.c:570-643 | will_transition predicts a secure exec if and only if the exec changes the rules of a priority that has a ruleset (also pe_context.c:989-1041) |
| Effects.ForkEffect | src/anoubisd/pe_proc.c:539-563 | a fork adds one process and changes no other; under the uid of the parent the child has its current contexts, otherwise the first applicable blocks of its own rulesets; it has the identity, the upgrade mark and the secure mark of the parent and is no upgrade parent (also pe_context.c:381-412) |
| Effects.ExecEffect | src/anoubisd/pe_proc.c:698-762 | an exec changes one process only, which is tracked by then; identity, uid and secure mark are those of the event, and each context changes exactly when it may (also pe_context.c:571-596) |
| Effects.OpenEffect | src/anoubisd/pe_context.c:715-758 | an open changes contexts of the process that opens and nothing else, and only where an open rule names the file |
| Effects.ConnectEffect | src/anoubisd/pe_ipc.c:80-96 | a connection changes contexts of its destination and nothing else, and only where a borrow rule names the program of the source (also pe_context.c:772-800) |
| Effects.DisconnectEffect | src/anoubisd/pe_ipc.c:108-119 | a disconnect restores, in the process at its source, what was saved for that connection and nothing else (also pe_proc.c:901-921) |
| Effects.PlaygroundEffect | src/anoubisd/pe.c:1018-1039 | a process that enters or leaves a playground has all its contexts searched again for its new playground |
| Effects.ReconfigureEffect | src/anoubisd/pe_proc.c:814-828 | a new policy is searched for every context of every process and changes nothing else |
| Effects.InsertEffect | src/anoubisd/pe_proc.c:848-864 | a new ruleset changes contexts of its priority only, and exactly those that use the old ruleset or none, or without an old ruleset those of its user (also pe_user.c:542-573) |
| Effects.AddThenExit | src/anoubisd/pe_proc.c:580-618 | an instance that is added and exits leaves the list of processes as it was |
| Connections.ConnectionRoundTrip | src/anoubisd/pe_ipc.c:80-119 | a connect, any events elsewhere and the disconnect of the borrower leave its contexts as they were if and only if at every priority nothing was saved before, or nothing was borrowed and the cookie is not that of the saved context (also pe_context.c:772-820) |
| Connections.FirstConnectionWins | src/anoubisd/pe_ipc.c:80-119 | whatever is connected, disconnected or opened in between, by any process, the end of the first connection brings back the context of before it (also pe_proc.c:877-921) |
| Connections.SourceRestoresNothing | src/anoubisd/pe_ipc.c:108-119 | a disconnect that is reported for the connecting process restores nothing at its peer |
| Connections.ElsewhereKeeps | src/anoubisd/pe_proc.c:182-196 | an event that is not about a process and does not change the policy leaves the process as it is |
| Tracker.PolicyEngine.PutContext | src/anoubisd/pe_context.c:952-958 | dropping a reference keeps every count exact and frees a context only when no slot and no variable refers to it |
| Tracker.PolicyEngine.ReferenceContext | src/anoubisd/pe_context.c:966-972 | taking a reference keeps every count exact |
| Tracker.PolicyEngine.SetContext | src/anoubisd/pe_proc.c:396-406 | replacing a current context keeps all counts exact, also if it replaces itself |
| Tracker.PolicyEngine.SetSavedCtx | src/anoubisd/pe_proc.c:974-984 | the same for the saved context |
| Tracker.PolicyEngine.SaveCtx | src/anoubisd/pe_proc.c:877-889 | moves the current context to the saved slot unless one is saved, with all counts exact |
| Tracker.PolicyEngine.RestoreCtx | src/anoubisd/pe_proc.c:901-921 | moves the saved context back if the connection matches, with all counts exact |
| Tracker.PolicyEngine.DropSavedCtx | src/anoubisd/pe_proc.c:932-942 | empties the saved slot, with all counts exact |
| Tracker.PolicyEngine.ContextNoRules | src/anoubisd/pe_context.c:213-228 | replaces the context by one without rules and the same identity |
| Tracker.PolicyEngine.SavedNoRules | src/anoubisd/pe_context.c:241-258 | the same for the saved context |
| Tracker.PolicyEngine.ContextSwitch | src/anoubisd/pe_context.c:531-555 | the object code refines the switch on values, keeps all counts exact and reads the identity only while its owner is allocated |
| Tracker.PolicyEngine.ContextRefresh | src/anoubisd/pe_context.c:275-321 | refines the refresh of one priority |
| Tracker.PolicyEngine.SearchContext | src/anoubisd/pe_context.c:880-912 | the identity of the new context is read while its owner is allocated, also if the owner is the context that the search replaces |
| Tracker.PolicyEngine.ContextFork | src/anoubisd/pe_context.c:381-412 | a child shares the parent's context only under the same uid, and otherwise searches its own |
| Tracker.PolicyEngine.ContextExecute | src/anoubisd/pe_context.c:571-596 | refines the exec of both priorities and takes over the uid |
| Tracker.PolicyEngine.ContextOpenFile | src/anoubisd/pe_context.c:715-758 | refines the open of both priorities; nothing happens without a checksum |
| Tracker.PolicyEngine.ContextBorrowFrom | src/anoubisd/pe_context.c:772-800 | refines the borrow of both priorities, also when borrower and lender are the same process and the lent context is the one that is replaced |
| Tracker.PolicyEngine.ContextRestoreAll | src/anoubisd/pe_context.c:811-820 | refines the restore of both priorities |
| Tracker.PolicyEngine.PutProcess | src/anoubisd/pe_proc.c:208-228 | the last reference releases all contexts; the "Remaining instances" panic cannot be reached |
| Tracker.PolicyEngine.GetProcess | src/anoubisd/pe_proc.c:182-196 | finds the first process with the cookie and takes exactly one reference |
| Tracker.PolicyEngine.ProcFork | src/anoubisd/pe_proc.c:539-563 | refines the fork step and leaves exactly one reference per tracked process |
| Tracker.PolicyEngine.ProcExec | src/anoubisd/pe_proc.c:698-762 | refines the exec step, also for a process that was not tracked |
| Tracker.PolicyEngine.ProcAddInstance | src/anoubisd/pe_proc.c:580-587 | counts one more instance of a tracked process |
| Tracker.PolicyEngine.ProcExit | src/anoubisd/pe_proc.c:601-618 | the last instance removes the process and all its references |
| Tracker.PolicyEngine.IpcConnect | src/anoubisd/pe_ipc.c:80-96 | refines the connect step: the peer borrows from the source |
| Tracker.PolicyEngine.IpcDestroy | src/anoubisd/pe_ipc.c:108-119 | refines the disconnect step |
| Tracker.PolicyEngine.UpdateDb | src/anoubisd/pe_proc.c:814-828 | refreshes every tracked process |
| Tracker.PolicyEngine.UpdateDbOne | src/anoubisd/pe_proc.c:848-864 | refreshes exactly the processes that use the replaced ruleset or gain one |
| Tracker.PolicyEngine.InsertRuleset | src/anoubisd/pe_user.c:542-573 | refines the insertion step for the active database |
| Tracker.PolicyEngine.Reconfigure | src/anoubisd/pe_user.c:261-282 | refines the reload step |
| Tracker.PolicyEngine.Handle | src/anoubisd/pe_proc.c:181-228 | whatever the event, the heap changes as the value step says, all reference counts are exact afterwards and no variable keeps a reference (also pe_proc.c:330-357, pe_proc.c:538-618, pe_proc.c:813-864, pe_context.c:212-258, pe_context.c:530-555, pe_context.c:951-972) |
| Tracker.PolicyEngine.NothingLeaks | src/anoubisd/pe_proc.c:181-228 | between events each tracked process has exactly one reference, and each context as many as slots of tracked processes point to it (also pe_proc.c:330-357, pe_context.c:951-972) |
| Tracker.SearchChain | src/anoubisd/pe_context.c:834-862 | the loop returns a block if and only if it applies and no earlier one of the chain does, and none if and only if no block applies |
| Tracker.SearchRules | src/anoubisd/pe_context.c:880-912 | the new context has of each kind the first block of the ruleset that applies |
| Tracker.ContextDecide | src/anoubisd/pe_context.c:990-1041 | the loops allow a change exactly for an exec without a context or under another uid, or if a context rule of the asked kind names the program |
| SfsCache.HashFn | src/anoubisd/pe_sfscache.c:111-129 | the loop computes the slot of a path and a user id or key |
| SfsCache.HashIgnoresCase | src/anoubisd/pe_sfscache.c:111-129 | keys that are equal up to case have the same hash value |
| SfsCache.SameSlot | src/anoubisd/pe_sfscache.c:111-129 | whatever matches a request lives in the slot that the request looks into (also pe_sfscache.c:357-400) |
| SfsCache.DecodeLower | src/anoubisd/pe_sfscache.c:411-424 | a string of hex digits decodes to a key id exactly if it is the lower-case encoding of the id up to case (also pe_sfscache.c:447-491) |
| SfsCache.DecodeHex | src/anoubisd/pe_sfscache.c:468-491 | decoding what the master encodes gives the key id back (also main.c:1335-1359) |
| SfsCache.InvalidateAllSpellings | src/anoubisd/main.c:1335-1359 | the invalidation with the lower-case key hits exactly the entries whose key decodes to the changed key id (also pe_sfscache.c:384-400, pe_sfscache.c:670-676) |
| SfsCache.FetchOk | src/anoubisd/pe_sfscache.c:548-641 | lookups keep the keys unique and the number of entries within the bound |
| SfsCache.InvalidateExact | src/anoubisd/pe_sfscache.c:652-676 | an invalidation removes exactly the matching entries |
| SfsCache.FetchIsNewest | src/anoubisd/pe_sfscache.c:196-203 | an answered request is the most recently used entry and is never evicted by its own insertion (also pe_sfscache.c:548-641) |
| SfsCache.FetchAgain | src/anoubisd/pe_sfscache.c:548-641 | the repeated request is answered from the cache, positive or negative, whatever the disk says |
| SfsCache.EvictsOldest | src/anoubisd/pe_sfscache.c:168-183 | an insertion evicts the least recently used entry, and only from a full cache |
| SfsCache.SfsHash.Get | src/anoubisd/pe_sfscache.c:548-641 | slots and list refine the lookup on the list of entries in order of use; a matching entry is the answer, and without one it is the first 32 bytes of what is stored, or missing, or an error |
| SfsCache.SfsHash.SearchSlot | src/anoubisd/pe_sfscache.c:357-400 | the search of one slot finds what a search of the whole cache would find |
| SfsCache.SfsHash.InsertEntry | src/anoubisd/pe_sfscache.c:168-183 | refines the insertion with eviction; every entry is once in its slot and once in the list (also pe_sfscache.c:244-289) |
| SfsCache.SfsHash.RemoveEntry | src/anoubisd/pe_sfscache.c:137-155 | the entry leaves slot and list, and the count stays exact |
| SfsCache.SfsHash.TouchEntry | src/anoubisd/pe_sfscache.c:196-203 | the entry moves to the head of its slot and the end of the list |
| SfsCache.SfsHash.InvalidateEntry | src/anoubisd/pe_sfscache.c:652-676 | refines the invalidation |
| SfsCache.SfsHash.Flush | src/anoubisd/pe_sfscache.c:212-216 | the loop empties slots and list |
| SfsCache.ReadChecksum | src/anoubisd/pe_sfscache.c:447-532 | for a user the answer is the first 32 bytes of what is stored if there are as many, else missing; a key that spells no key id is missing, an empty key and a failed read are errors |
| SfsCache.ReadsExactly | src/anoubisd/pe_sfscache.c:447-532 | the answer of a read is exactly the one so described, for every request and every result of the read |
| Pipeline.TruthOfDisk | src/anoubisd/pe_sfscache.c:447-532 | the answer without a cache is what the SFS tree stores under the user id, or under the key id whose hex string the key is up to case |
| FileTree.HashPath | src/anoubisd/pe_filetree.c:74-87 | the loop computes the hash value of a path |
| FileTree.CompareOrder | src/anoubisd/pe_filetree.c:60-65 | hashcmp is antisymmetric, total, and zero only for equal paths, because an index stays below 2^24 |
| FileTree.CompareTransitive | src/anoubisd/pe_filetree.c:60-65 | hashcmp is transitive |
| FileTree.InsertSorted | src/anoubisd/pe_filetree.c:124-149 | insertion keeps the tree sorted without duplicates |
| FileTree.InsertCookie | src/anoubisd/pe_filetree.c:124-149 | insertion changes the cookie of that path only, and a cookie 0 overrides |
| Upgrade.StartInv | src/anoubisd/pe.c:193-227 | a start keeps the counter exact if and only if the process is tracked or an ended upgrade is still being processed |
| Upgrade.HandleInv | src/anoubisd/pe.c:192-289 | one kernel event keeps "counter == number of upgrade parents, no marks at zero, a tree while it is positive, holds only while processing" if and only if it is not a lock by an untracked process (also pe.c:730-938, pe_proc.c:601-618, pe_proc.c:647-683, pe_proc.c:1018-1135) |
| Upgrade.CompleteInv | src/anoubisd/pe.c:343-360 | the end of processing lifts every hold, makes exactly the held processes parents of a new upgrade and leaves the other marks alone (also pe_proc.c:1148-1181) |
| Upgrade.LostIsStuck | src/anoubisd/pe.c:205-226 | a lock by an untracked process makes the counter too large |
| Upgrade.StuckForever | src/anoubisd/pe.c:247-289 | no later event ends that upgrade or sends a START message |
| UpgradeEngine.PolicyProcess.UpgradeStart | src/anoubisd/pe.c:193-227 | the code on fields refines the start |
| UpgradeEngine.PolicyProcess.PruneTree | src/anoubisd/pe.c:263-283 | the loop with last_cookie keeps exactly the nodes with cookie 0 or a task that is not running: the shortcut changes nothing |
| UpgradeEngine.PolicyProcess.ClearAllMarks | src/anoubisd/pe_proc.c:1128-1135 | the loop clears the marks of all processes and nothing else |
| UpgradeEngine.PolicyProcess.UpgradeEnd | src/anoubisd/pe.c:247-289 | refines the end of an upgrade |
| UpgradeEngine.PolicyProcess.ProcExit | src/anoubisd/pe_proc.c:601-618 | the last instance of a process takes it out of the tracker, and the upgrade of a parent ends after that |
| UpgradeEngine.PolicyProcess.ProcAddThread | src/anoubisd/pe_proc.c:647-658 | refines the thread count |
| UpgradeEngine.PolicyProcess.ProcRemoveThread | src/anoubisd/pe_proc.c:669-683 | the last thread of a process clears its marks and ends the upgrade of a parent; any other only counts |
| UpgradeEngine.PolicyProcess.RecordTouched | src/anoubisd/pe.c:755-778 | a file with a checksum that an upgrade process writes is recorded, with cookie 0 for a parent, nothing else is, and the event gets its upgrade flags |
| UpgradeEngine.PolicyProcess.HandlePath | src/anoubisd/pe.c:895-931 | a lock by root in a lock mode begins an upgrade or a hold, an unlock in strict mode takes a parent from the count and ends the upgrade with the last one, and any other path event changes nothing |
| UpgradeEngine.PolicyProcess.HandleEvent | src/anoubisd/pe.c:379-467 | every kernel event changes the fields as the step on values says and has exactly its effect on the upgrade |
| UpgradeEvents.UnlockEnds | src/anoubisd/pe.c:918-927 | in strict mode the unlock by root of a parent takes it from the count; the last one sends START, clears all marks and leaves exactly the recorded files of upgrade parents and of processes that have ended; after any other only the marks of that process are gone (also pe.c:247-289) |
| UpgradeEvents.PathHasEffect | src/anoubisd/pe.c:895-931 | a lock by root in a lock mode begins an upgrade by its process, or by nobody if it is not tracked, if upgrades may start or one goes on; an unlock in strict mode ends that of its process; and no other path event does anything (also pe.c:193-289) |
| UpgradeEvents.ThreadHasEffect | src/anoubisd/pe_proc.c:669-683 | with its last thread a process loses its marks, and a parent ends its upgrade; before that only the count changes |
| UpgradeEvents.ExitHasEffect | src/anoubisd/pe_proc.c:601-618 | with its last instance a process leaves the tracker, and a parent ends its upgrade; before that only the count changes |
| UpgradeEvents.FileHasEffect | src/anoubisd/pe.c:755-770 | a write is recorded if and only if its process is part of an upgrade and the file has a checksum: under cookie 0 for a parent, else under the cookie of the first writer; no other path is touched |
| UpgradeEvents.HandleEffect | src/anoubisd/pe.c:379-467 | every kernel event has exactly such an effect on the upgrade: the triggering exec of root begins one, and nothing but these events begins, ends or records anything (also pe.c:193-289) |
| UpgradeTrust.TouchedIsRecorded | src/anoubisd/pe.c:755-778 | a file event is marked as touched if and only if its file is in the tree of the upgrade once the event is recorded, except for a writer of the upgrade that finds no checksum |
| UpgradeTrust.TrustNeedsUpgrade | src/anoubisd/pe_sfs.c:150-174 | without an upgrade a file counts as valid if and only if it has the registered checksum; what a process of an upgrade does with a file of the upgrade counts as valid if any is registered (also pe.c:755-778) |
| UpgradeTrust.RecordedStays | src/anoubisd/pe.c:247-289 | whatever the event, a recorded file stays recorded, except that the end of the upgrade drops files of processes that go on (also pe.c:755-770) |
| UpgradeEngine.PolicyProcess.CompleteUpgrade | src/anoubisd/pe.c:343-360 | refines the completion (also pe_proc.c:1171-1181) |
| UpgradeEngine.PolicyProcess.FillChunk | src/anoubisd/policy.c:561-579 | the loop copies whole paths as long as they fit and leaves the iterator behind them (also pe.c:296-333) |
| UpgradeEngine.TreeInsert | src/anoubisd/pe_filetree.c:124-149 | the search by hashcmp inserts at the sorted place |
| Composition.StepAgrees | src/anoubisd/pe_proc.c:539-864 | process tracking reads neither upgrade marks nor thread counts: it takes states that agree up to them to such states |
| Composition.HandleMarks | src/anoubisd/pe.c:192-289 | whatever an event means for upgrades, process tracking does the same as without them (also pe_proc.c:601-683) |
| Composition.CompleteMarks | src/anoubisd/pe.c:343-360 | the end of the processing changes marks only (also pe_proc.c:1171-1181) |
| Composition.HandleBoth | src/anoubisd/pe.c:379-467 | for every kernel event the structures on the heap and the state of upgrades each take their step and agree afterwards about all tracked processes |
| Witnesses.StrayLockIsLost | src/anoubisd/pe.c:205-226 | in the state after the start a lock of an unknown process already breaks the count for good |
| Pipeline.SplitJoin | src/anoubisd/upgrade.c:337-350 | splitting a chunk at its NUL bytes gives back the paths that were copied into it (also policy.c:561-579) |
| Pipeline.FillExact | src/anoubisd/policy.c:561-579 | a chunk holds exactly the paths from the old to the new iterator, it fits the buffer, and it is empty only if the next path cannot fit or none is left |
| Pipeline.ApplyTruth | src/anoubisd/main.c:1370-1381 | a checksum operation changes the answer only of requests that its invalidation matches (also main.c:1793-1841) |
| Pipeline.StartProgress | src/anoubisd/policy.c:520-546 | after START nothing is listed and the first request starts at the first path (also upgrade.c:336-338) |
| Pipeline.ChunkInv | src/anoubisd/policy.c:587-620 | a chunk request keeps the invariant: listed paths and chunk together are the paths before the iterator |
| Pipeline.UpgradeInv | src/anoubisd/upgrade.c:319-355 | the upgrade process keeps the invariant for every message |
| Pipeline.ForwardInv | src/anoubisd/main.c:2483-2585 | the relay from the upgrade process and the checksum updates keep the invariant |
| Pipeline.MasterInv | src/anoubisd/main.c:2255-2292 | the relay from the policy engine keeps the invariant |
| Pipeline.FinishInv | src/anoubisd/policy.c:661-680 | the END message empties cache and hold queue and keeps the invariant (also pe.c:343-360) |
| Pipeline.NextInv | src/anoubisd/policy.c:481-692 | every action of the three processes keeps the system invariant if and only if it is not the handling of a lock by an untracked process (also policy.c:863-1013, main.c:1308-1381, main.c:1792-1841, main.c:2255-2292, main.c:2482-2585, upgrade.c:318-355) |
| Pipeline.RunInv | src/anoubisd/policy.c:481-692 | the system invariant holds after every sequence of actions (also main.c:2255-2292, main.c:2482-2585, upgrade.c:318-355) |
| Pipeline.OneControl | src/anoubisd/policy.c:519-692 | exactly one START, CHUNK, CHUNK_REQ or END message is in flight while an ended upgrade is processed, otherwise none (also upgrade.c:318-355) |
| Pipeline.CacheIsTransparent | src/anoubisd/pe_sfscache.c:547-676 | a request is answered as without a cache unless the file is in the tree of an ended upgrade or a matching invalidation is on its way (also policy.c:481-511, main.c:1308-1381, main.c:2482-2585) |
| Pipeline.AllPathsListed | src/anoubisd/pe.c:263-333 | when END is sent, the chunks have listed every path of the tree once and in order, if and only if every path fits into a chunk (also policy.c:560-620, upgrade.c:337-350) |
| Witnesses.LongPathIsDropped | src/anoubisd/policy.c:561-579 | in a state reached from the start END is sent although the only file of the upgrade was never listed, because its path does not fit |
| Pipeline.EndReleases | src/anoubisd/policy.c:661-680 | END drops all cached checksums, appends the held replies in order and lifts all holds (also pe.c:343-360) |
| Pipeline.MasterSays | src/anoubisd/policy.c:681-684 | whether upgrades may start is what the master said last, and a new policy is in force at once in every context of every process and leaves no cached checksum (also policy.c:891-892, pe.c:157-163) |
| Pipeline.ChecksumsExactly | src/anoubisd/upgrade.c:337-350 | an update is sent for every listed path that can be read, as often as it is listed, and for no other (also upgrade.c:232-306) |
| Completion.ResponsibleCloser | src/anoubisd/policy.c:519-692 | the process that has the control message always brings the exchange closer to its end (also upgrade.c:318-355) |
| Completion.OthersSame | src/anoubisd/policy.c:863-1013 | no other action undoes that progress or ends the processing |
| Liveness.EventuallyDone | src/anoubisd/policy.c:519-692 | in every infinite run in which the process with the control message keeps acting, whatever else happens in between, the processing of an upgrade ends (also upgrade.c:318-355) |
| Liveness.OnlyEndFinishes | src/anoubisd/policy.c:661-680 | only the END message ends the processing |
| Liveness.HeldRepliesAreSent | src/anoubisd/policy.c:661-680 | in every such run a state is reached in which nothing is on hold and the replies that were held are sent in their order behind everything sent before, and they stay sent (also pe_proc.c:1171-1181) |
| Liveness.FairRunsExist | src/anoubisd/policy.c:863-1013 | from every state of the invariant there is such a run |
| ReplyFlow.RefinesReplies | src/anoubisd/policy.c:929-1001 | what the queues of policy engine and master do to replies is a step of the bookkeeping of held and sent replies, or nothing (also main.c:2255-2292, policy.c:661-680) |
| ReplyFlow.SentGrows | src/anoubisd/main.c:2255-2292 | no action of any process loses, repeats or reorders a reply on its way to the device |
| ReplyFlow.PathAnswer | src/anoubisd/pe.c:895-931 | in the queues a refused lock is answered with EPERM and begins nothing, any other lock or unlock with 0, a link or rename with what the rules say, and the answer is held back exactly if the process is on hold (also policy.c:977-1001) |
| Daemons.Daemons.DispatchM2P | src/anoubisd/policy.c:863-1013 | the handler on queues, fields and cache refines one step of the policy engine and keeps the invariant exactly under the stated condition (also policy.c:482-692) |
| Daemons.Daemons.FinishUpgrade | src/anoubisd/policy.c:661-680 | the loop moves the hold queue to the reply queue in order after cache and holds are cleared |
| Daemons.Daemons.QueueReply | src/anoubisd/policy.c:977-1001 | a reply to a process on hold goes to the hold queue |
| Daemons.Daemons.LookupChecksum | src/anoubisd/pe_sfscache.c:548-641 | in every valid state the answer, cached or not, is what the SFS tree stores under the user id or the spelled key id, up to pending invalidations, upgrades and failed reads |
| Daemons.Daemons.DispatchP2M | src/anoubisd/main.c:2255-2292 | refines the relay step and keeps the invariant |
| Daemons.Daemons.DispatchU2M | src/anoubisd/main.c:2549-2585 | refines the relay and update step and keeps the invariant; with END clients are told exactly the number of updates that the upgrade process sent (also main.c:1411-1424) |
| Daemons.Daemons.DispatchChecksumOp | src/anoubisd/main.c:1793-1841 | the change of the disk is followed by the invalidation, which keeps the cache coherent (also main.c:1370-1381) |
| Daemons.Daemons.SendChecksums | src/anoubisd/upgrade.c:337-350 | the loop over the chunk takes out exactly its strings and sends one update for each readable file (also upgrade.c:232-306) |
| Daemons.Daemons.DispatchM2U | src/anoubisd/upgrade.c:319-355 | refines the step of the upgrade process and keeps the invariant |
| PathRules.DecideProper | src/anoubisd/pe_sfs.c:231-384 | no reply of either subsystem both denies and asks (also pe_sandbox.c:344-505) |
| PathRules.MergeIsMax | src/anoubisd/pe.c:682-717 | the merged verdict is the maximum under ALLOW < ASK < DENY with the larger log level |
| PathRules.UserCannotWeaken | src/anoubisd/pe_sandbox.c:343-447 | user rules never weaken a DENY or ASK of the administrator in either subsystem (also pe_sfs.c:257-323) |
| PathRules.EntersUnsetOrAllow | src/anoubisd/pe_sandbox.c:377-406 | the three results that enter a later priority are unset or ALLOW |
| Verdicts.ConcernsExactly | src/anoubisd/pe_sfs.c:113-130 | a rule is looked at if and only if its scope is open for the task and time and its prefix, without slashes at its end, is the path or an ancestor of it (also pe.c:1131-1142) |
| Verdicts.RegisteredExactly | src/anoubisd/pe_sfs.c:132-149 | the checksum looked up for a rule is the one stored for the path under a user or key that its subject stands for |
| Verdicts.RegisteredAgrees | src/anoubisd/pe_context.c:431-486 | file rules and applications of contexts look up the same checksum (also pe_sfs.c:132-149) |
| Verdicts.SaysExactly | src/anoubisd/pe_sfs.c:82-175 | a rule that concerns the file says what it has for a valid checksum if the file has the registered one or is trusted in an upgrade, for an invalid one if it is another, for an unknown one if none is registered, and its only verdict if it is a default |
| Verdicts.FirstRuleDecides | src/anoubisd/pe_sfs.c:257-323 | the first rule that concerns the file and does not say CONTINUE decides deny and ask and gives rule id, priority and match: that of the administrator if it denies or asks, else that of the user |
| Verdicts.SfsExactly | src/anoubisd/pe_sfs.c:231-384 | the SFS reply is in every case exactly the one that the rules call for: deny, ask, rule, priority and match, and the highest log level of all rules up to the one that decides |
| Verdicts.CoversExactly | src/anoubisd/pe_sandbox.c:109-207 | a sandbox rule applies to an access if and only if it is in its mask, the rule concerns the file and the file has the checksum that the rule asks for or is trusted in an upgrade |
| Verdicts.EvaluateAnswer | src/anoubisd/pe_sandbox.c:91-234 | an access that is not requested is allowed; a requested one is decided by the first access rule of the list that applies, else by the first default rule, else left as it was, and the log level only rises |
| Verdicts.SbExactly | src/anoubisd/pe_sandbox.c:344-447 | the sandbox reply is in every case exactly the one that the rules call for: a DENY for any access before an ASK, the administrator before the user, the rule of the last access that votes for the verdict, and the highest log level |
| PrefixHash.Complete | src/anoubisd/pe_prefixhash.c:101-112 | a rule whose prefix applies to an absolute path is filed in a slot that is looked up for the path (also pe_prefixhash.c:286-343) |
| PrefixHash.LookedUpExactly | src/anoubisd/pe_prefixhash.c:286-343 | a prefix that applies to a path is looked up if and only if it has no trailing slash, or it is the path, or the path goes on with a slash behind it |
| PrefixHash.FoundExactly | src/anoubisd/pe_prefixhash.c:101-112 | a prefix is found in tables of every size if and only if its hash value is that of a string that is looked up |
| RulePaths.NormalizePath | src/libanoubis/apn/parse.y:2023-2073 | the loop replaces the string in place by the path of the directories that its components lead to, and rejects it if it is not absolute |
| RulePaths.NormalizedTwice | src/libanoubis/apn/parse.y:2023-2073 | normalizing a path twice is normalizing it once |
| RulePaths.NormalizedSteps | src/libanoubis/apn/parse.y:2023-2073 | component by component: an empty one and "." change nothing, ".." takes away the last name and stops at the root, any other one is added behind a slash |
| RulePaths.ParsedIsServed | src/libanoubis/apn/parse.y:2023-2073 | a normalized path has no trailing slash but that of the root, so the hash serves every prefix that comes from the parser |
| PrefixHash.SameMembers | src/anoubisd/pe_prefixhash.c:317-340 | a sorted list without duplicates is determined by its members, so collecting, sorting and deduplicating give the candidates in rule order |
| PrefixHash.HashTable.Add | src/anoubisd/pe_prefixhash.c:181-204 | an entry goes to the end of the slot of its prefix |
| PrefixHash.HashTable.GetRules | src/anoubisd/pe_prefixhash.c:286-343 | the result is exactly the entries in the slots that are looked up, strictly ordered and without duplicates |
| PrefixHash.KillDuplicates | src/anoubisd/pe_prefixhash.c:318-340 | of sorted entries with the same number only the first stays |
| RuleLookup.BuildHash | src/anoubisd/pe.c:1323-1373 | every rule of the block is filed with its position |
| RuleLookup.SfsHashIsScan | src/anoubisd/pe_sfs.c:191-323 | the SFS verdict over the candidates equals that over all rules, with rule id, priority and log level (also pe_prefixhash.c:286-343) |
| RuleLookup.SbHashIsScan | src/anoubisd/pe_sandbox.c:91-299 | the same for the sandbox verdict (also pe_sandbox.c:344-447, pe_prefixhash.c:286-343) |
| RuleLookup.VerdictHashIsScan | src/anoubisd/pe_sfs.c:191-384 | the merged verdict of both subsystems does not depend on the hash (also pe_sandbox.c:91-505, pe.c:682-717) |
| RulePaths.ParsedVerdictHashIsScan | src/libanoubis/apn/parse.y:896-901 | for every policy whose prefixes come from the parser the verdict does not depend on the hash |
| RuleLookup.DecideSfsEvent | src/anoubisd/pe_sfs.c:231-384 | the loops over priorities and candidates give exactly the reply that all SFS rules of administrator and user call for, if the hash serves their prefixes, and else that over the candidates |
| RuleLookup.EvaluateRules | src/anoubisd/pe_sandbox.c:91-234 | the loop decides a requested access by the first access rule that applies, else by the first default rule, else leaves the result as it was |
| RuleLookup.DecideSbEvent | src/anoubisd/pe_sandbox.c:344-505 | the loops over priorities and access types give exactly the reply that all sandbox rules of administrator and user call for, if the hash serves their prefixes, and else that over the candidates |
| RuleLookup.DefaultBlockExactly | src/anoubisd/pe_sandbox.c:269-284 | for a process under another uid the first block without applications is taken that is not for playgrounds only, or the process is in one |
| RuleLookup.SandboxAfterExec | src/anoubisd/pe_sandbox.c:253-299 | after an exec that may change the context, file events are judged by the first sandbox block of the ruleset of the user that applies to the new program (also pe_context.c:571-596, pe_context.c:834-862) |
| RuleLookup.ExemptAfterExec | src/anoubisd/pe_sfs.c:248-263 | after an exec that may change the context a process is exempt from SFS rules if and only if it was executed securely and the first context block that applies to the new program says so (also pe_proc.c:698-762, pe_context.c:571-596) |
| RuleLookup.SfsSourceExactly | src/anoubisd/pe_sfs.c:191-222 | whoever is not exempt is judged by exactly the rules of the first SFS block in the ruleset of the uid of the event |
| RuleLookup.CompareBlocks | src/anoubisd/pe.c:1472-1514 | the eight rounds compute the guard |
| RuleLookup.ComparePath | src/anoubisd/pe.c:1390-1454 | the loop looks for a candidate of one path that does not apply to the other |
| RuleLookup.GuardExact | src/anoubisd/pe.c:1389-1514 | a rename or hard link is let through if and only if every prefix rule in scope, of both priorities and both subsystems, applies to both paths or to neither (also pe_prefixhash.c:285-343) |
| RuleLookup.AllowedRenameKeepsVerdict | src/anoubisd/pe.c:1389-1514 | a rename that is let through never changes the verdict of rules that only look at the path |
| RuleLookup.TrailingSlashIsMissed | src/anoubisd/pe_prefixhash.c:286-343 | without the normalization of the parser a prefix with a trailing slash would apply to a path and change the verdict, but not be among the candidates (also pe_sfs.c:109-120) |
| Channel.MsgChannel.Enqueue | src/anoubisd/aqueue.c:57-70 | the message is appended and the write event is armed |
| Channel.MsgChannel.FlushBuf | src/anoubisd/amsg.c:373-416 | a write of any length moves bytes to the pipe without losing or repeating any |
| Channel.MsgChannel.SendMsg | src/anoubisd/amsg.c:662-687 | a message is accepted whole, refused while another is written, or rejected as too large |
| Channel.MsgChannel.DispatchWriteQueue | src/anoubisd/aqueue.c:151-194 | whatever the writes do, the stream stays complete and in order and the write event stays armed while anything is left; the result tells if all was flushed, something waits or there was nothing to do, or a message was dropped as too large |
| Channel.MsgChannel.FillBuf | src/anoubisd/amsg.c:262-311 | a read of any length keeps the stream complete and in order |
| Channel.MsgChannel.GetMsg | src/anoubisd/amsg.c:432-490 | the next message of the stream is returned whole, or NULL when no complete message is buffered |
| Channel.MsgChannel.MsgEof | src/anoubisd/amsg.c:334-364 | after NULL from get_msg, true exactly at the end of the file |
| Channel.MsgChannel.InOrder | src/anoubisd/amsg.c:261-311 | the messages received are a prefix of those enqueued that are not too large, and all of them once nothing is under way (also amsg.c:372-416, amsg.c:431-490, amsg.c:661-687, aqueue.c:56-92, aqueue.c:150-194) |
| CsumVerify.ShiftString | src/anoubisd/amsg_verify.c:227-241 | skips one NUL-terminated string inside the buffer or fails |
| CsumVerify.RecordSize | src/anoubisd/amsg_verify.c:316-327 | the record is inside the buffer with its checksum data and its path inside its own length and the result is their exact size, or it is -1 |
| CsumVerify.Records | src/anoubisd/amsg_verify.c:355-370 | the loop terminates and its size is the end of the records |
| CsumVerify.AcceptedTiles | src/anoubisd/amsg_verify.c:355-370 | records are accepted if and only if they tile the payload up to the record of length zero |
| CsumVerify.MultiAccepted | src/anoubisd/amsg_verify.c:333-395 | a request for several checksums is accepted if and only if its header fits, its records tile the payload and it is not too large |
| CsumVerify.SingleAccepted | src/anoubisd/amsg_verify.c:333-395 | a request for one checksum is accepted with a size if and only if header, key id, checksum data and a terminated path of just that size lie behind each other in front of the checksum of the message, within the limits |
| CsumVerify.ChecksumopSize | src/anoubisd/amsg_verify.c:333-395 | for every byte string the result is exactly the size that its fields describe or -1, and it is at most the length |
| EventAsk.DoCopy | src/anoubisd/policy.c:732-742 | copies the data behind what is there and records its range |
| EventAsk.Fill | src/anoubisd/policy.c:809-841 | the calls one after the other build the five parts behind each other |
| EventAsk.HasNul | src/anoubisd/amsg_verify.c:190-200 | true exactly for a non-empty buffer below the size limit with a NUL byte |
| EventAsk.CheckOverlaps | src/anoubisd/amsg_verify.c:645-662 | the nested loops fail exactly if two ranges share a byte, else find the last end |
| EventAsk.EventAskSize | src/anoubisd/amsg_verify.c:629-677 | accepted if and only if ranges are in bounds, pairwise disjoint and strings terminated; the result is the size without padding |
| EventAsk.FilledIsAccepted | src/anoubisd/policy.c:809-841 | every composed message within the limit is accepted with exactly its size (also amsg_verify.c:629-677) |
| EventAsk.AcceptedExactly | src/anoubisd/policy.c:809-841 | a composed message whose parts each fit 16 bits is accepted if and only if it is within the size limit: none is accepted with wrapped offsets (also amsg_verify.c:629-677) |
| EventAsk.FilledContents | src/anoubisd/policy.c:731-841 | the ranges of a composed message hold the event and the four identity fields |
| EventAsk.SumFits | src/anoubisd/amsg_verify.c:645-662 | disjoint ranges are together no longer than the payload, so the copy for the client fits (also session.c:1976-2024) |
| EventAsk.ToNotify | src/anoubisd/session.c:1950-2024 | the client message carries the same event data and identity fields, and token, pid, uid, subsystem and task cookie of the event |
| EventAsk.Escalate | src/anoubisd/policy.c:809-841 | what is composed for the session engine arrives at the client unchanged, with the origin of the kernel event (also amsg_verify.c:629-677, session.c:1976-2024) |
| PgFiles.AddedNames | src/anoubisd/pe_playground.c:551-643 | after the call the name is in the file, all earlier names are kept in order, and it is appended once if it was missing |
| PgFiles.AddedTwice | src/anoubisd/pe_playground.c:551-643 | adding a name twice is adding it once |
| PgFiles.FileAdd | src/anoubisd/pe_playground.c:551-643 | for any sizes of reads the file is changed exactly so, and the result is -1, 1 or 0 |
| PgFiles.ListContext.AddRecord | src/anoubisd/amsg_list.c:115-121 | a record is appended to the message that is being filled |
| PgFiles.ListContext.Send | src/anoubisd/amsg_list.c:46-104 | the message is queued and a new one begins; no record is lost |
| PgFiles.Scan | src/anoubisd/pe_playground.c:1188-1195 | finds the end of the string or of the buffer |
| PgFiles.CopySegment | src/anoubisd/pe_playground.c:1184-1257 | a segment continues the record, or the full message is sent and the record moves to the next one; an empty message is full only if some name fits into none |
| PgFiles.SendRounds | src/anoubisd/pe_playground.c:1168-1258 | for any sizes of reads the loop ends after finitely many rounds if and only if every record fits into an empty message, and then exactly the NUL-terminated names are sent, in order, one whole record each (also amsg_list.c:46-121) |
| PgFiles.KernelNamesFit | src/anoubisd/pe_playground.c:1159-1260 | names below PATH_MAX always fit |
| PgFiles.SendOneFile | src/anoubisd/pe_playground.c:1159-1260 | for any sizes of reads exactly the NUL-terminated names are sent, in order, one whole record each, and the loop ends (also amsg_list.c:46-121) |
| Replies.StepConserves | src/anoubisd/policy.c:416-470 | no event loses or duplicates a token (also policy.c:661-680, policy.c:929-1001, policy.c:1299-1337) |
| Replies.ExactlyOnce | src/anoubisd/policy.c:415-470 | in every run each token is waiting, held or answered exactly as often as it was produced (also policy.c:661-680, policy.c:929-1001, policy.c:1299-1337) |
| Replies.LateReplyIgnored | src/anoubisd/policy.c:1299-1337 | sent replies stay, and a reply for a token that does not wait changes nothing |
| Replies.SessionAnswer | src/anoubisd/policy.c:1299-1337 | a reply of the session engine answers the oldest wait for its token: what is sent is that reply joined with the stored flags |
| Replies.SessionTold | src/anoubisd/policy.c:416-470 | the session engine is told of every event that waits and of every wait that the timer ends, as often as it happens (also policy.c:929-1001, policy.c:1299-1337) |
| Replies.RepliesExplained | src/anoubisd/policy.c:415-470 | in every run a reply that is sent is the verdict of an event that did not ask, or the reply of the session engine to one that did, in time and joined with its flags, or EPERM for one whose time was over; what is held back is such a verdict without a release since (also policy.c:661-680, policy.c:929-1001, policy.c:1299-1337) |
| Replies.ReplyTracker.HandleReply | src/anoubisd/policy.c:929-1001 | refines the step for an evaluated event |
| Replies.ReplyTracker.HandleSessionReply | src/anoubisd/policy.c:1299-1337 | the reply of the session engine joined with the flags of the oldest wait for its token is sent and that wait is gone; without one nothing changes |
| Replies.ReplyTracker.DispatchTimer | src/anoubisd/policy.c:416-470 | the loop denies exactly the expired events and tells the session engine |
| Replies.ReplyTracker.ReleaseHeld | src/anoubisd/policy.c:670-680 | the loop empties the hold queue in order |

## Left out

- PgFiles.SendOneFile: requires that the record of each name fits into an empty message; PgFiles.SendRounds shows that the loop of the program ends in no other case.
- PathRules.EntersUnsetOrAllow: for rules without the action CONTINUE, which the policy grammar offers for SFS rules only (src/libanoubis/apn/parse.y:892-896).
- Verdicts.RegisteredAgrees: for uids other than (uid_t)-1, for which only the applications of contexts refuse to look (src/anoubisd/pe_context.c:431-486).
- RuleLookup.AllowedRenameKeepsVerdict: for rules that look at the path only; the checksum of a file can change a verdict independently of its name.
- EventAsk.EventAskSize: the check of the kernel event inside the message is a parameter, because the kernel header file that defines its layout is not part of this model.
- EventAsk.ToNotify: where the kernel event keeps token, pid, uid, source and task cookie is a parameter for the same reason.
- EventAsk.AcceptedExactly: for parts below 65536 bytes; the length of a longer part wraps around in its 16 bit field.
- Channel.MsgChannel.GetMsg: padding that the receiver zeroes is not modelled; it never changes a size.
- Pipeline.NextInv: an action handles one message, so a handler that reads several messages is a sequence of actions.
- Liveness.HeldRepliesAreSent: the schedule must let the process that has the control message act at some time; the event loop and the pipes that provide for it are not modelled here.
- Daemons.Daemons.DispatchU2M: the content of a checksum update is arbitrary for its path, and a failed one changes nothing.
- Daemons.Daemons.LookupChecksum: a file event asks for checksums in any number and order; which rule asks for which is part of PathRules only.
- Tracker.PolicyEngine.PutProcess: the release of the playground of a process is not modelled.
- Tracker.PolicyEngine.ProcExec: the playground's part of an exec is not modelled; the start of an upgrade by an exec is in UpgradeEngine.PolicyProcess.TrackEvent and joined by Composition.HandleBoth.
- Tracker.PolicyEngine.ProcExit: the end of an upgrade at exit is in UpgradeEngine.PolicyProcess.ProcExit and joined by Composition.HandleBoth.
- Tracker.PolicyEngine.PlaygroundProc: the counting of processes in a playground (src/anoubisd/pe_proc.c:239-251) releases the reference of the new playground, not of the old one; it is not modelled.
- UpgradeEngine.PolicyProcess.HandleEvent: process tracking is one value here; Composition.HandleBoth relates it to the structures on the heap in Tracker.dfy.
- FileTree.InsertSorted: the red-black tree is a sorted list; the macros of the tree are not modelled.
- Tracker.Context: the rule pointers of a context never change once it is searched, so they are one immutable value.
- Application level firewall rules (src/anoubisd/pe_alf.c): they need layouts of kernel messages that are not in the repository.
- The grammar of the policy language except for paths, signatures, certificates, configuration, the scanner and the user interface: rules, checksums and the disk map are arbitrary values.
- Renaming inside playground directories, commit and removal of playgrounds: separate features without a link to the state modelled here.
- Policy upload, client messages and the session engine beyond the conversion of escalations: a session may reply anything at any time.
- libevent, sockets, signals, logging, lack of memory, errors of read and write other than "try again", and the order of shutdown: events are steps, and the program terminates on these errors.

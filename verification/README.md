# A verified model of sshakku

sshakku opens an account's SSH agent, loads its keys, wires itself into shell startup files and
keeps its own configuration and records. This project models the parts of it that keep state or
rewrite other people's files, and proves what they promise. `dafny verify dfyconfig.toml` checks
all of it.

| module | what it models |
|---|---|
| `AgentLogins` | any number of logins driving one fixed socket to a healthy agent, one atomic step at a time: probe, lock or give up waiting, probe again, reap, survey, clear and start, or adopt |
| `AgentLifecycle` | one whole login alone: which processes it signals, which sockets it unlinks, what it starts or adopts and what it reports |
| `LockQueue`, `SessionLog` | the bounded wait for a file lock; the shared log under writers that hold the lock and writers that gave up on it |
| `KeyLoader` | a batch of keys with a wallet, bounded prompting, dismissal policy, give-up records and one lazily unlocked session, as a trace of its outside effects |
| `KeyMove` | moving every key to another directory, failing at any rename, going back, and reporting what did not |
| `StartupBlock`, `Wiring`, `WiringReach`, `WiringLimits` | the marker block inside a startup file; choosing where the wiring goes, installing and uninstalling; what the shell then runs and what an uninstall goes through; disks an uninstall does not restore |
| `Config`, `ConfigValues` | merging configuration files, resolving settings, reporting where each was stated; what a written value comes to |
| `ConfigWrite`, `TomlText`, `KeyDirEffect` | writing `key_dir` into the text of a file, quoting it, and whether the next login finds it there |
| `ShellQuoting`, `EditorLine`, `PathList` | lines printed for a shell, the editor's command line, a list of directories in one variable |
| `KeyState`, `KeyExpiry` | the record kept of each added key, and taking out those whose time is up |
| `Handoff` | the passphrase handed over once through a private socket |
| `TestReport` | folding a stream of test events into a report |
| `Text`, `Wrappers` | splitting, joining and trimming text; Option and Result |

How it is built. Code that changes something step by step is a method, on a class where the source
has an object, a disk or a shared file; its `ensures` ties the new state to a function, and the
laws are lemmas about that function. Concurrent code is a state machine over its steps, and the
laws hold of every run. Calls to other programs, to the wallet, the lock, the clock and the file
system are oracles: function parameters that may answer anything.

Where the code and what is written about it differ, the model follows the code:

- An uninstall is described as leaving the files as it found them. It also normalises or removes
  startup files that were never wired, and it stops half way at a directory in a startup file's
  place: `Wiring.RoundTrip` gives the exact condition, `WiringLimits` disks that do not meet it.
- A failed `move-keys` is described as naming every key left behind. After a rollback that itself
  fails it names the wrong files, or none: `KeyMove.Disk.MoveKeys` says exactly when, and
  `KeyMove.BothKeysLeftUnnamed` is a run that ends with every key moved and none named.
- The configuration report names the file the value in force came from. A later file that writes
  the editor blank makes it name the wrong one: `Config.EditorReportExactly`.
- `move-keys` is described as settling where the keys are before it moves any. It checks the files
  read after the main one and never whether the main one decodes: where it does not, the keys move
  and no login finds them. `KeyDirEffect.TakesEffectExactly` says exactly when a directory written
  is in force, `KeyDirEffect.UndecodableStaysSo` when none ever is.
- The directory is quoted by Go's rules so that it reads back. A bell or a vertical tab in it, and
  under TOML 1.0 most other controls, make a line TOML does not read: `TomlText.QuoteReadsExactly`.
- A login that stops waiting for the lock goes on without it. That is enough to start two agents:
  `AgentLogins.ExpiredWaitBreaksIt`.
- A key's record is read back with the white space around the path taken off, so that a record of
  a path ending in a space is never taken away, whatever happens: `KeyExpiry.ForgottenExactly` and
  `KeyExpiry.SpaceAtTheEndStays`.
- Taking a directory out of a list is described as leaving the others as written. The separator
  the list ended in is lost: `PathList.AddThenRemove`.

## Model

| member | source | states |
|---|---|---|
| AgentLogins.LoginsAreSafe | internal/agent/ensure.go:79-148 | for any number of logins in any interleaving, if no wait for the lock expires and no answering agent dies, at most one login starts or adopts, no step removes an answering fixed path, every login past its second probe finds it silent until it acts, and every success leaves it answering |
| AgentLogins.UndisturbedWhoeverDies | internal/agent/ensure.go:79-148 | with any agents dying and no wait running out, one login at a time is past the lock, the fixed path stays silent from its second probe until it acts, and no step takes an answering path away |
| AgentLogins.ExpiredWaitBreaksIt | internal/agent/lock_unix.go:44-66 | one expired wait is enough: a concrete run of two logins that starts two agents and unlinks the first one's live socket |
| AgentLogins.AnswersOnlyGrows | internal/agent/ensure.go:252-272 | while waits do not expire, no step silences the fixed path, and only a start or an adoption past the second probe makes it answer; so clearing the path without probing it never unlinks a live socket |
| AgentLogins.KeepsExclusive | internal/agent/lock_unix.go:34-66 | every step but a wait running out keeps at most one login between its lock and its return, whichever agents die |
| AgentLogins.KeepsQuiet | internal/agent/ensure.go:95-131 | every step keeps the fixed path silent from a holder's second probe until that holder's own change |
| AgentLogins.KeepsSettled | internal/agent/ensure.go:79-101 | every step keeps the bookkeeping: at most one change made, and what has succeeded leaves the path answering |
| AgentLogins.AnsweringIsLeftAlone | internal/agent/ensure.go:79-101 | once the fixed path answers, no further login changes it or starts anything |
| AgentLogins.AnswersOnceMutated | internal/agent/ensure.go:79-148 | on a path silent at first it answers exactly when some login has started or adopted |
| AgentLogins.AdoptionHolds | internal/agent/ensure.go:156-193 | in every run without an expired wait or a dying agent, an adoption that works is kept: its login ends adopted and alone in having changed anything, the path answers, and it is a link to the first agent of that login's survey |
| AgentLogins.StartHolds | internal/agent/ensure.go:132-155 | in every such run a start that works is kept: the path is a live socket, and its login ends started if its state was recorded and failed if not |
| AgentLogins.StandsByLastStep | internal/agent/ensure.go:79-193 | where every login stands in every such run, told from its own last step alone |
| AgentLogins.AttachesExactly | internal/agent/ensure.go:82-101 | in every run a login ends attached at a probe exactly when the path answers then, and changes nothing by it |
| AgentLogins.UntilSomebodyActs | internal/agent/ensure.go:252-260 | until somebody starts or adopts, the path holds what was there, or nothing once a dead socket or link was cleared; another kind of file is never taken away |
| AgentLogins.AloneItAdopts | internal/agent/ensure.go:156-193 | from any state with the path silent and the lock free, a login with nobody in its way can adopt the first agent it finds |
| AgentLifecycle.Landscape.EnsureAgent | internal/agent/ensure.go:79-131 | one run: it succeeds exactly when the facts let it; a healthy socket is left alone; otherwise only silent processes of this account are signalled, only their sockets and the silent fixed path unlinked, every other path is as it was and nothing that answered stops answering; the fixed path is pointed at the lowest-pid adoptable agent exactly when there is one, else an agent is started there and its pid reported; the reported situation is the one the facts decide, and the pids and paths reported are exactly those signalled and taken away |
| AgentLifecycle.Landscape.Reap | internal/agent/manage.go:87-108 | what is signalled and unlinked is what the specification of a reap says, and never a process of another account or an answering one |
| AgentLifecycle.ReapIsExact | internal/agent/manage.go:87-108 | a reap signals exactly this account's silent processes that can be signalled, unlinks exactly their sockets that can be unlinked, and changes what answers nowhere |
| AgentLifecycle.ReapedAre | internal/agent/manage.go:87-108 | each of this account's processes silent on its socket is signalled where the system lets it, and its socket taken away where it is one and the system lets it |
| AgentLifecycle.ReapedExactly | internal/agent/ensure.go:102-131 | whether a reap achieved anything, told from the landscape it found |
| AgentLifecycle.ReportIsTrue | internal/agent/ensure.go:102-193 | the pids a report lists are exactly the silent processes of this account that could be signalled, and its paths exactly their sockets that could be unlinked and a stale fixed path that was cleared or replaced |
| AgentLifecycle.VerdictsAre | internal/agent/ensure.go:102-193 | each situation exactly: clean or zombie where nobody is there to adopt, foreign where one agent is and nothing had to be cleaned up, disaster where there are several or something had |
| AgentLifecycle.Landscape.RemoveSocket | internal/agent/manage.go:144-157 | only a socket is unlinked, never another kind of file |
| AgentLifecycle.Landscape.ClearStalePath | internal/agent/ensure.go:241-260 | the fixed path is unlinked exactly when it is a socket or a symlink and the system lets it |
| AgentLifecycle.Landscape.Start | internal/agent/manage.go:62-85 | an agent comes up exactly when one can be spawned and recorded and the path is free or can be freed; it then listens there, and nothing off that path changes |
| AgentLifecycle.Landscape.HealthyForeign | internal/agent/ensure.go:211-236 | the candidates are exactly this account's answering agents off the fixed socket, each as often as listed, in order of pid |
| AgentLifecycle.SortByPid | internal/agent/ensure.go:226-236 | the table sorted by pid is a permutation of what it was |
| AgentLifecycle.Landscape.StartOurOwn | internal/agent/ensure.go:132-155 | it succeeds exactly when the stale path can be cleared or is free and the agent comes up; then the fixed socket answers and the report is clean exactly when nothing was reaped or cleared |
| AgentLifecycle.Landscape.AdoptOne | internal/agent/ensure.go:156-193 | the fixed path becomes a symlink to the first candidate, and the report is foreign exactly when it was the only one and nothing was in the way |
| AgentLifecycle.RemovingSilence | internal/agent/ensure.go:252-260 | taking away a path that does not answer changes nowhere what answers |
| AgentLifecycle.LinkAnswers | internal/agent/ensure.go:261-272 | a silent path made a symlink answers exactly when its target does with one link to spare |
| AgentLifecycle.NothingIsLost | internal/agent/ensure.go:132-193 | whatever is put at a silent path, everything that answered still does |
| AgentLifecycle.AdoptablesAre | internal/agent/ensure.go:211-226 | who may be adopted: this account's, answering, not on the fixed socket |
| LockQueue.Queue | internal/sessionlog/sessionlog.go:116-132 | the polling loop answers what its specification says of any sequence of attempts |
| LockQueue.WaitIsFirstAnswer | internal/agent/lock_unix.go:34-66 | the wait runs out exactly when every attempt up to the deadline found the lock taken; otherwise the first other answer decides |
| SessionLog.Logger.Log | internal/sessionlog/sessionlog.go:80-109 | a holder's call appends and trims, one that gave up only appends, one without a lock file does nothing |
| SessionLog.Logger.Trim | internal/sessionlog/sessionlog.go:135-146 | the rewrite is the specified trim, and a file within bounds is not rewritten |
| SessionLog.TrimKeepsTheLastLines | internal/sessionlog/sessionlog.go:135-146 | on whole lines the trim keeps exactly the last of them |
| SessionLog.HoldersLinesSurvive | internal/sessionlog/sessionlog.go:65-113 | in every interleaving of holders and writers that gave up, the file's holder lines are a suffix of everything holders wrote, in order and without a gap |
| SessionLog.RewriteClobbersOnlyLateLines | internal/sessionlog/sessionlog.go:69-79 | a rewrite loses, of the lines appended since it read, only those of writers that had given up |
| SessionLog.BoundedHistory | internal/sessionlog/sessionlog.go:135-146 | when every writer holds the lock, the file after a call is exactly the last lines of all that was ever written |
| SessionLog.HistoryIsWhatHoldersWrote | internal/sessionlog/sessionlog.go:80-113 | what these results call the history is the lines there were and then every line a holder appended, in order, through every trim |
| SessionLog.EveryLineIsThere | internal/sessionlog/sessionlog.go:97-104 | until something is rewritten the file is what was there and then every line appended, in order, by holders and by writers that gave up alike |
| SessionLog.StandsByLastStep | internal/sessionlog/sessionlog.go:80-146 | where every writer stands after any run, told from its own steps alone: one that gave up appends and is done, untrimmed |
| SessionLog.LateLineClobbered | internal/sessionlog/sessionlog.go:76-79 | a run in which the line of a writer that gave up is in the file just before another's trim, the newest there, and gone after it while an older one stays |
| SessionLog.StepKeepsInv | internal/sessionlog/sessionlog.go:80-146 | every step keeps one writer inside the lock, snapshots that miss no holder's line, and the suffix |
| KeyLoader.Loader.LoadKeys | internal/keys/load.go:152-201 | the batch's trace is one proper course per key in order, each key skipped exactly when it should be, every answer in it the one the world gave at that point; the wallet is opened for what needs it and for nothing else, at most one unlock succeeds, and it is locked once, last, exactly when one did |
| KeyLoader.Loader.LoadEach | internal/keys/load.go:193-201 | the loop over keys stops at the first dismissal that ends the asking |
| KeyLoader.Loader.LoadOne | internal/keys/load.go:235-275 | a key is skipped exactly when it is not to be loaded by itself, is in the agent already, or was given up on |
| KeyLoader.Loader.AddWithRetries | internal/keys/load.go:279-305 | one key's effects, whatever is answered, form a proper course with what is written down after it; what such a course holds is said by the lemmas below |
| KeyLoader.Loader.LoadViaVaultThenPrompt | internal/keys/load.go:307-346 | the wallet is asked first and once, what it holds is tried unless blank, every passphrase typed is tried, and the prompts stay within the limit |
| KeyLoader.Loader.TryStoredPassphrase | internal/keys/load.go:348-367 | the wallet's passphrase is spent at most once and settles the key only by opening it or by ssh-add not running |
| KeyLoader.Loader.AskOnce | internal/keys/load.go:314-346 | one prompt settles the key or spends exactly one attempt, and a passphrase typed is tried next |
| KeyLoader.Loader.StorePassphrase | internal/keys/load.go:431-441 | storing happens exactly where the policy allows it, unlocking first if nothing did |
| KeyLoader.Loader.EnsureUnlocked | internal/keys/load.go:214-221 | an unlock is tried exactly when none has succeeded yet |
| KeyLoader.OnlyRealPassphrases | internal/keys/load.go:307-346 | ssh-add never gets an empty passphrase nor another key's, and the wallet is not locked while keys load |
| KeyLoader.PromptBudget | internal/keys/load.go:307-346 | over a whole batch no key is asked about more often than configured |
| KeyLoader.StoresAreEarned | internal/keys/load.go:431-441 | a passphrase is stored only after it was typed for that key and opened it, and only where the policy allows |
| KeyLoader.GaveUpExactly | internal/keys/load.go:279-305 | giving up is recorded exactly when every attempt was spent, nothing opened the key and nothing else ended it |
| KeyLoader.ClearedExactly | internal/keys/load.go:279-305 | a give-up record is cleared exactly when the key opened |
| KeyLoader.SavedExactly | internal/keys/load.go:472-479 | that a key was added is written down exactly when it opened and records are kept |
| KeyLoader.StoredExactly | internal/keys/load.go:333-346 | what is stored for a key is exactly a passphrase typed for it that opened it, wherever the policy allows |
| KeyLoader.OpenedIsSettled | internal/keys/load.go:307-346 | once a passphrase opened the key nothing more is asked, looked up or tried for it |
| KeyLoader.WalletIsSpent | internal/keys/load.go:402-415 | the wallet is asked once, first, and what it holds is tried next exactly when it is more than white space |
| KeyLoader.EveryKeyHasItsTurn | internal/keys/load.go:193-201 | every key of the batch has its turn unless a prompt is dismissed under "stop", which is then the last event |
| KeyLoader.NothingAfterDismissal | internal/keys/load.go:369-400 | a prompt dismissed under "stop" is the last thing that happens in the batch |
| KeyMove.Keys | internal/keys/enum.go:63-99 | exactly the plain files whose names are key names, each once |
| KeyMove.Plan | internal/keys/move/move.go:64-82 | the planning loop builds the specified plan, whose contents are said by `KeyMove.PlanHoldsExactly` |
| KeyMove.PlanHoldsExactly | internal/keys/move/move.go:64-82 | a move is planned exactly when it takes a listed key, or the public half that is there beside one, to its own name in the new directory, as the kind it is; `authorized_keys` is never taken |
| KeyMove.PublicHalfFollowsItsKey | internal/keys/move/move.go:48-53 | each public half goes directly after its key |
| KeyMove.Blocked | internal/keys/move/move.go:87-95 | exactly the destinations already taken, none exactly when all are free |
| KeyMove.MovesApart | internal/keys/enum.go:89-99 | two keys' moves never share a source or a destination, because no key is named like a public half |
| KeyMove.PlanIsSound | internal/keys/move/move.go:64-82 | a plan over listed keys has distinct sources, distinct destinations, and moves nothing onto a file still to be moved |
| KeyMove.Disk.Apply | internal/keys/move/move.go:114-131 | nothing is ever overwritten, each file's content is in exactly one place, it succeeds exactly when every rename and permission does, and on failure a file is at its destination exactly when it is named as stranded |
| KeyMove.Disk.PutBack | internal/keys/move/move.go:137-145 | what was moved goes back unless its own reverse rename fails, and then it is named |
| KeyMove.Disk.RollBack | internal/cli/movekeys.go:72-78 | with every reverse rename working all keys are back and none is named; otherwise those already returned are carried off again unless that fails too |
| KeyMove.Disk.MoveKeys | internal/cli/movekeys.go:36-85 | the command is refused without touching anything exactly when it should be, stops exactly when some move cannot go, and otherwise ends by whether the configuration was written; nothing is overwritten and each key is in one place; a stopped run names exactly the keys left behind, and a rolled-back one does so if and only if every reverse rename worked; when it reports every key moved, no key and no public half is left behind and each is in the new directory under its name with its content |
| KeyMove.UntruthfulReport | internal/cli/movekeys.go:160-175 | a rollback that leaves any key behind cannot have named it, since it names only old places |
| KeyMove.BothKeysLeftUnnamed | internal/cli/movekeys.go:72-78 | one failing reverse rename: both keys end up in the new directory and the report says nothing was moved |
| KeyMove.ReturnTracks | internal/cli/movekeys.go:177-183 | moves half turned round leave the disk the plan not turned round leaves |
| StartupBlock.StripBlock | internal/install/hookfile.go:68-94 | the scanning loop computes the specified text |
| StartupBlock.UpsertBlock | internal/install/hookfile.go:101-114 | the buffer written is the specified text |
| StartupBlock.StripIdempotent | internal/install/hookfile.go:68-94 | stripping twice is stripping once, for every content: CRLF, unterminated blocks, stray markers |
| StartupBlock.NormalExactly | internal/install/hookfile.go:68-94 | exactly which files stripping leaves alone |
| StartupBlock.StripTakesOutTheBlock | internal/install/hookfile.go:68-94 | a whole block anywhere in a file comes out, and nothing else but blank lines at the end |
| StartupBlock.StripUndoesUpsert | internal/install/hookfile.go:96-114 | stripping after putting a block in equals stripping alone, if and only if no line of the body but blank ones escapes the block |
| StartupBlock.NoEndMarkerNoEscape | internal/install/hookfile.go:101-114 | a body without the end marker on a line keeps everything inside its block |
| StartupBlock.EndMarkerInBodyLeaks | internal/install/hookfile.go:101-114 | a body with the end marker before an ordinary line leaves that line behind in every file |
| StartupBlock.UpsertReplaces | internal/install/hookfile.go:96-114 | putting a block in again replaces the earlier one, and the same one twice changes nothing, if and only if no line of the earlier body but blank ones escaped its block |
| StartupBlock.BlockLinesAreTheBlock | internal/install/hookfile.go:101-114 | the block's text and its lines are the same thing |
| Wiring.Machine.EveryProfile | internal/install/profile.go:121-135 | the profiles in order of first mention, each once |
| Wiring.DistinctHolds | internal/install/profile.go:121-135 | exactly the named profiles, none empty, none twice |
| Wiring.Machine.BourneLoginFile | internal/install/startupfiles.go:33-49 | the first candidate that exists, the first of all where none does |
| Wiring.Machine.PlaceEach | internal/install/apply.go:342-375 | the placement of every candidate, refused where any is |
| Wiring.Machine.ResolvePlan | internal/install/apply.go:255-300 | the plan, or the refusal, for every shell, scope and choice of hosts |
| Wiring.Machine.UpsertBlockFile | internal/install/hookfile.go:132-148 | the file gets the block, directories on the way are made, and a path that is a directory is refused |
| Wiring.Machine.StripBlockFile | internal/install/hookfile.go:153-174 | the block comes out, and a file left with nothing but white space is removed |
| Wiring.Machine.RemoveDropIn | internal/install/hookfile.go:197-205 | a drop-in of ours is removed, an absent one is no error |
| Wiring.Machine.Install | internal/install/apply.go:122-170 | the disk after an install, on every path through it; refused, nothing is written |
| Wiring.Machine.Uninstall | internal/install/apply.go:180-235 | the disk after an uninstall, on every path through it; refused, nothing is changed |
| Wiring.SweepAt | internal/install/apply.go:190-200 | a sweep removes our own files, strips the block from the others and touches nothing else, in any order and with repetitions |
| Wiring.HarmlessExactly | internal/install/apply.go:493-506 | which disks a sweep leaves alone, path by path |
| Wiring.InstalledIs | internal/install/apply.go:122-170 | an install writes the hook and one wiring and makes only the directories on the way to them |
| Wiring.SweepAfterInstall | internal/install/apply.go:174-235 | sweeping after an install gives what sweeping the untouched disk would have given |
| Wiring.PlaceStable | internal/install/placement.go:55-127 | where wiring goes beside a file depends only on its directory and its text with our block taken out |
| Wiring.PlacesStand | internal/install/placement.go:85-127 | an install changes the placement of no candidate, its own target included |
| Wiring.TargetStable | internal/install/startupfiles.go:33-49 | the login file chosen before an install is the one chosen after it |
| Wiring.SweepStable | internal/install/apply.go:342-433 | on the wired disk an uninstall works out a sweep if and only if its hosts name a file, and whatever they are it is the sweep the install would have worked out |
| Wiring.UninstallFinishesExactly | internal/install/apply.go:180-210 | after an install, an uninstall gets to its end if and only if its hosts name a file and no directory stands in a swept place, both seen before the install; one that does not leaves the hook |
| Wiring.RoundTrip | internal/install/apply.go:174-235 | install then uninstall gives every file back byte for byte, one the install created included, if and only if the uninstall gets to its end and the sweep meets nothing it would change by itself, both told from the disk before the install |
| Wiring.InstallTwice | internal/install/apply.go:122-170 | a second install finishes and leaves the files the first left |
| Wiring.LoginFilesApart | internal/install/startupfiles.go:33-49 | a Bourne shell's three login files and their drop-in directories never lie in each other's way |
| WiringReach.HookIsRun | internal/install/apply.go:122-150 | after a finished install the hook is there with its text and the source line is a line of the file the wiring went in: in a drop-in the only one that is not a comment, in a startup file inside the block after everything that was there |
| WiringReach.WiredWhere | internal/install/apply.go:342-436 | which file that is, by name, for every shell, scope and choice of hosts |
| WiringReach.PlacedExactly | internal/install/placement.go:55-127 | a drop-in directory is used exactly when it is there and, for PowerShell, the user's own part of the profile refers to it; a file in its way is refused |
| WiringReach.FirstExistingExactly | internal/install/startupfiles.go:33-49 | the login file chosen is the first that exists, the first of all where none does |
| WiringReach.RefusedForGood | internal/install/apply.go:550-559 | a PowerShell that will not run its profile, or names none for what was asked, is neither installed for nor uninstalled, and nothing is written |
| WiringReach.EveryCandidateIsSwept | internal/install/apply.go:186-197 | a finished uninstall has been at every file an install of that shell could have wired: no drop-in of ours is left beside any, and what is left of the file is what stripping leaves |
| WiringReach.HookGoesExactly | internal/install/apply.go:203-213 | a finished uninstall leaves no hook, takes its directory exactly when nothing else is in it, and no other directory |
| WiringLimits.EmptyProfileIsLost | internal/install/hookfile.go:149-174 | a disk with an empty .profile: install and uninstall both finish and the files are not the ones before |
| WiringLimits.DirectoryStopsTheUninstall | internal/install/apply.go:190-200 | a disk with a directory where a login file could be: the install finishes, the uninstall does not, and the hook stays |
| WiringLimits.UnnamedHostsUndoNothing | internal/install/apply.go:342-375 | an uninstall for hosts a PowerShell names no profile for leaves the wired disk as it is |
| WiringLimits.UnnamedHostsThereAre | internal/install/profile.go:81-118 | a PowerShell with one profile is wired for all hosts and not unwired for the current one |
| Config.MergeSources | internal/config/sources.go:61-68 | the loop over the sources computes the fold |
| Config.MergeIsAssociative | internal/config/file.go:337-400 | merging files is associative with the empty file as identity |
| Config.MergeByKey | internal/config/file.go:363-400 | every one of the 28 settings is the later file's where that one writes it |
| Config.FoldIsLastWriting | internal/config/sources.go:61-68 | the forward fold and a backward search for the last file to write a setting agree |
| Config.ResolveIsByKey | internal/config/file.go:478-565 | resolving everything at once gives each setting what resolving it alone gives |
| Config.ResolvedAlone | internal/config/file.go:478-565 | a setting's value and whether it is refused depend on its own field and its own variables only |
| ConfigValues.DurationsInForce | internal/config/config.go:37-107 | each of the four durations is what its variable, else its field, reads as; a lifetime or give-up period below zero is none, a limit not above zero is refused, what does not read is refused, and the built-in value is in force then and where nothing is said |
| ConfigValues.WordsInForce | internal/config/file.go:669-795 | each setting of a few words is the word written, or the built-in one, refused exactly where something else was written |
| ConfigValues.PrefixInForce | internal/config/file.go:591-609 | the prefix is as written, refused exactly when it holds white space or a slash |
| ConfigValues.ContainerInForce | internal/config/file.go:607-640 | the container is as written, refused exactly when it holds white space or a slash or is a desktop's own wallet |
| ConfigValues.PatternsInForce | internal/config/file.go:648-664 | a list of patterns is taken whole or, when it is empty or one of them can match no file name, refused whole |
| ConfigValues.EditorInForce | internal/config/file.go:569-579 | the editor is the first of the field and two variables that is more than white space |
| ConfigValues.WrittenLifetimeRules | internal/config/sources.go:61-68 | the last file to write a lifetime decides it, where its variable is not set |
| Config.Explain | internal/config/provenance.go:57-83 | the report loop gives one line per row of the table |
| Config.ReportHoldsEveryRow | internal/config/provenance.go:57-83 | every row's line is in the report |
| Config.TableIsComplete | internal/config/provenance.go:190-356 | the table has a row for every setting there is |
| Config.SearchIsLastWriting | internal/config/provenance.go:158-177 | the search for a setting's origin names the last file that writes it |
| Config.ReportAccounts | internal/config/provenance.go:57-185 | resolving nothing but the origin a line names gives that line's value, for every source list and environment; a refused value is accounted for by the built-in one |
| Config.RefusalIsFromThere | internal/config/provenance.go:57-83 | a refused value has an origin named exactly when it was refused, and resolving that origin alone is refused too |
| Config.EditorReportExactly | internal/config/provenance.go:158-185 | for the editor this holds in every environment if and only if no later file writes it blank over one that names it |
| Config.EditorMisreported | internal/config/file.go:569-589 | when one does, the report names a file whose editor is not in force |
| Config.DecidedByDropIns | internal/config/write.go:152-166 | the check names no other file exactly when no file after the main one writes key_dir, and otherwise the last that does |
| KeyDirEffect.TakesEffectExactly | internal/config/write.go:140-166 | writing key_dir puts it in force, whatever the directory of those whose quoting reads back, if and only if the check named no other file and the main file takes the line: without the line replaced it decodes, sets no key_dir and begins no table above the place; where both hold, a directory is in force exactly if its quoting reads back |
| KeyDirEffect.KeyDirAfterIs | internal/config/write.go:77-104 | what the next login uses after the write, in every case: a later file, the directory, or what the main file states regardless |
| KeyDirEffect.StatedAfterWriting | internal/config/file.go:407-420 | what the main file decodes to after the write |
| KeyDirEffect.MeaningsAfterWriting | internal/config/write.go:48-70 | the edited text says what it said before, with the new setting in its place |
| KeyDirEffect.UndecodableStaysSo | internal/cli/movekeys.go:120-143 | a main file that does not decode and has no key_dir line: the check names nothing, and no directory written is ever in force |
| KeyDirEffect.BrokenAssignmentIsRepaired | internal/config/write.go:42-47 | a main file that does not decode for its key_dir line alone decodes after the write |
| TomlText.QuoteReadsExactly | internal/config/write.go:42-49 | a directory quoted by Go reads back from TOML if and only if it holds no bell, no vertical tab and, without the escapes of TOML 1.1, no other control that has no letter; otherwise the line reads as nothing |
| TomlText.QuotedIsOneLine | internal/config/write.go:48-56 | a quoted directory is always one line |
| ConfigWrite.WriteKeyDir | internal/config/write.go:48-70 | the loop over lines writes the specified text, with the directory quoted by Go's rules |
| ConfigWrite.WrittenOnce | internal/config/write.go:40-70 | the first line that sets key_dir is the one just written, and every other line stands |
| ConfigWrite.LinesAfterWriting | internal/config/write.go:48-70 | the lines of the file after writing, in each of its cases |
| ConfigWrite.LastWriteWins | internal/config/write.go:48-70 | writing twice is writing the second value |
| ConfigWrite.AssignmentAssigns | internal/config/write.go:35-40 | the line written is one that is found again as setting key_dir |
| ConfigWrite.AssignsExactly | internal/config/write.go:35-40 | the lines that set key_dir are exactly those with nothing but spaces and tabs before the name and before the equals sign |
| ShellQuoting.PowerShellSingleQuote | internal/cli/shell/dialect.go:141-152 | the builder loop doubles every character PowerShell takes for a single quote |
| ShellQuoting.QuoteReadsBack | internal/cli/shell/dialect.go:121-127 | a POSIX shell (sections 2.2.1 and 2.2.2 of POSIX.1-2017, Shell Command Language) reads a quoted value back, whatever its characters |
| ShellQuoting.VerbatimReadsBack | internal/cli/shell/dialect.go:129-152 | PowerShell (section 2.3.5.2 of its Language Specification 3.0) reads its literal back, curly quotes included |
| ShellQuoting.PosixScriptReadsBack | internal/cli/agentcmd.go:105-116 | a POSIX reader of the whole output makes exactly the assignments printed, in order, and nothing else |
| ShellQuoting.PowerShellScriptReadsBack | internal/cli/agentcmd.go:105-116 | the same of PowerShell |
| ShellQuoting.PosixLineReadsBack | internal/cli/shell/dialect.go:42-62 | one variable or environment line reads back as itself, whatever follows it |
| ShellQuoting.PowerShellLineReadsBack | internal/cli/shell/dialect.go:42-62 | the same of PowerShell |
| EditorLine.SplitCommandLine | internal/config/editor.go:58-81 | the loop over characters computes the specified fields |
| EditorLine.QuotingReadsBack | internal/config/editor.go:48-57 | fields without a double quote, empty ones included, each quoted and set apart by any white space, are read back as they were |
| EditorLine.OnlyBlankYieldsNothing | internal/config/editor.go:58-81 | no field comes of a line exactly when the line is blank |
| EditorLine.SpaceIsABoundary | internal/config/editor.go:58-81 | white space outside quotes cuts the line in two halves cut independently |
| EditorLine.UnbrokenIsOneField | internal/config/editor.go:58-81 | a stretch without such white space is one field, itself without its quotes |
| EditorLine.NothingIsLost | internal/config/editor.go:58-81 | the fields one after another are the line without its quotes and the white space outside them |
| EditorLine.EditorCommand | internal/config/editor.go:13-20 | the command is never empty; a stated editor is cut, a found one is not |
| EditorLine.FirstEditorFound | internal/config/editor.go:34-48 | the first candidate found, else the first candidate's own name |
| PathList.Has | internal/install/pathlist.go:86-93 | true exactly when some entry names the directory |
| PathList.Add | internal/install/pathlist.go:41-58 | the text after adding, in each of its cases |
| PathList.Remove | internal/install/pathlist.go:66-83 | the filtering loop computes the specified text |
| PathList.AddPutsItLast | internal/install/pathlist.go:28-58 | every entry stays as written and the new one stands last |
| PathList.AddIsIdempotent | internal/install/pathlist.go:35-45 | adding again changes nothing |
| PathList.AddIsIdempotentExactly | internal/install/pathlist.go:35-45 | where entries are compared letter by letter, if and only if the directory holds no separator |
| PathList.RemoveKeepsTheOthers | internal/install/pathlist.go:60-83 | exactly the other entries stay, in order and as written, and a second removal changes nothing |
| PathList.AddThenRemove | internal/install/pathlist.go:41-83 | removing what was added restores the text if and only if it was empty, or said something and did not end in the separator |
| PathList.SlashAtTheEnd | internal/install/pathlist_unix.go:19-25 | a slash at the end names the same directory unless the path is nothing but slashes |
| KeyState.Store.Save | internal/keystate/keystate.go:65-75 | a saved record reads back as the second it was saved in, the lifetime in whole seconds and the trimmed path, and no other key's record changes |
| KeyState.Store.Records | internal/keystate/keystate.go:80-101 | every record that can be read, in the order listed |
| KeyState.Store.Clear | internal/keystate/keystate.go:140-149 | that key's record alone is removed |
| KeyState.BodyReadsBack | internal/keystate/keystate.go:107-137 | what is written parses back, for every path and lifetime; the path comes back trimmed |
| KeyState.RecordAgreesWithAgent | internal/keys/keyadd.go:164-169 | the record expires exactly when ssh-add is passed -t, and that many seconds after the second of adding |
| KeyState.ExpiresAfterWholeSeconds | internal/keystate/keystate.go:45-52 | a key recorded with less than a second of lifetime never expires, any other at its second of adding and as many whole seconds later |
| KeyState.IntReadsBack | internal/keystate/keystate.go:128-131 | a 64-bit number's decimal text reads back |
| KeyState.NameNamesItself | internal/keystate/keystate.go:154-163 | a record is found under its file's own name as under the key's path, which never leads out of the directory |
| KeyState.BaseOfJoined | internal/keystate/keystate.go:154-163 | a record's name is what stands after the last slash of the path, slashes at its end aside |
| KeyExpiry.Expirer.ExpireKeys | internal/keys/expire.go:74-88 | ssh-add -d is asked for exactly the due keys, and a record goes exactly when one of those requests reached the agent and it could be removed |
| KeyExpiry.AskedExactly | internal/keys/expire.go:74-108 | ssh-add -d is asked for a path exactly when it is listed with a time that is up and an ssh-add can be named for it, each time it is, in the order listed |
| KeyExpiry.DroppedBy | internal/keys/expire.go:98-128 | a record goes exactly when it is kept under the name of a path asked for whose ssh-add answered, with whatever code, and the record can be removed |
| KeyExpiry.Expirer.Remove | internal/keys/expire.go:98-128 | one request and what becomes of its record: a refusal drops it, a failure to start keeps it |
| KeyExpiry.Expirer.Added | internal/cli/expirekeys.go:64-78 | a record without expiry lists a key that never runs out |
| KeyExpiry.SurvivesExactly | internal/keys/expire.go:90-128 | each record goes by its own request alone, in every world and at every time, if and only if every record that can fall due is kept under the name of the key it says it is of |
| KeyExpiry.RecordsAreThoseIn | internal/keystate/keystate.go:80-101 | what the store lists is what its files hold |
| KeyExpiry.WrittenIsWellNamed | internal/cli/expirekeys.go:80-82 | a record just written is under its right name if and only if it never falls due or trimming its path does not change the last name |
| KeyExpiry.ForgottenExactly | internal/keys/expire.go:90-128 | a record just written can ever be taken away if and only if its key expires and trimming its path leaves it naming the same record |
| KeyExpiry.SpaceAtTheEndStays | internal/keystate/keystate.go:107-137 | the record of a path ending in a space is taken away by no run |
| KeyExpiry.NotOnItsOwn | internal/keys/expire.go:98-128 | for a record under another name, a world and a time in which its own request reaches the agent and it stays |
| Handoff.HandedOverOnce | internal/keys/handoff/handoff_socket.go:84-178 | in every interleaving at most one collector succeeds, it is the first that connected, and it has the passphrase, never an empty one |
| Handoff.TooLateForEveryone | internal/keys/handoff/handoff_socket.go:123-147 | once the time is up or the accept failed, nobody ever gets it, whoever had connected |
| Handoff.ServerFinishes | internal/keys/handoff/handoff_socket.go:79-130 | the server takes at most five steps, always has one until the socket is gone, and afterwards nobody can connect |
| Handoff.SomebodyCanCollect | internal/keys/handoff/handoff_socket.go:161-178 | a collector that is served gets the passphrase |
| Handoff.StepKeepsInv | internal/keys/handoff/handoff_socket.go:123-178 | every step keeps the passphrase on the one connection the server took |
| Handoff.CollectorStandsByLastStep | internal/keys/handoff/handoff_socket.go:161-178 | what every collector comes away with after any run, told from its own last step: one that calls waits exactly when the listener was open, one that reads gets the passphrase exactly when it is the one served and it was written, every other fails |
| Handoff.StandsByHistory | internal/keys/handoff/handoff_socket.go:123-147 | how listener, socket, acceptor and every connection stand after any run, told from what has happened in it, in whatever order; the one served is the first that called |
| Handoff.ClosedExactly | internal/keys/handoff/handoff_socket.go:140-147 | a connection is closed exactly when the server closed it after serving it, or the system did, the server never having taken it |
| Handoff.ServerStandsByLastStep | internal/keys/handoff/handoff_socket.go:123-147 | where the server stands after any run, told from its own last step |
| TestReport.EventFold.Observe | tools/testreport/report.go:90-130 | after each event the buffers hold what each test printed since its last result, and the lists are those the stream says |
| TestReport.EventFold.Done | tools/testreport/report.go:134-145 | the report is the wall time, the slowest tests and the failures of the whole stream |
| TestReport.ParseEvents | tools/testreport/report.go:62-76 | a stream with anything unreadable gives no report; any other gives exactly what it says |
| TestReport.OthersDoNotMatter | tools/testreport/report.go:99-108 | what a test printed depends on its own events only, however the others' fall between |
| TestReport.FailuresExactly | tools/testreport/report.go:116-127 | the failures are exactly the failing events of tests, each with what its test had printed since its last result |
| TestReport.TimingsExactly | tools/testreport/report.go:110-115 | the timings are exactly the results of tests, passed, failed or skipped |
| TestReport.EachCountsOnce | tools/testreport/report.go:110-127 | each of them is there once |
| TestReport.InTheOrderTheyCame | tools/testreport/report.go:110-127 | and in the order they came |
| TestReport.PrintedBy | tools/testreport/report.go:98-109 | a test's own output events add to what it printed, its own results end it, and no other event touches it |
| TestReport.WallIs | tools/testreport/report.go:134-137 | the run lasted from the first event that carries a time to the last that does |
| TestReport.FirstResultHasAll | tools/testreport/report.go:99-124 | until a test's first result everything it printed is kept in order |
| TestReport.ResultStartsAfresh | tools/testreport/report.go:108-129 | after a result everything that test prints is kept in order, and nothing from before it |
| TestReport.SlowestIsTheOrder | tools/testreport/report.go:138-140 | the timings in descending order, each as often as before |
| TestReport.SlowestIsStable | tools/testreport/report.go:138-140 | tests that took equally long keep the order they ended in |
| TestReport.TopKeepsTheSlowest | tools/testreport/report.go:141-144 | as many as asked or as there are, and none left out took longer than one kept |
| Text.JoinSplit | internal/install/pathlist.go:71-82 | joining what was split gives the text back |
| Text.SplitJoin | internal/install/pathlist.go:71-82 | splitting what was joined gives the entries back where none holds the separator |

## Left out

- File modes, ownership and access lists: rolling back restores places and contents, nothing else.
- Failing reads and writes other than the ones named in a contract, such as a file only half written; the rewrite in a log's trim and a swap of a symlink or of a configuration file are one step each.
- The temporary name a symlink is made under before it is renamed over the fixed socket.
- Programs outside: other processes may start or end, but none is assumed to bring the silent fixed path back to life between a login's steps; an agent between being started and listening is one that does not answer.
- A login set up without a lock at all: in `AgentLogins` each one queues for it.
- Log messages that hold a newline of their own.
- Durations, regular expressions and time text: functions with the few facts used.
- KeyDirEffect.TakesEffectExactly: TOML is decoded line by line, so values over several lines, dotted names and arrays of tables are not modelled; what a line says is a function with the few facts used, and a setting with no line in the file's own text but a wrong type reads as a broken line.
- A configuration with names the program does not know is reported and used all the same; the report is not modelled.
- A file on the way to a startup file: refused as Unix refuses it; Windows takes the path for one that is not there.
- Startup files that are symbolic links, which replacing turns into plain files.
- Putting values of the report into words, and the list of settings a file states that another overrules.
- Choosing the shell from the process tree, rendering the hook's text, translating path spellings, recording the PATH entry, and writing the list to the registry or a profile.
- A home directory that is not set, and shells other than Bourne and PowerShell.
- Directories an install made stay after an uninstall; the round trip is about files.
- The Bourne startup file of shells that are not login shells.
- Names given to printed variables are taken to be names; the program prints only its own.
- Text that is not valid in its encoding: a string is a sequence of characters.
- A path list's separator is one character, as on every system there is.
- The wallet clients, dialogs, terminals, the kernel keyring and everything of Windows but its profiles and its quoting.
- Starting the handoff: making its private directory, its random name and the refusal of a name too long; the single write of the passphrase arrives whole or not at all.
- The test report's coverage figures and its rendering.
- Wiring.RoundTrip: the startup files and the hook have to lie apart, none on the way to another; this is proved of a Bourne shell's files and taken of the profiles a PowerShell names. `Wiring.InstallTwice` and the lemmas between them take the same.
- KeyLoader.Loader.LoadKeys: the log lines, notifications and the reading of fingerprints are not events of the trace.
- AgentLifecycle.Landscape.EnsureAgent: one login with nobody beside it; interleavings are the other module's.
- KeyMove.Disk.MoveKeys: the list of files moved, printed on success only, is not compared with what was later put back.
- KeyExpiry.Expirer.ExpireKeys: what ssh-add answers is asked once per key path, so two records of one path get the same answer.
- TestReport.EventFold.Done: the sort is given by its result, stable and descending, not by the library's algorithm.

# Verified model of the usage daemon's stateful cores

This project models the parts of the daemon that keep state, transform programs or decode data, and proves what they
are for. Objects whose methods change their fields are classes, loops are loops, and each such method is proved against
a function or a relation on values; the theorems are about those, for every input, every run and every interleaving.
I/O is a parameter or an arbitrary choice: a watch call may fail, a pipe may take any number of bytes, a clock may jump.

`dafny verify dfyconfig.toml` checks everything.

| part | files |
|---|---|
| provider watch actor | `WatchSpec` (the machine it implements, and the guarantees over runs), `WatchMaps` (its maps and their invariants), `WatchInputs` (what runs answer to), `WatchReactions` (the same in terms of paths and files alone), `WatchActor` |
| script patcher | `ScriptLang` (a small language with an interpreter), `ScriptPatch`, `PatchShape`, `PatchMeaning`, `PatchScript`, `PatchManifest` (what its manifest means), `PatchCollision`, `PatchOwnCallback` |
| Claude log deduplication | `ClaudeDedup`, `ClaudeDedupSpec`, `ClaudeDedupOrder`, `ClaudeDedupTies`, `Sequences` |
| auth file lock | `AuthLock` (one path, any interference), `LockProtocol` (all processes using the protocol), `LockAcquire` (the loop that takes the lock, among the others) |
| Codex account routes | `CodexJson`, `CodexDiscovery`, `CodexReady` (which accounts can be used), `CodexPersist`, `CodexSaves` (what a save does to the files) |
| Codex session logs | `CodexTotals`, `CodexReplay` (what a log says without the scanner's state) |
| Antigravity databases | `ProtoWire`, `ProtoFields`, `ProtoEvent`, `DatabasePages` |
| daily rows | `DayKeys`, `DailyRows`, `DailyRowsOrder` (shared), `AntigravityRows`, `ClaudeRows` |
| Cursor usage history | `CursorBackfill` |
| helper processes | `ProcessIo` |
| refresh of expired limits | `RetryLoop` |
| command suggestions | `EditDistance`, `CommandSuggestion` |

## Results

- **Watch actor.** `Serve` answers every input by one step of a small machine, for all sequences of commands, events and
  looks at the clock and all patterns of failing watch calls; every handler keeps the two indexes inverse, every target
  attached to at most one root, its own, and every registered root watched, unless its directory is itself a subscribed
  path and was removed (`RootsStayLive`). An event tells exactly of the files it names, and of the changed files whose
  root is a reported path or its directory, unless that path is itself subscribed (`EventTouches`). No such event is
  lost: whoever is subscribed to a file it tells of is in the next announcement unless cleared or replaced first
  (`EventIsAnnounced`), which a quiet debounce delay brings about (`QuietPeriodDelivers`). Nor is one invented:
  everybody announced had a reason since the timer last ran (`AnnouncementHasCause`). The machine announces a provider
  exactly when a notification of it is owed (`AnnouncedExactlyWhenOwed`). In terms of the events alone: a subscribed
  path that is created, removed, renamed, modified or changed in an unknown way is announced (`ListedPathIsAnnounced`),
  and changes of metadata, accesses and errors change nothing (`OtherEventsAreIgnored`).
- **Patcher.** The patched script runs like its source under every host that installs nothing or callbacks that call the
  original, if no callback has the name of an outermost function of the script (`PatchingPreservesMeaning`, both
  directions, with effects and all variables). Without that condition the patched script may call itself without end
  (`OutermostTargetRecurses`); for a patch that names no callback of its own, a call ends if and only if its target is
  declared further in (`UnnamedCallbackNeedsInnerTarget`). Erasing gives back the source (`StatementsErase`), and
  exactly the first declaration of each target is renamed (`StatementsRename`). This needs distinct internal names:
  `InternalNamesCollide` says when two names clash, `CollidingTargetsChangeMeaning` shows what goes wrong then, and
  `SafeTargetsAreWellNamed` gives a condition on the targets alone that excludes it. What an element of the manifest
  means is stated in its own fields, down to what its callback is handed (`ObjectElement`, `ModeOfElement`).
- **Deduplication.** The one-pass algorithm with its two indexes meets a specification that does not mention order
  (`DedupMeets`), so permuting the log keeps the total of all tokens and, for each kept entry, an equally good one of
  its group (`DedupOfPermutation`); the kept entries themselves do not depend on the order if and only if no two best
  entries of a group tie (`OrderMattersExactlyForTies`), and then neither do the daily rows (`RowsOfPermutation`).
  Deduplicating is idempotent.
- **Lock.** At most one live handle holds the lock (`MutualExclusion`) if no heartbeat is late; without that a handle
  may be displaced unnoticed (`LateHeartbeatBreaksExclusion`). The loop that takes the lock takes only steps of that
  protocol while others take theirs in between (`Acquire`), and the steps of a holder are the operations proved of a
  handle (`HeartbeatRefreshes`, `ReleaseFinishes`), so whoever comes out of it with the lock is alone with it
  (`TakenAlone`). Whatever others do to the path and whatever clocks show, a handle that failed or was released never
  verifies again (`FailureIsFinal`); one displaced by a newer heartbeat does if and only if the directory's time is set
  back to exactly what it remembers (`DisplacedUntilTimeIsSetBack`).
- **Codex routes.** Every discovered account has an id of its own, its route reads back the credential it was made from,
  and no two routes write to the same place (`DiscoveredRoutesAreSound`). Which accounts can be used, and with which
  tokens, is stated in what the files hold (`ListedAccount`, `LegacyAccount`, `PiAccount`), and so is when a save
  succeeds (`SaveSucceeds`). A save changes nothing but the token fields of the account's own entry, is read back, and
  never shows through another route (`AccountsStayApart`); a failed one silences the route for good
  (`FailedSaveIsFinal`).
- **Codex totals.** What is emitted is what the cumulative counts rose by, and exactly that if and only if they never
  fall (`TotalsTelescope`). The scanner's replay gate is set exactly while the log is that of a child session without a
  task of its own (`GateIsReplay`), its events are those that the lines stand for (`EventsOfLog`), and a child session
  counts only what it adds itself (`ChildSessionCountsItsOwn`).
- **Protobuf.** Decoding inverts encoding at any offset and before any rest; a blob is read back as its event for all
  64-bit counters, and the condition under which it is dropped is exact (`GenerationRoundTrip`), also for blobs that
  hold other fields too or lack some (`EventOfMessages`).
- **Daily rows.** Both scanners conserve tokens: a row for exactly the days counted, whose parts and models add up to
  its total and whose totals add up to all counted tokens, or nothing if and only if some day overflows; neither depends
  on the order of what is counted (`AnswersIgnoreOrder`). Rows are ordered by the text of their days, which is the order
  of the days up to the year 9999 (`KeysAreChronological`); different days never share one (`KeysAreDistinct`).
- **Cursor, helper process, retry.** `FetchEventDay`, `Events`, `RunCommand` and `RunPastResetRetryLoop` state in their
  contracts what they return or leave behind on every path.

What the code does that one may not expect, kept as it is:

- An accounts list is refused as having duplicate names when a single account has a name that every JavaScript object
  inherits, such as `constructor` (`CodexDiscovery.ValidateAccountsEntries` gives the exact condition).
- Saving to the Pi auth file without an access token removes the stored one and reports success; nothing can be read
  back then (`CodexPersist.SavedTokensAreReadBack` gives the exact condition).
- `a1` and `a1_` get the same internal name in the patcher.
- A manifest that merely lists the name of a function from the script's outermost statement list is accepted, and the
  patched function calls itself without end: scripts run as global code, so its wrapper finds itself on `globalThis`
  (`PatchOwnCallback.OutermostTargetRecurses`).
- A file that disappears together with the last directory above it loses its root, and its providers are not announced
  (`WatchMaps.LastDirectoryVanishes`; `WatchMaps.ExactlyChangesAreAnnounced` says exactly what is).
- When a path is itself subscribed, an event that names it announces nothing below it: a subscribed file that arrives
  inside a subscribed directory is missed (`WatchInputs.ChangeBelowSubscribedPathIsMissed`).
- For the same reason a watched directory that is itself subscribed stays registered when it is removed although its
  watch is gone; only then (`WatchInputs.RootsStayLive`; `WatchActor.ProviderWatchActor.HandlePath` says exactly when).
- When the best entries of a group of Claude log entries tie, the first in the log is kept, so what a day or a kind of
  tokens adds up to can depend on the order of the files (`ClaudeDedupTies.OrderMattersExactlyForTies`).
- Every day after the year 9999 is listed as older than the days up to it (`DayKeys.LateYearsComeFirst`).
- A lock handle that a newer heartbeat displaced verifies again once somebody sets the directory's time back to what it
  remembers (`AuthLock.TimesTakenBackReviveAHandle`).

## Model

| member | source | states |
|---|---|---|
| WatchSpec.AnnouncedExactlyWhenOwed | src/restart_watcher.rs:676-799 | no notification is lost or invented: a provider is announced if and only if it is owed a notification that was not withdrawn since |
| WatchSpec.PendingIsOwed | src/restart_watcher.rs:547-553 | after any run the pending providers are exactly those with an owed notification |
| WatchSpec.RunsAreConsistent | src/restart_watcher.rs:703-799 | over every run whatever is pending is subscribed, and a non-empty pending set has a deadline |
| WatchSpec.AnnouncedAreSubscribed | src/restart_watcher.rs:779-799 | every announced id is subscribed at that moment |
| WatchSpec.DeadlineIsTrailing | src/restart_watcher.rs:547-553 | the deadline belongs to the latest touching step, with no touch or timer run after it |
| WatchSpec.AnnouncedAfterQuietPeriod | src/restart_watcher.rs:839-868 | an announcement comes at least the debounce delay after the last touch before it |
| WatchMaps.NearestNonRootAncestor | src/restart_watcher.rs:1034-1041 | the longest existing directory at or above the path, the filesystem root excluded; None only if there is none |
| WatchMaps.ComputeRoot | src/restart_watcher.rs:472-475 | the root is an existing directory strictly above the file |
| WatchActor.Backend.Watch | src/restart_watcher.rs:298-301 | a watch call may fail; only success installs the watch |
| WatchActor.Backend.Unwatch | src/restart_watcher.rs:298-301 | an unwatch call may fail; only success removes the watch |
| WatchActor.ProviderWatchActor.constructor | src/restart_watcher.rs:829-837 | the actor starts with nothing subscribed, pending or watched |
| WatchActor.ProviderWatchActor.InstallWatch | src/restart_watcher.rs:401-433 | a registered root that exists needs no new call; a vanished one is installed again and keeps its targets; failure changes nothing |
| WatchActor.ProviderWatchActor.ReleaseWatchIfEmpty | src/restart_watcher.rs:439-468 | only an empty root is given up, and it stays registered only if unwatching failed while its directory exists |
| WatchActor.ProviderWatchActor.ReconcileTarget | src/restart_watcher.rs:480-556 | the target ends attached to its computed root, or where it was if watching failed; if its new root is watched its providers become pending exactly when its existence differs from what was declared or last observed, and otherwise they do not |
| WatchActor.ProviderWatchActor.Unroot | src/restart_watcher.rs:480-545 | a target with no directory but the filesystem root above it loses its root and stays subscribed |
| WatchActor.ProviderWatchActor.Move | src/restart_watcher.rs:480-545 | the new root is installed before the old one is given up, so a failed installation leaves the target attached |
| WatchActor.ProviderWatchActor.ReconcileAll | src/restart_watcher.rs:559-569 | every affected target is reconciled and exactly the changed ones become pending |
| WatchActor.ProviderWatchActor.ClearProviderInternal | src/restart_watcher.rs:676-701 | the provider is gone from subscriptions and pending notifications, and no empty target is left |
| WatchActor.ProviderWatchActor.HandleClearProvider | src/restart_watcher.rs:672-674 | a clear command is the clear step of the specification and keeps every invariant |
| WatchActor.ProviderWatchActor.HandleReplaceProvider | src/restart_watcher.rs:571-670 | a replace is: remove the provider, then add exactly the files whose root could be watched; a skipped file was refused by the backend or has no root |
| WatchActor.ProviderWatchActor.AddFiles | src/restart_watcher.rs:582-659 | every installable file is registered with both indexes agreeing; only refused ones are skipped |
| WatchActor.ProviderWatchActor.Subscribe | src/restart_watcher.rs:571-670 | adding files and reconciling them closes the race between declaration and installation |
| WatchActor.ProviderWatchActor.HandleTargetEvent | src/restart_watcher.rs:721-738 | an event on a subscribed file makes all its providers pending whatever happened to the file |
| WatchActor.ProviderWatchActor.HandleRootEvent | src/restart_watcher.rs:757-775 | every target of the root is reconciled; a removed root is dropped from the registry first, so none is left registered with a dead watch |
| WatchActor.ProviderWatchActor.HandlePath | src/restart_watcher.rs:721-776 | a path that is itself subscribed is announced and recorded, and nothing else is looked at, so that it stays registered with a dead watch if it was a root and was removed; for any other path, if no watch call was ever refused, exactly those targets are announced whose root is the path or its directory, that changed, and that still have a directory above them; targets under other roots stay as they are |
| WatchActor.ProviderWatchActor.HandleRoots | src/restart_watcher.rs:740-775 | if no watch call was ever refused, every target whose root is the path or its directory ends announced or as the file system has it; no other target changes |
| WatchActor.ProviderWatchActor.HandleFsEvent | src/restart_watcher.rs:703-777 | uninteresting events change nothing; otherwise a target is announced if and only if the event names it, or its root is a reported path or the directory of one, that path is not itself subscribed, and the target changed with a directory left above it (no watch refused); refused watches can only leave such targets out |
| WatchActor.ProviderWatchActor.HandleDeadline | src/restart_watcher.rs:779-799 | all pending ids are sent at once and the deadline ends |
| WatchActor.ProviderWatchActor.Serve | src/restart_watcher.rs:822-871 | every input is answered by one step that the input calls for, in order: a clear by clearing, a replacement by the installable files that were not refused, an event by the files it names or finds changed, a look at the clock by running the timer exactly when it is due; exactly the announcements of these steps are sent |
| WatchActor.ProviderWatchActor.Handle | src/restart_watcher.rs:805-868 | one input is handled by the one step it calls for, and the maps change as that step says |
| WatchInputs.EventTouches | src/restart_watcher.rs:703-777 | while no watch call is refused an event touches exactly the files it tells of |
| WatchInputs.EventIsAnnounced | src/restart_watcher.rs:703-799 | if an event tells of a file a provider is subscribed to, the next run of the timer announces the provider, unless it was cleared or replaced in between |
| WatchInputs.ListedPathIsAnnounced | src/restart_watcher.rs:703-799 | a subscribed path listed in an event of kind create, remove, rename, modify or other is touched, and its providers are sent when the timer next runs, unless cleared or replaced in between |
| WatchInputs.OtherEventsAreIgnored | src/restart_watcher.rs:1047-1054 | changes of metadata, accesses and backend errors touch nothing and leave targets and pending notifications as they are |
| WatchReactions.WhatEventsTell | src/restart_watcher.rs:703-777 | an event tells of a file if and only if its kind counts and it lists the file, or, while no watch call is refused, it lists the file's root or a path directly below it that is not subscribed, the file has a directory other than the filesystem root above it, and its existence is not as last seen or declared |
| WatchReactions.NewSubscription | src/restart_watcher.rs:571-670 | while no watch call is refused, a listed file with a directory above it is subscribed, its root is the nearest such directory, its record is up to date, and it is announced if and only if it was not as declared or, if others are subscribed, as last seen or declared before |
| WatchReactions.OnlyListedFiles | src/restart_watcher.rs:571-670 | nothing else is subscribed |
| WatchReactions.ClearEndsSubscriptions | src/restart_watcher.rs:676-701 | a clear ends exactly the provider's subscriptions and announces nobody |
| WatchReactions.RootOf | src/restart_watcher.rs:472-475 | the root of a file is the nearest directory above it, the filesystem root excluded |
| WatchReactions.WhatGoesAway | src/restart_watcher.rs:712-716 | a directory goes away exactly with an event of kind remove or rename that lists it |
| WatchInputs.RootsStayLive | src/restart_watcher.rs:740-775 | every registered root has a live watch after any run in which no subscribed path was itself removed or renamed |
| WatchInputs.QuietPeriodDelivers | src/restart_watcher.rs:547-553 | such a provider is announced by the first look at the clock a debounce delay after the last event or replacement, if not before |
| WatchInputs.AnnouncedIsSent | src/restart_watcher.rs:779-799 | every non-empty announcement of a run is among what is sent |
| WatchInputs.AnnouncementHasCause | src/restart_watcher.rs:676-799 | an announced provider has a file that an event named or found changed, or that was not as declared or last observed when it was subscribed to, and no clear, replacement or timer run came in between |
| WatchInputs.SubscriptionsFollowCommands | src/restart_watcher.rs:571-701 | while no watch call is refused the subscriptions are those of the commands alone |
| WatchMaps.ExactlyChangesAreAnnounced | src/restart_watcher.rs:480-556 | if every target under some roots was looked at, exactly the named ones and the changed ones under these roots that have a directory other than the filesystem root above them are touched |
| WatchInputs.ChangeBelowSubscribedPathIsMissed | src/restart_watcher.rs:721-738 | in every run in which /a/b and then /a/b/c are subscribed while only /a exists and no watch is refused, an event for /a/b that brings c along leaves c's subscriber unannounced and c's record out of date |
| WatchMaps.LastDirectoryVanishes | src/restart_watcher.rs:480-497 | a file that vanishes with the last directory above it is not announced, and its record stays out of date |
| ScriptPatch.FunctionPatchInjector.Visit | src/plugin_engine/script_patch.rs:168-194 | visiting a tree rewrites its statement lists, children first |
| ScriptPatch.FunctionPatchInjector.VisitStatements | src/plugin_engine/script_patch.rs:182-193 | a list keeps its order, each patched declaration directly followed by its wrapper |
| ScriptPatch.FunctionPatchInjector.TryPatch | src/plugin_engine/script_patch.rs:148-165 | only a declaration of a target not patched before is renamed, once |
| PatchShape.StatementsErase | src/plugin_engine/script_patch.rs:148-194 | erasing the wrappers and undoing the renames gives back the source tree |
| PatchShape.StatementsRename | src/plugin_engine/script_patch.rs:148-194 | exactly the first declaration of each target in post-order is renamed, and the targets applied are exactly those declared somewhere |
| PatchMeaning.PatchingPreservesMeaning | src/plugin_engine/script_patch.rs:148-194 | the patched script ends as its source does, in value, variables and effects, and the other way round, for every forwarding host, if no callback has the name of an outermost function of the patched script |
| PatchMeaning.ForeignBeforePatching | src/plugin_engine/script_patch.rs:309-365 | that condition follows from one on the source script and the manifest alone |
| PatchMeaning.WrapperForwards | src/plugin_engine/script_patch.rs:457-484 | a call through a wrapper is the call of the renamed function, one level deeper, where no outermost function has a callback's name |
| PatchMeaning.InstalledCallbackAnswers | src/plugin_engine/script_patch.rs:457-484 | an installed callback answers in place of the original in both modes |
| PatchScript.InternalNamesCollide | src/plugin_engine/script_patch.rs:435-455 | exactly when two identifiers get the same internal name |
| PatchManifest.InternalNameOf | src/plugin_engine/script_patch.rs:435-455 | the internal name, character by character |
| PatchScript.ParsePatchSpecs | src/plugin_engine/script_patch.rs:309-365 | succeeds exactly when every element is well formed and no target or callback name occurs twice, and gives the specs of the elements in order |
| PatchManifest.AcceptedManifests | src/plugin_engine/script_patch.rs:309-365 | a manifest is accepted if and only if it has an element that is not a hole, every element is well formed, no two have the same target or callback, and all callbacks are declared |
| PatchManifest.TextElement | src/plugin_engine/script_patch.rs:326-337 | a string is accepted unless it is blank, and stands for a wrapping patch of that target with a callback of its name |
| PatchManifest.ObjectElement | src/plugin_engine/script_patch.rs:367-400 | an object is accepted if and only if its target is there and not blank, its `with` is absent or not blank, and its mode is absent, wrap or replace; the spec has that target, that callback or else the target's name, and replaces exactly if the mode says so |
| PatchManifest.OtherElements | src/plugin_engine/script_patch.rs:320-345 | holes are passed over, other elements are refused |
| PatchManifest.ReplaceHandsArgumentsOnly | src/plugin_engine/script_patch.rs:457-484 | under replace a callback that calls what it is handed throws |
| PatchManifest.WrapHandsTheOriginal | src/plugin_engine/script_patch.rs:457-484 | under wrap the same callback answers as the original |
| PatchManifest.ModeOfElement | src/plugin_engine/script_patch.rs:367-400 | from an element's own fields to the call: with such a callback installed a call of the target throws if the mode says replace, and else answers as the original |
| PatchScript.TransformPluginScript | src/plugin_engine/script_patch.rs:42-98 | succeeds exactly when the manifest is accepted and every target is declared in some statement list; without a manifest the script is returned unchanged |
| PatchScript.Inject | src/plugin_engine/script_patch.rs:140-146 | a target is reported missing exactly when no statement list declares it |
| PatchScript.SafeTargetsAreWellNamed | src/plugin_engine/script_patch.rs:100-121 | a condition on the target names alone under which the internal names cannot clash |
| PatchScript.TransformedScripts | src/plugin_engine/script_patch.rs:42-98 | for such targets the transformation is invertible and renames first declarations only, and if the callbacks are not outermost functions of the script it preserves meaning |
| PatchCollision.CollidingTargetsChangeMeaning | src/plugin_engine/script_patch.rs:435-455 | a script and two targets with one internal name whose patched run differs from the source's |
| PatchOwnCallback.OutermostTargetRecurses | src/plugin_engine/script_patch.rs:326-337 | a script and a manifest naming only its outermost function: the source ends and the patched script never does, with nothing installed |
| PatchOwnCallback.UnnamedCallbackNeedsInnerTarget | src/plugin_engine/script_patch.rs:457-484 | a call through the wrapper of a patch whose callback is named like its target ends where the original does, if and only if the target is not declared in the outermost scope |
| ClaudeDedup.DedupEntries | src/plugin_engine/analytics/claude_usage_scanner.rs:227-271 | the loop with its exact index and message index equals a scan that looks every collision up |
| ClaudeDedup.FindSidechain | src/plugin_engine/analytics/claude_usage_scanner.rs:235-252 | the first kept entry of the message where one of the two is a sidechain entry |
| ClaudeDedupSpec.DedupMeets | src/plugin_engine/analytics/claude_usage_scanner.rs:227-271 | exactly one best entry is kept per message and request, or per message if it has only sidechain entries, and all entries without id stay |
| ClaudeDedupOrder.DedupOfPermutation | src/plugin_engine/analytics/claude_usage_scanner.rs:227-271 | permuting the input leaves the kept entries, up to equally good ones of a group, and the total of all tokens unchanged |
| ClaudeDedupTies.OrderMattersExactlyForTies | src/plugin_engine/analytics/claude_usage_scanner.rs:227-283 | permuting the input always permutes what is kept, if and only if no two best entries of a group tie |
| ClaudeDedupOrder.DedupTwice | src/plugin_engine/analytics/claude_usage_scanner.rs:227-271 | deduplicating twice is deduplicating once |
| AuthLock.LockCheck.Verify | src/plugin_engine/auth_file_lock.rs:57-72 | a handle verifies only while the path is its own directory with the time it remembers |
| AuthLock.LockCheck.Check | src/plugin_engine/auth_file_lock.rs:74-81 | a failed check is remembered |
| AuthLock.LockCheck.Refresh | src/plugin_engine/auth_file_lock.rs:83-94 | a heartbeat stamps only a directory it still owns, and remembers the stamp, or the failure if stamping or reading the time back fails |
| AuthLock.LockCheck.Finish | src/plugin_engine/auth_file_lock.rs:216-234 | a release removes the directory only if it is still owned, where the removal may fail, and the handle is released either way |
| AuthLock.WhatFinishRemoves | src/plugin_engine/auth_file_lock.rs:216-234 | a release takes away the directory exactly if the handle verifies and the removal succeeds, and nothing else |
| AuthLock.SpentNeverVerifies | src/plugin_engine/auth_file_lock.rs:56-95 | whatever others do to the path and to its times, a failed or released handle never verifies again |
| AuthLock.FailureIsFinal | src/plugin_engine/auth_file_lock.rs:74-94 | after a failed check or heartbeat, or a release, the handle fails for ever |
| AuthLock.OneDirectoryVerifies | src/plugin_engine/auth_file_lock.rs:57-72 | two handles that verify in one state own the same directory at the same time stamp |
| AuthLock.HeartbeatDisplaces | src/plugin_engine/auth_file_lock.rs:83-94 | of two handles on one directory a newer heartbeat of one makes the other fail for good, as long as nobody takes the directory's time back |
| AuthLock.DisplacedUntilTimeIsSetBack | src/plugin_engine/auth_file_lock.rs:57-94 | whatever others do, the displaced handle verifies again if and only if it did not notice, the path is its directory and the directory's time was set back to what it remembers |
| AuthLock.TimesTakenBackReviveAHandle | src/plugin_engine/auth_file_lock.rs:57-72 | a run in which the displaced handle verifies again after the time was set back |
| LockProtocol.MutualExclusion | src/plugin_engine/auth_file_lock.rs:117-154 | over all interleavings, crashes and reuses of inode numbers at most one live handle holds the lock, and it owns the directory, if no heartbeat is late |
| LockProtocol.LateHeartbeatBreaksExclusion | src/plugin_engine/auth_file_lock.rs:117-136 | one late heartbeat lets a second process in; only the new holder still verifies |
| LockProtocol.CreateOpens | src/plugin_engine/auth_file_lock.rs:118-186 | taking the lock opens a handle on the directory made |
| LockProtocol.HeartbeatRefreshes | src/plugin_engine/auth_file_lock.rs:83-94 | the protocol's heartbeat does to the handle what `AuthLock.LockCheck.Refresh` does |
| LockProtocol.OwnershipIsChecked | src/plugin_engine/auth_file_lock.rs:74-81 | its check what `AuthLock.LockCheck.Check` does |
| LockProtocol.ReleaseFinishes | src/plugin_engine/auth_file_lock.rs:216-234 | its release what `AuthLock.LockCheck.Finish` does |
| LockAcquire.Acquire | src/plugin_engine/auth_file_lock.rs:109-154 | among any steps of other processes and any delays, every step of the loop is one the protocol allows; the first stale directory it finds is removed, and no other; it ends with the lock, at the wait limit or at the first hard error, each exactly in its case |
| LockAcquire.TakenAlone | src/plugin_engine/auth_file_lock.rs:109-154 | who ends with the lock is the only holder and verifies, if no heartbeat was late |
| CodexDiscovery.DecimalsDiffer | plugin-overrides/codex.js:190-198 | different counters give different numbered ids |
| CodexDiscovery.ValidateAccountsEntries | plugin-overrides/codex.js:275-307 | accepts exactly the lists with one active entry, no name twice and no name that every object inherits |
| CodexReady.AcceptedLists | plugin-overrides/codex.js:275-307 | the same in terms of the entries' fields |
| CodexDiscovery.Discovery.NextRouteId | plugin-overrides/codex.js:190-198 | the search for a numbered id ends, and the id is new |
| CodexDiscovery.Discovery.ReserveRouteId | plugin-overrides/codex.js:182-188 | gives the preferred id whenever it is free, and a new one otherwise |
| CodexDiscovery.Discovery.DiscoverLegacyAuthRoute | plugin-overrides/codex.js:309-346 | adds the account of an auth file without accounts file, an error route for a broken one, and none for a missing one |
| CodexDiscovery.Discovery.DiscoverEntry | plugin-overrides/codex.js:389-444 | adds one route for one entry, under the declared name if it is free |
| CodexDiscovery.Discovery.DiscoverEntries | plugin-overrides/codex.js:389-444 | adds one route for each entry in order; an account keeps its declared name unless it was taken or looks like a numbered id |
| CodexDiscovery.Discovery.DiscoverSource | plugin-overrides/codex.js:348-445 | for every content of the two files the routes of the source are added in order and earlier ones are kept |
| CodexDiscovery.Discovery.DiscoverPi | plugin-overrides/codex.js:447-467 | adds the Pi account under a free id, or an error route |
| CodexDiscovery.Discovery.Discover | plugin-overrides/codex.js:129-469 | old routes are dropped; the added ids are new, distinct and exactly the keys of the routes, and the plugin's accounts come first unchanged |
| CodexDiscovery.IdsAreDistinct | plugin-overrides/codex.js:173-198 | if the plugin's ids are distinct, all account ids are |
| CodexDiscovery.DiscoveredRoutesAreSound | plugin-overrides/codex.js:348-469 | every ready route reads back its credential, and no two routes write to the same place |
| CodexReady.ListedAccount | plugin-overrides/codex.js:389-444 | every entry of an accepted list has a route; it is ready if and only if the entry has a name and its block an access token, where the active entry's block is the auth file's and any other's its own data; its tokens are the trimmed texts of that block, where it also writes to |
| CodexReady.RefusedList | plugin-overrides/codex.js:358-388 | a list that is not accepted leads to an error route |
| CodexReady.LegacyAccount | plugin-overrides/codex.js:309-346 | without a list the auth file's block is an account, ready if and only if it has an access token |
| CodexReady.PiAccount | plugin-overrides/codex.js:447-467 | the Pi block is an account, ready if and only if it has type, tokens, name and an expiry that is not negative |
| CodexReady.OtherFiles | plugin-overrides/codex.js:200-273 | a broken file leads to an error route, missing and empty files to none |
| CodexReady.AddedAccounts | plugin-overrides/codex.js:158-171 | an added account counts as inactive only if it is usable and listed as inactive, and its subject is the account's name or else its id |
| CodexPersist.Registry.PersistToAuthFile | plugin-overrides/codex.js:818-868 | rewrites the provider's block exactly when it is the account's |
| CodexPersist.Registry.PersistToAccountsFile | plugin-overrides/codex.js:870-929 | rewrites the entry's data exactly when the entry is the account's and not active |
| CodexPersist.Registry.PersistPiTokens | plugin-overrides/codex.js:931-948 | rewrites the Pi block exactly when it is still the one selected for refresh |
| CodexPersist.Registry.PersistRouteTokens | plugin-overrides/codex.js:950-968 | chooses the file by the route, and refuses an active account that is no longer listed as such |
| CodexPersist.Registry.SaveAuth | plugin-overrides/codex.js:500-545 | a save reports success exactly when the file was written, and marks the route as failed otherwise |
| CodexSaves.SaveSucceeds | plugin-overrides/codex.js:500-545 | when a save is left to the plugin, throws or succeeds, in terms of the route and of what the files hold at its place |
| CodexSaves.RouteAfterSave | plugin-overrides/codex.js:500-545 | after a save the route has the tokens that came and else its old ones, after one that could not be written it is marked, and no other route changes |
| CodexSaves.AuthTokensAreWritten | plugin-overrides/codex.js:818-868 | the auth file's block gets the tokens, its type, and an expiry if it had none |
| CodexSaves.ListedTokensAreWritten | plugin-overrides/codex.js:870-929 | so does the data of the entry, with the account's name |
| CodexSaves.PiTokensAreWritten | plugin-overrides/codex.js:931-948 | the Pi block gets tokens and expiry, and loses an access token if none came |
| CodexSaves.SelectedAfterSave | plugin-overrides/codex.js:931-948 | a Pi route selects what was written, any other keeps its selection |
| CodexPersist.Registry.Reread | plugin-overrides/codex.js:591-628 | reading ahead of a refresh adopts a changed credential, and for Pi selects what is stored |
| CodexPersist.Registry.ReloadRouteState | plugin-overrides/codex.js:683-696 | reloading fails without a readable credential, and otherwise adopts it unless the tokens are the same and the route is not Pi's; a failed route stays failed |
| CodexSaves.ReadAgain | plugin-overrides/codex.js:787-816 | a credential is found again if and only if the list still has the account as active as it was, the block can be used, and it does not name another account; it has the trimmed tokens of that block |
| CodexSaves.AfterReloading | plugin-overrides/codex.js:683-696 | what a reload makes of the route, and that it leaves all others alone |
| CodexSaves.AfterReread | plugin-overrides/codex.js:591-628 | the same for reading ahead of a refresh |
| CodexPersist.SaveChangesOnlyItsOwnEntry | plugin-overrides/codex.js:818-968 | a save writes nothing unless it succeeds, and then only the token fields of the matching account |
| CodexPersist.OthersReadTheSame | plugin-overrides/codex.js:787-968 | what one route wrote cannot be seen through a route with another target |
| CodexPersist.SavedTokensAreReadBack | plugin-overrides/codex.js:787-968 | saved tokens are read back trimmed, absent ones as before, with the exact exceptions |
| CodexPersist.FailedSaveIsFinal | plugin-overrides/codex.js:518-545 | after a failed save every later save of the route throws and writes nothing, whatever saves, refreshes, reloads and edits come in between |
| CodexPersist.AccountsStayApart | plugin-overrides/codex.js:500-968 | over any run of other saves, refreshes and edits elsewhere an account reads its credential as at the start |
| CodexTotals.CountTokens | src/plugin_engine/analytics/codex_usage_scanner.rs:241-313 | one token line: what it emits and what it leaves as totals and model |
| CodexTotals.ParseFile | src/plugin_engine/analytics/codex_usage_scanner.rs:159-315 | the loop emits the events of its lines, for every log |
| CodexReplay.GateIsReplay | src/plugin_engine/analytics/codex_usage_scanner.rs:84-105 | the gate is set if and only if the log is that of a child session and no task in it started at or after the child's creation, or at or after its own writing if the creation is unknown |
| CodexReplay.OwnSessionIsCounted | src/plugin_engine/analytics/codex_usage_scanner.rs:188-240 | a session that is no child is never gated |
| CodexReplay.EventsOfLog | src/plugin_engine/analytics/codex_usage_scanner.rs:159-315 | the events of a log in terms of its lines alone: usage, model and tier of each |
| CodexTotals.ClearedForGood | src/plugin_engine/analytics/codex_usage_scanner.rs:188-240 | once the session's metadata was seen and the gate is clear, it never returns |
| CodexTotals.ReplayIsNotCounted | src/plugin_engine/analytics/codex_usage_scanner.rs:257-262 | while the gate is set nothing is emitted, but the last totals are remembered |
| CodexTotals.Telescopes | src/plugin_engine/analytics/codex_usage_scanner.rs:80-90 | emitted counts equal final minus baseline plus all drops |
| CodexTotals.TotalsTelescope | src/plugin_engine/analytics/codex_usage_scanner.rs:264-283 | they are at least final minus baseline, and equal it if and only if the count never falls |
| CodexReplay.ChildSessionCountsItsOwn | src/plugin_engine/analytics/codex_usage_scanner.rs:188-313 | from its first own task on a child session counts from the totals that its replay ended with, exactly if they are never taken back |
| CodexTotals.RepeatedTotalsAreSkipped | src/plugin_engine/analytics/codex_usage_scanner.rs:264-268 | repeated totals emit nothing and change nothing |
| ProtoWire.DecodeVarint | src/plugin_engine/analytics/antigravity_proto.rs:24-45 | the loop reads the base-128 number at the offset and the position after it, or nothing if it is cut off or over 64 bits |
| ProtoWire.VarintFits | src/plugin_engine/analytics/antigravity_proto.rs:36-38 | every decoded number fits 64 bits |
| ProtoWire.EncodeVarint | src/plugin_engine/analytics/antigravity_proto.rs:141-155 | the loop writes the base-128 form |
| ProtoWire.VarintRoundTrip | src/plugin_engine/analytics/antigravity_proto.rs:24-45 | decoding inverts encoding for every 64-bit number, whatever comes before and after |
| ProtoFields.Field | src/plugin_engine/analytics/antigravity_proto.rs:47-87 | ends on any bytes, and finds the first varint or length-delimited record of the number |
| ProtoFields.RecordRoundTrip | src/plugin_engine/analytics/antigravity_proto.rs:47-87 | a record is read back wherever it stands |
| ProtoFields.MessageRoundTrip | src/plugin_engine/analytics/antigravity_proto.rs:47-87 | a message is read back as its records |
| ProtoFields.FieldOfMessage | src/plugin_engine/analytics/antigravity_proto.rs:47-87 | in a well-formed message the first matching record is found |
| ProtoFields.MalformedRecord | src/plugin_engine/analytics/antigravity_proto.rs:47-87 | a bad field number or wire type and a record that is cut off end the message |
| ProtoEvent.BytesField | src/plugin_engine/analytics/antigravity_proto.rs:89-94 | only a length-delimited first match counts |
| ProtoEvent.VarintField | src/plugin_engine/analytics/antigravity_proto.rs:96-101 | only a varint first match counts |
| ProtoEvent.GenerationEvent | src/plugin_engine/analytics/antigravity_proto.rs:105-138 | for any bytes gives the event at the nested fields, or nothing |
| ProtoEvent.GenerationRoundTrip | src/plugin_engine/analytics/antigravity_proto.rs:105-198 | a written blob is read back as its billable event exactly when all counts and the time fit the signed range and some count is positive |
| ProtoEvent.EventOfMessages | src/plugin_engine/analytics/antigravity_proto.rs:105-138 | any blob of well-formed messages is read as the event in their fields, absent counters as zero, or dropped exactly if a count leaves the range, all are zero or there is no positive time |
| ProtoEvent.MissingMessage | src/plugin_engine/analytics/antigravity_proto.rs:105-138 | without one of the nested messages there is no event |
| DatabasePages.ReadBatch | src/plugin_engine/analytics/antigravity_db_usage_scanner.rs:200-215 | a page is read in order and must advance |
| DatabasePages.ReadDatabase | src/plugin_engine/analytics/antigravity_db_usage_scanner.rs:178-221 | ends whatever the database answers; a table that is answered properly is read completely, each row once, in order |
| DailyRows.AddTokens | src/plugin_engine/analytics/mod.rs:108-114 | adds exactly when the sum is still a signed 64-bit number |
| DailyRows.PartsAddUp | src/plugin_engine/analytics/antigravity_db_usage_scanner.rs:62-69 | input, output, cache creation and cache reads of a day make up its total |
| AntigravityRows.Aggregate | src/plugin_engine/analytics/antigravity_db_usage_scanner.rs:13-114 | tokens are conserved: rows for exactly the days with tokens, last key first, whose input, output and cache reads and whose models add up to their totals and whose totals add up to all counted tokens; fails exactly when a day's total overflows |
| AntigravityRows.RowsOfEvents | src/plugin_engine/analytics/antigravity_db_usage_scanner.rs:13-114 | each figure of a row is the sum of this figure over the counted events of its day |
| ClaudeRows.Aggregate | src/plugin_engine/analytics/claude_usage_scanner.rs:285-391 | the same for Claude entries that carry a cost or have a priced model, with cache creation as a fourth part |
| ClaudeRows.RowsOfEntries | src/plugin_engine/analytics/claude_usage_scanner.rs:285-391 | the same for Claude entries |
| ClaudeRows.RowsOfLog | src/plugin_engine/analytics/claude_usage_scanner.rs:414-418 | the rows of a log are those of the entries that deduplication keeps |
| ClaudeRows.RowsOfPermutation | src/plugin_engine/analytics/claude_usage_scanner.rs:227-391 | permuting a log without ties changes neither its rows nor whether it has any |
| DailyRows.AddUsage | src/plugin_engine/analytics/antigravity_db_usage_scanner.rs:58-72 | adds one usage to every map, and fails exactly when some sum leaves the signed range |
| DailyRowsOrder.AnswersIgnoreOrder | src/plugin_engine/analytics/claude_usage_scanner.rs:285-391 | the rows, or that there are none, do not depend on the order of what is counted |
| DayKeys.KeysAreChronological | src/plugin_engine/analytics/log_usage_types.rs:105-109 | for the years 0 to 9999 the order of the day keys is that of the days |
| DayKeys.LateYearsComeFirst | src/plugin_engine/analytics/log_usage_types.rs:105-109 | the key of any day after the year 9999 comes before all those of the years 0 to 9999 |
| DayKeys.KeysAreDistinct | src/plugin_engine/analytics/log_usage_types.rs:105-109 | different days have different keys, in all years |
| DayKeys.YearIsWritten | src/plugin_engine/analytics/log_usage_types.rs:105-109 | a year is written with at least four digits, no more than needed, and a sign exactly outside 0 to 9999 |
| DailyRows.BuildRows | src/plugin_engine/analytics/antigravity_db_usage_scanner.rs:76-113 | one row for each day, in strictly descending order of the keys, losing no tokens |
| CursorBackfill.FetchEventDay | src/plugin_engine/cursor_remote.rs:288-335 | asks for pages 1, 2, 3, ... and returns their rows exactly when all pages agree on the total and all events arrive; the page count cannot overflow |
| CursorBackfill.CompleteOnce | src/plugin_engine/cursor_remote.rs:313-332 | there is at most one point at which a day is complete |
| CursorBackfill.WhenComplete | src/plugin_engine/cursor_remote.rs:288-335 | a day is complete with a page exactly if all pages up to it came and agree, none is empty but the single one of an empty day, and their events are as many as announced |
| CursorBackfill.CachedDays.Backfill | src/plugin_engine/cursor_remote.rs:352-395 | goes back day by day and changes only the days it looked at; it stops early only at the budget, with a day that still needs fetching |
| CursorBackfill.CachedDays.ReadWindow | src/plugin_engine/cursor_remote.rs:396-412 | succeeds exactly when no past day of the window is missing or incomplete, with every day's rows once in ascending order |
| CursorBackfill.WindowInOrder | src/plugin_engine/cursor_remote.rs:396-412 | the rows of a window are those of its days one after the other, oldest first |
| CursorBackfill.CachedDays.Events | src/plugin_engine/cursor_remote.rs:343-414 | the window is returned exactly when every day is usable after the backfill, whatever the budget; fetched days stay cached on failure |
| CursorBackfill.UsableAfterBackfill | src/plugin_engine/cursor_remote.rs:360-390 | a past day is usable exactly when it was complete before or all its pages could be fetched |
| CursorBackfill.VisitedDay | src/plugin_engine/cursor_remote.rs:352-395 | what each visited day's entry becomes, from the clock and the pages |
| CursorBackfill.CompletedDaysAreKept | src/plugin_engine/cursor_remote.rs:360-361 | a completed day two or more days back is never fetched again |
| ProcessIo.WriteOnce | src/plugin_engine/process_io.rs:169-184 | what was written and what remains are always the whole input |
| ProcessIo.ReadOnce | src/plugin_engine/process_io.rs:86-104 | every byte delivered is kept, only an empty read ends the stream, and only an error other than having to wait or try again fails |
| ProcessIo.Exchange | src/plugin_engine/process_io.rs:146-241 | succeeds only after all input was taken, both streams ended and the leader exited, and fails only at the deadline or with an error that one of the calls gave |
| ProcessIo.OwnedChild.Cleanup | src/plugin_engine/process_io.rs:44-65 | the group is signalled before the leader is reaped, never after |
| ProcessIo.OwnedChild.Drop | src/plugin_engine/process_io.rs:68-74 | a reaped helper is left alone, any other is cleaned up |
| ProcessIo.RunCommand | src/plugin_engine/process_io.rs:126-257 | success means complete input, complete outputs, an exited and reaped leader; a failure has its cause in the exchange or the cleanup; on every path the group was signalled first and nothing was done after reaping |
| RetryLoop.Daemon.ReplaceProviderCaches | src/daemon.rs:311-321 | every refreshed provider gets all snapshots of its id, and no other entry changes |
| RetryLoop.Daemon.Refresh | src/daemon.rs:191-330 | replaces exactly the caches of the selected plugins' providers, even by nothing, and no entry outside the requested ids for any cache; a failing probe leaves the whole cache as it was |
| RetryLoop.Daemon.Probe | src/plugin_engine/runtime.rs:1215-1240 | every output carries the id of its plugin |
| RetryLoop.OnlyRequested | src/daemon.rs:268-321 | a refresh of some providers files reports for those only and changes no other entry, whatever the cache holds |
| RetryLoop.EntryIsOutput | src/daemon.rs:268-321 | after a refresh a probed plugin's entry is what it put out, even if that is nothing |
| RetryLoop.SelectedPlugins | src/daemon.rs:191-267 | exactly the plugins asked for are selected, in order |
| RetryLoop.FreshUntilReset | src/main.rs:1599-1694 | a provider is not stale as long as every reset it shows, plus the margin, is still to come |
| RetryLoop.Daemon.RunPastResetRetryLoop | src/main.rs:1599-1694 | at most the window divided by the delay, rounded up, refreshes, each for exactly the providers that were stale a delay before and changing no other entry; ends only with no stale provider or an expired window; a provider that shows no past reset at the end keeps its cache |
| EditDistance.LevenshteinDistance | src/main_cli_preparse.rs:72-102 | the two rows with swapping compute the recursive edit distance |
| EditDistance.DistanceIsMetric | src/main_cli_preparse.rs:72-102 | identity, symmetry, triangle inequality and the length bounds |
| EditDistance.DistanceIsLeastEdits | src/main_cli_preparse.rs:72-102 | it is the least number of single-character edits |
| CommandSuggestion.SuggestsWheneverSomethingIsSimilar | src/main_cli_preparse.rs:45-70 | although only the nearest command is tried, something is suggested exactly when some command is close enough |
| CommandSuggestion.CloseEnough | src/main_cli_preparse.rs:45-70 | how many edits are close enough, from the lengths of the texts |
| CommandSuggestion.CaseIsIgnored | src/main_cli_preparse.rs:45-70 | ASCII letters are compared in lower case, all else as it is |

## Left out

- WatchActor: the file system is fixed while one handler runs; changes between two looks of one handler, and between clearing and replacing a provider, are not modelled.
- WatchActor: paths are lists of components; relative paths, `..` and aliases are not modelled, and announced ids are a set although the code sorts them.
- WatchActor.ProviderWatchActor.HandleReplaceProvider: if one list names a file twice with different declarations, which one counts is not stated; the code takes the first one whose root could be watched.
- WatchActor.ProviderWatchActor.Serve: the channels, their priorities and acknowledgements; any order of commands, events and looks at the clock is covered.
- ScriptLang: a first-order language with nested blocks, closures run at once and hoisted functions; `this`, functions as values beyond telling that something is one, loops and the JavaScript parser and printer are not modelled. Functions declared in blocks are seen in their block only. Scripts must not use the internal names.
- ScriptLang: a host's callback and an outermost function of the same name are two functions, and `globalThis` gives the callback; in the program the later definition replaces the earlier one for all callers.
- PatchShape.StatementsErase: needs distinct internal names that the script does not use.
- PatchMeaning.PatchingPreservesMeaning: needs them too, and callbacks that call the original; a call through a wrapper is one call deeper, so the patched run may need twice the call depth. That no callback is an outermost function is sufficient; it is also necessary for a call through a wrapper whose callback has its target's name, but a callback that is another function of the script may happen to do what the original does.
- PatchScript: the messages of errors are not modelled.
- ClaudeDedup: parsing log lines; the aggregation of Codex entries, which follows the pattern of `ClaudeRows.Aggregate`, and merging the rows with another scanner's.
- ClaudeRows.Aggregate: every token count is between 0 and the largest 32-bit number, as reading a line makes it.
- LockProtocol.MutualExclusion: creating and opening the directory is one step, and so are testing for staleness and removing; without that a process can remove the directory that another has just created.
- LockAcquire.Acquire: for the same reason the directory it removes is the one it found stale; a removal that fails because there is another by then counts as a failure. The number of tries is bounded by a parameter, and waiting between them is time that passes.
- LockProtocol: the heartbeat thread is any number of heartbeat steps; `lock_path` and symbolic links are not modelled.
- CodexDiscovery: names and labels of accounts and the texts of error routes; thrown errors of the host's file functions are unreadable files.
- CodexPersist: numbers are reals, so an infinite expiry cannot occur; what a refresh over the network returns is a parameter.
- CodexPersist.AccountsStayApart: someone else's edit of the account's own files is excluded; it may change what is read, and then ends in a conflict or a failed save.
- CodexTotals: how a line's fields are found in its JSON, the pricing model of an event, and the deduplication of events over files.
- ProtoEvent.GenerationEvent: decoding UTF-8 and trimming are one parameter.
- CursorBackfill: requests are a parameter that answers each page; grouping rows by model and pricing them are parameters or left out.
- ProcessIo: a failed wait counts as not reaped; the process would have been reaped by somebody else only if it ignores child signals. Setting up the process group is part of spawning.
- ProcessIo.Exchange: the deadline passes after some number of looks at the clock; durations are not modelled.
- RetryLoop.Daemon.RunPastResetRetryLoop: needs a positive delay; with none the loop need not end.
- RetryLoop.Daemon.Refresh: clearing and replacing file subscriptions around a probe, which the watch actor's commands model.
- DailyRows: costs are floating-point numbers and only their presence matters here; a cost that cannot be added is not modelled. The day of a timestamp, the time zone included, is a parameter.
- CommandSuggestion: only the ASCII lower-casing that the code uses.
- The dispatcher that collects announced providers into one refresh, which would only repeat the pending set of `WatchSpec`.
- The HTTP API, query mode, configuration, systemd, the other provider overrides, price tables, SQLite, D-Bus and cookie decryption.

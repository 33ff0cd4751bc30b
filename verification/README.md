# Blankie: a verified model of its module machinery

Blankie is a daemon that keeps a set of running modules in step with a set of wanted modules, where
what is wanted depends on the configuration, on the lock state, on how long the user has been idle,
and on which sessions are running. This project models that machinery, and the protocols around it,
and proves what they promise. `dafny verify dfyconfig.toml` checks everything.

| file | models |
|---|---|
| `Options.dfy` | optional values |
| `Specs.dfy` | module specs, what is known of the module classes, list operations |
| `Expansion.dfy` | `update`: dependency expansion and deduplication |
| `Steps.dfy` | `do_one_module`: the three searches for the next operation |
| `Pass.dfy`, `PassLaws.dfy` | `start_stop_modules` over hooks that do not call back, against a three-phase batch; the table of instances |
| `Selection.dfy` | the selectors, including those of the per-session launchers |
| `Gaps.dfy` | the termination measure of a re-entrant pass |
| `DependencyOrder.dfy` | what each operation does to dependency order |
| `Daemon.dfy` | `update` with the re-entrant hooks: sessions, launchers, the lock module |
| `Launchers.dfy` | launchers that have lost their selector |
| `Lifetime.dfy` | the daemon's life, from its first update to its last, also without any trouble |
| `Events.dfy` | attach, detach, lock, unlock, reload, shutdown, and the event loop |
| `Idle.dfy` | idle time, the user's configuration as a program, the timer module |
| `WakeLock.dfy` | the wake-lock protocol between reader threads, the main loop and server stops |
| `Bus.dfy` | bus membership |
| `Locker.dfy` | the screen locker and its late exit notifications |

## What the results rest on

The code does not give more than the theorems need, so these are assumed, each where it is named:

- Selectors, `get` and `get_dependencies` do not raise. Dependencies are acyclic (`Setting.Acyclic`).
- While one event is handled, the configuration's answer depends on the attached sessions and the
  lock state only: the clock and each session's idle reading do not move (`Inputs.config`).
- The remaining facts about the shipped classes are in `Setting.WellFormed`: the lock module takes no
  arguments and cannot be reconfigured, launchers run per-session classes for session classes, only
  modules with plain hooks can be reconfigured, and per-session modules depend on per-session modules
  at most.
- Claims about dependency order are made for runs in which no stop has failed so far, and for classes
  where reconfigurable modules have no dependency edges and re-entrant modules no declared dependents
  (`Setting.LeavesReconfigureAndReenter`). Failed starts and failed reconfigurations are covered.
- Bus: what is sent arrives, and shutting a socket down does not raise.
- Locker: `Start` is enabled with a pid that no process or queued notification of the module carries;
  `Locker.PidReuseConfuses` says that this is exactly what the pid test needs.
- Wake locks: no `attach` or `detach` command names a wake-lock session.

Hooks are otherwise arbitrary. In `Pass.dfy` they are oracle functions of the module; in `Daemon.dfy`
the outcome of each hook's own work is an oracle's answer for that module at that moment, told by the
length of the log (`Setting.answer`, `startWorks`, `stopWorks`). Results hold for every such oracle, so
for every combination of failures over a run; and since the outcome is known, they can say that a hook
returns or raises exactly when it should. `Setting.AllWorks` is the case in which no hook has trouble of
its own.

## What the proofs turned up

- **A threshold met exactly is not waited for.** `is_idle_for(n)` still answers no at idle time `n`
  (config.py:93) while the timer only arms for thresholds strictly above the idle time (timer.py:47).
  `Idle.ExactThresholdSkipped` shows that with a single reading this is the only case in which the
  timer does not wait for the first change; `Idle.ExactThresholdWitness` is such a configuration.
- **A stop of a launcher cannot be retried.** `stop` deletes the selector first (session.py:114), so if
  the update after it fails, the launcher goes back on the list without its selector, and every later
  stop raises `KeyError` and changes nothing (`Daemon.Daemon.StopHook`, `Daemon.Daemon.StopModule`).
  `Launchers.StrandLauncher` is a run from a fresh daemon to that point: the module a launcher has
  launched fails to stop.
  `Launchers.StaysStranded` shows that no event brings the launcher back in order, a shutdown included;
  `Launchers.StrandedLacksChildren` says what it costs: with the daemon in step, a running launcher
  lacks its module for a running session if and only if it has no selector and no launcher that has one
  asks for the same module.
- **Only a restart could lose a wake lock's stop, and this daemon never restarts its server.** The
  accept loop may take one more connection between the stop's snapshot of the requests and the ping
  that ends the loop; its thread then looks at `self.server` (server.py:80). The shipped daemon always
  wants the server module (__init__.py:131-154): `Lifetime.CoreStartedAtMostOnce` shows that a core
  module is started at most once in a daemon's life, since none is stopped before shutdown and nothing
  is started from then on; and `WakeLock.OnlyStopEndsHolds` that a server's stop ends every hold where
  the module is not started anew. The classes alone do not promise that: for a server module that is
  stopped and started again, `WakeLock.LateHolderSurvives` is a run in which a hold outlives the second
  stop. `WakeLock.StopEndsHolds` gives the exact condition for either use: while its peer stays, a
  holder's read ends if and only if some stop of the server that accepted it took its snapshot after it
  was accepted.
- **A hello handled after the connection's stop registers a dead client.** A queued `hello` can be
  handled after a duplicate id has led to `stop()` (bus_server.py:150-163); `Bus.LateHello` is such a
  run. `Bus.ClientHandler.HandlePacket` says that the clients' views agree afterwards if and only if
  the hello was refused or the connection is still open.
- **The locker's stop may raise after a lost process.** If the inner process is gone when `start`
  looks, the pid has been recorded without a reader thread (i3lock.py:60-64), and `stop` raises at
  `join` (i3lock.py:86-88), unless the thread of an earlier lock that has exited by itself is still
  recorded. `Locker.StopRaisesExactly` is the exact condition over runs, `Locker.LostProcessRuns` shows
  both cases.

## Model

| member | source | states |
|---|---|---|
| Expansion.AddDependencies | src/blankie/module.py:240-252 | the nested recursive `add` over a shared list, then keep-first deduplication, computes the expansion specified by `ExpandAll` and `Dedupe` |
| Expansion.ExpandExact | src/blankie/module.py:242-246 | expanding a spec yields exactly what is reachable from it along dependency edges |
| Expansion.WantedListExact | src/blankie/module.py:240-252 | the wanted list has no duplicates, every dependency stands before its dependents, and its members are exactly the specs some selected spec transitively requires |
| Expansion.OrderedClosed | src/blankie/module.py:242-246 | in a dependency-ordered list everything an element transitively requires stands before it |
| Expansion.DependenciesInOrder | src/blankie/module.py:242-247 | a module comes right after its dependencies, expanded in the order in which it lists them |
| Expansion.SelectedLater | src/blankie/module.py:240-252 | what is selected later only adds to the end of the wanted list |
| Specs.InsertAtPosition | src/blankie/module.py:192 | a module put back lands where it was, or at the end of a list that has become shorter, and removing it there gives the list back |
| Steps.TryReconfigure | src/blankie/module.py:154-167 | finds the first offer, in the order of the two loops, that a running unwanted module of the same class does not decline |
| Steps.FindStop | src/blankie/module.py:171-172 | finds the last running module that is neither wanted nor among this pass's errors |
| Steps.FindStart | src/blankie/module.py:199-200 | finds the first wanted module that is not running |
| Pass.Modules.StartStopModules | src/blankie/module.py:139-221 | the one-operation-at-a-time loop ends, and its hook trace, final list, errors and outcome are exactly those of the batch: all reconfigurations, then stops from the end, then starts in wanted order |
| Pass.ReconfigureStep | src/blankie/module.py:154-167 | replacing one module and starting the searches over leaves the rest of the batch's first sweep unchanged |
| Pass.StopStep | src/blankie/module.py:171-196 | stopping the last unwanted module, or recording that it failed, is the head of the batch that remains |
| Pass.StartStep | src/blankie/module.py:199-213 | starting the first missing module is the head of the batch that remains; a failed start ends the pass with the module left on the list |
| Pass.Modules.Get | src/blankie/module.py:112-131 | a running spec is answered with the instance in force for it and nothing is created; any other spec with an instance not in force |
| Pass.Modules.Replace | src/blankie/module.py:161-167 | after a reconfiguration the same instance is in force as the new spec, and the table still names exactly the instances in force, injectively |
| Pass.Modules.Stop | src/blankie/module.py:171-196 | a stop that works takes the stopped instance out of force; one that fails leaves list, table and effects as they were |
| Pass.Modules.Start | src/blankie/module.py:199-210 | a module is on the list and counted as in force even if its start fails |
| PassLaws.PassSynchronizes | src/blankie/module.py:133-138 | the contract of the pass: running is duplicate-free and has the wanted modules, plus exactly those that failed to stop |
| PassLaws.PassSparesShared | src/blankie/module.py:152-216 | modules both running and wanted get no hook call and keep their order; a pass makes at most as many working steps as there are differences |
| PassLaws.PassTruthful | src/blankie/module.py:152-216 | the trace of a pass says of each hook what it did, and the pass raises if and only if a start or a reconfigure on it did |
| PassLaws.PassWorks | src/blankie/module.py:133-138 | where no hook fails every pass ends synchronized |
| Selection.WantedMember | src/blankie/module.py:232-252 | a module is wanted exactly if some selected spec expands to it |
| Selection.WantedExactly | src/blankie/module.py:232-252 | in either lock state and while not shutting down, wanted is exactly what the core, the user's configuration for that state, an attached session, a launcher for a running session of its type, or the lock while locked transitively requires; the launched module is spelled out down to its arguments |
| Selection.SelectedInKeyOrder | src/blankie/module.py:235-238 | the selected list is the core's requests, the configuration's, the sessions', the launchers', the lock's, in this order; empty while shutting down |
| Selection.ChildrenInOrder | src/blankie/session.py:101-107 | the request of one launcher for one session stands after those of earlier launchers and of sessions that run earlier, and before the others |
| Selection.SelectedMember | src/blankie/session.py:101-107 | what the selectors select: the fixed ones' requests, and unless shutting down one child per registered launcher and running session of its type |
| Selection.BaseOfWanted | src/blankie/session.py:101-104 | apart from per-session modules the wanted set does not depend on what is running |
| Selection.WantedSetBySessions | src/blankie/session.py:101-104 | the wanted set depends on the running list only through the set of running sessions |
| Selection.LockedWantsLock | src/blankie/modules/lock.py:20-24 | while locked, the lock module is wanted whatever the configuration says |
| Selection.ChildrenExact | src/blankie/session.py:88-115 | at a fixpoint the running per-session modules are exactly one per registered launcher and running session of its type, none left over |
| Selection.LacksChild | src/blankie/session.py:101-115 | at a fixpoint a running launcher lacks its module for a served session exactly if it has lost its selector and no other registered launcher asks for that module |
| Selection.ChildEqual | src/blankie/session.py:104 | two launchers ask for the same module if and only if they name the same class, serve the same session and forward the same arguments |
| Gaps.StopFailureLessWork | src/blankie/module.py:187-194 | a failed stop, whatever its hook's nested updates did, leaves less work by the lexicographic measure |
| Gaps.ChildStepLessWork | src/blankie/session.py:101-104 | operations on per-session modules use up the last components of the measure and raise no earlier one |
| DependencyOrder.LastUnwantedUnneeded | src/blankie/module.py:171-172 | the last running module that is not wanted is required by no running module |
| DependencyOrder.FirstMissingReady | src/blankie/module.py:199-201 | appending the first missing wanted module keeps dependency order |
| DependencyOrder.StoppingSafe | src/blankie/module.py:171-183 | a module that has left an ordered list is stopped while nothing running transitively requires it |
| DependencyOrder.StartingSafe | src/blankie/module.py:199-203 | a module is started while everything it transitively requires is running |
| DependencyOrder.OrderedMoveToEnd | src/blankie/module.py:205-209 | moving a started module without dependents to the end keeps dependency order |
| Daemon.Daemon.RunSelectors | src/blankie/module.py:232-238 | calling the selectors in key order, launchers' included, yields the selection the other results are about, which is in key order group by group |
| Daemon.Daemon.Update | src/blankie/module.py:224-255 | with re-entrant hooks nested to any depth and any hook failing, it ends; it returns normally if and only if no hook has raised inside it, and then running equals wanted and wanted equals what the selectors ask for in that same final state; otherwise each extra module failed its stop in this pass, or a start or reconfigure raised; where no hook has trouble of its own and none has had any, none raises; where nothing is to be stopped and all that may come to be missing does start, sessions and launchers included, it starts what is missing and does nothing else; in step it does nothing; the log stays dependency-safe and accounts exactly for the list, the state stays locked, only what is wanted in some lock state is started, no core module is stopped before shutdown, and during it modules are only stopped |
| Daemon.Daemon.StartStopModules | src/blankie/module.py:139-221 | the same for the loop, with the measure that every operation lowers |
| Daemon.Daemon.DoOneModule | src/blankie/module.py:152-213 | the operation is the one the three searches call for: the first offer not declined, else the last module to stop, else the first to start, and none exactly if there is nothing to do; with everything its hook does inside it, it leaves less work and keeps every invariant |
| Daemon.Daemon.StopModule | src/blankie/module.py:171-196 | taken off the list before the hook runs, put back at its place if it fails with the failure on record; it works exactly if stop() returns, which for each kind of module is spelled out; once the lock module's stop has been called the state is locked only if the module was started again since; a launcher without its selector always fails and nothing changes; one that had it has lost it, unless started again since |
| Daemon.Daemon.StartModule | src/blankie/module.py:199-210 | on the list before the hook runs, at its end afterwards; it works exactly if start() returns; started only with its transitive dependencies running; after the lock module's start the state is locked, failed or not |
| Daemon.Daemon.StopHook | src/blankie/session.py:113-115 | the re-entrant stops (launcher, session at 38-39, lock module) keep the machinery's invariants and never increase the base gap; each returns exactly if its own part works and nothing raised inside its update; a launcher whose selector is gone raises before anything changes; one that works leaves running equal to wanted |
| Daemon.Daemon.StartHook | src/blankie/session.py:35-36 | the re-entrant starts (session, launcher at 109-111, lock module) likewise |
| Daemon.TakenOut | src/blankie/module.py:172-177 | taking the module out first makes the nested update's measure strictly smaller and keeps order, registered launchers and log safety |
| Daemon.PutIn | src/blankie/module.py:199-203 | adding the module first makes the nested update's measure strictly smaller and keeps order, registered launchers and log safety |
| Daemon.StopsUnlocked | src/blankie/modules/lock.py:15-24 | before shutdown the lock module is a candidate for stopping only if the state is unlocked already |
| Daemon.UnlockedContinues | src/blankie/modules/lock.py:15-17 | unlocking from the lock module's stop changes nothing about the base of the wanted list |
| Daemon.PutBack | src/blankie/module.py:187-194 | a module put back after a failed stop leaves a gap no larger than before the stop, whatever nested updates did |
| Daemon.StartedStaysListed | src/blankie/module.py:69-74 | with re-entrant hooks: whatever the log shows as started, however that went, and not successfully stopped since, is on the list |
| Launchers.StaysStranded | src/blankie/session.py:113-115 | a launcher that runs without its selector still does after any queue of events, shutdown included |
| Launchers.StrandedLacksChildren | src/blankie/session.py:101-115 | with the daemon in step it is exactly such launchers that lack a module for a running session, unless another launcher asks for it |
| Launchers.StrandLauncher | src/blankie/session.py:113-115 | a run from a fresh daemon that ends there: launcher started, session attached, launcher dropped from the configuration, the launched module's stop fails |
| Events.Attach | src/blankie/session.py:54-64 | all or nothing, for any hook failures: it fails if and only if some hook raised; else attached, running and in step; if it fails, a second update has run with the attached set as before, and the module does not run unless something else wants it, its stop failed or that update raised; a session module that only attaching asks for is not wanted then; where attaching leaves nothing to stop and all that may come to be missing does start, it succeeds and only starts modules |
| Events.UnattachedUnwanted | src/blankie/session.py:47-51 | a session module that is not attached is not wanted, if nothing but session_specs asks for session modules |
| Events.Detach | src/blankie/session.py:67-72 | refused exactly if not attached, and then nothing changes; else the spec is gone, an update has come to one of its ends, and the module does not run, with the same exceptions |
| Events.SessionsExact | src/blankie/session.py:42-51 | at a fixpoint the running sessions are exactly the attached ones |
| Events.ChildrenInStep | src/blankie/session.py:88-115 | in step and with no failed stop, every running launcher has exactly one module per running session of its type |
| Events.Lock | src/blankie/__init__.py:76-78 | leaves the daemon locked with the lock module wanted, after an update that has come to one of its ends, the normal one exactly if no hook raised |
| Events.Unlock | src/blankie/__init__.py:83-97 | the one event that may leave a locked daemon unlocked; if the state is locked afterwards, the lock module has been started anew; if telling the waiting processes fails, nothing but the lock state has changed, else an update has come to one of its ends |
| Events.Shutdown | src/blankie/daemon.py:77-88 | wanted is empty, nothing is started or reconfigured, so it cannot raise for that; whatever runs afterwards has failed to stop since it began; if no stop raises nothing runs |
| Events.UpdateAgain | src/blankie/module.py:133-138 | an update of a daemon that is in step changes nothing |
| Lifetime.CoreStartedAtMostOnce | src/blankie/__init__.py:131-154 | what core_selector asks for is started at most once in a daemon's life |
| Lifetime.Start | src/blankie/daemon.py:127-148 | over a whole life, first update, any queue of tasks and last stop: each task is carried out in its turn, core modules are started at most once, what runs at the end has failed the last stop; where no hook has trouble of its own none raises, nothing runs at the end, and after each task the attached sessions are those of which an attach was the last word and the daemon is in step, unless an unlock could not tell who waits |
| Lifetime.SessionsLastWord | src/blankie/session.py:54-72 | over any smooth stretch of tasks a session is attached exactly if an attach of it has been taken up and no detach since |
| Lifetime.InStepThroughout | src/blankie/daemon.py:32-44 | over any smooth stretch of tasks the daemon is in step with its selectors after each, provided every unlock could tell who waits |
| Events.EventLoop.Handle | src/blankie/modules/server.py:142-188 | what each command makes of sessions, configuration, lock state, wanted and running modules: nothing where it is refused, else the event's whole effect |
| Events.EventLoop.Run | src/blankie/daemon.py:32-44 | over any queue of events each is carried out in its turn, snapshot by snapshot; a locked daemon stays locked unless an unlock or stop was queued; it becomes locked only by a queued lock or the lock module's start; from each stop in the queue on, that task included, modules are only stopped and what runs has failed to stop since, and wanted is empty at the end; stopping drains the queue first |
| Idle.GetIdleSince | src/blankie/__init__.py:50-65 | the latest activity over all sessions, NaN ignored, with the two special values |
| Idle.IdleLonger | src/blankie/config.py:92-93 | idle for longer than n seconds means that the last activity was before n seconds ago, infinities and NaN included |
| Idle.TimesOrdered | src/blankie/__init__.py:65 | but for NaN, which compares with nothing, times are in one strict order that extends the reals' |
| Idle.Configurator.IsIdleFor | src/blankie/config.py:87-103 | answers whether the threshold is passed, and records exactly the thresholds answered no |
| Idle.Configurator.Run | src/blankie/config.py:26-37 | running the user's program against the configurator's fields appends what the pure evaluation yields |
| Idle.Configurator.GetSchedule | src/blankie/config.py:41-45 | the recorded thresholds, each once, increasing |
| Idle.Configurator.Selector | src/blankie/config.py:47-69 | `xset` receives the least recorded threshold, if there is any; the timer is asked for exactly if there is one and the idle time is not negative, with the set of all; the user's modules come last; while the idle time is not negative the timer is asked for whenever evaluating later would give anything else |
| Idle.EvaluationOfRun | src/blankie/config.py:77-103 | following the configuration's own course, with every question answered by the facts, yields exactly the modules requested and the thresholds answered no, in order |
| Idle.ValidIfRuns | src/blankie/config.py:87-91 | the configuration is refused exactly if no such course, with only valid questions, gets to its end |
| Idle.SameUntilPassed | src/blankie/config.py:95-103 | until a recorded threshold is passed the evaluation stays the same, from any idle time including minus infinity |
| Idle.NoMissedTransition | src/blankie/config.py:95-103 | modules and schedule stay the same if and only if the first recorded threshold is not passed; with none recorded, forever |
| Idle.TimerModule.TimerStartNext | src/blankie/modules/timer.py:38-59 | in any iteration order arms the least threshold above the idle time, sleeping over a second, and arms nothing exactly under a wake lock or with nothing ahead |
| Idle.ExactThresholdSkipped | src/blankie/modules/timer.py:45-48 | the first threshold is not waited for if and only if the idle time equals it |
| Idle.WakeUpProgress | src/blankie/modules/timer.py:50-68 | a wake-up comes over a second later and turns its threshold's answer to yes for good; up to that threshold nothing would have changed, unless the configuration was evaluated exactly at its least threshold |
| Idle.TimerModule.TimerHandleDone | src/blankie/modules/timer.py:61-68 | when it fires, the timer is spent and set, sleeping over a second, for the least threshold above the idle time read afterwards, if any |
| Idle.FewWakeUps | src/blankie/modules/timer.py:61-68 | without user activity there are at most as many timer wake-ups as thresholds still ahead in the configuration, however the lock state changes between them |
| Idle.LockingStretch | src/blankie/modules/timer.py:61-68 | a stretch in which the first wake-up locks and the next waits for a threshold of the locked state |
| WakeLock.KeepsInv | src/blankie/modules/server.py:95-138 | every atomic step of any thread keeps the protocol's invariant |
| WakeLock.InvAlways | src/blankie/modules/server.py:95-138 | it holds after any interleaving, with any number of clients |
| WakeLock.WakeLocksExact | src/blankie/session.py:54-72 | between tasks the wake locks attached are exactly those whose attach succeeded and whose detach has not run; no two clients share one |
| WakeLock.AcknowledgedWhilePresent | src/blankie/modules/server.py:119-135 | from the acknowledgement until the detach task is taken up the lock is among the sessions |
| WakeLock.HeldKeepsAwake | src/blankie/modules/session/wake_lock.py:14-15 | meanwhile, unless sleeping, no mix of other sessions makes any `is_idle_for` true |
| WakeLock.OneDetachTask | src/blankie/modules/server.py:123-138 | exactly one detach task per attached lock however its hold ends, none for the others |
| WakeLock.AllReleased | src/blankie/modules/server.py:119-138 | when all reader threads are done no wake lock is left |
| WakeLock.Released | src/blankie/modules/server.py:119-138 | from every reachable state before the loop's exit, a connection that is not in a hold its peer keeps up can be brought to its end by steps of its own thread and of the main thread alone; its lock is gone by then, and an attached one has had its detach task queued exactly once |
| WakeLock.PeerEndsHold | src/blankie/modules/server.py:122-136 | a peer may leave at any time, and that is enough for the same |
| WakeLock.NotStuck | src/blankie/modules/server.py:112-136 | before the loop's exit no connection is stuck but a holder whose peer stays and whom no stop has caught |
| WakeLock.LoopEnds | src/blankie/daemon.py:32-44 | told to stop, the loop can always come to its end |
| WakeLock.CanAcquire | src/blankie/modules/server.py:95-121 | while a server is in service, a new client that connects can come to hold a lock, whatever else is going on |
| WakeLock.CanStop | src/blankie/modules/server.py:46-58 | from every reachable state before the loop's exit the server can be taken out of service and the loop brought to its end |
| WakeLock.FailuresReported | src/blankie/modules/server.py:101-138 | a thread is told that its attach failed exactly if the update in it did and the one rolling it back has returned, and that its detach failed exactly if the update in that did |
| WakeLock.QuietlyRefused | src/blankie/modules/server.py:101-117 | a thread goes away with neither a lock nor a failure only if the server it found is being stopped |
| WakeLock.NoAttachAfterStop | src/blankie/modules/server.py:101-110 | once the stops of some servers have set their flags, every connection whose attach succeeds afterwards has found another server, whichever server accepted it |
| WakeLock.AttachNeedsLiveServer | src/blankie/modules/server.py:101-110 | a lock enters the sessions only while the server its client found is not being stopped |
| WakeLock.WaitersServed | src/blankie/daemon.py:27-44 | a thread waits exactly if its task is queued or being carried out; the loop never exits on a waiting thread |
| WakeLock.NeverRefused | src/blankie/session.py:54-72 | attach never finds the lock present and detach never finds it absent |
| WakeLock.StopEndsHolds | src/blankie/modules/server.py:212-220 | while its peer stays, a holder's read ends if and only if some stop of its accepting server took its snapshot after it was accepted |
| WakeLock.OnlyStopEndsHolds | src/blankie/modules/server.py:46-58 | where the server module is not started anew, its stop ends every hold |
| WakeLock.LateHolderSurvives | src/blankie/modules/server.py:60-82 | of the server module by itself, stopped and started again: a run in which a hold is never caught and survives the second stop |
| WakeLock.UncaughtNeedsRestart | src/blankie/modules/server.py:80-82 | a holder that the stop of the server it found has not caught was accepted by an earlier server |
| Bus.BusServer.Broadcast | src/blankie/modules/bus_server.py:68-71 | each registered client but the excluded one hears the packet once, nobody else does |
| Bus.BusServer.Stop | src/blankie/modules/bus_server.py:44-46 | exactly the identified clients are disconnected, one after the other; each has heard exactly those leave that went before it, other connections have heard nothing, and views agree at every step |
| Bus.ClientHandler.Stop | src/blankie/modules/bus_server.py:98-110 | the id is gone, all remaining clients are told once, nobody else is affected, and each view still equals the registered ids |
| Bus.ClientHandler.Identify | src/blankie/modules/bus_server.py:149-162 | with duplicate-id replacement: who hears leave, join and welcome, in which order, who is disconnected; views agree if and only if the connection is open |
| Bus.ClientHandler.HandlePacket | src/blankie/modules/bus_server.py:134-175 | which packets are refused, who is sent what, and that all views agree afterwards unless an accepted hello came on a closed connection; a hello that comes second, before a key is known, or with another digest raises and changes nothing |
| Bus.LateHello | src/blankie/modules/bus_server.py:149-163 | a run in which a hello handled after the connection's stop registers a closed connection |
| Bus.ViewIsLastWord | src/blankie/modules/bus_server.py:101-162 | folding the packets takes an id to be present exactly if the last packet that speaks of it says so |
| Locker.I3Lock.Start | src/blankie/modules/i3lock.py:39-71 | the new fields for every way spawning can go, and when it raises |
| Locker.I3Lock.Stop | src/blankie/modules/i3lock.py:73-91 | the fields are cleared, and it raises exactly if there was a pid but no reader thread |
| Locker.I3Lock.HandleExit | src/blankie/modules/i3lock.py:99-111 | unlocks exactly on the recorded pid, which it then forgets |
| Locker.StaleExitsHarmless | src/blankie/modules/i3lock.py:99-111 | over any interleaving, a notification unlocks if and only if it is from the latest start and that has not been stopped; no start unlocks twice |
| Locker.ExitUnlocks | src/blankie/modules/i3lock.py:93-111 | from every reachable state the exit of the latest start, if that has not been stopped, does unlock: its notification is always still to come, and handling what is queued is all it takes |
| Locker.PidReuseConfuses | src/blankie/modules/i3lock.py:103-107 | the pid test tells starts apart if and only if the new pid is carried by nothing outstanding |
| Locker.StopOfRunningReturns | src/blankie/modules/i3lock.py:86-89 | stopping a start that is in force always finds its reader thread |
| Locker.StopRaisesExactly | src/blankie/modules/i3lock.py:73-91 | after any run, a stop raises exactly if the start in force lost its inner process and no locker has come up since the last stop that took effect |
| Locker.LostProcessRuns | src/blankie/modules/i3lock.py:57-71 | a run after which stop raises, and one with a lost process after which it does not |

## Left out

- Sockets, threads as operating-system objects, subprocesses, D-Bus, GLib, inotify, X11, signals, fork, PID files, logging and command-line text: they appear as oracle results or as steps of an environment.
- Module loading and class search: `get` builds an instance for every spec.
- The user's configuration text: a decision tree over its questions; it cannot inspect anything else.
- The arguments of `reconfigure`: its answer is an oracle's, so the arity of `XSetPerSessionModule.reconfigure` does not matter.
- Pass.Modules.StartStopModules: the instance table is tracked for hooks that do not call back; the re-entrant machinery accounts for specs on the list, not instances.
- Events.EventLoop.Run: the queue does not grow while it is drained; a longer run is a sequence of such runs.
- WakeLock.KeepsInv: the protocol is a relation between values, one label per atomic step of some thread, since its threads interleave; closures and event objects are fields of the connection they serve.
- WakeLock.Released: says that the end can be reached from anywhere by the program's own steps; that the threads are scheduled until then is not modelled. The same holds for `WakeLock.CanAcquire`, `WakeLock.LoopEnds` and `Locker.ExitUnlocks`.
- WakeLock.WaitersServed: what is queued after the loop has exited is never run, as in the code, where the process ends.
- Locker.StaleExitsHarmless: the module's processes and the event queue around it are values; the module itself is the class.
- Daemon.Daemon.Update: is not compared with `Pass.WholePass`: its hooks answer by the moment, those of the batch by the module. It has no bound on the number of operations beyond the lexicographic measure.
- Events.Unlock: telling the waiting processes may fail in the model, although nothing in the repository registers one (__init__.py:80-94).
- Idle.FewWakeUps: counts wake-ups by the running timer only; X idle events and other updates are user activity to it.
- Launchers.StrandLauncher: goes through the operations the passes would carry out one by one, not through the events around them.
- WakeLock.LateHolderSurvives: the restart in it is one the daemon does not do; the protocol model leaves starts and stops of the server free.
- Timer instances: `timer_handle_done` re-arms its own instance even if the update has just stopped it (timer.py:66-68), so nothing is claimed about timers of stopped modules.
- The order of the client list in the bus server's welcome packet: it is sent as a set.
- A raising `socket.shutdown` in `ClientHandler.stop`, which would cut a duplicate-id replacement short.
- Remote idle mirroring (session/remote.py): a packet's sender is not checked there, so no per-peer claim holds; the hash in the hello check is an arbitrary function.
- logind.py: an exit signal handled before the queued enter leaves no inhibitor held, so "awake implies inhibitor" is not an invariant of the code.
- physlock.py: the same machine as i3lock.py with a process object in place of the pid.
- xset, dpms, dunst, power and the other get-and-set modules, and the `status` output: easy members.

# Verified model of the ability runtime's ownership, registry and lookup logic

This project models the parts of the ability runtime where state is shared, handed over or looked up,
and proves what they keep. It has these parts.

- `AsyncTask.dfy`: settling a `NapiAsyncTask`, by promise or callback.
- `AsyncSchedule.dfy`: handing tasks over to the event loop, as a protocol in which any number of clients,
  the worker pool and the loop interleave statement by statement.
- `NativeReferences.dfy`: the two routines that delete native references on the loop thread.
- `Lifecycle.dfy`, `LifecycleProcess.dfy`, `LifecycleProofs.dfy`, `LifecycleTheorems.dfy`,
  `LifecycleEnvironment.dfy`, `LifecycleFactory.dfy`: preload, save and fork of JS and ETS runtimes around the
  one global slot. The first file holds the state and the operations as functions, the second the same
  operations as methods that change the state in place, the third the invariant over runs, the fourth the
  results, the fifth the order of the calls in the one ETS environment of the process, the last what the factory
  hands out.
- `LoopHandler.dfy`: the timer that keeps a libuv loop turning, in the device build and the emulator build.
- `EnvRegistry.dfy`: the registry of JS environments per thread.
- `NativeLibPaths.dfy`, `NativeLibTheorems.dfy`, `NativeLibValues.dfy`: the tables of native library paths and
  abc paths, and their entries written out.
- `AssetReader.dfy`, `AssetValues.dfy`, `PathWalk.dfy`: how a worker finds and reads its script, and where its
  path leads.
- `ModuleReaders.dfy`, `ModuleValues.dfy`: the plain and the hybrid module reader, side by side.
- `FdParams.dfy`: file descriptors carried in the parameters of a want.
- `Jsperf.dfy`: the profiler command. `OhmUrl.dfy`: the rewrite of source entries. `Text.dfy`: string search.
- `Wrappers.dfy`: optional values.
- `DelegatorRecords.dfy`: the registries of the Cangjie ability delegator.

What an engine call, an allocation, the file system, the bundle manager, an extractor or a clock answers is
a parameter, so every statement holds for every answer. A method that changes state is proved against a
function of the old state; the properties are then lemmas about that function and about runs of it.

Conventions and assumptions:

- A *disciplined* life-cycle run saves only runtimes that were made in preload mode, and does not preload
  ETS while an ETS runtime is saved. `SaveJsIffPreloaded` and `RepeatedEtsPreload` show why both are needed.
  Whether an ETS runtime takes the JS runtime (`isMove`) is a parameter; the factory uses its default, true
  (`interfaces/inner_api/runtime/include/ets_runtime.h:49`), and an `AttachOp` uses false, as
  `frameworks/native/appkit/app/ohos_application.cpp:1407` does.
- The event loop completes each work or event it accepted once, and a callback does not call back into the
  task it completes.
- Answers of the bundle manager and of the extractors stay the same during one call.
- `LOCAL_CODE_PATH` and `ABS_CODE_PATH` come from a library whose headers are not in the repository; the
  model uses the values of the constants with these names in
  `services/appmgr/src/app_mgr_service_inner.cpp:198-199`. The entries written out name them; no other property depends on the values.

Where a property fails, the exact condition is proved:

- The engine may refuse a queued work; `Start` ignores that and the task is never freed
  (`FreedExactlyOnceUnlessRefused`, `RefusedTaskLeaks`). `StartWithDefaultQos` never records the environment,
  so its works are never deleted (`WorkDeletedWithItsTask`, `DefaultQosWorkLeaks`).
- The device build can lose a timer (`TimerQueuedUnlessLost`, `LostPostExists`).
- All ETS runtimes of a process share one environment. Its preload is finished again by every runtime made
  after one was finished, also when a saved one is dropped for a changed pipeline and replaced
  (`EnvironmentForksOnceFinished`, `TwoCreatesFinishTwice`). An ETS library with `PostFork` but without
  `FinishPreload` forks unfinished (`EtsForksAfterFinishing`).
- The order of shared modules matters when an own module is named like another bundle's key
  (`OrderIrrelevantIffNoClash`).
- A descriptor under the empty key is lost on its way (`CarriedIffNoEmptyKey`, `EmptyKeyIsLost`).
- A line break behind the number of a jsperf command hides the number (`IntervalIsParsed`).
- A name is cut when its last dot stands before its last slash (`DirectoryKeptIff`, `DirectoryCutExample`).
- The prefix of restricted workers does not keep a path with climbing segments below its directory
  (`RestrictedStaysInAbcsIff`, `RestrictedEscapes`).
- A token cleared during a wait is recorded again (`SecondRecordIdleIff`, `ClearedTokenComesBack`).

## Model

| member | source | states |
|---|---|---|
| AsyncTask.NapiAsyncTask.Resolve | frameworks/native/runtime/js_runtime_utils.cpp:253-272 | the promise is resolved with the value, or the callback is called with a zero error and the value and its reference deleted right after; both are gone afterwards |
| AsyncTask.NapiAsyncTask.ResolveWithNoError | frameworks/native/runtime/js_runtime_utils.cpp:274-293 | as Resolve, with null in the place of the error |
| AsyncTask.NapiAsyncTask.Reject | frameworks/native/runtime/js_runtime_utils.cpp:295-313 | the promise is rejected with the error, or the callback is called with the error and undefined |
| AsyncTask.NapiAsyncTask.ResolveWithCustomize | frameworks/native/runtime/js_runtime_utils.cpp:315-333 | the promise is resolved with the value, or the callback gets both arguments |
| AsyncTask.NapiAsyncTask.RejectWithCustomize | frameworks/native/runtime/js_runtime_utils.cpp:335-353 | the promise is rejected with the error, or the callback gets both arguments |
| AsyncTask.NapiAsyncTask.RunAll | frameworks/native/runtime/js_runtime_utils.cpp:253-353 | any sequence of the five calls on one task has the effects of SettleAll, in order |
| AsyncTask.SettledByFirstCall | frameworks/native/runtime/js_runtime_utils.cpp:253-353 | whatever calls follow, only the first settles: one promise settled once, or one call of the callback followed by one deletion of its reference |
| AsyncTask.PromiseSettledOnce | frameworks/native/runtime/js_runtime_utils.cpp:253-353 | a promise is settled once, by the first call: resolved with its value, or rejected with its error |
| AsyncTask.CallbackCalledOnce | frameworks/native/runtime/js_runtime_utils.cpp:253-353 | a callback is called once, by the first call, with the error first and the value second, and its reference deleted right after |
| AsyncSchedule.NeverTouchedAfterFree | frameworks/native/runtime/js_runtime_utils.cpp:205-251 | in no interleaving of clients, worker pool and loop is a task touched after it was freed, not even when the loop completes it before the client reaches release() |
| AsyncSchedule.FreedAtMostOnce | frameworks/native/runtime/js_runtime_utils.cpp:205-231 | in no interleaving is a task freed twice |
| AsyncSchedule.FreedExactlyOnceUnlessRefused | frameworks/native/runtime/js_runtime_utils.cpp:366-455 | with nothing in flight each task was freed exactly once, if and only if in no step of the run the engine refused the work that Start queues without looking at the result; a task so refused was never freed |
| AsyncSchedule.RefusedIff | frameworks/native/runtime/js_runtime_utils.cpp:379-455 | a task is in the refused stage if and only if one step of the run was its refusal: its client was at the queueing call and there was no work or it was not taken |
| AsyncSchedule.AcceptedIff | frameworks/native/runtime/js_runtime_utils.cpp:379-455 | a task was at some time with the loop if and only if one step was its acceptance: its client at the event without an execute callback, or at the queueing call with a work, and the engine took it |
| AsyncSchedule.AcceptanceIs | frameworks/native/runtime/js_runtime_utils.cpp:388-395 | an acceptance gives the loop one new item, the only one of the task, and leaves the client about to let go; a declined event gives the loop nothing and the client keeps the task |
| AsyncSchedule.ScheduleAloneIs | frameworks/native/runtime/js_runtime_utils.cpp:205-251 | a whole call: without an environment or with a declined event the client keeps the task; otherwise it lets go, and the loop has one more item unless the work was not made or not taken |
| AsyncSchedule.CompletionIs | frameworks/native/runtime/js_runtime_utils.cpp:355-377 | the loop completes an event at any time and a work if and only if it was executed before; the task is then freed once, by the loop |
| AsyncSchedule.FreedByLoopIffAccepted | frameworks/native/runtime/js_runtime_utils.cpp:366-377 | at rest the loop freed exactly the tasks that it accepted |
| AsyncSchedule.DropIs | frameworks/native/runtime/js_runtime_utils.cpp:197-203 | an owner outside a call that drops its task frees it once |
| AsyncSchedule.RefusedTaskLeaks | frameworks/native/runtime/js_runtime_utils.cpp:390-395 | a run with one refused work ends at rest with the task alive and never freed |
| AsyncSchedule.DefaultQosWorkLeaks | frameworks/native/runtime/js_runtime_utils.cpp:233-251 | a run with one work of default QoS ends with the task freed and the work not deleted |
| AsyncSchedule.AcceptedIsFreedByLoop | frameworks/native/runtime/js_runtime_utils.cpp:366-377 | what the loop once accepted is never freed by its owner, however the run goes on |
| AsyncSchedule.WorkDeletedWithItsTask | frameworks/native/runtime/js_runtime_utils.cpp:197-203 | a work is deleted at most once, and exactly when its task was freed and it was not made by StartWithDefaultQos, which never records the environment |
| AsyncSchedule.RunKeeps | frameworks/native/runtime/js_runtime_utils.cpp:379-455 | the invariant behind these: stages, owners, pending works and recorded works agree after every step of every run |
| NativeReferences.Releaser.ReleaseNativeReference | frameworks/native/runtime/js_runtime_utils.cpp:504-555 | the routine's early returns, boxing, hand-over and clean-up add up to the function Release |
| NativeReferences.Releaser.FreeNativeReference | frameworks/native/runtime/js_runtime.cpp:1739-1790 | the same for the unique and shared references of FreeNativeReference |
| NativeReferences.ReleasedWhen | frameworks/native/runtime/js_runtime_utils.cpp:516-554 | a reference whose event was sent waits for the loop; in every other case it is deleted at once, with its box if there is one |
| NativeReferences.FreedWhen | frameworks/native/runtime/js_runtime.cpp:1747-1789 | once queued, reference and share wait for the loop; when the queueing fails both are given up at once; before that the reference is deleted and the share stays with the caller |
| NativeReferences.CallbackWhen | frameworks/native/runtime/js_runtime.cpp:1773-1783 | a callback deletes what its boxes held, and nothing else |
| NativeReferences.EverythingDeletedOnce | frameworks/native/runtime/js_runtime_utils.cpp:504-555 | on every allocation, queueing and callback outcome: once the loop has run its callbacks, each unique reference was deleted as often as it was passed in, each box once, and each share was given up or is with the caller |
| NativeReferences.NothingDeletedTwice | frameworks/native/runtime/js_runtime.cpp:1739-1790 | at no moment was anything deleted more often than it was passed in or made |
| NativeReferences.RunConserves | frameworks/native/runtime/js_runtime.cpp:1724-1790 | after any run of the two routines and of callbacks in any order: given equals deleted plus pending, for every reference and box |
| LifecycleProcess.Process.InitializeJs | frameworks/native/runtime/js_runtime.cpp:695-812 | the changes of Initialize, step by step in place, lead to the state of the function of that name |
| LifecycleProcess.Process.CreateJsInstance | frameworks/native/runtime/js_runtime.cpp:146-172 | JsRuntime::Create takes the preloaded runtime or makes one, and destroys what it drops |
| LifecycleProcess.Process.FinishPreloadEts | frameworks/native/runtime/ets_runtime.cpp:566-583 | both runtimes finish their preload, the ETS one only when the library has the entry |
| LifecycleProcess.Process.MoveJsRuntime | frameworks/native/runtime/ets_runtime.cpp:724-727 | the JS runtime leaves the ETS runtime and nothing else changes |
| LifecycleProcess.Process.InitializeEts | frameworks/native/runtime/ets_runtime.cpp:417-462 | the JS runtime moves in before the environment is made, and the preload is finished outside preload mode |
| LifecycleProcess.Process.PreForkInstance | frameworks/native/runtime/ets_runtime.cpp:168-179 | a new ETS runtime, destroyed with what it owns when its initialisation fails |
| LifecycleProcess.Process.PostForkInstance | frameworks/native/runtime/ets_runtime.cpp:262-294 | nothing without the entry of the library; otherwise the JS runtime moves in and the fork is finished |
| LifecycleProcess.Process.CreateEtsInstance | frameworks/native/runtime/ets_runtime.cpp:313-351 | the saved ETS runtime or a new one, forked outside preload mode |
| LifecycleProcess.Process.GetPreloadedInstance | frameworks/native/runtime/runtime.cpp:61-69 | the slot is emptied, except that asking for JS moves the JS runtime out of a saved ETS runtime |
| LifecycleProcess.Process.Save | frameworks/native/runtime/runtime.cpp:53-59 | the instance finishes its preload and replaces what the slot held, which is destroyed |
| LifecycleProcess.Process.CreateRuntime | frameworks/native/runtime/runtime.cpp:30-51 | the factory, with the language of the caller's options changed for a while and the same at the end; in a process in order a runtime comes back if and only if the answers are good, and is newly held, alive and of the language asked for |
| LifecycleProcess.Process.RunAll | frameworks/native/runtime/runtime.cpp:30-69 | every disciplined run of a new process ends in a state where the invariant holds |
| LifecycleProofs.RunKeeps | frameworks/native/runtime/runtime.cpp:30-69 | over every disciplined run of create, attach, save and drop: owners are unique, phases follow the owner, and every log follows a script |
| LifecycleFactory.FactoryHandsOut | frameworks/native/runtime/runtime.cpp:30-51 | after every disciplined run the factory returns a runtime if and only if the answers that its way needs are good; the runtime is alive, of the language asked for and the one thing newly held; without a result nothing changes hands |
| LifecycleFactory.JsCreateIs | frameworks/native/runtime/js_runtime.cpp:146-172 | a JS create succeeds if and only if environment or kept VM, engine, global object, require reference and loop are good where needed; it hands out the saved runtime when it goes on with it, with its VM unless the pipeline changed, and a new one otherwise |
| LifecycleFactory.EtsCreateIs | frameworks/native/runtime/ets_runtime.cpp:313-351 | an ETS create succeeds if and only if the environment is registered and the saved ETS runtime is kept, or environment, ANI and finish entry are good; it takes the JS runtime when that is moved into a new or forked instance |
| LifecycleFactory.EtsHandedOut | frameworks/native/runtime/runtime.cpp:39-47 | an ETS runtime handed out owns the saved JS runtime when that was reused and a new one otherwise, unless it is a saved one that was not forked |
| LifecycleFactory.PreloadSaveCreateJs | frameworks/native/runtime/runtime.cpp:30-69 | preload JS, save, create JS for a stage-model application: the saved runtime comes back with its VM, if and only if engine, global object and loop are good |
| LifecycleFactory.SaveIs | frameworks/native/runtime/runtime.cpp:53-59 | a held runtime that is saved moves into the slot, and what the slot held is destroyed |
| LifecycleFactory.DropIs | frameworks/native/runtime/js_runtime.cpp:132-137 | a held runtime that is dropped is destroyed, with the JS runtime that it owns and their VM |
| LifecycleFactory.AttachIs | frameworks/native/runtime/ets_runtime.cpp:313-351 | an ETS runtime made beside a held JS runtime leaves that one with its holder |
| LifecycleTheorems.EveryVmHasGoodHistory | frameworks/native/runtime/js_runtime.cpp:632-676 | in every disciplined run, every VM is made, set up, pre-forked, post-forked, given worker and loop, and destroyed at most once each, post-forked only after its one pre-fork, and never pre-forked after worker or loop |
| LifecycleTheorems.LoopOnlyOutsidePreload | frameworks/native/runtime/js_runtime.cpp:786-812 | every JS runtime alive after a disciplined run, whoever owns it, has VM and console; worker and loop were set up exactly if its last initialisation was outside preload mode |
| LifecycleTheorems.EveryRuntimeHasOneOwner | frameworks/native/runtime/runtime.cpp:39-69 | every live JS and ETS runtime has exactly one owner among slot, ETS runtime and caller, a destroyed one none, and every live VM has a runtime |
| LifecycleTheorems.EachRuntimeForksAfterFinishing | frameworks/native/runtime/ets_runtime.cpp:566-583 | of the calls of one ETS runtime object, in every disciplined run, PostFork comes after exactly one FinishPreload, if and only if a library that offers PostFork offers FinishPreload |
| LifecycleEnvironment.EnvironmentForksOnceFinished | ets_environment/frameworks/ets_environment/src/ets_environment.cpp:805-816 | in any run, each PostFork of the one ETS environment of the process comes after exactly one FinishPreload, if and only if each operation that forks a saved ETS runtime finds that one runtime finished so far, and each that forks a new one finds none |
| LifecycleEnvironment.FinishesAreCounted | frameworks/native/runtime/ets_runtime.cpp:454-459 | the environment has had as many FinishPreloads as the operations of the run that saved an ETS runtime or made an unsaved one for an application |
| LifecycleEnvironment.EtsForksAfterFinishing | frameworks/native/runtime/ets_runtime.cpp:262-294 | when every create for an application comes before any other ETS runtime is finished, or finds the only finished one saved, each PostFork of the environment comes after exactly one FinishPreload, if and only if a library that offers PostFork offers FinishPreload |
| LifecycleEnvironment.TwoCreatesFinishTwice | frameworks/native/runtime/ets_runtime.cpp:313-351 | two creates for an application, one after the other, are disciplined and finish the one environment's preload twice before its second fork |
| LifecycleEnvironment.UnfinishedFork | frameworks/native/runtime/ets_runtime.cpp:566-583 | a library without FinishPreload: preload, save and create keep to the rule and fork the environment unfinished |
| LifecycleTheorems.MissingEntryForksUnfinished | frameworks/native/runtime/ets_runtime.cpp:566-583 | a library without FinishPreload: preload, save and create fork an ETS runtime whose preload was never finished |
| LifecycleTheorems.PreloadedEts | frameworks/native/runtime/ets_runtime.cpp:313-351 | a successful ETS preload yields an ETS runtime that owns a JS runtime and has been initialised once |
| LifecycleTheorems.SavedEts | frameworks/native/runtime/runtime.cpp:53-59 | saving keeps it and its JS runtime together and finishes both once |
| LifecycleTheorems.RestoredJs | frameworks/native/runtime/js_runtime.cpp:146-172 | a stage-model create gets the JS runtime of the saved ETS runtime, whose VM then has the whole forked script behind it |
| LifecycleTheorems.RestoredEts | frameworks/native/runtime/ets_runtime.cpp:313-351 | the saved ETS runtime takes that JS runtime back and is forked once |
| LifecycleTheorems.PreloadSaveCreate | frameworks/native/runtime/runtime.cpp:30-69 | preload ETS, save, create ETS for a stage-model application: the saved ETS runtime comes back, owning the very JS runtime and VM that were preloaded |
| LifecycleTheorems.SaveJsIffPreloaded | frameworks/native/runtime/runtime.cpp:53-59 | saving a held JS runtime leaves its VM a good history if and only if the runtime is marked preloaded |
| LifecycleTheorems.RepeatedEtsPreload | frameworks/native/runtime/ets_runtime.cpp:313-351 | an ETS preload while an ETS runtime is saved hands that one out again, and saving it pre-forks its VM twice |
| LoopHandler.OHOSLoopHandler.OnTriggered | frameworks/native/runtime/ohos_loop_handler.cpp:33-75 | one trigger changes the recorded moment, the flag and the calls on the event handler as the function Trigger says |
| LoopHandler.OHOSLoopHandler.OnTimer | frameworks/native/runtime/ohos_loop_handler.cpp:64-71 | a fired timer clears the flag and triggers again, if the handler is still alive |
| LoopHandler.AtMostOneTimer | frameworks/native/runtime/ohos_loop_handler.cpp:33-75 | after any run of triggers, fired timers and loop shut-downs, at most one timer is queued, and then the flag is set and its deadline is the recorded moment |
| LoopHandler.TimerQueuedUnlessLost | frameworks/native/runtime/ohos_loop_handler.cpp:44-74 | after any run, a trigger with an owner and a timeout leaves exactly the asked timer queued, if and only if the build is the emulator's or the moment is not that of the last post with nothing queued (0 before any post) |
| LoopHandler.LostPostExists | frameworks/native/runtime/ohos_loop_handler.cpp:55-57 | a timer that fires on time followed by an immediate timeout is lost |
| LoopHandler.TriggerWithoutTimer | frameworks/native/runtime/ohos_loop_handler.cpp:39-50 | after any run, in either build, a trigger with an owner and a negative timeout leaves nothing queued, and one without an owner leaves the queue as it was |
| LoopHandler.FiredTimer | frameworks/native/runtime/ohos_loop_handler.cpp:64-71 | after any run, in either build, a fired timer leaves the queue; nothing is queued then if the handler is gone, has no owner or a negative timeout, and otherwise exactly the timer asked for unless its post is lost |
| LoopHandler.DeInitEmpties | frameworks/native/runtime/ohos_js_environment_impl.cpp:178-188 | shutting the loop down leaves nothing queued |
| LoopHandler.DeviceRefinesEmulator | frameworks/native/runtime/ohos_loop_handler.cpp:53-58 | on the same events the device build queues no more than the emulator build, and the same after every prefix if and only if no post is lost on the way |
| EnvRegistry.JsRuntimeLite.AddEnv | frameworks/native/runtime/js_runtime_lite.cpp:253-269 | the two tables and the status after registering; a thread that has an environment changes neither |
| EnvRegistry.JsRuntimeLite.RemoveJsEnv | frameworks/native/runtime/js_runtime_lite.cpp:271-285 | the two tables and the status after removing |
| EnvRegistry.JsRuntimeLite.CreateJsEnv | frameworks/native/runtime/js_runtime_lite.cpp:149-193 | engine trouble is reported as success with a null engine and unchanged tables |
| EnvRegistry.JsRuntimeLite.CreateNapiEnv | frameworks/native/runtime/js_runtime_lite.cpp:75-107 | the exact status, when null was not registered: every refusal in the order in which it is met, and success if and only if none is; the environment is then registered as this thread's |
| EnvRegistry.JsRuntimeLite.DestroyNapiEnv | frameworks/native/runtime/js_runtime_lite.cpp:109-137 | the exact status: an unknown environment is refused before anything is removed in debug mode, and reported after the thread was removed otherwise |
| EnvRegistry.AddKeepsIff | frameworks/native/runtime/js_runtime_lite.cpp:253-269 | registering keeps the two tables in bijection if and only if the thread is refused or the engine is not null and new |
| EnvRegistry.RemoveKeepsIff | frameworks/native/runtime/js_runtime_lite.cpp:271-285 | removing keeps them in bijection if and only if the thread names its own environment, or has none and names none |
| EnvRegistry.TablesStayInStep | frameworks/native/runtime/js_runtime_lite.cpp:253-285 | every interleaving of threads that destroy only their own environment and get new engines keeps the bijection, with null never a key |
| EnvRegistry.OkMeansRegistered | frameworks/native/runtime/js_runtime_lite.cpp:186-207 | in every such interleaving the status of CreateNapiEnv, decided by the engine, by whether the thread had an environment when it began, and by what Init met; on success the environment is this thread's and registered then |
| EnvRegistry.SecondCreateChangesNothing | frameworks/native/runtime/js_runtime_lite.cpp:253-260 | a second create on a live thread changes neither table and is refused |
| EnvRegistry.FailedInitStaysRegistered | frameworks/native/runtime/js_runtime_lite.cpp:195-251 | an environment whose initialisation failed stays registered and blocks its thread until it is destroyed |
| NativeLibPaths.PathTables.TraverseLibrarySupportDirectory | frameworks/native/runtime/ets_native_lib_util.cpp:191-202 | one path per support directory is appended to the list of the key, in order |
| NativeLibPaths.PathTables.GetLibrarySupportDirectory | frameworks/native/runtime/ets_native_lib_util.cpp:176-189 | the default list gets the support directories of the haps that are not isolated, in order |
| NativeLibPaths.PathTables.GetEtsHapSoPath | frameworks/native/runtime/ets_native_lib_util.cpp:36-62 | the writes of a hap's own path, its support directories and its abc entry; none for an empty library path |
| NativeLibPaths.PathTables.GetEtsHspNativeLibPath | frameworks/native/runtime/ets_native_lib_util.cpp:64-99 | the same for a shared module, whose abc entry depends on whose bundle it is in |
| NativeLibPaths.PathTables.GetEtsPatchNativeLibPath | frameworks/native/runtime/ets_native_lib_util.cpp:101-130 | the carried patch path and the writes it causes |
| NativeLibPaths.PathTables.GetEtsNativeLibPath | frameworks/native/runtime/ets_native_lib_util.cpp:132-174 | the whole operation makes exactly the writes of AllWrites on whatever the tables held |
| NativeLibTheorems.HapList | frameworks/native/runtime/ets_native_lib_util.cpp:101-174 | with distinct modules, each hap's list is extended by the carried patch path and its support directories, then its own path and support directories, and by nothing else |
| NativeLibTheorems.HspList | frameworks/native/runtime/ets_native_lib_util.cpp:64-99 | with distinct modules, each shared module's list is extended by its path and support directories, and by nothing else |
| NativeLibTheorems.DefaultList | frameworks/native/runtime/ets_native_lib_util.cpp:132-159 | the default list is extended by the application's patch path first, then its library path and the shared support directories, and by nothing of a module |
| NativeLibTheorems.CarriedIsNearest | frameworks/native/runtime/ets_native_lib_util.cpp:101-106 | the carried patch path is that of the nearest isolated hap at or before, else the application's |
| NativeLibTheorems.AbcEntriesAreBacked | frameworks/native/runtime/ets_native_lib_util.cpp:132-174 | every abc entry other than the default one leads to a key with a non-empty list |
| NativeLibTheorems.AbcWritesAgree | frameworks/native/runtime/ets_native_lib_util.cpp:36-130 | with haps of the application and slash-free names of its own modules, all writes to one abc path agree: each is the module that the path stands for |
| NativeLibTheorems.OrderIrrelevantIffNoClash | frameworks/native/runtime/ets_native_lib_util.cpp:168-173 | the abc entries are independent of the order of the shared modules if and only if no own module is named like the key of a module of another bundle |
| NativeLibTheorems.SlashFreeMeansNoClash | frameworks/native/runtime/ets_native_lib_util.cpp:93-98 | slash-free names of the own modules rule such a clash out |
| NativeLibTheorems.ClashExample | frameworks/native/runtime/ets_native_lib_util.cpp:93-98 | own module lib/core against module core of bundle lib: the order decides |
| NativeLibValues.HapEntriesAre | frameworks/native/runtime/ets_native_lib_util.cpp:26-62 | from the fields alone: a hap's list gets the carried patch path in the sandbox, none for a compressed hap that is not isolated, then its library path, beside the package for an uncompressed one outside the public code path and in the sandbox otherwise, each with its support directories |
| NativeLibValues.HspEntriesAre | frameworks/native/runtime/ets_native_lib_util.cpp:64-91 | from the fields alone: a shared module's list gets bundle and library in the sandbox when compressed, bundle, module and library there when under the public code path, and otherwise the library beside the package |
| NativeLibValues.DefaultEntriesAre | frameworks/native/runtime/ets_native_lib_util.cpp:132-159 | from the fields alone: the default list gets the application's patch, then its library path without a slash at its end and the support directories of the haps that are not isolated, all in the sandbox |
| NativeLibValues.PreInstalledHap | frameworks/native/runtime/ets_native_lib_util.cpp:26-34 | the library path beside a package dir/name |
| NativeLibValues.AbcEntriesAre | frameworks/native/runtime/ets_native_lib_util.cpp:132-174 | with haps of the application and slash-free names of its own modules: an entry for every hap that has paths and every shared module that has a library, leading to bundle and module; every other entry is as it was |
| AssetReader.AssetHelper.constructor | frameworks/native/runtime/js_worker.cpp:163-169 | the code path ends in a slash unless it is empty, and no file is open |
| AssetReader.AssetHelper.Destroy | frameworks/native/runtime/js_worker.cpp:171-178 | no file stays open |
| AssetReader.AssetHelper.GetSafeData | frameworks/native/runtime/js_worker.cpp:279-326 | on success exactly the file of this call is open; on every failure what was open before |
| AssetReader.AssetHelper.ReadAmiData | frameworks/native/runtime/js_worker.cpp:328-374 | the outcome of a read by path, with the fallbacks per API version |
| AssetReader.AssetHelper.ReadFilePathData | frameworks/native/runtime/js_worker.cpp:376-476 | the outcome of a read through an extractor |
| AssetReader.AssetHelper.GetAmi | frameworks/native/runtime/js_worker.cpp:478-533 | the asset path outside the stage model; the caller's value stays when no entry matches |
| AssetReader.AssetHelper.ReadStageData | frameworks/native/runtime/js_worker.cpp:430-468 | the outcome through an extractor in the stage model |
| AssetReader.AssetHelper.Read | frameworks/native/runtime/js_worker.cpp:180-277 | the buffers, the flag and the asset path after a call; empty buffers are not both filled and the flag tells which; over any run of calls only the file of the last call that mapped one is open |
| AssetReader.ReadGuarantees | frameworks/native/runtime/js_worker.cpp:180-476 | every read fills exactly one of the two buffers or none and useSecureMem says which, copies nothing above 32 MiB outside debug versions, maps only what can be mapped, and from API 12 on never copies that |
| AssetValues.ReadIs | frameworks/native/runtime/js_worker.cpp:328-476 | for every asset: mapped when it may and can be; otherwise, unless it is to be mapped only, what there is to copy if that fits; the flag tells a mapping or an asset to be mapped only; which file or entry, written out |
| AssetValues.PackageIs | frameworks/native/runtime/js_worker.cpp:397-409 | the package: of the first hap of the module in the stage model, the set one otherwise |
| AssetValues.FaAmiIs | frameworks/native/runtime/js_worker.cpp:478-533 | outside the stage model: the entry below the first base path that has it, when some asset directory lists a file of its name, else the caller's value |
| AssetValues.NormalizedIs | frameworks/native/runtime/js_worker.cpp:146-161 | the file type becomes .abc, and a name without one gets it |
| AssetValues.ModulePathIs | frameworks/native/runtime/js_worker.cpp:246-258 | in an ES module a leading slash goes, a namespace is put behind the module, any other uri is the path |
| AssetValues.BundlePathIs | frameworks/native/runtime/js_worker.cpp:195-213 | in a JS bundle a leading slash goes, outside the stage model ../ too, and of a namespace all up to its slash |
| AssetValues.FilePathIs | frameworks/native/runtime/js_worker.cpp:260-265 | the normalised path, below abcs/ for a restricted ES module from API 12 on if it is not already |
| AssetValues.NamedUriIs | frameworks/native/runtime/js_worker.cpp:235-244 | a uri of another bundle is normalised when its last segment has a file type |
| AssetValues.PartsOfFilePath | frameworks/native/runtime/js_worker.cpp:396-430 | the module and the path in its package, at the first slash |
| AssetReader.NormalizedIsStable | frameworks/native/runtime/js_worker.cpp:146-161 | normalised names end in .abc and normalising again changes nothing |
| AssetReader.DirectoryKeptIff | frameworks/native/runtime/js_worker.cpp:146-161 | the directory of a name survives normalisation if and only if no dot is the last one before the last slash |
| AssetReader.DirectoryCutExample | frameworks/native/runtime/js_worker.cpp:146-161 | the name lib.v2/worker becomes lib.abc |
| AssetReader.RestrictedHasPrefix | frameworks/native/runtime/js_worker.cpp:260-265 | from API 12 on the file path of an ES module of a restricted worker begins with abcs/ and ends with .abc |
| AssetReader.RestrictedStaysInAbcsIff | frameworks/native/runtime/js_worker.cpp:260-266 | the walk along that path stays below the directory abcs of the code path, if and only if no part of it after abcs/ has more climbs than names |
| AssetReader.RestrictedEscapes | frameworks/native/runtime/js_worker.cpp:346-351 | the uri abcs/../secret.ets has the prefix and leads to secret.abc beside the directory |
| ModuleReaders.FindPlugin | frameworks/native/runtime/js_module_reader.cpp:119-138 | the first module of that name in the first plugin of that bundle that has one |
| ModuleReaders.GetOtherHspPath | frameworks/native/runtime/hybrid_js_module_reader.cpp:201-241 | the package of a module of another bundle: an application service before a shared bundle, else the path as it was |
| ModuleReaders.GetPluginHspPath | frameworks/native/runtime/hybrid_js_module_reader.cpp:107-147 | the rewritten path of the plugin's package, or the empty path |
| ModuleReaders.JsModuleReader.GetPresetAppHapPath | frameworks/native/runtime/js_module_reader.cpp:245-274 | the installed package of a module, or the path as it was |
| ModuleReaders.JsModuleReader.GetCommonAppHspPath | frameworks/native/runtime/js_module_reader.cpp:176-201 | the package path outside forms, and the message of the search |
| ModuleReaders.JsModuleReader.GetFormAppHspPath | frameworks/native/runtime/js_module_reader.cpp:149-169 | the path in a form; the suffix check never fails |
| ModuleReaders.JsModuleReader.Read | frameworks/native/runtime/js_module_reader.cpp:46-96 | the package opened, the data read, and the message left |
| ModuleReaders.FailureHasMessage | frameworks/native/runtime/js_module_reader.cpp:46-96 | every failed read of a path leaves a message, and a module served by a plugin is read with the message of the failed search left behind |
| ModuleReaders.HybridJsModuleReader.GetPresetAppHapPath | frameworks/native/runtime/hybrid_js_module_reader.cpp:243-276 | the installed package found among all modules of the application, or the path as it was |
| ModuleReaders.HybridJsModuleReader.GetExtractor | frameworks/native/runtime/hybrid_js_module_reader.cpp:43-78 | the package opened first, and the retry with the other suffix when that one has no extractor |
| ModuleReaders.HybridJsModuleReader.Read | frameworks/native/runtime/hybrid_js_module_reader.cpp:80-105 | the data of whichever package had an extractor; a message only when neither has one |
| ModuleReaders.ReadBoth | frameworks/native/runtime/hybrid_js_module_reader.cpp:43-105 | given agreeing answers both readers open the same package first and reject the same paths; what the plain one reads the hybrid one reads too; they differ exactly when the retry in the sandbox finds the module file |
| ModuleReaders.DifferOnlyByRetry | frameworks/native/runtime/hybrid_js_module_reader.cpp:43-78 | the same as a statement about the resolution functions |
| ModuleReaders.PackageServes | frameworks/native/runtime/hybrid_js_module_reader.cpp:201-241 | which answer counts: the first application service of the name, else the first matching shared module, else none |
| ModuleValues.FirstOpenedIs | frameworks/native/runtime/hybrid_js_module_reader.cpp:149-199 | the package opened first: in a form the shared package in the bundle's directory; outside, the installed one, in the sandbox when it is public or the import itself; with none, the plugin's |
| ModuleValues.SecondIs | frameworks/native/runtime/hybrid_js_module_reader.cpp:66-70 | the package of the retry: the same in a form, the installed one, or the sandbox's with the other suffix |
| ModuleValues.PluginPathIs | frameworks/native/runtime/hybrid_js_module_reader.cpp:107-147 | the rewritten path of the first module of the name in the first plugin that provides it, else nothing |
| ModuleValues.OwnPackageIs | frameworks/native/runtime/js_module_reader.cpp:245-270 | the installed package of an import of the application, none without a module name or a bundle manager |
| ModuleValues.ModuleNameIs | frameworks/native/runtime/hybrid_js_module_reader.cpp:178-181 | the module is the last segment |
| ModuleValues.SharedBundleNameIs | frameworks/native/runtime/hybrid_js_module_reader.cpp:217-218 | the bundle is the second segment |
| ModuleValues.InAppIs | frameworks/native/runtime/hybrid_js_module_reader.cpp:257-257 | an import of the application has at most one slash |
| ModuleValues.PlainDataIs | frameworks/native/runtime/js_module_reader.cpp:79-95 | the module file of that package is read if and only if both are there |
| ModuleValues.SearchMessageIs | frameworks/native/runtime/js_module_reader.cpp:176-201 | the message of the search: about an unfit path, else the caller's, else about what was looked for |
| ModuleValues.HybridDataIs | frameworks/native/runtime/hybrid_js_module_reader.cpp:61-77 | so it is by the hybrid reader, and the second package's when the first has no extractor |
| FdParams.FdOfIffShape | frameworks/cj/ffi/cj_want_ffi.cpp:38-67 | extraction recognises exactly the parameters that injection writes |
| FdParams.WantParams.InjectFdsArray | frameworks/cj/ffi/cj_want_ffi.cpp:69-89 | the loop writes the visited cells in order, null keys skipped |
| FdParams.WantParams.CollectFds | frameworks/cj/ffi/cj_want_ffi.cpp:91-111 | the loop over the keys in map order lists exactly the descriptors, strictly sorted by key |
| FdParams.WantParams.ExtractFdsArray | frameworks/cj/ffi/cj_want_ffi.cpp:91-129 | the array handed out for that list, or no array when there is none or it cannot be allocated |
| FdParams.InjectedAt | frameworks/cj/ffi/cj_want_ffi.cpp:69-89 | after injection the last cell of a key decides its parameter, and a key without a cell is as before |
| FdParams.InjectedIs | frameworks/cj/ffi/cj_want_ffi.cpp:69-89 | of the first size cells of an array the last one of a key decides its parameter, and other keys are as before |
| FdParams.HandedIs | frameworks/cj/ffi/cj_want_ffi.cpp:113-128 | no array when there is nothing or it cannot be allocated, otherwise value and copied key cell by cell |
| FdParams.InOrderUnique | frameworks/cj/ffi/cj_want_ffi.cpp:91-111 | nothing else lists the same descriptors in key order: the list is determined |
| FdParams.InjectThenExtract | frameworks/cj/ffi/cj_want_ffi.cpp:69-129 | inject and extract: exactly the last value per key of the array and the untouched descriptors under other keys, in key order |
| FdParams.ExtractThenInject | frameworks/cj/ffi/cj_want_ffi.cpp:69-129 | extract and inject back: the parameters are unchanged, whatever could not be allocated or copied |
| FdParams.ReinjectedAt | frameworks/cj/ffi/cj_want_ffi.cpp:122-126 | carried into other parameters, every descriptor arrives except those whose key could not be copied |
| FdParams.CarriedIffNoEmptyKey | frameworks/cj/ffi/cj_want_ffi.cpp:122-126 | carried into an empty want the list is extracted again if and only if no descriptor has the empty key, which is copied as a null pointer |
| FdParams.EmptyKeyIsLost | frameworks/cj/ffi/cj_want_ffi.cpp:122-126 | a want whose only descriptor has the empty key: it is listed, and gone after the transfer |
| Jsperf.CapturedIffMatches | frameworks/native/runtime/js_runtime.cpp:326-330 | something is captured if and only if the number expression matches |
| Jsperf.CapturedIsLongest | frameworks/native/runtime/js_runtime.cpp:326-330 | every match of the number expression captures a prefix of what the model captures, as greedy matching does |
| Jsperf.IntervalIsParsed | frameworks/native/runtime/js_runtime.cpp:297-348 | a command of the grammar with an interval yields that interval, if and only if the spaces behind the number hold no line break; otherwise the default |
| Jsperf.OtherwiseDefault | frameworks/native/runtime/js_runtime.cpp:310-345 | every other text after jsperf, in the grammar or outside, yields the default |
| Jsperf.AbsentIsZero | frameworks/native/runtime/js_runtime.cpp:300-305 | without jsperf the result is zero |
| Jsperf.PrintedIsParsed | frameworks/native/runtime/js_runtime.cpp:297-348 | every number up to the largest 32-bit one, printed in decimal after jsperf and spaces with any allowed tail free of line breaks before it, is what the parser returns; a larger one makes the conversion throw |
| Jsperf.LineBreakHidesNumber | frameworks/native/runtime/js_runtime.cpp:326-330 | with a line break among the spaces behind the number the default is returned |
| Jsperf.LineBreakExample | frameworks/native/runtime/js_runtime.cpp:307-330 | the command jsperf 5 ended by a line break is of the grammar and yields the default |
| OhmUrl.NoSlashLeft | frameworks/native/runtime/ets_runtime.cpp:786-800 | the rewritten entry has no slash, whatever the entry was |
| OhmUrl.RewriteIs | frameworks/native/runtime/ets_runtime.cpp:780-812 | directories, file and class become dotted, the file doubled without a class |
| OhmUrl.PartsReadBackIffDotFree | frameworks/native/runtime/ets_runtime.cpp:780-812 | splitting the result at its dots gives back directories, file and class if and only if none of these names has a dot |
| DelegatorRecords.Registry.GetOrCreateMonitor | frameworks/cj/ffi/cj_ability_delegator.cpp:222-248 | the monitor returned and the registry afterwards |
| DelegatorRecords.Registry.Emplace | frameworks/cj/ffi/cj_ability_delegator.cpp:92-94 | an entry that is there stays |
| DelegatorRecords.Registry.ClearFunc | frameworks/cj/ffi/cj_ability_delegator.cpp:46-61 | the walk with an iterator that erases under itself removes exactly the entries that hold the dead token |
| DelegatorRecords.Registry.Erase | frameworks/cj/ffi/cj_ability_delegator.cpp:55-57 | the entry goes and the iterator returned is at the next one in key order |
| DelegatorRecords.Registry.FindToken | frameworks/cj/ffi/cj_ability_delegator.cpp:287-294 | found exactly for a recorded token that is not null |
| DelegatorRecords.Registry.WaitAbilityMonitor | frameworks/cj/ffi/cj_ability_delegator.cpp:445-481 | the monitor is used, then the token recorded twice |
| DelegatorRecords.OneMonitorBetweenRemovals | frameworks/cj/ffi/cj_ability_delegator.cpp:222-248 | in every run, all uses of one id between two removals return one object, and the removal returns it too |
| DelegatorRecords.BuiltFromFirstNames | frameworks/cj/ffi/cj_ability_delegator.cpp:222-248 | the first use since the last removal makes a new object, with the names it was given and no module name for an empty one |
| DelegatorRecords.NothingReturnedIff | frameworks/cj/ffi/cj_ability_delegator.cpp:234-237 | a use returns nothing if and only if it removes an unknown id |
| DelegatorRecords.UnknownIffRemoved | frameworks/cj/ffi/cj_ability_delegator.cpp:226-237 | an id is unknown if and only if every use of it was followed by a removal |
| DelegatorRecords.ResolvesToFirstRecorded | frameworks/cj/ffi/cj_ability_delegator.cpp:287-294 | in every run an ability resolves to a token if and only if a record of that token holds it: the token was not cleared since, and no earlier record held the ability when it came |
| DelegatorRecords.UnresolvedMeansCleared | frameworks/cj/ffi/cj_ability_delegator.cpp:46-61 | an ability that resolves to nothing has had every recorded entry cleared |
| DelegatorRecords.SecondRecordIdleIff | frameworks/cj/ffi/cj_ability_delegator.cpp:92-94 | whatever other steps come between the two records of a wait, the second is without effect if and only if every clear of the entry in between is followed there by another record of the ability |
| DelegatorRecords.SecondRecordAloneIdleIff | frameworks/cj/ffi/cj_ability_delegator.cpp:92-94 | when nobody else records the ability in between: if and only if nobody cleared the token it holds |
| DelegatorRecords.ClearedTokenComesBack | frameworks/cj/ffi/cj_ability_delegator.cpp:474-478 | a token cleared between the two records comes back |

## Left out

- Loading shared libraries, HDC registration, debugger, profiler and heap-dump start-up: foreign calls with little logic of their own.
- The internals of the JS and ETS engines, of libuv, of file mapping, path resolution, zip extraction and the bundle manager: they appear only as answers.
- `Runtime::Create` for the Cangjie language, and what `JsRuntime::Init` does beyond `Initialize`: no state shared with the slot.
- The timer module of a JS runtime and `isUnique`: a switch that changes none of the modelled state.
- JS re-entrancy: a completion callback that settles or schedules its own task again is assumed not to happen.
- The registry of stage monitors: the same get-or-create as for ability monitors.
- Other Cangjie wrappers, JS value converters, error throwing, loggers, permission checks and services: single branches, or only declarations.
- AsyncSchedule.RunKeeps: client calls enter through `Schedule*`; `Start*` called directly on a task that keeps its owner is not a step of the protocol.
- EnvRegistry.JsRuntimeLite.CreateNapiEnv: the method runs its two critical sections with no other thread in between; the interleaved form is `OkMeansRegistered`. Attaching and detaching the debugger has no effect on the tables and is not modelled.
- AsyncSchedule, EnvRegistry interleavings and DelegatorRecords runs: each locked section or statement is one atomic step; weak memory orders are not modelled.
- LoopHandler.OHOSLoopHandler.OnTriggered: times are unbounded integers, not 64-bit ones.
- NativeLibPaths.PathTables.GetEtsHapSoPath: a root path that becomes empty counts as one without a final slash; the code calls `back()` on it, which is undefined there.
- AssetReader.AssetHelper.Read: the pointers to the caller's buffers are given, so the check for null ones is not modelled; neither are the pointer-protection wrappers around the settings. A file length that cannot be told counts as an unreadable file.
- ModuleReaders.GetPluginHspPath: the regular expression that replaces the public code path is a parameter, the same for both readers.
- AssetReader.RestrictedStaysInAbcsIff: symbolic links are not followed, and a code path outside the absolute ones is walked from a given directory.
- LifecycleEnvironment.EnvironmentForksOnceFinished: whether a second initialisation makes a second ANI VM is the answer of the ANI library; the log is that of the environment object, which is one per process.
- FdParams.WantParams.InjectFdsArray: descriptors are unbounded integers; they are only carried.
- Jsperf.CapturedIsLongest: the matching engine is represented by the expressions' language and greedy capture, not by its search; characters are those of the classic C locale.
- DelegatorRecords.Registry.GetOrCreateMonitor: object identity is a serial number.
- What Dafny strings leave out: characters are compared by number, so keys sort as unsigned bytes do only for single-byte characters.

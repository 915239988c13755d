# LSPosed load hook, service client and manager wrappers

A Dafny model of five pieces of the LSPosed framework:

- **The class-loader hook** (`LoadedApkCreateCLHooker`). It runs after a `LoadedApk` container creates its class loader.
  - A per-process set of in-flight containers is filled when a container is constructed.
  - The hook consumes the set: a tracked container is classified as the first package of its process or a secondary one, and then may be suppressed.
  - Otherwise the hook may install the legacy shared-preferences compatibility hooks and asks the service for the module binder.
  - It then dispatches to the legacy `handleLoadPackage` callbacks and notifies the modern package-loaded observers.
  - The container leaves the set on every exit path.
- **The application service client** (`ApplicationServiceClient`): a singleton installed once and cleared on binder death, plus six remote calls that map failures to defaults.
- **The legacy resource callbacks** (`FC_LayoutInflated`, `FC_InitPackageResources`): the priority order, the parameter snapshots of the registered callbacks, and the type-guarded `call`.
- **The manager app's wrappers** (`ConfigManager`): one remote call each, with a fixed default on `RemoteException`, plus the scope-list construction and filtering.

How Java is represented:

- `null` is `Option.None`. A call that may throw yields an `Outcome` (`Returned` or `Threw`). A Java `int` is `Int32`, and the overflowing subtraction is written out with `Wrap32`.
- Each remote call is a single value: what the remote answered, or the exception it threw. The wrappers make exactly one call and never retry, so one reply parameter per call is the whole interaction.
- The hook's external calls are recorded as `Effect`s in order. These are hook installation, dispatch and notification.
- Which external calls throw is an input (`Env.faults`). So are the runtime's current package and process names, the loaded-modules map, the module's manifest meta-data and the module-binder reply.
- Stateful code is modelled as classes whose methods are proved equal to pure specification functions:
  - `LoadTracker.Tracker` holds `loadedApks` and is specified by `Fire`.
  - `ServiceClient.Holder` holds `serviceClient`.
- Loops over lists are methods with loop invariants: `SetModuleScope` and `GetModuleScope`.

Files:

- `java_lang.dfy`: null, exceptions, outcomes, 32-bit `int`.
- `callbacks.dfy`: the callback order, parameter snapshots and type guards.
- `service_client.dfy`: the service-client singleton and its fail-soft calls.
- `load_tracker.dfy`: the class-loader hook, its specification and its properties.
- `config_manager.dfy`: the manager wrappers.

## Model

| member | source | states |
|---|---|---|
| JavaLang.Wrap32 | core/src/main/java/de/robv/android/fposed/callbacks/FC_LayoutInflated.java:91 | Java `int` arithmetic: the result is congruent to the mathematical value modulo 2^32, and equal to it inside the `int` range |
| Callbacks.CompareTo | core/src/main/java/de/robv/android/fposed/callbacks/FC_LayoutInflated.java:85-97 | answers 0 exactly when comparing an object with itself; distinct objects of equal priority get -1 or 1 |
| Callbacks.HigherPrioritySortsFirst | core/src/main/java/de/robv/android/fposed/callbacks/FC_LayoutInflated.java:89-91 | when the difference does not overflow, the higher priority sorts first (negative iff self's priority is higher) |
| Callbacks.AntisymmetricWithoutCollision | core/src/main/java/de/robv/android/fposed/callbacks/FC_LayoutInflated.java:85-97 | distinct callbacks that differ in priority or identity hash compare in opposite directions (no overflow) |
| Callbacks.HashCollisionBreaksAntisymmetry | core/src/main/java/de/robv/android/fposed/callbacks/FC_LayoutInflated.java:92-96 | two distinct callbacks with equal priority and colliding identity hashes both answer 1: the order is not antisymmetric |
| Callbacks.OverflowReversesOrder | core/src/main/java/de/robv/android/fposed/callbacks/FC_LayoutInflated.java:91 | as written, a callback of priority Integer.MIN_VALUE sorts before one of priority 1 |
| Callbacks.CompareToIntended | core/src/main/java/de/robv/android/fposed/callbacks/FC_LayoutInflated.java:89-91 | the corrected order: priority descending for every pair of priorities, then identity hash; 0 only for the object itself |
| Callbacks.IntendedAntisymmetric | core/src/main/java/de/robv/android/fposed/callbacks/FC_LayoutInflated.java:85-97 | the corrected order is antisymmetric for all distinct, non-colliding callbacks |
| Callbacks.AsWrittenAgreesWhenNoOverflow | core/src/main/java/de/robv/android/fposed/callbacks/FC_LayoutInflated.java:90-91 | without overflow the code as written orders exactly like the corrected order |
| Callbacks.DistinctCount | core/src/main/java/de/robv/android/fposed/callbacks/FC_InitPackageResources.java:62-64 | a duplicate-free member array has as many slots as the set has members |
| Callbacks.NewLayoutInflatedParam | core/src/main/java/de/robv/android/fposed/callbacks/FC_LayoutInflated.java:58-60 | the parameter carries the sorted set's snapshot: same members, same order, no duplicates |
| Callbacks.NewInitPackageResourcesParam | core/src/main/java/de/robv/android/fposed/callbacks/FC_InitPackageResources.java:62-64 | the parameter carries `toArray` of the set: same members, no duplicates, one slot per member |
| Callbacks.LateRegistrationNotInSnapshot | core/src/main/java/de/robv/android/fposed/callbacks/FC_InitPackageResources.java:62-64 | a callback added after a parameter was built is registered but absent from that parameter's snapshot |
| Callbacks.LateRemovalStillInSnapshot | core/src/main/java/de/robv/android/fposed/callbacks/FC_LayoutInflated.java:58-60 | a callback removed after a parameter was built is no longer registered but still in the snapshot |
| Callbacks.CallLayoutInflated | core/src/main/java/de/robv/android/fposed/callbacks/FC_LayoutInflated.java:103-106 | the handler runs iff the parameter is a `LayoutInflatedParam`, with that callback and parameter |
| Callbacks.CallInitPackageResources | core/src/main/java/de/robv/android/fposed/callbacks/FC_InitPackageResources.java:82-85 | the handler runs iff the parameter is an `InitPackageResourcesParam`, with that callback and parameter |
| Callbacks.GuardsAreDisjoint | core/src/main/java/de/robv/android/fposed/callbacks/FC_LayoutInflated.java:103-106 | no parameter reaches both handler kinds; any other parameter reaches neither |
| ServiceClient.Holder.constructor | core/src/main/java/org/lsposed/lspd/core/ApplicationServiceClient.java:37 | the static client starts out null, with no death link |
| ServiceClient.Holder.Init | core/src/main/java/org/lsposed/lspd/core/ApplicationServiceClient.java:49-58 | installs a client only when none is installed, the binder is non-null and linking to death succeeds; otherwise nothing changes; the installed client stays linked |
| ServiceClient.Holder.BinderDied | core/src/main/java/org/lsposed/lspd/core/ApplicationServiceClient.java:120-123 | unlinks the client and clears the static field, so a later `Init` can install again |
| ServiceClient.Guarded | core/src/main/java/org/lsposed/lspd/core/ApplicationServiceClient.java:60-67 | a reply is returned unchanged, `RemoteException`/`NullPointerException` become the default, anything else propagates |
| ServiceClient.FailsSoftIsDeterministic | core/src/main/java/org/lsposed/lspd/core/ApplicationServiceClient.java:60-112 | the fail-soft contract fixes each wrapper's result given the reply |
| ServiceClient.RequestModuleBinder | core/src/main/java/org/lsposed/lspd/core/ApplicationServiceClient.java:60-67 | fail-soft with default null |
| ServiceClient.GetLegacyModulesList | core/src/main/java/org/lsposed/lspd/core/ApplicationServiceClient.java:69-76 | fail-soft with default empty list; a null list from the remote is returned as is |
| ServiceClient.GetModulesList | core/src/main/java/org/lsposed/lspd/core/ApplicationServiceClient.java:78-85 | fail-soft with default empty list; a null list from the remote is returned as is |
| ServiceClient.GetPrefsPath | core/src/main/java/org/lsposed/lspd/core/ApplicationServiceClient.java:87-94 | fail-soft with default null |
| ServiceClient.RequestInjectedManagerBinder | core/src/main/java/org/lsposed/lspd/core/ApplicationServiceClient.java:96-103 | fail-soft with default null |
| ServiceClient.RequestCliBinder | core/src/main/java/org/lsposed/lspd/core/ApplicationServiceClient.java:105-112 | fail-soft with default -1 |
| ServiceClient.DeadPeerYieldsDefaults | core/src/main/java/org/lsposed/lspd/core/ApplicationServiceClient.java:60-112 | against a dead peer each of the six calls answers its default |
| LoadTracker.IsFirstPackage | core/src/main/java/org/lsposed/lspd/hooker/LoadedApkCreateCLHooker.java:94 | holds iff the current package name is the container's package and the current process name is known |
| LoadTracker.OneFirstPackagePerProcess | core/src/main/java/org/lsposed/lspd/hooker/LoadedApkCreateCLHooker.java:94 | at most one package of a process is its first package |
| LoadTracker.ReportedNames | core/src/main/java/org/lsposed/lspd/hooker/LoadedApkCreateCLHooker.java:92-100 | secondary: the container's package in the current package's process; first: the runtime's names, "android" renamed "system" |
| LoadTracker.GetOrDefault | core/src/main/java/org/lsposed/lspd/hooker/LoadedApkCreateCLHooker.java:115-117 | a present key yields its entry, an absent key the default |
| LoadTracker.ReadLegacyFlags | core/src/main/java/org/lsposed/lspd/hooker/LoadedApkCreateCLHooker.java:190-203 | an Integer version is used as is, a String through its parsed integer part, anything else (or no key) gives -1, each with the shared-prefs key test; a failed parse, an IO or number-format failure gives (-1, false); other throwables escape |
| LoadTracker.WantsCompatHooks | core/src/main/java/org/lsposed/lspd/hooker/LoadedApkCreateCLHooker.java:205 | the shared-prefs key alone suffices; otherwise the version must be at least 93; the defaults never qualify |
| LoadTracker.CompatHooks | core/src/main/java/org/lsposed/lspd/hooker/LoadedApkCreateCLHooker.java:205-221 | ends completed or failed; installs nothing, the `checkMode` hook, or both hooks in order |
| LoadTracker.HookNewXsp | core/src/main/java/org/lsposed/lspd/hooker/LoadedApkCreateCLHooker.java:189-221 | the step-by-step method over its two locals does exactly what `CompatHooks` specifies |
| LoadTracker.ThresholdExamples | core/src/main/java/org/lsposed/lspd/hooker/LoadedApkCreateCLHooker.java:205 | version 93 installs both hooks; version 50 without the shared-prefs key installs none |
| LoadTracker.CompatHooksIffThreshold | core/src/main/java/org/lsposed/lspd/hooker/LoadedApkCreateCLHooker.java:194-205 | with readable meta-data, hooks are installed iff the version exceeds 92 or the shared-prefs key is present |
| LoadTracker.UnparsableVersionIgnoresSharedPrefs | core/src/main/java/org/lsposed/lspd/hooker/LoadedApkCreateCLHooker.java:197-203 | for any meta-data whose version string does not parse, the flags are (-1, false) and no hook is installed, whatever other keys are present |
| LoadTracker.CheckModeAfterHook | core/src/main/java/org/lsposed/lspd/hooker/LoadedApkCreateCLHooker.java:207-214 | the pending throwable is cleared iff bit 0 (world-readable) of the mode is set |
| LoadTracker.PreferencesDirReplacement | core/src/main/java/org/lsposed/lspd/hooker/LoadedApkCreateCLHooker.java:215-220 | answers the service's prefs path; a missing client or a null path makes it throw |
| LoadTracker.GetSystemServiceAfterHook | core/src/main/java/org/lsposed/lspd/hooker/LoadedApkCreateCLHooker.java:135-142 | answers the module binder for the name "LSPosed" and leaves every other result alone |
| LoadTracker.Deliver | core/src/main/java/org/lsposed/lspd/hooker/LoadedApkCreateCLHooker.java:132-181 | completes iff neither the binder hook (when a binder came back) nor the dispatch nor the notification throws; otherwise it did a proper prefix of binder hook, dispatch, notification |
| LoadTracker.RequestAndDeliver | core/src/main/java/org/lsposed/lspd/hooker/LoadedApkCreateCLHooker.java:131-181 | no client: nothing done and a null dereference; otherwise the binder request comes first, an escaping remote failure stops right after it, and completion ends with dispatch then notification |
| LoadTracker.Process | core/src/main/java/org/lsposed/lspd/hooker/LoadedApkCreateCLHooker.java:89-181 | a tracked container's handling never ends as not-tracked |
| LoadTracker.Fire | core/src/main/java/org/lsposed/lspd/hooker/LoadedApkCreateCLHooker.java:82-187 | with `addedPaths` non-null or an untracked container: no effect and the set unchanged; otherwise processed and removed whatever the outcome |
| LoadTracker.SuppressionIff | core/src/main/java/org/lsposed/lspd/hooker/LoadedApkCreateCLHooker.java:106-117 | suppressed (no effect at all) iff the loader is null, or secondary without code, or secondary mapped to empty; an absent secondary is not suppressed |
| LoadTracker.CompatStagePrefix | core/src/main/java/org/lsposed/lspd/hooker/LoadedApkCreateCLHooker.java:127-129 | the compat stage installs the expected hooks, or a prefix of them when it fails |
| LoadTracker.TailStagePrefix | core/src/main/java/org/lsposed/lspd/hooker/LoadedApkCreateCLHooker.java:131-181 | the stage from the binder request on produces the expected effects, or a proper prefix of them when it fails |
| LoadTracker.EffectsFollowExpectedOrder | core/src/main/java/org/lsposed/lspd/hooker/LoadedApkCreateCLHooker.java:127-181 | a completed handling does compat hooks, binder request, binder hook if non-null, dispatch, notification in that order; a failed one did a proper prefix of that |
| LoadTracker.FaultFreeHandlingCompletes | core/src/main/java/org/lsposed/lspd/hooker/LoadedApkCreateCLHooker.java:89-181 | with a client and no escaping fault, an unsuppressed handling completes |
| LoadTracker.NoClientNoDispatch | core/src/main/java/org/lsposed/lspd/hooker/LoadedApkCreateCLHooker.java:131 | without a client nothing is requested, dispatched or notified |
| LoadTracker.DispatchedParamFollowsNaming | core/src/main/java/org/lsposed/lspd/hooker/LoadedApkCreateCLHooker.java:92-181 | the dispatched parameter carries the first-package flag (both names known and equal), the naming rule, the loader and app info; the notification carries the same flag, loader and app info and the raw package name |
| LoadTracker.CompatHooksOnlyForFirstModule | core/src/main/java/org/lsposed/lspd/hooker/LoadedApkCreateCLHooker.java:127-129 | compat hooks only for a first package whose map entry is present and whose meta-data passes the threshold |
| LoadTracker.SecondFireIsNoOp | core/src/main/java/org/lsposed/lspd/hooker/LoadedApkCreateCLHooker.java:84-186 | once a firing processed a container, another firing on it does nothing |
| LoadTracker.ProcessedAtMostOncePerTracking | core/src/main/java/org/lsposed/lspd/hooker/LoadedApkCreateCLHooker.java:77-186 | over any run, processed firings of a container plus its final membership never exceed its trackings |
| LoadTracker.ProcessedAtMostOnce | core/src/main/java/org/lsposed/lspd/hooker/LoadedApkCreateCLHooker.java:77-186 | without re-construction a container is processed at most once, and never if it was not tracked |
| LoadTracker.Tracker.constructor | core/src/main/java/org/lsposed/lspd/hooker/LoadedApkCreateCLHooker.java:63 | the in-flight set starts empty |
| LoadTracker.Tracker.AddLoadedApk | core/src/main/java/org/lsposed/lspd/hooker/LoadedApkCreateCLHooker.java:77-79 | adds the container to the in-flight set |
| LoadTracker.Tracker.AfterHookedMethod | core/src/main/java/org/lsposed/lspd/hooker/LoadedApkCreateCLHooker.java:82-187 | the new set, effects and exit are those `Fire` specifies for the old set and the installed client |
| LoadTracker.TryBody | core/src/main/java/org/lsposed/lspd/hooker/LoadedApkCreateCLHooker.java:89-181 | the step-by-step `try` body does exactly what `Process` specifies |
| LoadTracker.RequestAndDeliverSteps | core/src/main/java/org/lsposed/lspd/hooker/LoadedApkCreateCLHooker.java:131-181 | binder request, binder hook, dispatch and notification as `RequestAndDeliver` specifies |
| ConfigManager.BinderAliveDecidesReach | app/src/main/java/org/lsposed/manager/ConfigManager.java:44-46 | with no service every wrapper throws a null dereference; with one, answers come back unchanged and setters answer true |
| ConfigManager.IsBinderAlive | app/src/main/java/org/lsposed/manager/ConfigManager.java:44-46 | holds iff the holder's service is non-null |
| ConfigManager.Fetch | app/src/main/java/org/lsposed/manager/ConfigManager.java:48-55 | null service throws; a reply is returned unchanged; `RemoteException` becomes the default; other throwables propagate |
| ConfigManager.GetXposedApiVersion | app/src/main/java/org/lsposed/manager/ConfigManager.java:48-55 | default -1 |
| ConfigManager.GetXposedVersionName | app/src/main/java/org/lsposed/manager/ConfigManager.java:57-64 | default "" |
| ConfigManager.GetXposedVersionCode | app/src/main/java/org/lsposed/manager/ConfigManager.java:66-73 | default -1 |
| ConfigManager.GetEnabledModules | app/src/main/java/org/lsposed/manager/ConfigManager.java:85-92 | default an empty array |
| ConfigManager.SetModuleEnabled | app/src/main/java/org/lsposed/manager/ConfigManager.java:94-101 | answers the enable or the disable reply as `enable` says, default false |
| ConfigManager.BooleanQuery | app/src/main/java/org/lsposed/manager/ConfigManager.java:143-150 | default false (also `isVerboseLogEnabled`, `isLogWatchdogEnabled`, `clearLogs`, `uninstallPackage`, `isSepolicyLoaded`, `systemServerRequested`, `dex2oatFlagsLoaded`, `isDexObfuscateEnabled`, `isEnableCli`, `getAutomaticAdd`) |
| ConfigManager.Acknowledge | app/src/main/java/org/lsposed/manager/ConfigManager.java:152-160 | true iff the void remote call returned, false iff it threw `RemoteException` (also the other nine void setters) |
| ConfigManager.GetLog | app/src/main/java/org/lsposed/manager/ConfigManager.java:200-207 | the verbose or the modules log as asked, default null |
| ConfigManager.GetUsers | app/src/main/java/org/lsposed/manager/ConfigManager.java:267-274 | default null, unlike the list wrappers |
| ConfigManager.StartActivityAsUserWithFeature | app/src/main/java/org/lsposed/manager/ConfigManager.java:310-317 | default -1 |
| ConfigManager.GetApi | app/src/main/java/org/lsposed/manager/ConfigManager.java:339-346 | default the exception's text |
| ConfigManager.FlashZip | app/src/main/java/org/lsposed/manager/ConfigManager.java:358-364 | returns normally iff the service is present and the call returned or threw `RemoteException` |
| ConfigManager.GetSessionTimeout | app/src/main/java/org/lsposed/manager/ConfigManager.java:404-411 | default -2 |
| ConfigManager.GetDex2OatWrapperCompatibility | app/src/main/java/org/lsposed/manager/ConfigManager.java:423-430 | default the crashed code |
| ConfigManager.InstallExistingPackageAsUser | app/src/main/java/org/lsposed/manager/ConfigManager.java:276-285 | true iff the remote answered 1; false for any other answer or `RemoteException` |
| ConfigManager.GetPackageInfo | app/src/main/java/org/lsposed/manager/ConfigManager.java:218-227 | returns the info iff the remote answered a non-null one; a null answer or `RemoteException` throws `NameNotFoundException` |
| ConfigManager.CollectList | app/src/main/java/org/lsposed/manager/ConfigManager.java:75-83 | the remote's list copied into a fresh list; an empty (non-null) list on `RemoteException`; a null remote list throws |
| ConfigManager.ScopeRequest | app/src/main/java/org/lsposed/manager/ConfigManager.java:105-117 | one entry per application in order, plus exactly one (0, module) entry at the end when legacy |
| ConfigManager.SetModuleScope | app/src/main/java/org/lsposed/manager/ConfigManager.java:103-123 | sends the request `ScopeRequest` describes iff the service is present; answers the reply, false on `RemoteException` |
| ConfigManager.WithoutSelf | app/src/main/java/org/lsposed/manager/ConfigManager.java:132-136 | never longer than the remote list; every kept entry came from it and does not name the module |
| ConfigManager.WithoutSelfMembers | app/src/main/java/org/lsposed/manager/ConfigManager.java:132-136 | an entry is kept iff it was there and does not name the module |
| ConfigManager.WithoutSelfAppend | app/src/main/java/org/lsposed/manager/ConfigManager.java:132-136 | the filter distributes over concatenation, so kept entries keep their order |
| ConfigManager.WithoutSelfKeepsOthers | app/src/main/java/org/lsposed/manager/ConfigManager.java:132-136 | a list not naming the module is kept whole |
| ConfigManager.WithoutSelfIdempotent | app/src/main/java/org/lsposed/manager/ConfigManager.java:132-136 | filtering twice is filtering once |
| ConfigManager.ScopeRoundTrip | app/src/main/java/org/lsposed/manager/ConfigManager.java:103-141 | reading back a scope sent as-is drops the legacy self entry: the applications minus any naming the module |
| ConfigManager.GetModuleScope | app/src/main/java/org/lsposed/manager/ConfigManager.java:125-141 | the remote's entries minus those naming the module, in order; empty for a null answer or `RemoteException` |

## Left out

- Reflection (`getObjectField`, `getBooleanField`, `defaultClassLoaderField`): the fields it reads are fields of `LoadedApk`, and reading them is assumed to succeed.
- The hooked methods themselves: installing a hook (`findAndHookMethod`) is an effect token. The installed after-hooks are modelled as functions on their inputs.
- `MetaDataReader.getMetaData` and `extractIntPart` are not part of this model. The meta-data is an input that may throw, and the integer part of a string value is carried with the value (`None` when parsing throws).
- `FCallback.callAll` and `CopyOnWriteSortedSet` are not part of this model:
  - per-handler fault isolation during dispatch is not modelled; the dispatch is one effect that either happens or throws;
  - the copy-on-write registries are modelled only by their add/remove semantics (`AddMember`, `RemoveMember`).
- Concurrency: the concurrent key set, the copy-on-write sets and the `synchronized` `Init` are modelled sequentially.
- Logging, and the `Log.e` stack traces in every wrapper.
- The arguments of remote calls are not modelled except the scope list; each call is represented by its reply alone.
- `isMagiskInstalled`: it reads `PATH` from the environment and probes the filesystem.
- Log and zip descriptors and intents are opaque values.
- `LFPManagerServiceHolder`: only `getService()` is modelled, as an optional service value; its death handling exits the process.
- `Startup`, `AttachHooker` and the `IFposedHookInitPackageResources` wrapper are not part of this model: they consist of foreign hook-installation calls.
- `getModuleScope` with a remote entry whose package name is null: the `equals` call would throw; entries are modelled with non-null names.
- LoadTracker.Tracker.AfterHookedMethod: the observer's `getDefaultClassLoader()` is not modelled. It is a reflective read made when an observer calls it, after the hook returns, and it throws `IllegalStateException` when the read fails.
- Callbacks.CompareTo: `System.identityHashCode` is a field of the callback.
- ServiceClient.Holder.Init: a null `service` argument is not modelled; its `asBinder()` would throw.
- LoadTracker.Process: a `null` static client makes the binder request throw, and the hook's catch-all swallows it. This is modelled as a `NullPointerException` failure, not as a separate path.
- LoadTracker.Process: the "thrown by an external call" cases all carry the same exception kind, because the model does not distinguish what the callbacks throw.

## Findings

| source | as written | input that shows it | evidently intended | confidence | as-written member | corrected member |
|---|---|---|---|---|---|---|
| core/src/main/java/de/robv/android/fposed/callbacks/FC_LayoutInflated.java:91 | `return other.priority - this.priority;` subtracts in 32-bit arithmetic | this.priority = Integer.MIN_VALUE, other.priority = 1: the difference wraps to a negative value, so the MIN_VALUE callback sorts first | order descending by priority for all priorities, e.g. `Integer.compare(other.priority, this.priority)` | medium; not executed | Callbacks.OverflowReversesOrder | Callbacks.CompareToIntended |

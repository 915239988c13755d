/**
 * `LoadedApkCreateCLHooker`: what happens after
 * `LoadedApk.createOrUpdateClassLoaderLocked` ran on a container.
 *
 * A per-process set of in-flight containers (`loadedApks`) is filled when a
 * container is constructed and consumed by the hook: a tracked container is
 * classified (first package of the process or secondary), possibly
 * suppressed, and otherwise announced to the legacy `handleLoadPackage`
 * callbacks and to the modern package-loaded observers. The container leaves
 * the set on every exit path, so each tracking is processed at most once.
 *
 * The hook's external calls (installing hooks, dispatching, notifying) are
 * recorded as effects; which of them throw is an input.
 */
module LoadTracker {
  import opened JavaLang
  import Callbacks
  import ServiceClient

  /** A `LoadedApk` object, by identity. */
  type ContainerId = nat
  /** A `ClassLoader` object, by identity. */
  type ClassLoaderRef = nat

  datatype ApplicationInfo = ApplicationInfo(sourceDir: string)

  /** The fields of a `LoadedApk` that the hook reads. */
  datatype LoadedApk = LoadedApk(
    id: ContainerId,
    packageName: string,
    classLoader: Option<ClassLoaderRef>,   // mClassLoader
    includeCode: bool,                     // mIncludeCode
    appInfo: ApplicationInfo)

  /** One firing of the hook: the container and the method's argument `addedPaths` (args[0]). */
  datatype HookCall = HookCall(apk: LoadedApk, addedPaths: Option<seq<string>>)

  /** What `ActivityThread.currentPackageName()` / `currentProcessName()` answer. */
  datatype Runtime = Runtime(currentPackageName: Option<string>, currentProcessName: Option<string>)

  /**
   * A manifest meta-data value. For a string, `intPart` is what
   * `MetaDataReader.extractIntPart` answers for it; `None` means it threw
   * `NumberFormatException`.
   */
  datatype MetaValue = IntValue(i: Int32) | StringValue(text: string, intPart: Option<Int32>) | OtherValue

  /** The external calls of the hook that may throw. */
  datatype Site =
    | HookCheckMode          // findAndHookMethod(ContextImpl.checkMode)
    | HookPreferencesDir     // findAndHookMethod(ContextImpl.getPreferencesDir)
    | HookGetSystemService   // findAndHookMethod(Activity.getSystemService)
    | DispatchLoadPackage    // FC_LoadPackage.callAll
    | NotifyPackageLoaded    // LFPosedContext.callOnPackageLoaded

  /** Everything the hook reads from outside the container. */
  datatype Env = Env(
    runtime: Runtime,
    loadedModules: map<string, Option<string>>,         // FposedInit.getLoadedModules()
    metaData: Outcome<map<string, MetaValue>>,          // MetaDataReader.getMetaData(sourceDir)
    loadPackageCallbacks: seq<Callbacks.Callback>,      // FposedBridge.sLoadedPackageCallbacks
    moduleBinderReply: Outcome<Option<ServiceClient.Binder>>,  // the remote's answer to requestModuleBinder
    faults: set<Site>)                                  // the external calls that throw

  /** `FC_LoadPackage.LoadPackageParam` as the hook fills it. */
  datatype LoadPackageParam = LoadPackageParam(
    callbacks: seq<Callbacks.Callback>,
    packageName: string,
    processName: Option<string>,
    classLoader: ClassLoaderRef,
    appInfo: ApplicationInfo,
    isFirstApplication: bool)

  /** The observable actions of the hook, in the order they happen. */
  datatype Effect =
    | CheckModeHooked(classLoader: ClassLoaderRef)
    | PreferencesDirHooked(classLoader: ClassLoaderRef, prefsPackage: string)
    | ModuleBinderRequested(packageName: string)
    | SystemServiceHooked(classLoader: ClassLoaderRef, binder: ServiceClient.Binder)
    | LoadPackageDispatched(param: LoadPackageParam)
    | PackageLoadedNotified(packageName: string, appInfo: ApplicationInfo, classLoader: ClassLoaderRef, isFirstPackage: bool)

  /** How the handling ended. */
  datatype Exit =
    | NotTracked               // returned before the try: nothing happened
    | NoClassLoader            // mClassLoader == null
    | NoCode                   // secondary container without code
    | DisabledModule           // secondary container mapped to Optional.empty()
    | Completed
    | Failed(error: Exception) // a throwable caught by the hook's catch-all

  datatype Handling = Handling(effects: seq<Effect>, exit: Exit)

  predicate Suppressed(exit: Exit) {
    exit == NoClassLoader || exit == NoCode || exit == DisabledModule
  }

  // ---------------------------------------------------------------------
  // Classification

  /** The first-package test: both runtime names known and the package is this container's. */
  predicate IsFirstPackage(rt: Runtime, apkPackage: string): (r: bool)
    ensures r <==> rt.currentPackageName == Some(apkPackage) && rt.currentProcessName.Some?
  {
    rt.currentPackageName.Some? && rt.currentProcessName.Some? && rt.currentPackageName.value == apkPackage
  }

  /** A process has at most one first package, and none while its process name is unknown. */
  lemma OneFirstPackagePerProcess(rt: Runtime, a: string, b: string)
    requires IsFirstPackage(rt, a) && IsFirstPackage(rt, b)
    ensures a == b && rt.currentProcessName.Some?
  {
  }

  datatype Names = Names(packageName: string, processName: Option<string>)

  /**
   * The names reported to callbacks: a secondary container reports its own
   * package in the current package's process; a first package reports the
   * runtime's names, with the framework package "android" renamed "system".
   */
  function ReportedNames(rt: Runtime, apkPackage: string): (n: Names)
    ensures !IsFirstPackage(rt, apkPackage) ==>
              n.packageName == apkPackage && n.processName == rt.currentPackageName
    ensures IsFirstPackage(rt, apkPackage) ==>
              n.processName == rt.currentProcessName
              && n.packageName == (if apkPackage == "android" then "system" else apkPackage)
  {
    if !IsFirstPackage(rt, apkPackage) then Names(apkPackage, rt.currentPackageName)
    else if rt.currentPackageName.value == "android" then Names("system", rt.currentProcessName)
    else Names(rt.currentPackageName.value, rt.currentProcessName)
  }

  /** `Map.getOrDefault` on the loaded-modules map. */
  function GetOrDefault(m: map<string, Option<string>>, key: string, default: Option<string>): (r: Option<string>)
    ensures key in m ==> r == m[key]
    ensures key !in m ==> r == default
  {
    if key in m then m[key] else default
  }

  // ---------------------------------------------------------------------
  // hookNewXSP

  datatype LegacyFlags = LegacyFlags(minVersion: int, sharedPrefs: bool)

  /**
   * The flags `hookNewXSP` derives from the module's meta-data: an `Integer`
   * version is taken as is, a `String` through `extractIntPart`, anything
   * else leaves -1. An `IOException` or `NumberFormatException` leaves the
   * defaults (-1, false) for whatever was not assigned yet; any other
   * throwable escapes.
   */
  function ReadLegacyFlags(metaData: Outcome<map<string, MetaValue>>): (r: Outcome<LegacyFlags>)
    ensures metaData.Threw? && (metaData.error == IOException || metaData.error == NumberFormatException) ==>
              r == Returned(LegacyFlags(-1, false))
    ensures metaData.Threw? && metaData.error != IOException && metaData.error != NumberFormatException ==>
              r == Threw(metaData.error)
    ensures metaData.Returned? && "fposedminversion" !in metaData.value ==>
              r == Returned(LegacyFlags(-1, "xposedsharedprefs" in metaData.value))
    ensures metaData.Returned? && "fposedminversion" in metaData.value ==>
              var m := metaData.value;
              var hasPrefs := "xposedsharedprefs" in m;
              match m["fposedminversion"]
              case IntValue(i) => r == Returned(LegacyFlags(i as int, hasPrefs))
              case StringValue(_, intPart) =>
                if intPart.Some? then r == Returned(LegacyFlags(intPart.value as int, hasPrefs))
                else r == Returned(LegacyFlags(-1, false))
              case OtherValue => r == Returned(LegacyFlags(-1, hasPrefs))
    ensures r.Returned? ==> r.value.minVersion == -1 || FitsInt32(r.value.minVersion)
  {
    match metaData
    case Threw(e) =>
      if e == IOException || e == NumberFormatException then Returned(LegacyFlags(-1, false)) else Threw(e)
    case Returned(m) =>
      var hasPrefs := "xposedsharedprefs" in m;
      if "fposedminversion" !in m then Returned(LegacyFlags(-1, hasPrefs))
      else
        match m["fposedminversion"]
        case IntValue(i) => Returned(LegacyFlags(i as int, hasPrefs))
        case StringValue(_, intPart) =>
          if intPart.Some? then Returned(LegacyFlags(intPart.value as int, hasPrefs))
          else Returned(LegacyFlags(-1, false))
        case OtherValue => Returned(LegacyFlags(-1, hasPrefs))
  }

  /** The threshold rule: modules newer than protocol 92, or asking for shared prefs, get the compat hooks. */
  predicate WantsCompatHooks(flags: LegacyFlags): (r: bool)
    ensures flags.sharedPrefs ==> r
    ensures !flags.sharedPrefs ==> (r <==> flags.minVersion >= 93)
    ensures flags == LegacyFlags(-1, false) ==> !r
  {
    flags.minVersion > 92 || flags.sharedPrefs
  }

  /** What `hookNewXSP` does, as a specification. */
  function CompatHooks(lpparam: LoadPackageParam, env: Env): (h: Handling)
    ensures h.exit == Completed || h.exit.Failed?
    ensures h.effects == [] || h.effects == [CheckModeHooked(lpparam.classLoader)]
            || h.effects == [CheckModeHooked(lpparam.classLoader), PreferencesDirHooked(lpparam.classLoader, lpparam.packageName)]
  {
    match ReadLegacyFlags(env.metaData)
    case Threw(e) => Handling([], Failed(e))
    case Returned(flags) =>
      if !WantsCompatHooks(flags) then Handling([], Completed)
      else if HookCheckMode in env.faults then Handling([], Failed(OtherThrowable))
      else if HookPreferencesDir in env.faults then Handling([CheckModeHooked(lpparam.classLoader)], Failed(OtherThrowable))
      else Handling([CheckModeHooked(lpparam.classLoader), PreferencesDirHooked(lpparam.classLoader, lpparam.packageName)], Completed)
  }

  /** `hookNewXSP(lpparam)`, step by step over its two locals. */
  method HookNewXsp(lpparam: LoadPackageParam, env: Env) returns (effects: seq<Effect>, exit: Exit)
    ensures Handling(effects, exit) == CompatHooks(lpparam, env)
  {
    var xposedminversion: int := -1;
    var xposedsharedprefs := false;
    effects := [];
    if env.metaData.Threw? {
      var e := env.metaData.error;
      if e != IOException && e != NumberFormatException {
        return [], Failed(e);
      }
    } else {
      var metaData := env.metaData.value;
      var parsed := true;
      if "fposedminversion" in metaData {
        var minVersionRaw := metaData["fposedminversion"];
        if minVersionRaw.IntValue? {
          xposedminversion := minVersionRaw.i as int;
        } else if minVersionRaw.StringValue? {
          if minVersionRaw.intPart.Some? {
            xposedminversion := minVersionRaw.intPart.value as int;
          } else {
            parsed := false;
          }
        }
      }
      if parsed {
        xposedsharedprefs := "xposedsharedprefs" in metaData;
      }
    }
    assert ReadLegacyFlags(env.metaData) == Returned(LegacyFlags(xposedminversion, xposedsharedprefs));
    if xposedminversion > 92 || xposedsharedprefs {
      if HookCheckMode in env.faults {
        return [], Failed(OtherThrowable);
      }
      effects := effects + [CheckModeHooked(lpparam.classLoader)];
      if HookPreferencesDir in env.faults {
        return effects, Failed(OtherThrowable);
      }
      effects := effects + [PreferencesDirHooked(lpparam.classLoader, lpparam.packageName)];
    }
    exit := Completed;
  }

  /** The threshold examples: version 93 installs the hooks; version 50 without the shared-prefs key does not. */
  lemma ThresholdExamples(lpparam: LoadPackageParam, env: Env)
    requires env.faults == {}
    ensures env.metaData == Returned(map["fposedminversion" := IntValue(93)]) ==>
              CompatHooks(lpparam, env).effects
              == [CheckModeHooked(lpparam.classLoader), PreferencesDirHooked(lpparam.classLoader, lpparam.packageName)]
    ensures env.metaData == Returned(map["fposedminversion" := IntValue(50)]) ==>
              CompatHooks(lpparam, env) == Handling([], Completed)
  {
  }

  /**
   * For readable meta-data whose version parses, the compat hooks are
   * attempted exactly when the version exceeds 92 or the shared-prefs key is
   * present.
   */
  lemma CompatHooksIffThreshold(lpparam: LoadPackageParam, env: Env, m: map<string, MetaValue>, version: int)
    requires env.metaData == Returned(m) && env.faults == {}
    requires version == (if "fposedminversion" !in m then -1
                         else match m["fposedminversion"]
                           case IntValue(i) => i as int
                           case StringValue(_, p) => if p.Some? then p.value as int else -1
                           case OtherValue => -1)
    requires "fposedminversion" in m && m["fposedminversion"].StringValue? ==> m["fposedminversion"].intPart.Some?
    ensures CompatHooks(lpparam, env).effects != [] <==> version > 92 || "xposedsharedprefs" in m
    ensures CompatHooks(lpparam, env).exit == Completed
  {
  }

  /** A version string that does not parse disables the hooks, even with the shared-prefs key present. */
  lemma UnparsableVersionIgnoresSharedPrefs(lpparam: LoadPackageParam, env: Env, m: map<string, MetaValue>, text: string)
    requires env.metaData == Returned(m)
    requires "fposedminversion" in m && m["fposedminversion"] == StringValue(text, None)
    ensures ReadLegacyFlags(env.metaData) == Returned(LegacyFlags(-1, false))
    ensures CompatHooks(lpparam, env) == Handling([], Completed)
  {
  }

  // ---------------------------------------------------------------------
  // The hooks installed into the application

  /**
   * The `checkMode` after-hook: the pending throwable is cleared exactly when
   * the mode has `MODE_WORLD_READABLE` (bit 0) set.
   */
  function CheckModeAfterHook(mode: bv32, thrown: Option<Exception>): (r: Option<Exception>)
    ensures mode & 1 != 0 ==> r == None
    ensures mode & 1 == 0 ==> r == thrown
  {
    if mode & 1 != 0 then None else thrown
  }

  /**
   * The `getPreferencesDir` replacement: `new File(serviceClient.getPrefsPath(pkg))`.
   * Without a client, or when the path comes back null, the application's
   * call fails with a `NullPointerException`.
   */
  function PreferencesDirReplacement(client: Option<ServiceClient.Client>, prefsReply: Outcome<Option<string>>): (r: Outcome<string>)
    ensures r.Returned? <==> client.Some? && prefsReply.Returned? && prefsReply.value.Some?
    ensures r.Returned? ==> r.value == prefsReply.value.value
    ensures client.None? ==> r == Threw(NullPointerException)
  {
    if client.None? then Threw(NullPointerException)
    else match ServiceClient.GetPrefsPath(prefsReply)
      case Threw(e) => Threw(e)
      case Returned(path) => if path.Some? then Returned(path.value) else Threw(NullPointerException)
  }

  /** What `Activity.getSystemService` ends up returning once the binder hook is installed. */
  datatype ServiceObject = PlatformService(id: nat) | ModuleBinderObject(binder: ServiceClient.Binder)

  /** The `getSystemService` after-hook answers the module binder for the name "LSPosed" only. */
  function GetSystemServiceAfterHook(binder: ServiceClient.Binder, name: string, result: Option<ServiceObject>): (r: Option<ServiceObject>)
    ensures name == "LSPosed" ==> r == Some(ModuleBinderObject(binder))
    ensures name != "LSPosed" ==> r == result
  {
    if name == "LSPosed" then Some(ModuleBinderObject(binder)) else result
  }

  // ---------------------------------------------------------------------
  // The handler, as a specification

  /** The part after the module-binder request: service hook, dispatch, notification. */
  function Deliver(apk: LoadedApk, lpparam: LoadPackageParam, env: Env, binder: Option<ServiceClient.Binder>): (h: Handling)
    ensures h.exit == Completed <==>
              (binder.None? || HookGetSystemService !in env.faults)
              && DispatchLoadPackage !in env.faults && NotifyPackageLoaded !in env.faults
    ensures h.exit != Completed ==> h.exit == Failed(OtherThrowable)
    ensures var all := (if binder.Some? then [SystemServiceHooked(lpparam.classLoader, binder.value)] else [])
                       + [LoadPackageDispatched(lpparam),
                          PackageLoadedNotified(apk.packageName, apk.appInfo, lpparam.classLoader, lpparam.isFirstApplication)];
            && (h.exit == Completed ==> h.effects == all)
            && (h.exit != Completed ==> |h.effects| < |all| && h.effects == all[..|h.effects|])
  {
    var svc := if binder.Some? then [SystemServiceHooked(lpparam.classLoader, binder.value)] else [];
    if binder.Some? && HookGetSystemService in env.faults then Handling([], Failed(OtherThrowable))
    else if DispatchLoadPackage in env.faults then Handling(svc, Failed(OtherThrowable))
    else if NotifyPackageLoaded in env.faults then Handling(svc + [LoadPackageDispatched(lpparam)], Failed(OtherThrowable))
    else Handling(svc + [LoadPackageDispatched(lpparam), PackageLoadedNotified(apk.packageName, apk.appInfo, lpparam.classLoader, lpparam.isFirstApplication)], Completed)
  }

  /** The module-binder request and what follows it; the request needs an installed client. */
  function RequestAndDeliver(apk: LoadedApk, lpparam: LoadPackageParam, env: Env, clientPresent: bool): (h: Handling)
    ensures !clientPresent ==> h == Handling([], Failed(NullPointerException))
    ensures clientPresent ==> |h.effects| >= 1 && h.effects[0] == ModuleBinderRequested(lpparam.packageName)
    ensures clientPresent && env.moduleBinderReply.Threw? && !ServiceClient.Swallowed(env.moduleBinderReply.error) ==>
              h == Handling([ModuleBinderRequested(lpparam.packageName)], Failed(env.moduleBinderReply.error))
    ensures h.exit == Completed ==>
              clientPresent && |h.effects| >= 3
              && h.effects[|h.effects| - 2] == LoadPackageDispatched(lpparam)
              && h.effects[|h.effects| - 1] == PackageLoadedNotified(apk.packageName, apk.appInfo, lpparam.classLoader, lpparam.isFirstApplication)
  {
    if !clientPresent then Handling([], Failed(NullPointerException))
    else
      var requested := [ModuleBinderRequested(lpparam.packageName)];
      match ServiceClient.RequestModuleBinder(env.moduleBinderReply)
      case Threw(e) => Handling(requested, Failed(e))
      case Returned(binder) =>
        var rest := Deliver(apk, lpparam, env, binder);
        Handling(requested + rest.effects, rest.exit)
  }

  /** The body of the hook's `try` for a tracked container. */
  function Process(apk: LoadedApk, env: Env, clientPresent: bool): (h: Handling)
    ensures h.exit != NotTracked
  {
    var first := IsFirstPackage(env.runtime, apk.packageName);
    var names := ReportedNames(env.runtime, apk.packageName);
    if apk.classLoader.None? then Handling([], NoClassLoader)
    else if !first && !apk.includeCode then Handling([], NoCode)
    else if !first && GetOrDefault(env.loadedModules, names.packageName, Some("")).None? then Handling([], DisabledModule)
    else
      var lpparam := LoadPackageParam(env.loadPackageCallbacks, names.packageName, names.processName,
                                      apk.classLoader.value, apk.appInfo, first);
      var compat :=
        if first && GetOrDefault(env.loadedModules, names.packageName, None).Some? then CompatHooks(lpparam, env)
        else Handling([], Completed);
      if compat.exit != Completed then compat
      else
        var rest := RequestAndDeliver(apk, lpparam, env, clientPresent);
        Handling(compat.effects + rest.effects, rest.exit)
  }

  datatype Fired = Fired(tracked: set<ContainerId>, handling: Handling)

  /**
   * One firing of the hook against the in-flight set: an untracked container
   * or a call with `addedPaths` leaves everything as it was; a tracked one is
   * processed and then removed, whatever the outcome.
   */
  function Fire(tracked: set<ContainerId>, call: HookCall, env: Env, clientPresent: bool): (f: Fired)
    ensures call.addedPaths.Some? || call.apk.id !in tracked ==>
              f.tracked == tracked && f.handling == Handling([], NotTracked)
    ensures call.addedPaths.None? && call.apk.id in tracked ==>
              f.tracked == tracked - {call.apk.id} && f.handling.exit != NotTracked
  {
    if call.addedPaths.Some? || call.apk.id !in tracked then Fired(tracked, Handling([], NotTracked))
    else Fired(tracked - {call.apk.id}, Process(call.apk, env, clientPresent))
  }

  // ---------------------------------------------------------------------
  // Properties of one handling

  /** The `LoadPackageParam` the handler builds for a container with a class loader. */
  function ParamOf(apk: LoadedApk, env: Env): LoadPackageParam
    requires apk.classLoader.Some?
  {
    var names := ReportedNames(env.runtime, apk.packageName);
    LoadPackageParam(env.loadPackageCallbacks, names.packageName, names.processName,
                     apk.classLoader.value, apk.appInfo, IsFirstPackage(env.runtime, apk.packageName))
  }

  /** Whether `hookNewXSP` is called: a first package whose map entry is present (absent means empty). */
  predicate CallsHookNewXsp(apk: LoadedApk, env: Env) {
    IsFirstPackage(env.runtime, apk.packageName)
    && GetOrDefault(env.loadedModules, ReportedNames(env.runtime, apk.packageName).packageName, None).Some?
  }

  /** The compat hooks a handling that runs to the end installs. */
  function ExpectedCompat(apk: LoadedApk, env: Env): seq<Effect>
    requires apk.classLoader.Some?
  {
    var p := ParamOf(apk, env);
    var flags := ReadLegacyFlags(env.metaData);
    if CallsHookNewXsp(apk, env) && flags.Returned? && WantsCompatHooks(flags.value)
    then [CheckModeHooked(p.classLoader), PreferencesDirHooked(p.classLoader, p.packageName)]
    else []
  }

  /** What a handling that runs to the end does after the compat hooks. */
  function ExpectedTail(apk: LoadedApk, env: Env): seq<Effect>
    requires apk.classLoader.Some?
  {
    var p := ParamOf(apk, env);
    var binder := ServiceClient.RequestModuleBinder(env.moduleBinderReply);
    var svc :=
      if binder.Returned? && binder.value.Some? then [SystemServiceHooked(p.classLoader, binder.value.value)] else [];
    [ModuleBinderRequested(p.packageName)] + svc
    + [LoadPackageDispatched(p), PackageLoadedNotified(apk.packageName, apk.appInfo, p.classLoader, p.isFirstApplication)]
  }

  /**
   * The effects of a handling that runs to the end, stated without
   * reference to faults: the compat hooks when wanted, the binder request,
   * the binder hook when a binder came back, the dispatch, the notification.
   */
  function ExpectedEffects(apk: LoadedApk, env: Env): seq<Effect>
    requires apk.classLoader.Some?
  {
    ExpectedCompat(apk, env) + ExpectedTail(apk, env)
  }

  /** The compat stage of a handling: the expected hooks, or a prefix of them when it fails. */
  lemma CompatStagePrefix(apk: LoadedApk, env: Env)
    requires apk.classLoader.Some?
    ensures var c := if CallsHookNewXsp(apk, env) then CompatHooks(ParamOf(apk, env), env) else Handling([], Completed);
            && (c.exit == Completed ==> c.effects == ExpectedCompat(apk, env))
            && (c.exit != Completed ==> |c.effects| <= |ExpectedCompat(apk, env)| && c.effects == ExpectedCompat(apk, env)[..|c.effects|])
  {
  }

  /** The stage from the binder request on: the expected effects, or a proper prefix of them when it fails. */
  lemma {:induction false} TailStagePrefix(apk: LoadedApk, env: Env, clientPresent: bool)
    requires apk.classLoader.Some?
    ensures var rest := RequestAndDeliver(apk, ParamOf(apk, env), env, clientPresent);
            && (rest.exit == Completed ==> rest.effects == ExpectedTail(apk, env))
            && (rest.exit != Completed ==> |rest.effects| < |ExpectedTail(apk, env)| && rest.effects == ExpectedTail(apk, env)[..|rest.effects|])
  {
    var p := ParamOf(apk, env);
    var rest := RequestAndDeliver(apk, p, env, clientPresent);
    var t := ExpectedTail(apk, env);
    var binder := ServiceClient.RequestModuleBinder(env.moduleBinderReply);
    if clientPresent && binder.Returned? {
      var d := Deliver(apk, p, env, binder.value);
      assert rest.effects == [ModuleBinderRequested(p.packageName)] + d.effects;
      assert t == [ModuleBinderRequested(p.packageName)] + t[1..];
      if rest.exit != Completed {
        assert t[..|rest.effects|] == [ModuleBinderRequested(p.packageName)] + t[1..][..|d.effects|];
      }
    }
  }

  /** A handling that is not suppressed is its compat stage followed, if that completed, by the rest. */
  lemma ProcessStages(apk: LoadedApk, env: Env, clientPresent: bool)
    requires !SuppressedBy(apk, env)
    ensures apk.classLoader.Some?
    ensures var c := if CallsHookNewXsp(apk, env) then CompatHooks(ParamOf(apk, env), env) else Handling([], Completed);
            var rest := RequestAndDeliver(apk, ParamOf(apk, env), env, clientPresent);
            Process(apk, env, clientPresent)
            == if c.exit != Completed then c else Handling(c.effects + rest.effects, rest.exit)
  {
  }

  /** The only dispatch among the expected effects carries `ParamOf`, just before the notification. */
  lemma ExpectedDispatchIsParamOf(apk: LoadedApk, env: Env, i: int)
    requires apk.classLoader.Some?
    requires 0 <= i < |ExpectedEffects(apk, env)| && ExpectedEffects(apk, env)[i].LoadPackageDispatched?
    ensures ExpectedEffects(apk, env)[i] == LoadPackageDispatched(ParamOf(apk, env))
    ensures i == |ExpectedEffects(apk, env)| - 2
    ensures ExpectedEffects(apk, env)[i + 1]
            == PackageLoadedNotified(apk.packageName, apk.appInfo, apk.classLoader.value, IsFirstPackage(env.runtime, apk.packageName))
  {
    var c, t := ExpectedCompat(apk, env), ExpectedTail(apk, env);
    assert ExpectedEffects(apk, env) == c + t;
    if i >= |c| {
      assert t[i - |c|] == ExpectedEffects(apk, env)[i];
    }
  }

  /** The suppression conditions, in the order the handler tests them. */
  predicate SuppressedBy(apk: LoadedApk, env: Env) {
    var first := IsFirstPackage(env.runtime, apk.packageName);
    var pkg := ReportedNames(env.runtime, apk.packageName).packageName;
    || apk.classLoader.None?
    || (!first && !apk.includeCode)
    || (!first && pkg in env.loadedModules && env.loadedModules[pkg].None?)
  }

  /**
   * A tracked container is suppressed (no effect at all: no dispatch, no
   * binder request, no notification) exactly when its class loader is null,
   * or it is secondary and has no code, or it is secondary and mapped to
   * `Optional.empty()`. A secondary package absent from the map is not
   * suppressed.
   */
  lemma SuppressionIff(apk: LoadedApk, env: Env, clientPresent: bool)
    ensures Suppressed(Process(apk, env, clientPresent).exit) <==> SuppressedBy(apk, env)
    ensures SuppressedBy(apk, env) ==> Process(apk, env, clientPresent).effects == []
  {
  }

  /**
   * A handling that ran to the end produced exactly the expected effects in
   * the fixed order; one that a throwable ended produced a proper prefix of
   * them.
   */
  lemma EffectsFollowExpectedOrder(apk: LoadedApk, env: Env, clientPresent: bool)
    requires !SuppressedBy(apk, env)
    ensures apk.classLoader.Some?
    ensures Process(apk, env, clientPresent).exit == Completed ==>
              Process(apk, env, clientPresent).effects == ExpectedEffects(apk, env)
    ensures Process(apk, env, clientPresent).exit.Failed? ==>
              var e := Process(apk, env, clientPresent).effects;
              |e| < |ExpectedEffects(apk, env)| && e == ExpectedEffects(apk, env)[..|e|]
  {
    ProcessStages(apk, env, clientPresent);
    CompatStagePrefix(apk, env);
    TailStagePrefix(apk, env, clientPresent);
    var c := if CallsHookNewXsp(apk, env) then CompatHooks(ParamOf(apk, env), env) else Handling([], Completed);
    var rest := RequestAndDeliver(apk, ParamOf(apk, env), env, clientPresent);
    var x := ExpectedEffects(apk, env);
    var e := Process(apk, env, clientPresent).effects;
    if c.exit != Completed {
      assert x[..|e|] == ExpectedCompat(apk, env)[..|e|];
    } else if rest.exit != Completed {
      assert x[..|e|] == ExpectedCompat(apk, env) + ExpectedTail(apk, env)[..|rest.effects|];
    }
  }

  /**
   * Without faults, with a client installed and with remote and meta-data
   * failures limited to those the code swallows, a handling that is not
   * suppressed runs to the end.
   */
  lemma FaultFreeHandlingCompletes(apk: LoadedApk, env: Env)
    requires !SuppressedBy(apk, env) && env.faults == {}
    requires env.moduleBinderReply.Threw? ==> ServiceClient.Swallowed(env.moduleBinderReply.error)
    requires env.metaData.Threw? ==> env.metaData.error == IOException || env.metaData.error == NumberFormatException
    ensures Process(apk, env, true).exit == Completed
  {
  }

  /**
   * With no client installed the binder request throws: nothing is
   * requested, dispatched or notified, though the compat hooks may already
   * be in place.
   */
  lemma NoClientNoDispatch(apk: LoadedApk, env: Env)
    ensures forall e :: e in Process(apk, env, false).effects ==> e.CheckModeHooked? || e.PreferencesDirHooked?
    ensures Process(apk, env, false).exit != Completed
  {
  }

  /**
   * The dispatched parameter: its flag is the first-package test, and its
   * names follow the naming rule (secondary: the container's package in the
   * current package's process; first: the runtime's names with "android"
   * renamed "system"). The notification carries the same flag and the
   * container's own package name.
   */
  lemma DispatchedParamFollowsNaming(apk: LoadedApk, env: Env, clientPresent: bool, p: LoadPackageParam)
    requires LoadPackageDispatched(p) in Process(apk, env, clientPresent).effects
    ensures apk.classLoader == Some(p.classLoader) && p.appInfo == apk.appInfo
    ensures p.callbacks == env.loadPackageCallbacks
    ensures p.isFirstApplication <==>
              env.runtime.currentPackageName.Some? && env.runtime.currentProcessName.Some?
              && env.runtime.currentPackageName.value == apk.packageName
    ensures !p.isFirstApplication ==>
              p.packageName == apk.packageName && p.processName == env.runtime.currentPackageName
    ensures p.isFirstApplication ==>
              p.processName == env.runtime.currentProcessName
              && p.packageName == (if apk.packageName == "android" then "system" else apk.packageName)
    ensures PackageLoadedNotified(apk.packageName, apk.appInfo, p.classLoader, p.isFirstApplication) in Process(apk, env, clientPresent).effects
            || Process(apk, env, clientPresent).exit.Failed?
  {
    SuppressionIff(apk, env, clientPresent);
    EffectsFollowExpectedOrder(apk, env, clientPresent);
    var h := Process(apk, env, clientPresent);
    var x := ExpectedEffects(apk, env);
    var i :| 0 <= i < |h.effects| && h.effects[i] == LoadPackageDispatched(p);
    assert x[i] == LoadPackageDispatched(p);
    ExpectedDispatchIsParamOf(apk, env, i);
    if h.exit == Completed {
      assert h.effects[|x| - 1] == PackageLoadedNotified(apk.packageName, apk.appInfo, p.classLoader, p.isFirstApplication);
    }
  }

  /**
   * The compat hooks are only ever installed for a first package whose map
   * entry is present and whose meta-data passes the threshold rule.
   */
  lemma CompatHooksOnlyForFirstModule(apk: LoadedApk, env: Env, clientPresent: bool, cl: ClassLoaderRef)
    requires CheckModeHooked(cl) in Process(apk, env, clientPresent).effects
    ensures CallsHookNewXsp(apk, env)
    ensures ReadLegacyFlags(env.metaData).Returned? && WantsCompatHooks(ReadLegacyFlags(env.metaData).value)
  {
    SuppressionIff(apk, env, clientPresent);
    EffectsFollowExpectedOrder(apk, env, clientPresent);
    var h := Process(apk, env, clientPresent);
    var x := ExpectedEffects(apk, env);
    var i :| 0 <= i < |h.effects| && h.effects[i] == CheckModeHooked(cl);
    assert x[i] == CheckModeHooked(cl);
  }

  // ---------------------------------------------------------------------
  // Repeated firings

  /** Once a firing has processed a container, a further firing on it does nothing. */
  lemma SecondFireIsNoOp(tracked: set<ContainerId>, first: HookCall, second: HookCall, env1: Env, env2: Env, c1: bool, c2: bool)
    requires first.addedPaths.None? && first.apk.id in tracked
    requires second.apk.id == first.apk.id
    ensures var after := Fire(tracked, first, env1, c1).tracked;
            Fire(after, second, env2, c2) == Fired(after, Handling([], NotTracked))
  {
  }

  /** What a process observes: containers being constructed, and the hook firing. */
  datatype Event =
    | Constructed(apk: ContainerId)
    | ClassLoaderCreated(call: HookCall, env: Env, clientPresent: bool)

  function After(tracked: set<ContainerId>, e: Event): set<ContainerId> {
    match e
    case Constructed(a) => tracked + {a}
    case ClassLoaderCreated(call, env, cp) => Fire(tracked, call, env, cp).tracked
  }

  function Final(tracked: set<ContainerId>, events: seq<Event>): set<ContainerId>
    decreases |events|
  {
    if events == [] then tracked else Final(After(tracked, events[0]), events[1..])
  }

  /** Whether event `e` is a firing that gets past the guard for container `c`. */
  predicate ProcessesFor(c: ContainerId, tracked: set<ContainerId>, e: Event) {
    e.ClassLoaderCreated? && e.call.apk.id == c
    && Fire(tracked, e.call, e.env, e.clientPresent).handling.exit != NotTracked
  }

  function ProcessedCount(c: ContainerId, tracked: set<ContainerId>, events: seq<Event>): nat
    decreases |events|
  {
    if events == [] then 0
    else (if ProcessesFor(c, tracked, events[0]) then 1 else 0)
         + ProcessedCount(c, After(tracked, events[0]), events[1..])
  }

  function ConstructedCount(c: ContainerId, events: seq<Event>): nat
    decreases |events|
  {
    if events == [] then 0
    else (if events[0] == Constructed(c) then 1 else 0) + ConstructedCount(c, events[1..])
  }

  /**
   * Each tracking of a container is consumed by at most one processed
   * firing: processed firings, plus one if the container is still tracked
   * at the end, never exceed the trackings (initial membership plus
   * constructions).
   */
  lemma {:induction false} ProcessedAtMostOncePerTracking(c: ContainerId, tracked: set<ContainerId>, events: seq<Event>)
    ensures ProcessedCount(c, tracked, events) + (if c in Final(tracked, events) then 1 else 0)
            <= (if c in tracked then 1 else 0) + ConstructedCount(c, events)
    decreases |events|
  {
    if events != [] {
      ProcessedAtMostOncePerTracking(c, After(tracked, events[0]), events[1..]);
      match events[0]
      case Constructed(a) =>
      case ClassLoaderCreated(call, env, cp) =>
        if call.apk.id == c && call.addedPaths.None? && c in tracked {
          assert c !in After(tracked, events[0]);
        }
    }
  }

  /**
   * Without a new construction, a container is processed at most once, and
   * never if it was not tracked to begin with.
   */
  lemma ProcessedAtMostOnce(c: ContainerId, tracked: set<ContainerId>, events: seq<Event>)
    requires ConstructedCount(c, events) == 0
    ensures ProcessedCount(c, tracked, events) <= 1
    ensures c !in tracked ==> ProcessedCount(c, tracked, events) == 0
  {
    ProcessedAtMostOncePerTracking(c, tracked, events);
  }

  // ---------------------------------------------------------------------
  // The hooker's static state

  class Tracker {
    /** `loadedApks`: the containers constructed and not yet handled. */
    var loadedApks: set<ContainerId>

    constructor ()
      ensures loadedApks == {}
    {
      loadedApks := {};
    }

    /** `addLoadedApk`, called when a container is constructed. */
    method AddLoadedApk(apk: ContainerId)
      modifies this
      ensures loadedApks == old(loadedApks) + {apk}
    {
      loadedApks := loadedApks + {apk};
    }

    /**
     * `afterHookedMethod`. `services` holds the static `serviceClient` read
     * at line 131. The guard returns before the `try`; the removal after the
     * `try` body is the `finally`, run on every exit of that body.
     */
    method AfterHookedMethod(call: HookCall, env: Env, services: ServiceClient.Holder) returns (effects: seq<Effect>, exit: Exit)
      modifies this
      ensures var f := Fire(old(loadedApks), call, env, services.serviceClient.Some?);
              loadedApks == f.tracked && effects == f.handling.effects && exit == f.handling.exit
    {
      var loadedApk := call.apk;
      if call.addedPaths.Some? || loadedApk.id !in loadedApks {
        return [], NotTracked;
      }
      effects, exit := TryBody(loadedApk, env, services.serviceClient.Some?);
      loadedApks := loadedApks - {loadedApk.id};
    }
  }

  /**
   * The `try` body of `afterHookedMethod`: the local names are reassigned
   * step by step, each guard returns early, and a throwable ends it as
   * `Failed`.
   */
  method TryBody(loadedApk: LoadedApk, env: Env, clientPresent: bool) returns (effects: seq<Effect>, exit: Exit)
    ensures Handling(effects, exit) == Process(loadedApk, env, clientPresent)
  {
    var packageName := env.runtime.currentPackageName;
    var processName := env.runtime.currentProcessName;
    var isFirstPackage := packageName.Some? && processName.Some? && packageName.value == loadedApk.packageName;
    if !isFirstPackage {
      packageName := Some(loadedApk.packageName);
      processName := env.runtime.currentPackageName;
    } else if packageName.value == "android" {
      packageName := Some("system");
    }
    assert Names(packageName.value, processName) == ReportedNames(env.runtime, loadedApk.packageName);

    var classLoader := loadedApk.classLoader;
    if classLoader.None? {
      return [], NoClassLoader;
    }
    if !isFirstPackage && !loadedApk.includeCode {
      return [], NoCode;
    }
    if !isFirstPackage && !GetOrDefault(env.loadedModules, packageName.value, Some("")).Some? {
      return [], DisabledModule;
    }

    var lpparam := LoadPackageParam(env.loadPackageCallbacks, packageName.value, processName,
                                    classLoader.value, loadedApk.appInfo, isFirstPackage);
    effects := [];
    if isFirstPackage && GetOrDefault(env.loadedModules, packageName.value, None).Some? {
      effects, exit := HookNewXsp(lpparam, env);
      if exit != Completed {
        return;
      }
    }
    var rest, restExit := RequestAndDeliverSteps(loadedApk, lpparam, env, clientPresent);
    effects, exit := effects + rest, restExit;
  }

  /**
   * From the module-binder request on: the request (which throws a
   * `NullPointerException` when no client is installed), the
   * `getSystemService` hook for a non-null binder, the legacy dispatch and
   * the package-loaded notification.
   */
  method RequestAndDeliverSteps(loadedApk: LoadedApk, lpparam: LoadPackageParam, env: Env, clientPresent: bool)
    returns (effects: seq<Effect>, exit: Exit)
    ensures Handling(effects, exit) == RequestAndDeliver(loadedApk, lpparam, env, clientPresent)
  {
    if !clientPresent {
      return [], Failed(NullPointerException);
    }
    effects := [ModuleBinderRequested(lpparam.packageName)];
    var moduleBinder := ServiceClient.RequestModuleBinder(env.moduleBinderReply);
    if moduleBinder.Threw? {
      return effects, Failed(moduleBinder.error);
    }
    if moduleBinder.value.Some? {
      if HookGetSystemService in env.faults {
        return effects, Failed(OtherThrowable);
      }
      effects := effects + [SystemServiceHooked(lpparam.classLoader, moduleBinder.value.value)];
    }
    if DispatchLoadPackage in env.faults {
      return effects, Failed(OtherThrowable);
    }
    effects := effects + [LoadPackageDispatched(lpparam)];
    if NotifyPackageLoaded in env.faults {
      return effects, Failed(OtherThrowable);
    }
    effects := effects + [PackageLoadedNotified(loadedApk.packageName, loadedApk.appInfo, lpparam.classLoader, lpparam.isFirstApplication)];
    exit := Completed;
  }
}

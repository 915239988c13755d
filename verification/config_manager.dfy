/**
 * `ConfigManager`: the manager app's static wrappers around the privileged
 * manager service. The service is what `LFPManagerServiceHolder.getService()`
 * answers (possibly `null`); each wrapper makes one call on it and catches
 * only `RemoteException`, mapping it to a fixed default. A `null` service is
 * dereferenced, so the wrapper throws `NullPointerException`.
 */
module ConfigManager {
  import opened JavaLang

  /** The `ILFPManagerService` proxy, by identity. */
  datatype ManagerService = ManagerService(id: nat)

  /** Parcels the wrappers pass through unchanged, by identity. */
  type PackageInfo = nat
  type UserInfo = nat
  type ResolveInfo = nat
  type FileDescriptor = nat

  /** `org.lsposed.lspd.models.Application` (and the manager's `ApplicationWithEquals` view of it). */
  datatype Application = Application(userId: Int32, packageName: string)

  /** `isBinderAlive()`: the holder currently has a service. */
  predicate IsBinderAlive(service: Option<ManagerService>): (r: bool)
    ensures r <==> service != None
  {
    service.Some?
  }

  // ---------------------------------------------------------------------
  // The failure-to-default table

  /**
   * What a wrapper with default `fallback` promises, given the holder's
   * service and the reply of its one remote call: a `null` service throws
   * `NullPointerException`; otherwise the reply is returned unchanged, a
   * `RemoteException` becomes `fallback`, and any other throwable passes
   * through.
   */
  ghost predicate RemoteOrDefault<T>(service: Option<ManagerService>, reply: Outcome<T>, r: Outcome<T>, fallback: T) {
    && (service.None? ==> r == Threw(NullPointerException))
    && (service.Some? && reply.Returned? ==> r == reply)
    && (service.Some? && reply == Threw(RemoteException) ==> r == Returned(fallback))
    && (service.Some? && reply.Threw? && reply.error != RemoteException ==> r == reply)
  }

  /** `try { return getService().op(..); } catch (RemoteException e) { return fallback; }` */
  function Fetch<T>(service: Option<ManagerService>, reply: Outcome<T>, fallback: T): (r: Outcome<T>)
    ensures RemoteOrDefault(service, reply, r, fallback)
    ensures r.Threw? ==> r.error != RemoteException
  {
    if service.None? then Threw(NullPointerException)
    else match reply
      case Returned(v) => Returned(v)
      case Threw(e) => if e == RemoteException then Returned(fallback) else Threw(e)
  }

  /**
   * `isBinderAlive` decides whether the wrappers reach the service: with no
   * service every wrapper throws `NullPointerException`, whatever the
   * remote would have answered; with one, an answer comes back unchanged.
   */
  lemma BinderAliveDecidesReach<T>(service: Option<ManagerService>, reply: Outcome<T>, fallback: T)
    ensures !IsBinderAlive(service) ==>
              Fetch(service, reply, fallback) == Threw(NullPointerException)
              && Acknowledge(service, Returned(())) == Threw(NullPointerException)
    ensures IsBinderAlive(service) && reply.Returned? ==> Fetch(service, reply, fallback) == reply
    ensures IsBinderAlive(service) <==> Acknowledge(service, Returned(())) == Returned(true)
  {
  }

  /** `getXposedApiVersion()`: -1 on `RemoteException`. */
  function GetXposedApiVersion(service: Option<ManagerService>, reply: Outcome<Int32>): (r: Outcome<Int32>)
    ensures RemoteOrDefault(service, reply, r, -1)
  {
    Fetch(service, reply, -1)
  }

  /** `getXposedVersionName()`: the empty string on `RemoteException`. */
  function GetXposedVersionName(service: Option<ManagerService>, reply: Outcome<Option<string>>): (r: Outcome<Option<string>>)
    ensures RemoteOrDefault(service, reply, r, Some(""))
  {
    Fetch(service, reply, Some(""))
  }

  /** `getXposedVersionCode()`: -1 on `RemoteException`. */
  function GetXposedVersionCode(service: Option<ManagerService>, reply: Outcome<Int32>): (r: Outcome<Int32>)
    ensures RemoteOrDefault(service, reply, r, -1)
  {
    Fetch(service, reply, -1)
  }

  /** `getEnabledModules()`: a new empty array on `RemoteException`. */
  function GetEnabledModules(service: Option<ManagerService>, reply: Outcome<Option<seq<string>>>): (r: Outcome<Option<seq<string>>>)
    ensures RemoteOrDefault(service, reply, r, Some([]))
  {
    Fetch(service, reply, Some([]))
  }

  /**
   * `setModuleEnabled(packageName, enable)`: calls `enableModule` or
   * `disableModule` as `enable` says; false on `RemoteException`.
   */
  function SetModuleEnabled(service: Option<ManagerService>, enable: bool,
                            enableReply: Outcome<bool>, disableReply: Outcome<bool>): (r: Outcome<bool>)
    ensures enable ==> RemoteOrDefault(service, enableReply, r, false)
    ensures !enable ==> RemoteOrDefault(service, disableReply, r, false)
  {
    Fetch(service, if enable then enableReply else disableReply, false)
  }

  /**
   * A boolean query with default false: `enableStatusNotification`,
   * `isVerboseLogEnabled`, `isLogWatchdogEnabled`, `clearLogs`,
   * `uninstallPackage`, `isSepolicyLoaded`, `systemServerRequested`,
   * `dex2oatFlagsLoaded`, `isDexObfuscateEnabled`, `isEnableCli`,
   * `getAutomaticAdd`.
   */
  function BooleanQuery(service: Option<ManagerService>, reply: Outcome<bool>): (r: Outcome<bool>)
    ensures RemoteOrDefault(service, reply, r, false)
    ensures r == Returned(true) ==> reply == Returned(true)
  {
    Fetch(service, reply, false)
  }

  /**
   * A setter over a `void` remote call: `setEnableStatusNotification`,
   * `setVerboseLogEnabled`, `setLogWatchdog`, `forceStopPackage`, `reboot`,
   * `setHiddenIcon`, `setDexObfuscateEnabled`, `setEnableCli`,
   * `setSessionTimeout`, `setAutomaticAdd`. It answers true iff the remote
   * call returned, false iff it threw `RemoteException`.
   */
  function Acknowledge(service: Option<ManagerService>, reply: Outcome<()>): (r: Outcome<bool>)
    ensures r == Returned(true) <==> service.Some? && reply.Returned?
    ensures r == Returned(false) <==> service.Some? && reply == Threw(RemoteException)
    ensures r.Threw? <==> service.None? || (reply.Threw? && reply.error != RemoteException)
    ensures r.Threw? ==> r.error == (if service.None? then NullPointerException else reply.error)
  {
    match Fetch(service, reply, ())
    case Returned(_) => Returned(reply.Returned?)
    case Threw(e) => Threw(e)
  }

  /** `getLog(verbose)`: the verbose or the modules log descriptor; `null` on `RemoteException`. */
  function GetLog(service: Option<ManagerService>, verbose: bool,
                  verboseReply: Outcome<Option<FileDescriptor>>, modulesReply: Outcome<Option<FileDescriptor>>): (r: Outcome<Option<FileDescriptor>>)
    ensures verbose ==> RemoteOrDefault(service, verboseReply, r, None)
    ensures !verbose ==> RemoteOrDefault(service, modulesReply, r, None)
  {
    Fetch(service, if verbose then verboseReply else modulesReply, None)
  }

  /** `getUsers()`: unlike the other list wrappers, `null` on `RemoteException`. */
  function GetUsers(service: Option<ManagerService>, reply: Outcome<Option<seq<UserInfo>>>): (r: Outcome<Option<seq<UserInfo>>>)
    ensures RemoteOrDefault(service, reply, r, None)
  {
    Fetch(service, reply, None)
  }

  /** `startActivityAsUserWithFeature(intent, userId)`: -1 on `RemoteException`. */
  function StartActivityAsUserWithFeature(service: Option<ManagerService>, reply: Outcome<Int32>): (r: Outcome<Int32>)
    ensures RemoteOrDefault(service, reply, r, -1)
  {
    Fetch(service, reply, -1)
  }

  /** `getApi()`: on `RemoteException`, the exception's own text (`exceptionText`). */
  function GetApi(service: Option<ManagerService>, reply: Outcome<Option<string>>, exceptionText: string): (r: Outcome<Option<string>>)
    ensures RemoteOrDefault(service, reply, r, Some(exceptionText))
  {
    Fetch(service, reply, Some(exceptionText))
  }

  /** `flashZip(zipPath, outputStream)`: returns nothing; a `RemoteException` is swallowed. */
  function FlashZip(service: Option<ManagerService>, reply: Outcome<()>): (r: Outcome<()>)
    ensures r.Returned? <==> service.Some? && (reply.Returned? || reply == Threw(RemoteException))
    ensures r.Threw? ==> r.error == (if service.None? then NullPointerException else reply.error)
  {
    Fetch(service, reply, ())
  }

  /** `getSessionTimeout()`: -2 on `RemoteException`. */
  function GetSessionTimeout(service: Option<ManagerService>, reply: Outcome<Int32>): (r: Outcome<Int32>)
    ensures RemoteOrDefault(service, reply, r, -2)
  {
    Fetch(service, reply, -2)
  }

  /**
   * `getDex2OatWrapperCompatibility()`: `ILFPManagerService.DEX2OAT_CRASHED`
   * on `RemoteException`. That constant is declared in the service's
   * interface, which is not part of this model, so it is the parameter
   * `crashedCode`.
   */
  function GetDex2OatWrapperCompatibility(service: Option<ManagerService>, reply: Outcome<Int32>, crashedCode: Int32): (r: Outcome<Int32>)
    ensures RemoteOrDefault(service, reply, r, crashedCode)
  {
    Fetch(service, reply, crashedCode)
  }

  /** `INSTALL_SUCCEEDED` in `installExistingPackageAsUser`. */
  const InstallSucceeded: Int32 := 1

  /** `installExistingPackageAsUser(packageName, userId)`: true iff the remote answered 1. */
  function InstallExistingPackageAsUser(service: Option<ManagerService>, reply: Outcome<Int32>): (r: Outcome<bool>)
    ensures r == Returned(true) <==> service.Some? && reply == Returned(1)
    ensures r == Returned(false) <==>
              service.Some? && ((reply.Returned? && reply.value != 1) || reply == Threw(RemoteException))
    ensures r.Threw? <==> service.None? || (reply.Threw? && reply.error != RemoteException)
  {
    match Fetch(service, reply, InstallSucceeded - 1)
    case Returned(code) => Returned(code == InstallSucceeded)
    case Threw(e) => Threw(e)
  }

  /**
   * `getPackageInfo(packageName, flags, userId)`: never answers `null`; a
   * `null` reply and a `RemoteException` both become
   * `NameNotFoundException`.
   */
  function GetPackageInfo(service: Option<ManagerService>, reply: Outcome<Option<PackageInfo>>): (r: Outcome<PackageInfo>)
    ensures r.Returned? <==> service.Some? && reply.Returned? && reply.value.Some?
    ensures r.Returned? ==> reply == Returned(Some(r.value))
    ensures service.Some? && (reply == Returned(None) || reply == Threw(RemoteException)) ==>
              r == Threw(NameNotFoundException)
    ensures service.None? ==> r == Threw(NullPointerException)
    ensures service.Some? && reply.Threw? && reply.error != RemoteException ==> r == Threw(reply.error)
  {
    if service.None? then Threw(NullPointerException)
    else match reply
      case Returned(None) => Threw(NameNotFoundException)
      case Returned(Some(info)) => Returned(info)
      case Threw(e) => if e == RemoteException then Threw(NameNotFoundException) else Threw(e)
  }

  // ---------------------------------------------------------------------
  // List wrappers

  /**
   * `getInstalledPackagesFromAllUsers`, `queryIntentActivitiesAsUser` and
   * `getDenyListPackages`: a fresh list into which the remote's list is
   * copied. `reply` is that list, `None` when the remote (or its slice)
   * answered `null`, which `addAll` dereferences. On `RemoteException` the
   * list stays empty and is returned: never `null`.
   */
  method CollectList<T>(service: Option<ManagerService>, reply: Outcome<Option<seq<T>>>) returns (r: Outcome<seq<T>>)
    ensures service.None? ==> r == Threw(NullPointerException)
    ensures service.Some? && reply.Returned? && reply.value.Some? ==> r == Returned(reply.value.value)
    ensures service.Some? && reply == Returned(None) ==> r == Threw(NullPointerException)
    ensures service.Some? && reply == Threw(RemoteException) ==> r == Returned([])
    ensures service.Some? && reply.Threw? && reply.error != RemoteException ==> r == Threw(reply.error)
  {
    var list: seq<T> := [];
    if service.None? {
      return Threw(NullPointerException);
    }
    match reply {
      case Returned(items) =>
        if items.None? {
          return Threw(NullPointerException);
        }
        list := list + items.value;
        assert list == items.value;
      case Threw(e) =>
        if e != RemoteException {
          return Threw(e);
        }
    }
    r := Returned(list);
  }

  // ---------------------------------------------------------------------
  // Module scope

  /**
   * The list `setModuleScope` sends: one entry per application in the set's
   * iteration order, keeping its user and package, then, for a legacy
   * module, the module itself for user 0.
   */
  function ScopeRequest(packageName: string, legacy: bool, applications: seq<Application>): (req: seq<Application>)
    ensures |req| == |applications| + (if legacy then 1 else 0)
    ensures forall i :: 0 <= i < |applications| ==> req[i] == applications[i]
    ensures legacy ==> req[|applications|] == Application(0, packageName)
  {
    applications + (if legacy then [Application(0, packageName)] else [])
  }

  /**
   * `setModuleScope(packageName, legacy, applications)`. The request list is
   * built before the service is looked up, and is sent (`sent`) only when
   * the service is present; the answer is false on `RemoteException`.
   */
  method SetModuleScope(service: Option<ManagerService>, packageName: string, legacy: bool,
                        applications: seq<Application>, reply: Outcome<bool>)
    returns (sent: Option<seq<Application>>, r: Outcome<bool>)
    ensures sent == (if service.Some? then Some(ScopeRequest(packageName, legacy, applications)) else None)
    ensures RemoteOrDefault(service, reply, r, false)
  {
    var list: seq<Application> := [];
    var i := 0;
    while i < |applications|
      invariant 0 <= i <= |applications|
      invariant list == applications[..i]
    {
      var application := applications[i];
      list := list + [Application(application.userId, application.packageName)];
      i := i + 1;
    }
    assert list == applications by {
      assert applications[..|applications|] == applications;
    }
    if legacy {
      list := list + [Application(0, packageName)];
    }
    assert list == ScopeRequest(packageName, legacy, applications);
    if service.None? {
      sent, r := None, Threw(NullPointerException);
    } else {
      sent := Some(list);
      r := match reply
        case Returned(b) => Returned(b)
        case Threw(e) => if e == RemoteException then Returned(false) else Threw(e);
    }
  }

  /** The entries `getModuleScope` keeps: those not naming the module itself, in order. */
  function WithoutSelf(entries: seq<Application>, packageName: string): (kept: seq<Application>)
    ensures |kept| <= |entries|
    ensures forall i :: 0 <= i < |kept| ==> kept[i].packageName != packageName && kept[i] in entries
    decreases |entries|
  {
    if entries == [] then []
    else (if entries[0].packageName != packageName then [entries[0]] else [])
         + WithoutSelf(entries[1..], packageName)
  }

  /** An entry is kept iff it was there and does not name the module. */
  lemma {:induction false} WithoutSelfMembers(entries: seq<Application>, packageName: string, a: Application)
    ensures a in WithoutSelf(entries, packageName) <==> a in entries && a.packageName != packageName
    decreases |entries|
  {
    if entries != [] {
      WithoutSelfMembers(entries[1..], packageName, a);
      assert entries == [entries[0]] + entries[1..];
    }
  }

  /** Filtering distributes over concatenation, so the kept entries stay in their order. */
  lemma {:induction false} WithoutSelfAppend(xs: seq<Application>, ys: seq<Application>, packageName: string)
    ensures WithoutSelf(xs + ys, packageName) == WithoutSelf(xs, packageName) + WithoutSelf(ys, packageName)
    decreases |xs|
  {
    if xs != [] {
      assert (xs + ys)[1..] == xs[1..] + ys;
      WithoutSelfAppend(xs[1..], ys, packageName);
    } else {
      assert xs + ys == ys;
    }
  }

  /** A list that does not name the module is kept whole. */
  lemma {:induction false} WithoutSelfKeepsOthers(entries: seq<Application>, packageName: string)
    requires forall i :: 0 <= i < |entries| ==> entries[i].packageName != packageName
    ensures WithoutSelf(entries, packageName) == entries
    decreases |entries|
  {
    if entries != [] {
      WithoutSelfKeepsOthers(entries[1..], packageName);
    }
  }

  /** Filtering twice is filtering once. */
  lemma {:induction false} WithoutSelfIdempotent(entries: seq<Application>, packageName: string)
    ensures WithoutSelf(WithoutSelf(entries, packageName), packageName) == WithoutSelf(entries, packageName)
  {
    var kept := WithoutSelf(entries, packageName);
    forall i | 0 <= i < |kept|
      ensures kept[i].packageName != packageName
    {
      WithoutSelfMembers(entries, packageName, kept[i]);
    }
    WithoutSelfKeepsOthers(kept, packageName);
  }

  /**
   * Reading back a scope that was sent as-is drops the legacy self entry:
   * what `getModuleScope` shows is the applications, minus any naming the
   * module, whatever `legacy` was.
   */
  lemma {:induction false} ScopeRoundTrip(packageName: string, legacy: bool, applications: seq<Application>)
    ensures WithoutSelf(ScopeRequest(packageName, legacy, applications), packageName)
            == WithoutSelf(applications, packageName)
    ensures (forall i :: 0 <= i < |applications| ==> applications[i].packageName != packageName) ==>
              WithoutSelf(ScopeRequest(packageName, legacy, applications), packageName) == applications
  {
    var extra := if legacy then [Application(0, packageName)] else [];
    WithoutSelfAppend(applications, extra, packageName);
    assert WithoutSelf(extra, packageName) == [] by {
      if legacy {
        assert extra[1..] == [];
      }
    }
    assert ScopeRequest(packageName, legacy, applications) == applications + extra;
    if forall i :: 0 <= i < |applications| ==> applications[i].packageName != packageName {
      WithoutSelfKeepsOthers(applications, packageName);
    }
  }

  /**
   * `getModuleScope(packageName)`: the remote's entries minus those naming
   * the module, in order; an empty list when the remote answers `null` or
   * throws `RemoteException`.
   */
  method GetModuleScope(service: Option<ManagerService>, packageName: string,
                        reply: Outcome<Option<seq<Application>>>) returns (r: Outcome<seq<Application>>)
    ensures service.None? ==> r == Threw(NullPointerException)
    ensures service.Some? && reply.Returned? && reply.value.Some? ==>
              r == Returned(WithoutSelf(reply.value.value, packageName))
    ensures service.Some? && (reply == Returned(None) || reply == Threw(RemoteException)) ==> r == Returned([])
    ensures service.Some? && reply.Threw? && reply.error != RemoteException ==> r == Threw(reply.error)
  {
    var list: seq<Application> := [];
    if service.None? {
      return Threw(NullPointerException);
    }
    match reply {
      case Threw(e) =>
        if e != RemoteException {
          return Threw(e);
        }
      case Returned(applications) =>
        if applications.None? {
          return Returned(list);
        }
        var entries := applications.value;
        var i := 0;
        while i < |entries|
          invariant 0 <= i <= |entries|
          invariant list == WithoutSelf(entries[..i], packageName)
        {
          var application := entries[i];
          WithoutSelfAppend(entries[..i], [application], packageName);
          assert entries[..i + 1] == entries[..i] + [application];
          if application.packageName != packageName {
            list := list + [application];
          }
          i := i + 1;
        }
        assert entries[..|entries|] == entries;
    }
    r := Returned(list);
  }
}

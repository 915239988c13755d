/**
 * `ApplicationServiceClient`: the per-process handle on the privileged
 * application service. The static `serviceClient` field is installed once by
 * `Init` and cleared by the death callback; every remote call made through
 * the client maps a failure to a fixed default.
 */
module ServiceClient {
  import opened JavaLang

  /** An `IBinder`, by identity. */
  type Binder = nat
  /** An `org.lsposed.lspd.models.Module` parcel, by identity. */
  type Module = nat
  /** A `ParcelFileDescriptor`, by identity. */
  type FileDescriptor = nat

  /** The `ILFPApplicationService` proxy; `binder` is what its `asBinder()` answers. */
  datatype Service = Service(id: nat, binder: Option<Binder>)

  /** An `ApplicationServiceClient` object: its two final fields. */
  datatype Client = Client(service: Service, processName: string)

  /**
   * The class's static state. `serviceClient` is the static field;
   * `deathRecipients` are the clients registered with `linkToDeath` on their
   * service's binder and not yet unlinked.
   */
  class Holder {
    var serviceClient: Option<Client>
    var deathRecipients: set<Client>

    /** The installed client is linked to a live binder. */
    ghost predicate Valid()
      reads this
    {
      && (forall c :: c in deathRecipients ==> c.service.binder.Some?)
      && (serviceClient.Some? ==> serviceClient.value in deathRecipients)
    }

    /** Class initialisation: `serviceClient = null`. */
    constructor ()
      ensures Valid()
      ensures serviceClient == None && deathRecipients == {}
    {
      serviceClient := None;
      deathRecipients := {};
    }

    /**
     * `Init(service, niceName)`. A client is installed only when none is
     * installed yet and the service has a binder; the client's constructor
     * links it to the binder's death, and when `linkToDeath` throws
     * (`linkSucceeds` false: the binder is already dead) the exception is
     * logged and nothing is installed. In every other case nothing changes.
     */
    method Init(service: Service, niceName: string, linkSucceeds: bool)
      requires Valid()
      modifies this
      ensures Valid()
      ensures old(serviceClient).None? && service.binder.Some? && linkSucceeds ==>
                serviceClient == Some(Client(service, niceName))
                && deathRecipients == old(deathRecipients) + {Client(service, niceName)}
      ensures !(old(serviceClient).None? && service.binder.Some? && linkSucceeds) ==>
                serviceClient == old(serviceClient) && deathRecipients == old(deathRecipients)
    {
      var binder := service.binder;
      if serviceClient.None? && binder.Some? {
        if linkSucceeds {
          var client := Client(service, niceName);
          deathRecipients := deathRecipients + {client};
          serviceClient := Some(client);
        }
      }
    }

    /**
     * `binderDied()` on a registered client: it unlinks itself from its
     * binder and clears the static field, whichever client it held. A later
     * `Init` may then install a client again.
     */
    method BinderDied(client: Client)
      requires Valid() && client in deathRecipients
      modifies this
      ensures Valid()
      ensures serviceClient == None
      ensures deathRecipients == old(deathRecipients) - {client}
    {
      deathRecipients := deathRecipients - {client};
      serviceClient := None;
    }
  }

  // ---------------------------------------------------------------------
  // Fail-soft remote calls. Each wrapper makes exactly one call on the
  // service; `reply` is what that call answered or threw.

  /** The exceptions every wrapper swallows. */
  predicate Swallowed(e: Exception) {
    e == RemoteException || e == NullPointerException
  }

  /**
   * What every wrapper promises: the remote's answer is returned unchanged,
   * a swallowed exception becomes `fallback`, and any other throwable passes
   * through.
   */
  ghost predicate FailsSoftTo<T>(reply: Outcome<T>, r: Outcome<T>, fallback: T) {
    && (reply.Returned? ==> r == reply)
    && (reply.Threw? && Swallowed(reply.error) ==> r == Returned(fallback))
    && (reply.Threw? && !Swallowed(reply.error) ==> r == reply)
  }

  /** `try { return service.op(..); } catch (RemoteException | NullPointerException ignored) {} return fallback;` */
  function Guarded<T>(reply: Outcome<T>, fallback: T): (r: Outcome<T>)
    ensures FailsSoftTo(reply, r, fallback)
    ensures r.Threw? ==> !Swallowed(r.error)
  {
    match reply
    case Returned(v) => Returned(v)
    case Threw(e) => if Swallowed(e) then Returned(fallback) else Threw(e)
  }

  /** The fail-soft contract fixes the result: it is a function of the reply and the default. */
  lemma FailsSoftIsDeterministic<T>(reply: Outcome<T>, r1: Outcome<T>, r2: Outcome<T>, fallback: T)
    requires FailsSoftTo(reply, r1, fallback) && FailsSoftTo(reply, r2, fallback)
    ensures r1 == r2
  {
  }

  /** `requestModuleBinder(name)`: the binder, or null on failure. */
  function RequestModuleBinder(reply: Outcome<Option<Binder>>): (r: Outcome<Option<Binder>>)
    ensures FailsSoftTo(reply, r, None)
  {
    Guarded(reply, None)
  }

  /** `getLegacyModulesList()`: the remote's list (`null` passes through unchanged), or an empty list on failure. */
  function GetLegacyModulesList(reply: Outcome<Option<seq<Module>>>): (r: Outcome<Option<seq<Module>>>)
    ensures FailsSoftTo(reply, r, Some([]))
  {
    Guarded(reply, Some([]))
  }

  /** `getModulesList()`: the remote's list (`null` passes through unchanged), or an empty list on failure. */
  function GetModulesList(reply: Outcome<Option<seq<Module>>>): (r: Outcome<Option<seq<Module>>>)
    ensures FailsSoftTo(reply, r, Some([]))
  {
    Guarded(reply, Some([]))
  }

  /** `getPrefsPath(packageName)`: the path, or null on failure. */
  function GetPrefsPath(reply: Outcome<Option<string>>): (r: Outcome<Option<string>>)
    ensures FailsSoftTo(reply, r, None)
  {
    Guarded(reply, None)
  }

  /** `requestInjectedManagerBinder(binder)`: the descriptor, or null on failure. */
  function RequestInjectedManagerBinder(reply: Outcome<Option<FileDescriptor>>): (r: Outcome<Option<FileDescriptor>>)
    ensures FailsSoftTo(reply, r, None)
  {
    Guarded(reply, None)
  }

  /** `requestCLIBinder(sPin, binder)`: the remote's code, or -1 on failure. */
  function RequestCliBinder(reply: Outcome<Int32>): (r: Outcome<Int32>)
    ensures FailsSoftTo(reply, r, -1)
  {
    Guarded(reply, -1)
  }

  /**
   * Against a dead peer (every call throws `RemoteException`) each of the
   * six wrappers answers its default within the same call.
   */
  lemma DeadPeerYieldsDefaults()
    ensures RequestModuleBinder(Threw(RemoteException)) == Returned(None)
    ensures GetLegacyModulesList(Threw(RemoteException)) == Returned(Some([]))
    ensures GetModulesList(Threw(RemoteException)) == Returned(Some([]))
    ensures GetPrefsPath(Threw(RemoteException)) == Returned(None)
    ensures RequestInjectedManagerBinder(Threw(RemoteException)) == Returned(None)
    ensures RequestCliBinder(Threw(RemoteException)) == Returned(-1)
  {
  }
}

/**
 * The push-notification manager: its environment rule, its
 * `pushSubscription` key in local storage, `init`'s memoised promise,
 * unsubscribing and the status report. Browser capabilities, the service
 * worker's registration and the push service are parameters.
 */
module PushManager {
  import opened Wrappers
  import opened Text

  const VapidPublicKey := "BCCs2eonMI-6H2ctvFaWg-UYdDv387Vno_bzUzALpB442r2lCnsHmtrx8biyPi_E-1fSGABK_Qs_GlvPoJJqxbk"

  /** A stand-in for the record a subscription in local-storage mode stores; its other JSON fields are not modelled. */
  const LocalModeRecord := "{\"endpoint\":\"local-storage-mode\"}"

  /** A stand-in for the JSON of a push-service subscription, as stored after subscribing. */
  const PushServiceRecord := "{\"endpoint\":\"push-service\"}"

  /** `_shouldUseLocalStorage`: GitHub Pages or anything but HTTPS; whether the host is local does not matter. */
  function ShouldUseLocalStorage(hostname: string, protocol: string): (r: bool)
    ensures r <==> Contains(hostname, "github.io") || protocol != "https:"
  {
    var isGitHubPages := Contains(hostname, "github.io");
    var isLocalhost := hostname == "localhost" || hostname == "127.0.0.1";
    var isHttps := protocol == "https:";
    isGitHubPages || !isHttps
  }

  /** A stored item reads as truthy when present and non-empty. */
  predicate Stored(item: Option<string>) {
    item.Some? && item.value != ""
  }

  /** How waiting for the service worker and reading its subscription went. */
  datatype WorkerState =
    | Registered(hasPushManager: bool, existingSubscription: bool)
    | NoRegistration
    | Failed

  /** The browser around the manager at `init` time. */
  datatype Environment = Environment(supported: bool, hostname: string, protocol: string, worker: WorkerState)

  datatype Status = Status(isSubscribed: bool, isSupported: bool, permission: string, isInitialized: bool,
                           environment: string, hasServiceWorker: bool)

  class PushManager {
    var isSubscribed: bool
    var hasRegistration: bool
    var hasSubscription: bool
    var isInitialized: bool
    /** The memoised promise, by the number it was created with. */
    var initPromise: Option<nat>
    /** How many init promises have been created. */
    var promisesCreated: nat
    /** What the promise resolved to. */
    var initResult: bool
    /** `localStorage.getItem("pushSubscription")`. */
    var storedSubscription: Option<string>

    /** A memoised promise exists exactly when the manager is initialised. */
    predicate Valid()
      reads this
    {
      initPromise.Some? <==> isInitialized
    }

    constructor(storedSubscription: Option<string>)
      ensures !isSubscribed && !hasRegistration && !hasSubscription && !isInitialized
      ensures initPromise == None && promisesCreated == 0
      ensures this.storedSubscription == storedSubscription
      ensures Valid()
    {
      isSubscribed := false;
      hasRegistration := false;
      hasSubscription := false;
      isInitialized := false;
      initPromise := None;
      promisesCreated := 0;
      initResult := false;
      this.storedSubscription := storedSubscription;
    }

    /** `_initWithLocalStorage`: the flag follows the stored key; no registration or subscription. */
    method InitWithLocalStorage()
      modifies this`isSubscribed, this`hasRegistration, this`hasSubscription
      ensures isSubscribed == Stored(storedSubscription)
      ensures !hasRegistration && !hasSubscription
    {
      isSubscribed := Stored(storedSubscription);
      hasRegistration := false;
      hasSubscription := false;
    }

    /** `_syncWithLocalStorage`: afterwards the key is set iff the manager is subscribed. */
    method SyncWithLocalStorage()
      modifies this`storedSubscription
      ensures Stored(storedSubscription) <==> isSubscribed
      ensures Stored(old(storedSubscription)) == isSubscribed ==> storedSubscription == old(storedSubscription)
    {
      var stored := storedSubscription;
      if isSubscribed && !Stored(stored) {
        storedSubscription := Some("active");
      } else if !isSubscribed && Stored(stored) {
        storedSubscription := None;
      }
    }

    /**
     * `init`: a second call returns the memoised promise and changes
     * nothing; the first runs the initialisation, which resolves to `false`
     * only when push is unsupported.
     */
    method Init(env: Environment) returns (promise: nat)
      requires Valid()
      modifies this`isSubscribed, this`hasRegistration, this`hasSubscription, this`isInitialized,
        this`initPromise, this`promisesCreated, this`initResult, this`storedSubscription
      ensures Valid()
      ensures old(initPromise).Some? ==>
        promise == old(initPromise).value && initPromise == old(initPromise) &&
        isSubscribed == old(isSubscribed) && hasRegistration == old(hasRegistration) &&
        hasSubscription == old(hasSubscription) && isInitialized == old(isInitialized) &&
        promisesCreated == old(promisesCreated) && initResult == old(initResult) &&
        storedSubscription == old(storedSubscription)
      ensures old(initPromise).None? ==>
        promise == old(promisesCreated) && initPromise == Some(promise) && promisesCreated == old(promisesCreated) + 1
      ensures old(initPromise).None? ==> isInitialized && (initResult <==> env.supported)
      ensures (old(initPromise).None? && env.supported &&
          (ShouldUseLocalStorage(env.hostname, env.protocol) || !env.worker.Registered? || !env.worker.hasPushManager)) ==>
        isSubscribed == Stored(old(storedSubscription)) && !hasRegistration && !hasSubscription &&
        storedSubscription == old(storedSubscription)
      ensures (old(initPromise).None? && env.supported && !ShouldUseLocalStorage(env.hostname, env.protocol) &&
          env.worker.Registered? && env.worker.hasPushManager) ==>
        hasRegistration && isSubscribed == hasSubscription == env.worker.existingSubscription &&
        (Stored(storedSubscription) <==> isSubscribed)
    {
      if initPromise.Some? {
        return initPromise.value;
      }
      promise := promisesCreated;
      promisesCreated := promisesCreated + 1;
      initPromise := Some(promise);
      if !env.supported {
        isInitialized := true;
        initResult := false;
        return;
      }
      if ShouldUseLocalStorage(env.hostname, env.protocol) {
        InitWithLocalStorage();
      } else {
        match env.worker
        case Registered(hasPushManager, existing) =>
          if !hasPushManager {
            InitWithLocalStorage();
          } else {
            hasRegistration := true;
            hasSubscription := existing;
            isSubscribed := existing;
            SyncWithLocalStorage();
          }
        case NoRegistration =>
          InitWithLocalStorage();
        case Failed =>
          InitWithLocalStorage();
      }
      isInitialized := true;
      initResult := true;
    }

    /** `recover`: forgets the memoised promise, so `init` creates a new one and runs again. */
    method Recover(env: Environment) returns (promise: nat)
      requires Valid()
      modifies this`isSubscribed, this`hasRegistration, this`hasSubscription, this`isInitialized,
        this`initPromise, this`promisesCreated, this`initResult, this`storedSubscription
      ensures Valid()
      ensures promise == old(promisesCreated) && initPromise == Some(promise)
      ensures promisesCreated == old(promisesCreated) + 1
      ensures isInitialized && (initResult <==> env.supported)
    {
      isInitialized := false;
      initPromise := None;
      promise := Init(env);
    }

    /**
     * `unsubscribe`: on the normal and on the error path the key is removed,
     * the flag cleared and `true` returned; the subscription is dropped when
     * there was one with a registration (and also when dropping it threw).
     */
    method Unsubscribe(unsubscribeThrows: bool) returns (r: bool)
      modifies this`storedSubscription, this`isSubscribed, this`hasSubscription
      ensures r && !isSubscribed && storedSubscription == None
      ensures old(hasSubscription) && old(hasRegistration) ==> !hasSubscription
      ensures !(old(hasSubscription) && old(hasRegistration)) ==> hasSubscription == old(hasSubscription)
    {
      storedSubscription := None;
      isSubscribed := false;
      if hasSubscription && hasRegistration {
        if unsubscribeThrows {
          isSubscribed := false;
          hasSubscription := false;
          storedSubscription := None;
          return true;
        }
        hasSubscription := false;
      }
      r := true;
    }

    /**
     * `subscribe`: initialises first if need be; a refused permission or a
     * failing push service gives `false`; local-storage mode (or no
     * registration) stores a local record; the push service stores the new
     * subscription.
     */
    method Subscribe(env: Environment, permissionGranted: bool, pushServiceFails: bool) returns (r: bool)
      requires Valid()
      modifies this`isSubscribed, this`hasRegistration, this`hasSubscription, this`isInitialized,
        this`initPromise, this`promisesCreated, this`initResult, this`storedSubscription
      ensures Valid() && isInitialized
      ensures !permissionGranted ==> !r
      ensures !permissionGranted && old(isInitialized) ==>
        storedSubscription == old(storedSubscription) && isSubscribed == old(isSubscribed) &&
        hasSubscription == old(hasSubscription)
      ensures r ==> isSubscribed && Stored(storedSubscription)
      ensures permissionGranted && (ShouldUseLocalStorage(env.hostname, env.protocol) || !hasRegistration) ==>
        r && storedSubscription == Some(LocalModeRecord)
      ensures permissionGranted && !ShouldUseLocalStorage(env.hostname, env.protocol) && hasRegistration ==>
        (r <==> !pushServiceFails) && (r ==> hasSubscription && storedSubscription == Some(PushServiceRecord))
    {
      if !isInitialized {
        var _ := Init(env);
      }
      if !permissionGranted {
        return false;
      }
      if ShouldUseLocalStorage(env.hostname, env.protocol) || !hasRegistration {
        storedSubscription := Some(LocalModeRecord);
        isSubscribed := true;
        return true;
      }
      if pushServiceFails {
        return false;
      }
      hasSubscription := true;
      isSubscribed := true;
      storedSubscription := Some(PushServiceRecord);
      r := true;
    }

    /** `getStatus`: the flag is re-read from the stored key and reported with the rest. */
    method GetStatus(supported: bool, permission: string, hostname: string, protocol: string) returns (s: Status)
      modifies this`isSubscribed
      ensures isSubscribed == Stored(storedSubscription)
      ensures s.isSubscribed == isSubscribed && s.isSupported == supported && s.permission == permission
      ensures s.isInitialized == isInitialized && s.hasServiceWorker == hasRegistration
      ensures s.environment == if ShouldUseLocalStorage(hostname, protocol) then "localStorage" else "pushService"
    {
      isSubscribed := Stored(storedSubscription);
      s := Status(isSubscribed, supported, permission, isInitialized,
        if ShouldUseLocalStorage(hostname, protocol) then "localStorage" else "pushService", hasRegistration);
    }
  }
}

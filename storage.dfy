/** The storage facade: the built-in `AuthStorage`, which opens one driver
    and builds both token services over it, and the start-up selection of a
    registered backend that replaces it. */
module Storage {
  import opened Records
  import opened Relational
  import opened Concrete

  /** The capability name under which a replacement backend registers. */
  const CapabilityName: string := "auth"

  /** The class a registered entry point loads. */
  datatype PluginClass = PluginClass(qualifiedName: string)

  /** One registered entry point: its name and the class it loads. */
  datatype EntryPoint = EntryPoint(name: string, target: PluginClass)

  /** An instance of a replacement backend. Its behaviour is its own; the
      model records the class that built it, the configuration it was built
      with, and whether it has been released. */
  class PluginStorage {
    const cls: PluginClass
    const config: Config
    var released: bool

    constructor (cls: PluginClass, config: Config)
      ensures this.cls == cls && this.config == config && !released
    {
      this.cls := cls;
      this.config := config;
      released := false;
    }

    method Release()
      modifies this`released
      ensures released
    {
      released := true;
    }
  }

  /** The built-in backend. */
  class AuthStorage {
    const driver: RelationalStorage
    const accessToken: AccessTokenService
    const oauthToken: OAuthTokenService

    /** Both services work over this storage's one driver. */
    ghost predicate Wired()
      reads driver
    {
      accessToken.driver == driver && oauthToken.driver == driver && driver.Valid()
    }

    /** Opens one driver over `config`, configures it, and builds the
        access-token and provider-token services over that same driver. */
    constructor (config: Config)
      ensures fresh(driver) && fresh(accessToken) && fresh(oauthToken)
      ensures driver.config == config && driver.phase == Configured
      ensures driver.accessRows == map[] && driver.oauthRows == map[]
      ensures Wired()
    {
      var d := new RelationalStorage(config);
      d.Configure();
      driver := d;
      accessToken := new AccessTokenService(d);
      oauthToken := new OAuthTokenService(d);
    }

    /** Releases the driver acquired at construction, and nothing else. */
    method Release()
      modifies driver`phase
      ensures driver.phase == Released
    {
      driver.Release();
    }
  }

  /** What `initialize_storage` hands out: the built-in backend or a
      replacement one. */
  datatype Backend = Builtin(auth: AuthStorage) | Plugin(instance: PluginStorage)

  /** The position of the first entry point named "auth", in registry order. */
  function FirstAuth(registry: seq<EntryPoint>): (r: Option<nat>)
    ensures r.Some? ==> r.value < |registry| && registry[r.value].name == CapabilityName
    ensures r.Some? ==> forall i :: 0 <= i < r.value ==> registry[i].name != CapabilityName
    ensures r.None? <==> forall i :: 0 <= i < |registry| ==> registry[i].name != CapabilityName
  {
    if registry == [] then None
    else if registry[0].name == CapabilityName then Some(0)
    else match FirstAuth(registry[1..])
      case None => None
      case Some(i) => Some(i + 1)
  }

  /** `initialize_storage`: the first entry point named "auth" supplies the
      backend, built over `config`; with none (an empty registry included)
      the built-in backend is built over `config`. */
  method InitializeStorage(registry: seq<EntryPoint>, config: Config) returns (b: Backend)
    ensures match FirstAuth(registry)
      case Some(i) =>
        && b.Plugin? && fresh(b.instance)
        && b.instance.cls == registry[i].target && b.instance.config == config
        && !b.instance.released
      case None =>
        && b.Builtin? && fresh(b.auth) && fresh(b.auth.driver)
        && b.auth.driver.config == config && b.auth.driver.phase == Configured
        && b.auth.Wired()
  {
    var i := 0;
    while i < |registry|
      invariant 0 <= i <= |registry|
      invariant forall j :: 0 <= j < i ==> registry[j].name != CapabilityName
    {
      if registry[i].name == CapabilityName {
        var p := new PluginStorage(registry[i].target, config);
        return Plugin(p);
      }
      i := i + 1;
    }
    var a := new AuthStorage(config);
    return Builtin(a);
  }

  /** The objects `shutdown_storage` may change: the built-in backend's
      driver, or the replacement backend instance. */
  function Held(b: Backend): set<object> {
    match b
    case Builtin(a) => {a.driver}
    case Plugin(p) => {p}
  }

  /** `shutdown_storage`: releases the given backend. */
  method ShutdownStorage(b: Backend)
    modifies Held(b)
    ensures b.Builtin? ==> b.auth.driver.phase == Released
    ensures b.Builtin? ==> b.auth.driver.accessRows == old(b.auth.driver.accessRows)
    ensures b.Builtin? ==> b.auth.driver.oauthRows == old(b.auth.driver.oauthRows)
    ensures b.Builtin? ==> b.auth.driver.nextAccessId == old(b.auth.driver.nextAccessId)
    ensures b.Builtin? ==> b.auth.driver.nextOAuthId == old(b.auth.driver.nextOAuthId)
    ensures b.Plugin? ==> b.instance.released
  {
    match b
    case Builtin(a) => a.Release();
    case Plugin(p) => p.Release();
  }
}

/** The LDAP delegate: its configuration, its server registry, the
    process-wide store that caches one connection manager per delegate, and
    the directory operations it dispatches through that manager. */
module Delegate {
  import opened Wrappers
  import opened Text
  import opened Servers
  import opened Binding
  import opened Wire

  /** The exceptions the delegate raises: `RuntimeError` with its message, or
      the `ValueError` of `int()` with the literal it rejected. */
  datatype Error = RuntimeError(message: string) | ValueError(literal: string)

  const NO_SERVERS := "No servers defined"
  const READ_ONLY := "Running in read-only mode, directory modifications disabled"

  /** The cache key of a delegate is this prefix, a per-instance token, and
      the slot suffix. The token stands for a random number, so no slot yet
      exists under a new delegate's key. */
  const HASH_PREFIX := "ldap_delegate"
  const SLOT_SUFFIX := "-connection"

  const DEFAULT_FILTER := "(objectClass=*)"
  const DEFAULT_CLASSES := "top,person"

  /** The modification and scope constants the delegate re-exports. */
  const ADD := ModAdd
  const DELETE := ModDelete
  const REPLACE := ModReplace
  const BASE := ScopeBase

  /** A value in the shared store: a manager, or a plain string (the empty
      string is what clearing a slot writes). */
  datatype Resource = Str(text: string) | Conn(manager: Manager)

  /** The process-wide store of shared resources, keyed by name. */
  class ResourceStore {
    var resources: map<string, Resource>

    constructor ()
      ensures resources == map[]
    {
      resources := map[];
    }

    /** The value under `key`; a key never set reads as the empty string,
        which is what the `str` default factory produces. */
    function Get(key: string): (r: Resource)
      reads this
      ensures key in resources ==> r == resources[key]
      ensures key !in resources ==> r == Str("")
    {
      if key in resources then resources[key] else Str("")
    }

    method Set(key: string, value: Resource)
      modifies this
      ensures resources == old(resources)[key := value]
    {
      resources := resources[key := value];
    }
  }

  /** The `objectclasses` argument of `edit`: one comma-separated string, or
      a list taken as it is. */
  datatype ClassesArg = ClassesText(text: string) | ClassesList(names: seq<string>)

  /** The object classes `edit` stores: a string is split on commas and each
      field stripped; a list is kept unchanged. */
  function ObjectClasses(arg: ClassesArg): (r: seq<string>)
    ensures arg.ClassesList? ==> r == arg.names
  {
    match arg
    case ClassesList(names) => names
    case ClassesText(text) => StripEach(Split(text, ','))
  }

  /** `[x.strip() for x in fields]`. */
  function StripEach(fields: seq<string>): seq<string> {
    seq(|fields|, i requires 0 <= i < |fields| => Strip(fields[i]))
  }

  /** Names with no comma inside and no whitespace at either end. */
  predicate CleanNames(names: seq<string>) {
    forall i :: 0 <= i < |names| ==> ',' !in names[i] && Trimmed(names[i])
  }

  /** A class string yields one clean name per comma-separated field. */
  lemma ObjectClassesFromText(text: string)
    ensures |ObjectClasses(ClassesText(text))| == Count(text, ',') + 1
    ensures CleanNames(ObjectClasses(ClassesText(text)))
  {
    SplitFields(text, ',');
    var fields := Split(text, ',');
    var r := ObjectClasses(ClassesText(text));
    forall i | 0 <= i < |fields|
      ensures ',' !in r[i] && Trimmed(r[i])
    {
      StripKeepsOut(fields[i], ',');
    }
  }

  /** Two trimmed, comma-free class names written as `"a,b"` are read back
      as those two names. */
  lemma {:induction false} TwoClassNames(a: string, b: string)
    requires ',' !in a && ',' !in b && Trimmed(a) && Trimmed(b)
    ensures ObjectClasses(ClassesText(a + [','] + b)) == [a, b]
  {
    var text := a + [','] + b;
    SplitFirstField(a, ',', b);
    SplitSingleField(b, ',');
    var fields := Split(text, ',');
    assert fields == [a, b];
    StripEachTrimmed(fields);
    assert ObjectClasses(ClassesText(text)) == StripEach(fields);
  }

  /** Any non-empty list of clean names, joined with commas, is read back
      as that list. */
  lemma ClassNamesRoundTrip(names: seq<string>)
    requires |names| >= 1 && CleanNames(names)
    ensures ObjectClasses(ClassesText(Join(names, ','))) == names
  {
    SplitJoin(names, ',');
    StripEachTrimmed(names);
  }

  /** Stripping names that are already trimmed leaves them as they are. */
  lemma StripEachTrimmed(names: seq<string>)
    requires forall i :: 0 <= i < |names| ==> Trimmed(names[i])
    ensures StripEach(names) == names
  {
    forall i | 0 <= i < |names|
      ensures StripEach(names)[i] == names[i]
    {
      StripTrimmed(names[i]);
    }
  }

  /** A new delegate gets the object classes `top` and `person`. */
  lemma DefaultObjectClasses()
    ensures ObjectClasses(ClassesText(DEFAULT_CLASSES)) == ["top", "person"]
  {
    TwoClassNames("top", "person");
    assert DEFAULT_CLASSES == "top" + [','] + "person";
  }

  /** The result of a directory call: the connection failure, or the
      manager's answer to `call`. */
  function Dispatch(connection: Result<Manager, Error>, call: WireCall): (r: Result<Reply, Error>)
    ensures r.Success? <==> connection.Success?
    ensures r.Success? ==> r.value.manager == connection.value && r.value.call == call
    ensures r.Failure? ==> r.error == connection.error
  {
    match connection
    case Success(m) => Success(Reply(m, call))
    case Failure(e) => Failure(e)
  }

  class LDAPDelegate {
    /** The per-instance identity that namespaces the cached connection. */
    const hash: string
    const store: ResourceStore

    var servers: seq<Server>
    var loginAttr: string
    var usersBase: string
    var rdnAttr: string
    var objectClasses: seq<string>
    var bindDn: string
    var bindPwd: string
    var binduidUsage: int
    var readOnly: bool

    /** How many managers this delegate has constructed. */
    ghost var built: nat
    /** Every request this delegate has made of a manager, in order. */
    ghost var calls: seq<WireCall>

    /** No two servers share a host and a port. */
    ghost predicate Valid()
      reads this
    {
      UniqueEndpoints(servers)
    }

    /** The name of this delegate's slot in the shared store. */
    function SlotKey(): string {
      hash + SLOT_SUFFIX
    }

    /** The manager cached in this delegate's slot, if the slot holds one. */
    function Cached(): (m: Option<Manager>)
      reads store
      ensures m.Some? <==> store.Get(SlotKey()).Conn?
    {
      match store.Get(SlotKey())
      case Conn(manager) => Some(manager)
      case Str(_) => None
    }

    /** The part of construction that cannot fail: a fresh identity whose
        slot holds no manager, no servers, and `edit` with the object classes `top,person` and service
        binding switched on. */
    constructor (token: string, store: ResourceStore, loginAttr: string, usersBase: string,
                 rdnAttr: string, bindDn: string, bindPwd: string, readOnly: int)
      requires HASH_PREFIX + token + SLOT_SUFFIX !in store.resources
      ensures Valid() && hash == HASH_PREFIX + token && this.store == store && servers == []
      ensures Cached() == None
      ensures this.loginAttr == loginAttr && this.usersBase == usersBase && this.rdnAttr == rdnAttr
      ensures this.bindDn == bindDn && this.bindPwd == bindPwd
      ensures binduidUsage == SERVICE_BIND && this.readOnly == (readOnly != 0)
      ensures objectClasses == ["top", "person"]
      ensures built == 0 && calls == []
    {
      hash := HASH_PREFIX + token;
      this.store := store;
      servers := [];
      built := 0;
      calls := [];
      new;
      EditDefaults(loginAttr, usersBase, rdnAttr, bindDn, bindPwd, readOnly);
    }

    /** The registry, in the order the servers were added. */
    function GetServers(): (r: seq<Server>)
      requires Valid()
      reads this
      ensures UniqueEndpoints(r)
      ensures r == servers
    {
      servers
    }

    /** Adds a server unless one with the same host and port (after the port
        is forced to 0 for a local socket) is already listed, and in every
        case clears the cached connection. */
    method AddServer(host: string, port: int := DEFAULT_PORT, useSsl: int := 0,
                     connTimeout: int := DEFAULT_TIMEOUT, opTimeout: int := DEFAULT_TIMEOUT)
      requires Valid()
      modifies this`servers, store
      ensures Valid()
      ensures servers == WithServer(old(servers), MakeServer(host, port, useSsl, connTimeout, opTimeout))
      ensures store.resources == old(store.resources)[SlotKey() := Str("")]
      ensures Cached() == None
    {
      var entry := MakeServer(host, port, useSsl, connTimeout, opTimeout);
      var existing := HasEndpoint(servers, entry.host, entry.port);
      if !existing {
        servers := servers + [entry];
      }
      store.Set(SlotKey(), Str(""));
    }

    /** Removes the servers at the listed positions, keeping the others in
        order, and clears the cached connection. */
    method DeleteServers(positions: seq<int> := [])
      requires Valid()
      modifies this`servers, store
      ensures Valid()
      ensures servers == Kept(old(servers), positions)
      ensures store.resources == old(store.resources)[SlotKey() := Str("")]
      ensures Cached() == None
    {
      var oldServers := servers;
      var newServers := [];
      var i := 0;
      while i < |oldServers|
        invariant 0 <= i <= |oldServers|
        invariant newServers == Kept(oldServers[..i], positions)
      {
        assert oldServers[..i + 1][..i] == oldServers[..i];
        if i !in positions {
          newServers := newServers + [oldServers[i]];
        }
        i := i + 1;
      }
      assert oldServers[..|oldServers|] == oldServers;
      KeptUnique(oldServers, positions);
      servers := newServers;
      store.Set(SlotKey(), Str(""));
    }

    /** Replaces the configuration: `readOnly` is read as a truth value and
        a comma-separated class string is split and stripped. */
    method Edit(loginAttr: string, usersBase: string, rdnAttr: string, objectClasses: ClassesArg,
                bindDn: string, bindPwd: string, binduidUsage: int, readOnly: int)
      modifies this`loginAttr, this`usersBase, this`rdnAttr, this`objectClasses,
               this`bindDn, this`bindPwd, this`binduidUsage, this`readOnly
      ensures this.loginAttr == loginAttr && this.usersBase == usersBase && this.rdnAttr == rdnAttr
      ensures this.objectClasses == ObjectClasses(objectClasses)
      ensures this.bindDn == bindDn && this.bindPwd == bindPwd && this.binduidUsage == binduidUsage
      ensures this.readOnly == (readOnly != 0)
    {
      this.loginAttr := loginAttr;
      this.rdnAttr := rdnAttr;
      this.bindDn := bindDn;
      this.bindPwd := bindPwd;
      this.binduidUsage := binduidUsage;
      this.readOnly := readOnly != 0;
      this.usersBase := usersBase;
      this.objectClasses := ObjectClasses(objectClasses);
    }

    /** `edit` as construction calls it: the object classes `top,person`
        and service binding. */
    method EditDefaults(loginAttr: string, usersBase: string, rdnAttr: string,
                        bindDn: string, bindPwd: string, readOnly: int)
      modifies this`loginAttr, this`usersBase, this`rdnAttr, this`objectClasses,
               this`bindDn, this`bindPwd, this`binduidUsage, this`readOnly
      ensures this.loginAttr == loginAttr && this.usersBase == usersBase && this.rdnAttr == rdnAttr
      ensures this.objectClasses == ["top", "person"]
      ensures this.bindDn == bindDn && this.bindPwd == bindPwd && this.binduidUsage == SERVICE_BIND
      ensures this.readOnly == (readOnly != 0)
    {
      Edit(loginAttr, usersBase, rdnAttr, ClassesText(DEFAULT_CLASSES), bindDn, bindPwd, SERVICE_BIND, readOnly);
      DefaultObjectClasses();
    }

    /** What `connect` returns in the current state: the cached manager
        rebound, else a new manager from the registry, else the
        "No servers defined" error. */
    function ConnectPlan(ambient: Option<Credentials>, utility: Option<string>,
                         bindDn: string, bindPwd: string): (r: Result<Manager, Error>)
      reads this, store
      ensures r.Failure? <==> Cached() == None && servers == []
      ensures r.Failure? ==> r.error == RuntimeError(NO_SERVERS)
      ensures r.Success? ==>
        r.value.bound == Some(ResolveBind(bindDn, bindPwd, binduidUsage, this.bindDn, this.bindPwd, ambient))
      ensures Cached().Some? ==> r.Success? && r.value == Cached().value.(bound := r.value.bound)
      ensures Cached() == None && servers != [] ==>
        && r.Success?
        && r.value.primary == servers[0]
        && r.value.failovers == [servers[|servers| - 1]]
        && r.value.factory == ChooseFactory(utility)
        && r.value.rdnAttr == rdnAttr && r.value.readOnly == readOnly
    {
      var creds := ResolveBind(bindDn, bindPwd, binduidUsage, this.bindDn, this.bindPwd, ambient);
      match Cached()
      case Some(m) => Success(m.(bound := Some(creds)))
      case None =>
        if servers == [] then Failure(RuntimeError(NO_SERVERS))
        else Success(Assembled(servers, ChooseFactory(utility), rdnAttr, readOnly).(bound := Some(creds)))
    }

    /** Resolves the bind credentials, reuses the cached manager or builds
        and caches a new one, and binds it. */
    method Connect(ambient: Option<Credentials>, utility: Option<string>,
                   bindDn: string := "", bindPwd: string := "")
      returns (r: Result<Manager, Error>)
      modifies this`built, this`calls, store
      ensures r == old(ConnectPlan(ambient, utility, bindDn, bindPwd))
      ensures r.Success? ==> store.resources == old(store.resources)[SlotKey() := Conn(r.value)]
      ensures r.Success? ==> Cached() == Some(r.value) && calls == old(calls) + [BindCall(r.value.bound.value)]
      ensures r.Failure? ==> store.resources == old(store.resources) && calls == old(calls)
      ensures built == if old(Cached()) == None && r.Success? then old(built) + 1 else old(built)
    {
      var creds := ResolveBind(bindDn, bindPwd, binduidUsage, this.bindDn, this.bindPwd, ambient);
      var manager: Manager;
      match store.Get(SlotKey()) {
        case Conn(cached) =>
          manager := cached;
        case Str(_) =>
          if servers == [] {
            return Failure(RuntimeError(NO_SERVERS));
          }
          manager := AssembleManager(servers, ChooseFactory(utility), rdnAttr, readOnly);
          built := built + 1;
      }
      manager := manager.(bound := Some(creds));
      store.Set(SlotKey(), Conn(manager));
      calls := calls + [BindCall(creds)];
      r := Success(manager);
    }

    /** Searches through the connection; there is no read-only check. */
    method Search(ambient: Option<Credentials>, utility: Option<string>, base: string, scope: Scope,
                  fltr: string := DEFAULT_FILTER, attrs: seq<string> := [], bindDn: string := "",
                  bindPwd: string := "", convertFilter: bool := true)
      returns (r: Result<Reply, Error>)
      modifies this`built, this`calls, store
      ensures r == Dispatch(old(ConnectPlan(ambient, utility, "", "")),
                            SearchCall(base, scope, fltr, attrs, bindDn, bindPwd, convertFilter))
      ensures r.Success? ==> Cached() == Some(r.value.manager)
      ensures r.Success? ==> store.resources == old(store.resources)[SlotKey() := Conn(r.value.manager)]
      ensures r.Success? ==> calls == old(calls) + [BindCall(r.value.manager.bound.value), r.value.call]
      ensures built == if old(Cached()) == None && r.Success? then old(built) + 1 else old(built)
      ensures r.Failure? ==> store.resources == old(store.resources) && calls == old(calls) && built == old(built)
    {
      var connection := Connect(ambient, utility);
      var call := SearchCall(base, scope, fltr, attrs, bindDn, bindPwd, convertFilter);
      match connection {
        case Failure(e) =>
          r := Failure(e);
        case Success(manager) =>
          calls := calls + [call];
          r := Success(Reply(manager, call));
      }
    }

    /** Adds an entry; refused in read-only mode before any connection. */
    method Insert(ambient: Option<Credentials>, utility: Option<string>, base: string, rdn: string,
                  attrs: Option<Attributes> := None)
      returns (r: Result<Reply, Error>)
      modifies this`built, this`calls, store
      ensures readOnly ==> r == Failure(RuntimeError(READ_ONLY))
      ensures readOnly ==> store.resources == old(store.resources) && calls == old(calls) && built == old(built)
      ensures !readOnly ==> r == Dispatch(old(ConnectPlan(ambient, utility, "", "")), InsertCall(base, rdn, attrs))
      ensures r.Success? ==> Cached() == Some(r.value.manager)
      ensures r.Success? ==> store.resources == old(store.resources)[SlotKey() := Conn(r.value.manager)]
      ensures r.Success? ==> calls == old(calls) + [BindCall(r.value.manager.bound.value), r.value.call]
      ensures built == if old(Cached()) == None && r.Success? then old(built) + 1 else old(built)
      ensures r.Failure? ==> store.resources == old(store.resources) && calls == old(calls) && built == old(built)
    {
      var gate := ComplainIfReadOnly();
      if gate.Fail? {
        return Failure(gate.error);
      }
      var connection := Connect(ambient, utility);
      var call := InsertCall(base, rdn, attrs);
      match connection {
        case Failure(e) =>
          r := Failure(e);
        case Success(manager) =>
          calls := calls + [call];
          r := Success(Reply(manager, call));
      }
    }

    /** Deletes an entry; refused in read-only mode before any connection. */
    method Delete(ambient: Option<Credentials>, utility: Option<string>, dn: string)
      returns (r: Result<Reply, Error>)
      modifies this`built, this`calls, store
      ensures readOnly ==> r == Failure(RuntimeError(READ_ONLY))
      ensures readOnly ==> store.resources == old(store.resources) && calls == old(calls) && built == old(built)
      ensures !readOnly ==> r == Dispatch(old(ConnectPlan(ambient, utility, "", "")), DeleteCall(dn))
      ensures r.Success? ==> Cached() == Some(r.value.manager)
      ensures r.Success? ==> store.resources == old(store.resources)[SlotKey() := Conn(r.value.manager)]
      ensures r.Success? ==> calls == old(calls) + [BindCall(r.value.manager.bound.value), r.value.call]
      ensures built == if old(Cached()) == None && r.Success? then old(built) + 1 else old(built)
      ensures r.Failure? ==> store.resources == old(store.resources) && calls == old(calls) && built == old(built)
    {
      var gate := ComplainIfReadOnly();
      if gate.Fail? {
        return Failure(gate.error);
      }
      var connection := Connect(ambient, utility);
      var call := DeleteCall(dn);
      match connection {
        case Failure(e) =>
          r := Failure(e);
        case Success(manager) =>
          calls := calls + [call];
          r := Success(Reply(manager, call));
      }
    }

    /** Modifies an entry; refused in read-only mode before any connection. */
    method Modify(ambient: Option<Credentials>, utility: Option<string>, dn: string,
                  modType: Option<ModType> := None, attrs: Option<Attributes> := None)
      returns (r: Result<Reply, Error>)
      modifies this`built, this`calls, store
      ensures readOnly ==> r == Failure(RuntimeError(READ_ONLY))
      ensures readOnly ==> store.resources == old(store.resources) && calls == old(calls) && built == old(built)
      ensures !readOnly ==> r == Dispatch(old(ConnectPlan(ambient, utility, "", "")), ModifyCall(dn, modType, attrs))
      ensures r.Success? ==> Cached() == Some(r.value.manager)
      ensures r.Success? ==> store.resources == old(store.resources)[SlotKey() := Conn(r.value.manager)]
      ensures r.Success? ==> calls == old(calls) + [BindCall(r.value.manager.bound.value), r.value.call]
      ensures built == if old(Cached()) == None && r.Success? then old(built) + 1 else old(built)
      ensures r.Failure? ==> store.resources == old(store.resources) && calls == old(calls) && built == old(built)
    {
      var gate := ComplainIfReadOnly();
      if gate.Fail? {
        return Failure(gate.error);
      }
      var connection := Connect(ambient, utility);
      var call := ModifyCall(dn, modType, attrs);
      match connection {
        case Failure(e) =>
          r := Failure(e);
        case Success(manager) =>
          calls := calls + [call];
          r := Success(Reply(manager, call));
      }
    }

    /** The guard every directory modification passes first. */
    function ComplainIfReadOnly(): (r: Outcome<Error>)
      reads this
      ensures r.Fail? <==> readOnly
      ensures r.Fail? ==> r.error == RuntimeError(READ_ONLY)
    {
      if readOnly then Fail(RuntimeError(READ_ONLY)) else Pass
    }

    /** The search scopes, each once, listed in order of their protocol code. */
    function GetScopes(): (r: seq<Scope>)
      ensures |r| == 3
      ensures forall i :: 0 <= i < |r| ==> r[i].Code() == i
      ensures forall s: Scope :: r[s.Code()] == s
    {
      [ScopeBase, ScopeOneLevel, ScopeSubtree]
    }
  }

  /** `LDAPDelegate(...)`: the constructor, then the optional server string.
      A port text that `int()` rejects raises `ValueError`, and no delegate
      results. */
  method NewDelegate(token: string, store: ResourceStore, server: string := "",
                     loginAttr: string := "", usersBase: string := "", rdnAttr: string := "",
                     useSsl: int := 0, bindDn: string := "", bindPwd: string := "", readOnly: int := 0)
    returns (r: Result<LDAPDelegate, Error>)
    requires HASH_PREFIX + token + SLOT_SUFFIX !in store.resources
    modifies store
    ensures r.Success? <==> ParseServerSpec(server, useSsl).Success?
    ensures r.Failure? ==> r.error == ValueError(ParseServerSpec(server, useSsl).error)
    ensures r.Failure? ==> store.resources == old(store.resources)
    ensures r.Success? ==>
      var d := r.value;
      && fresh(d) && d.Valid() && d.store == store && d.hash == HASH_PREFIX + token
      && d.servers == (match ParseServerSpec(server, useSsl).value
                       case None => []
                       case Some(ep) => [MakeServer(ep.host, ep.port, useSsl, DEFAULT_TIMEOUT, DEFAULT_TIMEOUT)])
      && d.loginAttr == loginAttr && d.usersBase == usersBase && d.rdnAttr == rdnAttr
      && d.bindDn == bindDn && d.bindPwd == bindPwd && d.binduidUsage == SERVICE_BIND
      && d.readOnly == (readOnly != 0) && d.objectClasses == ["top", "person"]
      && d.built == 0 && d.calls == [] && d.Cached() == None
      && store.resources == if server == "" then old(store.resources)
                             else old(store.resources)[d.SlotKey() := Str("")]
  {
    var d := new LDAPDelegate(token, store, loginAttr, usersBase, rdnAttr, bindDn, bindPwd, readOnly);
    match ParseServerSpec(server, useSsl) {
      case Failure(literal) =>
        return Failure(ValueError(literal));
      case Success(None) =>
      case Success(Some(ep)) =>
        d.AddServer(ep.host, ep.port, useSsl);
    }
    r := Success(d);
  }
}

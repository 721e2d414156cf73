/** The connection manager of the external LDAP client library, seen from the
    delegate: what it was built from, which failover servers it was given and
    whom it was last bound as. Directory requests are recorded, not performed. */
module Wire {
  import opened Wrappers
  import opened Servers
  import opened Binding

  /** The low-level client factory: the utility registered under the name
      "LDAP connection factory", or the auto-reconnecting default. */
  datatype ClientFactory = RegisteredUtility(name: string) | ReconnectLDAPObject

  /** The factory `connect` hands to a new manager, given the result of the
      utility lookup (`None` when the lookup fails). */
  function ChooseFactory(utility: Option<string>): (f: ClientFactory)
    ensures f == ReconnectLDAPObject <==> utility == None
  {
    match utility
    case Some(name) => RegisteredUtility(name)
    case None => ReconnectLDAPObject
  }

  /** A connection manager. `primary` carries the host, port, protocol and
      timeouts it was constructed with; `failovers` lists the servers passed
      to its `addServer`, in call order. */
  datatype Manager = Manager(primary: Server, failovers: seq<Server>, factory: ClientFactory,
                             rdnAttr: string, readOnly: bool, bound: Option<Credentials>)

  /** Search scopes, with their protocol codes (baseObject 0, singleLevel 1,
      wholeSubtree 2 in section 4.5.1 of RFC 4511). */
  datatype Scope = ScopeBase | ScopeOneLevel | ScopeSubtree {
    function Code(): (c: int)
      ensures 0 <= c < 3
    {
      match this
      case ScopeBase => 0
      case ScopeOneLevel => 1
      case ScopeSubtree => 2
    }
  }

  /** Modification kinds (add 0, delete 1, replace 2 in section 4.6 of
      RFC 4511). */
  datatype ModType = ModAdd | ModDelete | ModReplace

  type Attributes = map<string, seq<string>>

  /** A request the delegate makes of a manager. */
  datatype WireCall =
    | BindCall(creds: Credentials)
    | SearchCall(base: string, scope: Scope, fltr: string, attrList: seq<string>,
                 bindDn: string, bindPwd: string, convertFilter: bool)
    | InsertCall(base: string, rdn: string, attrs: Option<Attributes>)
    | DeleteCall(dn: string)
    | ModifyCall(dn: string, modType: Option<ModType>, attrs: Option<Attributes>)

  /** Whatever `manager` answers to `call`; the answer itself belongs to the
      client library. */
  datatype Reply = Reply(manager: Manager, call: WireCall)

  /** The manager the loop in `connect` leaves behind: constructed from the
      first server, then, in the `else` clause of the `for` loop, given the
      loop's last server as its one failover. */
  function Assembled(servers: seq<Server>, factory: ClientFactory, rdnAttr: string, readOnly: bool): Manager
    requires servers != []
  {
    Manager(servers[0], [servers[|servers| - 1]], factory, rdnAttr, readOnly, None)
  }

  /** Only the last server becomes a failover: with one server the primary is
      registered again, and with three or more distinct endpoints the middle
      ones reach the manager neither as primary nor as failover. */
  lemma AssembledSkipsMiddle(servers: seq<Server>, factory: ClientFactory, rdnAttr: string, readOnly: bool)
    requires servers != []
    ensures var m := Assembled(servers, factory, rdnAttr, readOnly);
      && (forall s :: s in m.failovers <==> s == servers[|servers| - 1])
      && (|servers| == 1 ==> m.failovers == [m.primary])
      && (UniqueEndpoints(servers) ==>
            forall i :: 0 < i < |servers| - 1 ==> servers[i] != m.primary && servers[i] !in m.failovers)
  {
  }

  /** Builds the manager the way `connect` does, one loop pass per server. */
  method AssembleManager(servers: seq<Server>, factory: ClientFactory, rdnAttr: string, readOnly: bool)
    returns (m: Manager)
    requires servers != []
    ensures m == Assembled(servers, factory, rdnAttr, readOnly)
    ensures m.bound == None
  {
    var built: Option<Manager> := None;
    var svr := servers[0];
    var i := 0;
    while i < |servers|
      invariant 0 <= i <= |servers|
      invariant i > 0 ==> svr == servers[i - 1]
      invariant i > 0 ==> built == Some(Manager(servers[0], [], factory, rdnAttr, readOnly, None))
    {
      svr := servers[i];
      if i == 0 {
        built := Some(Manager(svr, [], factory, rdnAttr, readOnly, None));
      }
      i := i + 1;
    }
    // The loop has no `break`, so its `else` clause always runs, with the
    // loop variable still holding the last server.
    var manager := built.value;
    m := manager.(failovers := manager.failovers + [svr]);
  }
}

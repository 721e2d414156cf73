/** The delegate's server registry: the server record, the `use_ssl` flag's
    mapping to a protocol and port, the list updates performed by
    `addServer` and `deleteServers`, and the `"host:port"` string the
    constructor accepts. */
module Servers {
  import opened Wrappers
  import opened Text

  datatype Protocol = Ldap | Ldaps | Ldapi

  /** One server definition, as the dictionary `addServer` appends. */
  datatype Server = Server(host: string, port: int, protocol: Protocol, connTimeout: int, opTimeout: int)

  /** The timeout value meaning "use the client library's default". */
  const DEFAULT_TIMEOUT: int := -1

  /** The port `addServer` uses when its caller gives none. */
  const DEFAULT_PORT: int := 389

  /** The `use_ssl` flag: 1 selects LDAP over TLS, 2 a local socket, and any
      other value plain LDAP. */
  function ProtocolFor(useSsl: int): (p: Protocol)
    ensures p == Ldapi <==> useSsl == 2
    ensures p == Ldaps <==> useSsl == 1
  {
    if useSsl == 2 then Ldapi else if useSsl == 1 then Ldaps else Ldap
  }

  /** The port each protocol conventionally listens on; a local socket has
      none, written 0. */
  function WellKnownPort(p: Protocol): nat {
    match p
    case Ldap => 389
    case Ldaps => 636
    case Ldapi => 0
  }

  /** The port the constructor picks for a server string without a colon. */
  function DefaultPort(useSsl: int): (port: int)
    ensures port == WellKnownPort(ProtocolFor(useSsl))
  {
    if useSsl == 2 then 0 else if useSsl == 1 then 636 else 389
  }

  /** The record `addServer` builds: the protocol follows the flag, a local
      socket has its port forced to 0, everything else is kept as given. */
  function MakeServer(host: string, port: int, useSsl: int, connTimeout: int, opTimeout: int): (s: Server)
    ensures s.protocol == ProtocolFor(useSsl)
    ensures s.port == (if s.protocol == Ldapi then 0 else port)
    ensures s.host == host && s.connTimeout == connTimeout && s.opTimeout == opTimeout
  {
    var protocol := ProtocolFor(useSsl);
    Server(host, if protocol == Ldapi then 0 else port, protocol, connTimeout, opTimeout)
  }

  /** Some entry of `servers` has this host and port. */
  predicate HasEndpoint(servers: seq<Server>, host: string, port: int) {
    exists i :: 0 <= i < |servers| && servers[i].host == host && servers[i].port == port
  }

  /** No two entries share a host and a port. */
  predicate UniqueEndpoints(servers: seq<Server>) {
    forall i, j :: 0 <= i < j < |servers| ==>
      !(servers[i].host == servers[j].host && servers[i].port == servers[j].port)
  }

  /** The list after `addServer` offers `entry`: unchanged if its host and
      port are already present, otherwise `entry` appended at the end. */
  function WithServer(servers: seq<Server>, entry: Server): (r: seq<Server>)
    ensures HasEndpoint(r, entry.host, entry.port)
    ensures |servers| <= |r| <= |servers| + 1 && r[..|servers|] == servers
    ensures UniqueEndpoints(servers) ==> UniqueEndpoints(r)
  {
    if HasEndpoint(servers, entry.host, entry.port) then servers
    else
      var r := servers + [entry];
      assert r[|servers|] == entry;
      r
  }

  /** `addServer` grows the list exactly when the endpoint is new, and then
      by the offered entry at the end. */
  lemma WithServerAppendsNew(servers: seq<Server>, entry: Server)
    ensures |WithServer(servers, entry)| == |servers| + 1 <==> !HasEndpoint(servers, entry.host, entry.port)
    ensures HasEndpoint(servers, entry.host, entry.port) ==> WithServer(servers, entry) == servers
    ensures !HasEndpoint(servers, entry.host, entry.port) ==> WithServer(servers, entry) == servers + [entry]
  {
  }

  /** Offering the same entry twice has the effect of offering it once. */
  lemma WithServerIdempotent(servers: seq<Server>, entry: Server)
    ensures WithServer(WithServer(servers, entry), entry) == WithServer(servers, entry)
  {
  }

  /** The list after `addServer` is called with each entry in turn. */
  function AddAll(servers: seq<Server>, entries: seq<Server>): seq<Server>
    decreases |entries|
  {
    if entries == [] then servers else AddAll(WithServer(servers, entries[0]), entries[1..])
  }

  /** Adding servers whose endpoints are new and pairwise distinct lists them
      after the existing ones, in the order they were added. */
  lemma {:induction false} AddAllInOrder(servers: seq<Server>, entries: seq<Server>)
    requires UniqueEndpoints(servers + entries)
    ensures AddAll(servers, entries) == servers + entries
    decreases |entries|
  {
    if entries != [] {
      var all, e := servers + entries, entries[0];
      assert !HasEndpoint(servers, e.host, e.port) by {
        forall i | 0 <= i < |servers|
          ensures !(servers[i].host == e.host && servers[i].port == e.port)
        {
          assert all[i] == servers[i] && all[|servers|] == e;
        }
      }
      assert WithServer(servers, entries[0]) == servers + [entries[0]];
      assert (servers + [entries[0]]) + entries[1..] == all;
      AddAllInOrder(servers + [entries[0]], entries[1..]);
    }
  }

  /** The entries `deleteServers` keeps: those whose index is not listed in
      `positions`, in their original order. */
  function Kept<T>(s: seq<T>, positions: seq<int>): (r: seq<T>)
    ensures |r| <= |s|
    ensures forall x :: x in r ==> x in s
  {
    if s == [] then []
    else
      var prefix := Kept(s[..|s| - 1], positions);
      assert forall x :: x in prefix ==> x in s[..|s| - 1];
      prefix + (if |s| - 1 in positions then [] else [s[|s| - 1]])
  }

  /** The indices below `n` that are not listed in `positions`, ascending. */
  function Survivors(n: nat, positions: seq<int>): (r: seq<int>)
    ensures forall k :: 0 <= k < |r| ==> 0 <= r[k] < n
  {
    if n == 0 then [] else Survivors(n - 1, positions) + (if n - 1 in positions then [] else [n - 1])
  }

  /** The survivors are exactly the unlisted in-range indices, strictly
      ascending. */
  lemma {:induction false} SurvivorsExact(n: nat, positions: seq<int>)
    ensures forall i :: i in Survivors(n, positions) <==> 0 <= i < n && i !in positions
    ensures forall j, k :: 0 <= j < k < |Survivors(n, positions)| ==>
      Survivors(n, positions)[j] < Survivors(n, positions)[k]
  {
    if n > 0 {
      SurvivorsExact(n - 1, positions);
    }
  }

  /** `Kept` takes the entry at each surviving index, in order. */
  lemma {:induction false} KeptAtSurvivors<T>(s: seq<T>, positions: seq<int>)
    ensures |Kept(s, positions)| == |Survivors(|s|, positions)|
    ensures forall k :: 0 <= k < |Kept(s, positions)| ==>
      Kept(s, positions)[k] == s[Survivors(|s|, positions)[k]]
  {
    if s != [] {
      var init := s[..|s| - 1];
      KeptAtSurvivors(init, positions);
      assert |init| == |s| - 1;
      forall k | 0 <= k < |Kept(init, positions)|
        ensures Kept(s, positions)[k] == s[Survivors(|s|, positions)[k]]
      {
        assert Kept(s, positions)[k] == Kept(init, positions)[k];
        assert Survivors(|s|, positions)[k] == Survivors(|init|, positions)[k];
      }
    }
  }

  /** The in-range indices listed in `positions`. */
  function Removed(n: nat, positions: seq<int>): set<int> {
    set i | i in positions && 0 <= i < n
  }

  /** `deleteServers` shortens the list by the number of distinct in-range
      positions; repeated and out-of-range positions have no effect. */
  lemma {:induction false} KeptLength<T>(s: seq<T>, positions: seq<int>)
    ensures |Kept(s, positions)| == |s| - |Removed(|s|, positions)|
  {
    KeptAtSurvivors(s, positions);
    SurvivorsLength(|s|, positions);
  }

  lemma {:induction false} SurvivorsLength(n: nat, positions: seq<int>)
    ensures |Survivors(n, positions)| == n - |Removed(n, positions)|
  {
    if n > 0 {
      SurvivorsLength(n - 1, positions);
      var before := Removed(n - 1, positions);
      if n - 1 in positions {
        assert Removed(n, positions) == before + {n - 1};
        assert n - 1 !in before;
      } else {
        assert Removed(n, positions) == before;
      }
    }
  }

  /** Deleting entries never creates a duplicate endpoint. */
  lemma {:induction false} KeptUnique(s: seq<Server>, positions: seq<int>)
    requires UniqueEndpoints(s)
    ensures UniqueEndpoints(Kept(s, positions))
  {
    KeptAtSurvivors(s, positions);
    SurvivorsExact(|s|, positions);
    var r, idx := Kept(s, positions), Survivors(|s|, positions);
    forall i, j | 0 <= i < j < |r|
      ensures !(r[i].host == r[j].host && r[i].port == r[j].port)
    {
      assert idx[i] < idx[j];
    }
  }

  /** A host and a port, as parsed from a server string. */
  datatype Endpoint = Endpoint(host: string, port: int)

  /** The constructor's reading of its `server` argument: nothing for the
      empty string; for `"host:port"` the stripped text before the first
      colon and the integer between the first and any second colon; for a
      bare host the default port of the protocol. A port text that is not an
      integer is returned as the failure (the constructor's `ValueError`). */
  function ParseServerSpec(server: string, useSsl: int): (r: Result<Option<Endpoint>, string>)
    ensures r == Success(None) <==> server == ""
    ensures r.Failure? ==> ':' in server
    ensures ':' !in server && server != "" ==> r == Success(Some(Endpoint(server, DefaultPort(useSsl))))
    ensures ':' in server && r.Success? ==> r.value.Some? && ':' !in r.value.value.host && Trimmed(r.value.value.host)
  {
    if server == "" then Success(None)
    else if ':' in server then
      SplitFields(server, ':');
      var fields := Split(server, ':');
      match ParseInt(fields[1])
      case None => Failure(fields[1])
      case Some(port) =>
        assert ':' !in fields[0];
        Success(Some(Endpoint(Strip(fields[0]), port)))
    else Success(Some(Endpoint(server, DefaultPort(useSsl))))
  }

  /** For any text with a colon: the host is the stripped text before the
      first colon, and the port is `int()` of the text between the first
      and any second colon, whose rejection is the failure. */
  lemma ServerSpecFields(a: string, b: string, useSsl: int)
    requires ':' !in a
    ensures var t := Split(b, ':')[0];
      ParseServerSpec(a + ":" + b, useSsl) ==
        if ParseInt(t).None? then Failure(t) else Success(Some(Endpoint(Strip(a), ParseInt(t).value)))
  {
    assert a + ":" + b == a + [':'] + b;
    SplitFirstField(a, ':', b);
    assert ':' in a + ":" + b by { assert (a + ":" + b)[|a|] == ':'; }
  }

  /** Writing a trimmed, colon-free host and a port as `"host:port"` is read
      back as that host and port, whatever the flag. */
  lemma ServerSpecRoundTrip(host: string, port: int, useSsl: int)
    requires ':' !in host && Trimmed(host)
    ensures ParseServerSpec(host + ":" + ShowInt(port), useSsl) == Success(Some(Endpoint(host, port)))
  {
    var text := ShowInt(port);
    var server := host + ":" + text;
    ShowIntCharacters(port);
    assert ':' !in text;
    assert server == host + [':'] + text;
    SplitFirstField(host, ':', text);
    SplitSingleField(text, ':');
    var fields := Split(server, ':');
    assert fields == [host, text];
    assert ':' in server by { assert server[|host|] == ':'; }
    ParseShowInt(port);
    StripTrimmed(host);
  }

  /** The port is read from the second field only: text after a second colon
      is ignored. */
  lemma ServerSpecIgnoresThirdField(host: string, port: int, tail: string, useSsl: int)
    requires ':' !in host && Trimmed(host)
    ensures ParseServerSpec(host + ":" + ShowInt(port) + ":" + tail, useSsl) == Success(Some(Endpoint(host, port)))
  {
    var text := ShowInt(port);
    var server := host + ":" + text + ":" + tail;
    ShowIntCharacters(port);
    assert ':' !in text;
    assert server == host + [':'] + (text + [':'] + tail);
    SplitFirstField(text, ':', tail);
    SplitFirstField(host, ':', text + [':'] + tail);
    var fields := Split(server, ':');
    assert fields[0] == host && fields[1] == text;
    assert ':' in server by { assert server[|host|] == ':'; }
    ParseShowInt(port);
    StripTrimmed(host);
  }
}

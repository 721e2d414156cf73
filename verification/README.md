# LDAPDelegate, modelled in Dafny

This project models the `LDAPDelegate` class of LDAPUserFolder, the layer
that sits between the user folder and an LDAP directory. A delegate:

- keeps an ordered registry of directory servers (host, port, protocol and
  two timeouts), with no two entries sharing a host and a port;
- holds the bind configuration (login, RDN and users-base attributes, the
  object classes, the service bind DN and password, the `binduid_usage`
  switch and the read-only flag);
- resolves the credentials of each connection;
- caches one connection manager per delegate in a process-wide store;
- dispatches search, insert, delete and modify requests through that manager.
  The three modifying requests are refused in read-only mode before any
  connection is made.

Layout:

- `wrappers.dfy`: `Option`, `Result` and `Outcome`.
- `text.dfy`: the Python string handling the delegate relies on. This is
  `str.strip()`, `str.split(sep)`, `str(n)` and Python 2's base-10 `int()`.
- `servers.dfy`: the server record and the `use_ssl` mapping. It also holds
  the registry updates of `addServer` and `deleteServers` as functions on
  sequences, and the constructor's reading of a `"host:port"` string.
- `binding.dfy`: the choice of bind credentials in `connect`.
- `wire.dfy`: the connection manager of the client library as a value. It
  records what it was built from, its failover servers and whom it was last
  bound as. This file also holds the loop in `connect` that builds a manager.
- `delegate.dfy`: the shared resource store (a class over a map) and the
  `LDAPDelegate` class. The class's methods update the registry and the
  configuration in place, and read and write the delegate's cache slot.
  Two ghost fields record how many managers the delegate has built and
  every request it has made of a manager.

The manager is built by the loop at lines 178-203, whose `else` belongs to
the `for`. It is modelled as the code runs. The manager is constructed from
the first server. After the loop ends, the loop variable holds the last
server, and that server is the one server handed to the manager's
`addServer`. With one server, the primary is registered a second time. With
three or more servers, the middle ones never reach the manager.

`Wire.AssembleManager` states the loop's result and
`Wire.AssembledSkipsMiddle` states that the middle servers never reach the
manager's `addServer`.

The parts of `connect` that depend on the environment are inputs:

- The lookup of the "LDAP connection factory" utility is `utility:
  Option<string>`.
- The acting user is `ambient: Option<Credentials>`. `None` stands for a user
  that cannot supply a DN and a password.
- The random part of the cache key is an opaque `token` given to the
  constructor.

## Model

| member | source | states |
|---|---|---|
| Text.Strip | Products/LDAPUserFolder/LDAPDelegate.py:66 | the stripped text neither starts nor ends with whitespace |
| Text.StripLeftRemovesSpace | Products/LDAPUserFolder/LDAPDelegate.py:66 | everything stripped from the front is whitespace |
| Text.StripRightRemovesSpace | Products/LDAPUserFolder/LDAPDelegate.py:66 | everything stripped from the end is whitespace |
| Text.StripTrimmed | Products/LDAPUserFolder/LDAPDelegate.py:152 | stripping text that is already trimmed changes nothing, so stripping is idempotent |
| Text.StripKeepsOut | Products/LDAPUserFolder/LDAPDelegate.py:152 | stripping never introduces a character, so a stripped field of a comma split still has no comma |
| Text.SplitFields | Products/LDAPUserFolder/LDAPDelegate.py:65-67 | `split(sep)` yields one more field than there are separators, and no field contains the separator |
| Text.JoinSplit | Products/LDAPUserFolder/LDAPDelegate.py:65-67 | joining the fields of a split with the separator gives back the original text |
| Text.SplitJoin | Products/LDAPUserFolder/LDAPDelegate.py:65-67 | splitting a join of separator-free fields gives back the fields |
| Text.SplitFirstField | Products/LDAPUserFolder/LDAPDelegate.py:66 | the text before the first separator is the first field, and the rest is split on its own |
| Text.ParseInt | Products/LDAPUserFolder/LDAPDelegate.py:67 | `int()` rejects empty and all-whitespace text |
| Text.ParseNegativeGap | Products/LDAPUserFolder/LDAPDelegate.py:67 | a minus sign, a run of whitespace and digits reads as the negated digits, as Python 2's `int()` skips whitespace after the sign: `int('- 5') == -5` |
| Text.ParseShowInt | Products/LDAPUserFolder/LDAPDelegate.py:67 | `int(str(n)) == n` for every integer |
| Servers.ProtocolFor | Products/LDAPUserFolder/LDAPDelegate.py:90-96 | `use_ssl` 2 selects ldapi and only 2 does; 1 selects ldaps and only 1 does; every other value selects ldap |
| Servers.DefaultPort | Products/LDAPUserFolder/LDAPDelegate.py:71-76 | a server string without a colon gets the well-known port of its protocol: 0, 636 or 389 |
| Servers.MakeServer | Products/LDAPUserFolder/LDAPDelegate.py:90-105 | the new record's protocol follows the flag; its port is forced to 0 for ldapi and kept otherwise; host and timeouts are kept |
| Servers.WithServer | Products/LDAPUserFolder/LDAPDelegate.py:98-106 | after `addServer` the endpoint is present, the old list is an unchanged prefix, at most one entry is added, and unique endpoints stay unique |
| Servers.WithServerAppendsNew | Products/LDAPUserFolder/LDAPDelegate.py:98-106 | the list grows exactly when no entry has the same host and port, and then by the new entry at the end; otherwise it is unchanged |
| Servers.WithServerIdempotent | Products/LDAPUserFolder/LDAPDelegate.py:98-106 | offering the same server twice has the effect of offering it once |
| Servers.AddAllInOrder | Products/LDAPUserFolder/LDAPDelegate.py:98-106 | servers with distinct new endpoints, added one by one, are listed in insertion order after the existing ones |
| Servers.Kept | Products/LDAPUserFolder/LDAPDelegate.py:129-131 | `deleteServers` never lengthens the list and keeps only entries that were there |
| Servers.SurvivorsExact | Products/LDAPUserFolder/LDAPDelegate.py:129-130 | the surviving indices are exactly the in-range indices not listed, in ascending order |
| Servers.KeptAtSurvivors | Products/LDAPUserFolder/LDAPDelegate.py:129-131 | the kept list is the entry at each surviving index, in the original relative order |
| Servers.KeptLength | Products/LDAPUserFolder/LDAPDelegate.py:123-133 | the new length is the old length minus the number of distinct in-range positions; repeated and out-of-range positions have no effect |
| Servers.KeptUnique | Products/LDAPUserFolder/LDAPDelegate.py:123-133 | deleting entries never creates a duplicate endpoint |
| Servers.ParseServerSpec | Products/LDAPUserFolder/LDAPDelegate.py:64-77 | the empty string, and only it, adds no server; a failure needs a colon (`Servers.ServerSpecFields` says which port texts fail); a bare host gets the default port; a parsed host is trimmed and colon-free |
| Servers.ServerSpecFields | Products/LDAPUserFolder/LDAPDelegate.py:64-67 | for any text with a colon, the host is the stripped text before the first colon and the port is `int()` of the text between the first and any second colon; a port text `int()` rejects is the `ValueError` literal |
| Servers.ServerSpecRoundTrip | Products/LDAPUserFolder/LDAPDelegate.py:65-67 | `"host:port"` written from a trimmed, colon-free host reads back as that host and port, whatever the flag |
| Servers.ServerSpecIgnoresThirdField | Products/LDAPUserFolder/LDAPDelegate.py:66-67 | text after a second colon is ignored: the port comes from the second field only |
| Binding.ResolveBind | Products/LDAPUserFolder/LDAPDelegate.py:158-170 | an explicit bind DN wins, with the password `~` when none is given; otherwise the service identity when `binduid_usage` is 1; otherwise the acting user, or an anonymous bind when that user supplies nothing |
| Binding.AmbientOnlyAsLastResort | Products/LDAPUserFolder/LDAPDelegate.py:158-170 | with an explicit DN or a service bind, the acting user makes no difference |
| Binding.AnonymousExactly | Products/LDAPUserFolder/LDAPDelegate.py:158-170 | the bind is anonymous exactly when no DN is given and the source chosen by `binduid_usage` supplies an empty DN and password |
| Wire.ChooseFactory | Products/LDAPUserFolder/LDAPDelegate.py:181-186 | the auto-reconnecting client is used exactly when the utility lookup fails |
| Wire.AssembleManager | Products/LDAPUserFolder/LDAPDelegate.py:178-203 | the loop builds the manager from the first server and hands it the last server as its one failover, unbound |
| Wire.AssembledSkipsMiddle | Products/LDAPUserFolder/LDAPDelegate.py:178-203 | only the last server becomes a failover; with one server the primary is added again; with distinct endpoints the middle servers are neither primary nor failover |
| Delegate.ResourceStore.Get | Products/LDAPUserFolder/LDAPDelegate.py:172 | a slot never written reads as the empty string produced by the `str` factory |
| Delegate.ResourceStore.Set | Products/LDAPUserFolder/LDAPDelegate.py:206 | writing a slot changes that slot and no other |
| Delegate.ObjectClasses | Products/LDAPUserFolder/LDAPDelegate.py:151-153 | a list of object classes is stored as given |
| Delegate.ObjectClassesFromText | Products/LDAPUserFolder/LDAPDelegate.py:151-152 | a class string gives one name per comma-separated field, each without commas and without surrounding whitespace |
| Delegate.TwoClassNames | Products/LDAPUserFolder/LDAPDelegate.py:151-152 | two trimmed, comma-free names written as `"a,b"` are read back as exactly those names |
| Delegate.ClassNamesRoundTrip | Products/LDAPUserFolder/LDAPDelegate.py:151-152 | any non-empty list of trimmed, comma-free names written as one comma-separated string is read back as exactly that list |
| Delegate.DefaultObjectClasses | Products/LDAPUserFolder/LDAPDelegate.py:60 | the string `top,person` gives the classes `top` and `person` |
| Delegate.Dispatch | Products/LDAPUserFolder/LDAPDelegate.py:221-222 | a request reaches the manager exactly when the connection succeeded; otherwise the connection's error is the result |
| Delegate.LDAPDelegate.Cached | Products/LDAPUserFolder/LDAPDelegate.py:172-173 | a manager is cached exactly when the delegate's slot holds one |
| Delegate.LDAPDelegate.constructor | Products/LDAPUserFolder/LDAPDelegate.py:53-62 | a new delegate has the key prefix `ldap_delegate`, no servers, the given configuration, service binding, the classes `top` and `person`, nothing built or sent, and, its key being fresh as a random key is, no cached manager |
| Delegate.LDAPDelegate.EditDefaults | Products/LDAPUserFolder/LDAPDelegate.py:59-62 | `edit` as construction calls it stores the classes `top` and `person` and sets `binduid_usage` to 1 |
| Delegate.LDAPDelegate.GetServers | Products/LDAPUserFolder/LDAPDelegate.py:113-121 | the registry is returned in order, with unique endpoints |
| Delegate.LDAPDelegate.AddServer | Products/LDAPUserFolder/LDAPDelegate.py:80-111 | the registry becomes `WithServer` of the new record, and the cache slot is cleared even when nothing was added |
| Delegate.LDAPDelegate.DeleteServers | Products/LDAPUserFolder/LDAPDelegate.py:123-137 | the index loop keeps exactly the unlisted entries in order, and the cache slot is cleared |
| Delegate.LDAPDelegate.Edit | Products/LDAPUserFolder/LDAPDelegate.py:139-153 | every configuration field is replaced; the read-only flag is the truth value of its argument; a class string is split and stripped |
| Delegate.LDAPDelegate.ConnectPlan | Products/LDAPUserFolder/LDAPDelegate.py:155-209 | `connect` fails with "No servers defined" exactly when nothing is cached and there are no servers; a cached manager is reused; otherwise a manager is built from the first and last servers; the result is bound with the resolved credentials |
| Delegate.LDAPDelegate.Connect | Products/LDAPUserFolder/LDAPDelegate.py:155-209 | the result is `ConnectPlan` of the old state; on success the bound manager is cached and one bind is sent; a manager is built only when none was cached; a failure leaves the store and the request log unchanged |
| Delegate.LDAPDelegate.Search | Products/LDAPUserFolder/LDAPDelegate.py:211-229 | search connects with no explicit credentials and no read-only check, then sends the search with its own bind arguments; on success only this delegate's slot changes, and a manager is built only when none was cached |
| Delegate.LDAPDelegate.Insert | Products/LDAPUserFolder/LDAPDelegate.py:231-235 | in read-only mode, insert fails with the read-only error before any connection, build or request; otherwise it connects and sends the insert; on success only this delegate's slot changes, and a manager is built only when none was cached |
| Delegate.LDAPDelegate.Delete | Products/LDAPUserFolder/LDAPDelegate.py:237-241 | in read-only mode, delete fails with the read-only error before any connection, build or request; otherwise it connects and sends the delete; on success only this delegate's slot changes, and a manager is built only when none was cached |
| Delegate.LDAPDelegate.Modify | Products/LDAPUserFolder/LDAPDelegate.py:243-247 | in read-only mode, modify fails with the read-only error before any connection, build or request; otherwise it connects and sends the modify; on success only this delegate's slot changes, and a manager is built only when none was cached |
| Delegate.LDAPDelegate.ComplainIfReadOnly | Products/LDAPUserFolder/LDAPDelegate.py:249-256 | the guard fails exactly in read-only mode, with the read-only message |
| Delegate.LDAPDelegate.GetScopes | Products/LDAPUserFolder/LDAPDelegate.py:267-268 | the three scopes, each exactly once, at the position of their protocol code |
| Delegate.NewDelegate | Products/LDAPUserFolder/LDAPDelegate.py:53-78 | construction succeeds exactly when the server string parses; a rejected port text is a `ValueError`; otherwise the new delegate holds the parsed server, if any, the given configuration and no cached manager, so with no server its first connection fails with "No servers defined" |

## Left out

- The LDAP wire layer is not part of this model. This covers `LDAPConnection`,
  `ReconnectLDAPObject` and the manager's own `connect`, `search`, `insert`,
  `delete` and `modify`. Each request is recorded in the ghost request log,
  and its answer is an opaque `Reply`. Failures of the bind or of a request
  inside the client library are not modelled.
- The search-result dictionary (`exception`, `size`, `results`) is produced
  by the client library and is not modelled.
- The component-registry lookup of the connection factory is an input. It
  is `Some(name)` when the lookup succeeds and `None` when it fails.
- The security manager is an input. The acting user's DN and password are
  `ambient`, and `None` stands for a user without them.
- The float from `random.random()` in the cache key is replaced by a string
  token. The constructor and `Delegate.NewDelegate` require that no slot
  exists yet under the resulting key, which is what a random key gives the
  source: a new delegate starts with nothing cached.
- The shared resource store is a map from names to values. `SharedResource`
  and its locking are not part of this model.
- Concurrency around the shared store is not modelled. Neither are
  persistence and logging.
- `GetServers`: the migration of a legacy dictionary registry to a list
  (lines 117-119) is not modelled. The order of a dictionary's values is
  unspecified.
- `AddServer`: ports are integers. The source's default port is the string
  `'389'`, which Python compares unequal to the integer 389. So a server
  added with the default port and the same host added with port 389 are
  duplicates here but two entries in the source.
- `DeleteServers`: positions are integers. The source's `int(x)` conversion
  of each position, and its `ValueError` on a non-numeric one, is not
  modelled.
- `Edit`: `binduid_usage` and `read_only` are integers. `int()` of other
  types and Python truthiness of non-integers are not modelled. A class
  argument that is neither text nor a list is not distinguished from a list.
- `Text.Strip`: only the whitespace of a byte string is removed: space, tab,
  line feed, carriage return, vertical tab and form feed. The source also
  accepts unicode object classes (line 151). Unicode `strip()` removes more
  characters, such as U+00A0 and U+0085. So `u"top,\u00a0person"` gives
  `person` in the source but `"\u00a0person"` here, and a unicode host in
  the server string is stripped the same narrower way.
- `Text.ParseInt`: it accepts surrounding whitespace, one optional sign,
  whitespace after the sign and ASCII digits. The non-ASCII digits and
  unicode whitespace that Python 2's `int()` accepts in unicode text are
  not modelled, so `u"h:\u00a0389"` gives port 389 in the source but a
  `ValueError` here.
- `Delegate.LDAPDelegate.Connect`: the manager is a value. The source binds
  the cached manager object in place. The model stores the rebound manager
  back into the slot, so aliasing of a manager object held elsewhere is not
  captured.
- The class constants `ADD`, `DELETE`, `REPLACE` and `BASE`, and the scope
  values, are values from the LDAP client library. They are modelled as
  datatype constructors, not as that library's numbers.
- The module-level `connectionFactory` is not modelled. It is a factory
  registration for the component registry.

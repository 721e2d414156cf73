/** How `connect` picks the identity it binds with. */
module Binding {
  import opened Wrappers

  datatype Credentials = Credentials(dn: string, pwd: string)

  /** An anonymous bind: empty name and empty password. */
  const ANONYMOUS := Credentials("", "")

  /** The password sent with an explicit bind name whose password is empty,
      so that the directory sees an authenticated (and failing) bind rather
      than an anonymous one. */
  const PASSWORD_PLACEHOLDER := "~"

  /** The `binduid_usage` value meaning "always bind as the configured
      service identity". */
  const SERVICE_BIND: int := 1

  /** The credentials for one `connect` call: an explicit bind name wins,
      then the configured service identity when `binduidUsage` asks for it,
      then the ambient user; `ambient` is `None` when that user cannot supply
      a DN and password, which leaves an anonymous bind. */
  function ResolveBind(bindDn: string, bindPwd: string, binduidUsage: int,
                       serviceDn: string, servicePwd: string,
                       ambient: Option<Credentials>): (c: Credentials)
    ensures bindDn != "" ==> c.dn == bindDn && c.pwd != "" && (bindPwd != "" ==> c.pwd == bindPwd)
    ensures bindDn != "" && bindPwd == "" ==> c.pwd == PASSWORD_PLACEHOLDER
    ensures bindDn == "" && binduidUsage == SERVICE_BIND ==> c == Credentials(serviceDn, servicePwd)
    ensures bindDn == "" && binduidUsage != SERVICE_BIND ==> c == ambient.GetOr(ANONYMOUS)
  {
    if bindDn != "" then
      Credentials(bindDn, if bindPwd != "" then bindPwd else PASSWORD_PLACEHOLDER)
    else if binduidUsage == SERVICE_BIND then
      Credentials(serviceDn, servicePwd)
    else
      ambient.GetOr(ANONYMOUS)
  }

  /** The ambient user is consulted only as the last resort: with an
      explicit name or a service bind, it makes no difference who it is. */
  lemma AmbientOnlyAsLastResort(bindDn: string, bindPwd: string, binduidUsage: int,
                                serviceDn: string, servicePwd: string,
                                a1: Option<Credentials>, a2: Option<Credentials>)
    requires bindDn != "" || binduidUsage == SERVICE_BIND
    ensures ResolveBind(bindDn, bindPwd, binduidUsage, serviceDn, servicePwd, a1)
         == ResolveBind(bindDn, bindPwd, binduidUsage, serviceDn, servicePwd, a2)
  {
  }

  /** The bind is anonymous exactly when no explicit name is given and the
      chosen source (service identity or ambient user) supplies nothing. */
  lemma AnonymousExactly(bindDn: string, bindPwd: string, binduidUsage: int,
                         serviceDn: string, servicePwd: string, ambient: Option<Credentials>)
    ensures ResolveBind(bindDn, bindPwd, binduidUsage, serviceDn, servicePwd, ambient) == ANONYMOUS
        <==> bindDn == "" &&
             if binduidUsage == SERVICE_BIND then serviceDn == "" && servicePwd == ""
             else ambient == None || ambient == Some(ANONYMOUS)
  {
  }
}

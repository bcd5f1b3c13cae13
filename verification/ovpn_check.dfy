/**
 * The OpenVPN helper's own copy of the authentication check (`functions.go`):
 * its four sanitizers and `ldapSearch`, the exit-code check that the
 * command-line tool runs for a username and password. The DN and group
 * sanitizers are the `ldap` package's, character for character; the user
 * query sanitizer reports success with an inverted flag, and the caller
 * tests it the inverted way; the dial error is ignored.
 */
module OvpnCheck {
  import opened GoStrings
  import opened Config
  import opened Directory
  import opened Sanitize
  import opened Ldap

  /**
   * `sanitizedUserQuery` of the helper: the flag is `true` when the username
   * is REFUSED, and the filter is only built when the flag is `false`.
   */
  function InvertedUserQuery(st: Settings, username: string): (r: (string, bool))
    ensures r.1 <==> !FilterSafe(username)
    ensures !r.1 ==> r.0 == Substitute(st.filter, username)
    ensures r.1 ==> r.0 == ""
  {
    if ContainsAny(username, FilterSpecials) then
      var i :| 0 <= i < |username| && username[i] in FilterSpecials;
      assert username[i] in username;
      ("", true)
    else (Substitute(st.filter, username), false)
  }

  /** The inverted flag is exactly the negation of the package's flag; the filter is the same. */
  lemma InvertedFlagNegatesPackage(st: Settings, username: string)
    ensures InvertedUserQuery(st, username).0 == SanitizedUserQuery(st, username).0
    ensures InvertedUserQuery(st, username).1 == !SanitizedUserQuery(st, username).1
  {
  }

  /**
   * `ldapSearch(name, pw)`. The dial error is dropped, so when the dial
   * fails the service bind runs on a nil connection and the process panics.
   * Otherwise: service bind with the bind DN as configured, the deferred
   * close, the inverted sanitizer (its flag read inverted), then the user search,
   * the group gate in UID mode and the user bind.
   */
  function LdapSearch(st: Settings, srv: Server, name: string, pw: string): (r: ExitReply)
    ensures !srv.dialOk ==> r.status == Crash(NilConnection) && r.trace == [Dial]
    ensures r.status == Code(0) <==> LdapSearchGrants(st, srv, name, pw)
    ensures srv.dialOk ==> r.status == Code(0) || r.status == Code(1) || (r.status.Crash? && r.status.cause.NoUidMatch?)
    ensures srv.dialOk && srv.bindOk(st.bindDN, st.bindPassword) ==> ClosesOnce(r.trace)
    ensures !(srv.dialOk && srv.bindOk(st.bindDN, st.bindPassword)) ==> Close !in r.trace
  {
    if !srv.dialOk then ExitReply(Crash(NilConnection), [Dial])
    else
      var b := SendBind(srv, Opened, st.bindDN, st.bindPassword);
      if !b.ok then ExitReply(Code(1), b.session.trace)  // the deferred close is not registered yet
      else
        var q := InvertedUserQuery(st, name);
        if q.1 then
          assert Closed(b.session) == [Dial, Op.Bind(st.bindDN, st.bindPassword), Close];
          ExitReply(Code(1), Closed(b.session))
        else
          var r := SearchAndBindUser(st, srv, b.session, q.0, pw);
          OpenedCallCloses(b.session.trace, r.trace);
          r
  }

  /**
   * Once connected, the helper's check and the package's `LdapSearch` give
   * the same exit status over the same requests: the inverted flag is
   * inverted back by its caller. They differ only when the dial fails,
   * where the package answers 1 and the helper panics.
   */
  lemma AgreesWithPackageOnceConnected(st: Settings, srv: Server, name: string, pw: string)
    ensures srv.dialOk ==> LdapSearch(st, srv, name, pw) == Ldap.LdapSearch(st, srv, name, pw)
    ensures !srv.dialOk ==> LdapSearch(st, srv, name, pw).status.Crash? && Ldap.LdapSearch(st, srv, name, pw).status == Code(1)
  {
  }
}

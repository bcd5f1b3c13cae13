/**
 * Properties of the exit-code check (`LdapSearch` in the `ldap` package and
 * `ldapSearch` of the OpenVPN helper) and of the user lookup behind the
 * profile-returning check.
 */
module ExitCheckProperties {
  import opened Results
  import opened GoStrings
  import opened Config
  import opened Directory
  import opened Sanitize
  import opened Ldap

  /**
   * The "0 entries" guard of the group step tests the user search's entry
   * count instead of the group search's, so it never fires. An empty group
   * answer is still refused: the membership loop runs over no values and
   * leaves the flag false.
   */
  lemma EmptyGroupAnswerRefuses(st: Settings, srv: Server, name: string, pw: string)
    requires st.groupEnabled
    requires srv.search(st.bindDN, st.groupDN, st.groupFilter) == Found([])
    ensures LdapSearch(st, srv, name, pw).status == Code(1)
  {
  }

  /**
   * On exit code 0 the request right before the close is the bind of the
   * one entry the user search found, with the password given.
   */
  lemma GrantedTraceEndsWithUserBind(st: Settings, srv: Server, name: string, pw: string)
    requires LdapSearch(st, srv, name, pw).status == Code(0)
    ensures
      var r := LdapSearch(st, srv, name, pw);
      var res := srv.search(st.bindDN, st.userBase, Substitute(st.filter, name));
      && res.Found? && |res.entries| == 1
      && r.trace[|r.trace| - 2] == Op.Bind(res.entries[0].dn, pw)
  {
  }

  /**
   * Why a lookup fails, once the service bind (if any) has succeeded and the
   * name is filter-safe: the search answer alone decides among a search
   * error, no entry, several entries and an entry without a DN.
   */
  lemma LookupFailureReasons(st: Settings, srv: Server, s: Session, name: string)
    ensures
      var r := FindUserDN(st, srv, s, name).result;
      && (HasServiceCredentials(st) && !srv.bindOk(ServiceDN(st, name), st.bindPassword) ==> r == Err(ServiceBindFailed))
      && ((HasServiceCredentials(st) ==> srv.bindOk(ServiceDN(st, name), st.bindPassword)) && !FilterSafe(name) ==> r == Err(FilterRejected))
      && ((HasServiceCredentials(st) ==> srv.bindOk(ServiceDN(st, name), st.bindPassword)) && FilterSafe(name) ==>
            var res := srv.search(LookupIdentity(st, s, name), st.userBase, Substitute(st.filter, name));
            && (res.SearchError? ==> r == Err(SearchFailed))
            && (res.Found? && |res.entries| == 0 ==> r == Err(NoMatch))
            && (res.Found? && |res.entries| > 1 ==> r == Err(Ambiguous))
            && (res.Found? && |res.entries| == 1 && res.entries[0].dn == "" ==> r == Err(EmptyDn)))
  {
  }
}

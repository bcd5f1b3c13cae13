/**
 * Properties of `SearchEntry` that relate a whole call to the directory's
 * answers, or two calls to each other.
 */
module SearchEntryProperties {
  import opened Results
  import opened Config
  import opened Directory
  import opened Membership
  import opened Ldap

  /**
   * A call succeeds with profile `e` exactly when the password is not empty,
   * the dial succeeds, the DN resolves, the directory accepts the password
   * for that DN, and `e` is what the attribute fetch, the group gate and the
   * administrator search yield.
   */
  lemma SucceedsExactlyWhenEveryGatePasses(st: Settings, srv: Server, name: string, passwd: string, directBind: bool, e: UserEntry)
    ensures SearchEntry(st, srv, name, passwd, directBind).result == Ok(e) <==>
      && |passwd| > 0
      && srv.dialOk
      && var rs := ResolveUserDN(st, srv, Opened, name, directBind);
         && rs.result.Ok?
         && srv.bindOk(rs.result.value, passwd)
         && ChecksPassed(st, srv, CheckIdentity(st, rs.session, rs.result.value, directBind), rs.result.value, name, e)
  {
  }

  /**
   * A successful call sends exactly one bind after the DN is resolved, the
   * user's own: before every search when binding early, and as the last
   * request before the close when attributes are read in the bind context.
   */
  lemma UserBindOrdering(st: Settings, srv: Server, name: string, passwd: string, directBind: bool)
    requires SearchEntry(st, srv, name, passwd, directBind).result.Ok?
    ensures
      var r := SearchEntry(st, srv, name, passwd, directBind);
      var rs := ResolveUserDN(st, srv, Opened, name, directBind);
      var pre := rs.session.trace;
      && rs.result.Ok?
      && |pre| < |r.trace| && r.trace[..|pre|] == pre
      && var rest := r.trace[|pre|..];
         && (BindsEarly(st, directBind) ==> SoleBindAt(rest, 0, rs.result.value, passwd))
         && (!BindsEarly(st, directBind) ==> SoleBindAt(rest, |rest| - 2, rs.result.value, passwd) && rest[|rest| - 1] == Close)
  {
  }

  /** Resolution never reads the administrator filter. */
  lemma ResolveIgnoresAdminFilter(st: Settings, srv: Server, s: Session, name: string, directBind: bool, admin: string)
    ensures ResolveUserDN(st.(adminFilter := admin), srv, s, name, directBind) == ResolveUserDN(st, srv, s, name, directBind)
  {
  }

  /**
   * The administrator check is an enrichment, never a gate: removing the
   * administrator filter changes neither whether a call succeeds nor the
   * profile it returns, except for `isAdmin`.
   */
  lemma AdminIsEnrichmentOnly(st: Settings, srv: Server, name: string, passwd: string, directBind: bool)
    ensures
      var r1 := SearchEntry(st, srv, name, passwd, directBind);
      var r2 := SearchEntry(st.(adminFilter := ""), srv, name, passwd, directBind);
      && (r1.result.Ok? <==> r2.result.Ok?)
      && (r1.result.Ok? ==> r2.result.value == r1.result.value.(isAdmin := false))
  {
    var st2 := st.(adminFilter := "");
    var r1 := SearchEntry(st, srv, name, passwd, directBind);
    var r2 := SearchEntry(st2, srv, name, passwd, directBind);
    var rs := ResolveUserDN(st, srv, Opened, name, directBind);
    ResolveIgnoresAdminFilter(st, srv, Opened, name, directBind, "");
    if r1.result.Ok? {
      var e := r1.result.value;
      SucceedsExactlyWhenEveryGatePasses(st, srv, name, passwd, directBind, e);
      var who := CheckIdentity(st, rs.session, rs.result.value, directBind);
      assert CheckIdentity(st2, rs.session, rs.result.value, directBind) == who;
      assert ChecksPassed(st2, srv, who, rs.result.value, name, e.(isAdmin := false));
      SucceedsExactlyWhenEveryGatePasses(st2, srv, name, passwd, directBind, e.(isAdmin := false));
    }
    if r2.result.Ok? {
      var e2 := r2.result.value;
      SucceedsExactlyWhenEveryGatePasses(st2, srv, name, passwd, directBind, e2);
      var dn := rs.result.value;
      var who := CheckIdentity(st, rs.session, dn, directBind);
      var a := srv.search(who, dn, st.adminFilter);
      var e1 := e2.(isAdmin := |st.adminFilter| > 0 && a.Found? && |a.entries| >= 1);
      assert ChecksPassed(st, srv, who, dn, name, e1);
      SucceedsExactlyWhenEveryGatePasses(st, srv, name, passwd, directBind, e1);
    }
  }

  /**
   * With the group gate on in UID mode, a group search answer holding a
   * member value the `uid=` pattern rejects never lets a call succeed. Only
   * the answer seen by the identity the checks run as matters.
   */
  lemma MalformedMemberBlocksSuccess(st: Settings, srv: Server, name: string, passwd: string, directBind: bool, bad: string)
    requires st.groupEnabled && st.userUID != DnMode
    requires UidMatch(bad).None?
    requires
      var rs := ResolveUserDN(st, srv, Opened, name, directBind);
      rs.result.Ok? ==>
        var res := srv.search(CheckIdentity(st, rs.session, rs.result.value, directBind), st.groupDN, st.groupFilter);
        res.Found? && bad in MemberValues(res.entries, st.groupMemberUID)
    ensures SearchEntry(st, srv, name, passwd, directBind).result.Err?
  {
    if SearchEntry(st, srv, name, passwd, directBind).result.Ok? {
      var e := SearchEntry(st, srv, name, passwd, directBind).result.value;
      SucceedsExactlyWhenEveryGatePasses(st, srv, name, passwd, directBind, e);
    }
  }
}

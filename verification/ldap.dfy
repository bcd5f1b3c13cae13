/**
 * The authentication engine of the `ldap` package: locating the user's DN,
 * checking the password by binding, fetching attributes, the group gate and
 * the administrator enrichment, composed by `SearchEntry`; and `LdapSearch`,
 * the exit-code variant used by the command-line front end.
 */
module Ldap {
  import opened Results
  import opened GoStrings
  import opened Config
  import opened Directory
  import opened Sanitize
  import opened Membership

  /** The profile returned for an authenticated user. */
  datatype UserEntry = UserEntry(
    uid: string, dn: string, commonName: string, username: string,
    firstName: string, surname: string, mail: string, isAdmin: bool)

  /** Why `findUserDN` gave up; the source logs these and returns `false` for all. */
  datatype ResolveFailure = ServiceBindFailed | FilterRejected | SearchFailed | NoMatch | Ambiguous | EmptyDn

  /** Every way `SearchEntry` can fail. */
  datatype AuthError =
    | EmptyPassword
    | ConnectFailed
    | UserDnRejected
    | UserNotFound(why: ResolveFailure)
    | BindFailed(dn: string)
    | UserQueryRejected
    | AttributeSearchFailed
    | NoAttributeEntries
    | GroupFilterRejected
    | GroupDnRejected
    | GroupSearchFailed
    | NoGroupEntries
    | NotAMember
    | MalformedMember(member: string)  // the source panics on the nil regex match

  /** The result of one stage and the session it leaves behind. */
  datatype Step<+T, +E> = Step(result: Result<T, E>, session: Session)

  /** What a caller of `SearchEntry` observes: the result and the requests sent. */
  datatype Reply = Reply(result: Result<UserEntry, AuthError>, trace: seq<Op>)

  // ---------------------------------------------------------------------------
  // Locating the user (ldap.go:105-148)

  /** Both service credentials are configured: `findUserDN` binds with them. */
  predicate HasServiceCredentials(st: Settings)
  {
    |st.bindDN| > 0 && |st.bindPassword| > 0
  }

  /** The service DN: the bind DN template filled with the raw, unsanitized name. */
  function ServiceDN(st: Settings, name: string): string
  {
    Substitute(st.bindDN, name)
  }

  /** The identity the user search runs as. */
  function LookupIdentity(st: Settings, s: Session, name: string): string
  {
    if HasServiceCredentials(st) then ServiceDN(st, name) else s.bound
  }

  /**
   * `name` resolves to `dn`: the service bind (if configured) succeeds, the
   * name is filter-safe, and the subtree search finds exactly one entry,
   * whose DN is `dn` and is not empty.
   */
  predicate ResolvesTo(st: Settings, srv: Server, s: Session, name: string, dn: string)
  {
    && (HasServiceCredentials(st) ==> srv.bindOk(ServiceDN(st, name), st.bindPassword))
    && FilterSafe(name)
    && dn != ""
    && var res := srv.search(LookupIdentity(st, s, name), st.userBase, Substitute(st.filter, name));
       res.Found? && |res.entries| == 1 && res.entries[0].dn == dn
  }

  /** `findUserDN`: service bind, then a filter search that must find exactly one entry. */
  function FindUserDN(st: Settings, srv: Server, s: Session, name: string): (r: Step<string, ResolveFailure>)
    ensures r.result.Ok? ==> ResolvesTo(st, srv, s, name, r.result.value)
    ensures forall dn :: ResolvesTo(st, srv, s, name, dn) ==> r.result == Ok(dn)
    ensures r.result.Ok? ==> r.session.bound == LookupIdentity(st, s, name)
    ensures |s.trace| <= |r.session.trace| && r.session.trace[..|s.trace|] == s.trace
    ensures HasServiceCredentials(st) ==>
      |s.trace| < |r.session.trace| && r.session.trace[|s.trace|] == Op.Bind(ServiceDN(st, name), st.bindPassword)
    ensures forall i :: |s.trace| <= i < |r.session.trace| && r.session.trace[i].Bind? ==>
      i == |s.trace| && HasServiceCredentials(st)
    ensures forall i :: |s.trace| <= i < |r.session.trace| ==> r.session.trace[i].Bind? || r.session.trace[i].Search?
  {
    var b := if HasServiceCredentials(st) then SendBind(srv, s, ServiceDN(st, name), st.bindPassword) else BindOutcome(true, s);
    if !b.ok then Step(Err(ServiceBindFailed), b.session)
    else
      var q := SanitizedUserQuery(st, name);
      if !q.1 then Step(Err(FilterRejected), b.session)
      else
        var sr := SendSearch(srv, b.session, st.userBase, q.0);
        var res := sr.result;
        if res.SearchError? then Step(Err(SearchFailed), sr.session)
        else if |res.entries| < 1 then Step(Err(NoMatch), sr.session)
        else if |res.entries| > 1 then Step(Err(Ambiguous), sr.session)
        else if res.entries[0].dn == "" then Step(Err(EmptyDn), sr.session)
        else Step(Ok(res.entries[0].dn), sr.session)
  }

  /** The DN of the user for this call, by template (direct bind) or by search. */
  function ResolveUserDN(st: Settings, srv: Server, s: Session, name: string, directBind: bool): (r: Step<string, AuthError>)
    ensures directBind ==> r.session == s
    ensures directBind ==> (r.result.Ok? <==> SanitizedUserDN(st, name).1)
    ensures directBind && r.result.Ok? ==> r.result.value == Substitute(st.userDN, name)
    ensures directBind && r.result.Err? ==> r.result.error == UserDnRejected
    ensures !directBind ==> forall dn :: (r.result == Ok(dn) <==> ResolvesTo(st, srv, s, name, dn))
    ensures !directBind && r.result.Err? ==> r.result.error.UserNotFound?
    ensures r.result.Ok? ==> FilterSafe(name)
    ensures |s.trace| <= |r.session.trace| && r.session.trace[..|s.trace|] == s.trace
    ensures forall i :: |s.trace| <= i < |r.session.trace| ==> r.session.trace[i].Bind? || r.session.trace[i].Search?
  {
    if directBind then
      var d := SanitizedUserDN(st, name);
      DnAcceptanceImpliesFilterAcceptance(st, name);
      if !d.1 then Step(Err(UserDnRejected), s) else Step(Ok(d.0), s)
    else
      var f := FindUserDN(st, srv, s, name);
      Step(f.result.MapError(why => UserNotFound(why)), f.session)
  }

  // ---------------------------------------------------------------------------
  // Attributes, group gate, administrator flag (ldap.go:248-349)

  /** The profile read from an entry; `isAdmin` starts false. */
  function UserEntryOf(st: Settings, e: Entry): UserEntry
  {
    UserEntry(
      AttributeValue(e, st.userUID), e.dn, AttributeValue(e, st.attributeCN),
      AttributeValue(e, st.attributeUsername), AttributeValue(e, st.attributeName),
      AttributeValue(e, st.attributeSurname), AttributeValue(e, st.attributeMail), false)
  }

  /** The attribute search: the user filter, scoped to the user's own DN. */
  function FetchAttributes(st: Settings, srv: Server, s: Session, userDN: string, name: string): (r: Step<UserEntry, AuthError>)
    ensures ExtendsWithSearches(s, r.session)
    ensures r.result.Ok? <==>
      && FilterSafe(name)
      && var res := srv.search(s.bound, userDN, Substitute(st.filter, name));
         res.Found? && |res.entries| >= 1
    ensures r.result.Ok? ==>
      var e := srv.search(s.bound, userDN, Substitute(st.filter, name)).entries[0];
      && r.result.value.dn == e.dn
      && r.result.value.uid == AttributeValue(e, st.userUID)
      && r.result.value.username == AttributeValue(e, st.attributeUsername)
      && r.result.value.commonName == AttributeValue(e, st.attributeCN)
      && r.result.value.firstName == AttributeValue(e, st.attributeName)
      && r.result.value.surname == AttributeValue(e, st.attributeSurname)
      && r.result.value.mail == AttributeValue(e, st.attributeMail)
      && !r.result.value.isAdmin
    ensures r.result.Err? && FilterSafe(name) ==>
      r.result.error == AttributeSearchFailed || r.result.error == NoAttributeEntries
  {
    var q := SanitizedUserQuery(st, name);
    if !q.1 then Step(Err(UserQueryRejected), s)
    else
      var sr := SendSearch(srv, s, userDN, q.0);
      if sr.result.SearchError? then Step(Err(AttributeSearchFailed), sr.session)
      else if |sr.result.entries| < 1 then Step(Err(NoAttributeEntries), sr.session)
      else Step(Ok(UserEntryOf(st, sr.result.entries[0])), sr.session)
  }

  /**
   * Whether a group search answer lets `entry` in: DN mode compares member
   * values with the entry's DN, UID mode with `uid=` and its username.
   */
  predicate Admits(st: Settings, res: SearchResult, entry: UserEntry)
  {
    && res.Found?
    && var members := MemberValues(res.entries, st.groupMemberUID);
       if st.userUID == DnMode then entry.dn in members
       else UidAdmits(members, entry.username)
  }

  /** The mandatory group gate, when enabled. */
  function GroupGate(st: Settings, srv: Server, s: Session, entry: UserEntry): (r: Step<(), AuthError>)
    ensures ExtendsWithSearches(s, r.session)
    ensures r.result.Ok? <==>
      || !st.groupEnabled
      || (&& SanitizedGroupFilter(st.groupFilter).1
          && SanitizedGroupDN(st.groupDN).1
          && Admits(st, srv.search(s.bound, st.groupDN, st.groupFilter), entry))
    ensures st.groupEnabled && r.result.Ok? ==> Op.Search(st.groupDN, st.groupFilter) in r.session.trace
    ensures r.result.Err? && r.result.error.MalformedMember? ==>
      && st.userUID != DnMode
      && UidMatch(r.result.error.member).None?
      && var res := srv.search(s.bound, st.groupDN, st.groupFilter);
         res.Found? && r.result.error.member in MemberValues(res.entries, st.groupMemberUID)
  {
    if !st.groupEnabled then Step(Ok(()), s)
    else
      var gf := SanitizedGroupFilter(st.groupFilter);
      if !gf.1 then Step(Err(GroupFilterRejected), s)
      else
        var gd := SanitizedGroupDN(st.groupDN);
        if !gd.1 then Step(Err(GroupDnRejected), s)
        else
          var sr := SendSearch(srv, s, gd.0, gf.0);
          assert sr.session.trace[|s.trace|] == Op.Search(st.groupDN, st.groupFilter);
          if sr.result.SearchError? then Step(Err(GroupSearchFailed), sr.session)
          else if |sr.result.entries| < 1 then Step(Err(NoGroupEntries), sr.session)
          else
            var members := MemberValues(sr.result.entries, st.groupMemberUID);
            if st.userUID == DnMode then
              if DnListed(members, entry.dn) then Step(Ok(()), sr.session)
              else Step(Err(NotAMember), sr.session)
            else
              UidScanAdmits(members, entry.username);
              match UidScan(members, entry.username)
              case Err(m) => Step(Err(MalformedMember(m)), sr.session)
              case Ok(isMember) =>
                if isMember then Step(Ok(()), sr.session) else Step(Err(NotAMember), sr.session)
  }

  datatype AdminOutcome = AdminOutcome(isAdmin: bool, session: Session)

  /** The administrator enrichment: a search over the user's own DN; it never fails the call. */
  function AdminCheck(st: Settings, srv: Server, s: Session, userDN: string): (r: AdminOutcome)
    ensures ExtendsWithSearches(s, r.session)
    ensures r.isAdmin <==>
      && |st.adminFilter| > 0
      && var res := srv.search(s.bound, userDN, st.adminFilter);
         res.Found? && |res.entries| >= 1
    ensures |st.adminFilter| == 0 ==> r.session == s
  {
    if |st.adminFilter| == 0 then AdminOutcome(false, s)
    else
      var sr := SendSearch(srv, s, userDN, st.adminFilter);
      if sr.result.SearchError? then AdminOutcome(false, sr.session)
      else if |sr.result.entries| < 1 then AdminOutcome(false, sr.session)
      else AdminOutcome(true, sr.session)
  }

  // ---------------------------------------------------------------------------
  // SearchEntry (ldap.go:199-360)

  /** The password is checked before the attribute fetch rather than last. */
  predicate BindsEarly(st: Settings, directBind: bool)
  {
    directBind || !st.attributesInBind
  }

  /** A call ending in error `e` after the deferred close. */
  function Fail(e: AuthError, s: Session): Reply
  {
    Reply(Err(e), Closed(s))
  }

  /**
   * The profile `entry` is what the checks yield when run as identity `who`:
   * the attribute search found an entry and the profile is read from the
   * first one, the group gate (when enabled) admits it, and it is marked
   * administrator exactly when the administrator search found something.
   */
  predicate ChecksPassed(st: Settings, srv: Server, who: string, userDN: string, name: string, entry: UserEntry)
  {
    && FilterSafe(name)
    && (var res := srv.search(who, userDN, Substitute(st.filter, name));
        && res.Found? && |res.entries| >= 1
        && entry == UserEntryOf(st, res.entries[0]).(isAdmin := entry.isAdmin))
    && (st.groupEnabled ==>
          && SanitizedGroupFilter(st.groupFilter).1
          && SanitizedGroupDN(st.groupDN).1
          && Admits(st, srv.search(who, st.groupDN, st.groupFilter), entry))
    && (entry.isAdmin <==>
          && |st.adminFilter| > 0
          && var a := srv.search(who, userDN, st.adminFilter);
             a.Found? && |a.entries| >= 1)
  }

  /**
   * The checks between the two possible bind points: attribute fetch, group
   * gate and administrator flag. They send searches only, and succeed with
   * exactly the profile that passes them.
   */
  function Checks(st: Settings, srv: Server, s: Session, userDN: string, name: string): (r: Step<UserEntry, AuthError>)
    ensures ExtendsWithSearches(s, r.session)
    ensures r.result.Ok? ==> ChecksPassed(st, srv, s.bound, userDN, name, r.result.value)
    ensures forall e :: ChecksPassed(st, srv, s.bound, userDN, name, e) ==> r.result == Ok(e)
    ensures r.result.Err? && FilterSafe(name) ==> r.result.error != UserQueryRejected
  {
    var f := FetchAttributes(st, srv, s, userDN, name);
    if f.result.Err? then Step(Err(f.result.error), f.session)
    else
      var g := GroupGate(st, srv, f.session, f.result.value);
      if g.result.Err? then
        SearchesCompose(s, f.session, g.session);
        Step(Err(g.result.error), g.session)
      else
        var a := AdminCheck(st, srv, g.session, userDN);
        SearchesCompose(s, f.session, g.session);
        SearchesCompose(s, g.session, a.session);
        Step(Ok(f.result.value.(isAdmin := a.isAdmin)), a.session)
  }

  /**
   * Among `ops`, the request at `k` is the bind of `dn` with `pw`, and no
   * other request is a bind.
   */
  predicate SoleBindAt(ops: seq<Op>, k: int, dn: string, pw: string)
  {
    && 0 <= k < |ops|
    && ops[k] == Op.Bind(dn, pw)
    && forall i :: 0 <= i < |ops| && i != k ==> !ops[i].Bind?
  }

  /** The requests `rest` end with the one close. */
  predicate ClosesOnce(rest: seq<Op>)
  {
    && |rest| > 0
    && rest[|rest| - 1] == Close
    && forall i :: 0 <= i < |rest| - 1 ==> rest[i] != Close
  }

  /** The requests of the early path: the user bind, then searches, then the close. */
  lemma EarlyTraceShape(s: Session, b: Session, c: Session, dn: string, pw: string)
    requires b.trace == s.trace + [Op.Bind(dn, pw)]
    requires ExtendsWithSearches(b, c)
    ensures var rest := c.trace[|s.trace|..] + [Close];
      && c.trace + [Close] == s.trace + rest
      && SoleBindAt(rest, 0, dn, pw)
      && ClosesOnce(rest)
  {
  }

  /** Binding early: the password is checked before any attribute is read. */
  function AuthorizeEarly(st: Settings, srv: Server, s: Session, userDN: string, name: string, passwd: string): (r: Reply)
    ensures |s.trace| < |r.trace| && r.trace[..|s.trace|] == s.trace
    ensures ClosesOnce(r.trace[|s.trace|..])
    ensures r.result.Ok? ==> srv.bindOk(userDN, passwd) && SoleBindAt(r.trace[|s.trace|..], 0, userDN, passwd)
    ensures r.result.Ok? ==> ChecksPassed(st, srv, userDN, userDN, name, r.result.value)
    ensures forall e :: srv.bindOk(userDN, passwd) && ChecksPassed(st, srv, userDN, userDN, name, e) ==> r.result == Ok(e)
    ensures FilterSafe(name) ==> r.result != Err(UserQueryRejected)
  {
    var b := SendBind(srv, s, userDN, passwd);
    EarlyTraceShape(s, b.session, b.session, userDN, passwd);
    if !b.ok then Fail(BindFailed(userDN), b.session)
    else
      var c := Checks(st, srv, b.session, userDN, name);
      EarlyTraceShape(s, b.session, c.session, userDN, passwd);
      if c.result.Err? then Fail(c.result.error, c.session)
      else Reply(Ok(c.result.value), Closed(c.session))
  }

  /** The requests of the late path: searches, then the user bind, then the close. */
  lemma LateTraceShape(s: Session, c: Session, dn: string, pw: string)
    requires ExtendsWithSearches(s, c)
    ensures var rest := c.trace[|s.trace|..] + [Op.Bind(dn, pw), Close];
      && c.trace + [Op.Bind(dn, pw), Close] == s.trace + rest
      && SoleBindAt(rest, |rest| - 2, dn, pw)
      && ClosesOnce(rest)
    ensures ClosesOnce(c.trace[|s.trace|..] + [Close])
    ensures c.trace + [Close] == s.trace + (c.trace[|s.trace|..] + [Close])
  {
  }

  /** The user bind after the checks passed with profile `e`, then the close. */
  function LateBind(srv: Server, s: Session, dn: string, pw: string, e: UserEntry): (r: Reply)
    ensures r.result == (if srv.bindOk(dn, pw) then Ok(e) else Err(BindFailed(dn)))
    ensures r.trace == s.trace + [Op.Bind(dn, pw), Close]
  {
    var late := SendBind(srv, s, dn, pw);
    if !late.ok then Fail(BindFailed(dn), late.session)
    else Reply(Ok(e), Closed(late.session))
  }

  /** Binding late: attributes are read as the search identity, the password is checked last. */
  function AuthorizeLate(st: Settings, srv: Server, s: Session, userDN: string, name: string, passwd: string): (r: Reply)
    ensures |s.trace| < |r.trace| && r.trace[..|s.trace|] == s.trace
    ensures ClosesOnce(r.trace[|s.trace|..])
    ensures r.result.Ok? ==>
      srv.bindOk(userDN, passwd) && SoleBindAt(r.trace[|s.trace|..], |r.trace| - |s.trace| - 2, userDN, passwd)
    ensures r.result.Ok? ==> ChecksPassed(st, srv, s.bound, userDN, name, r.result.value)
    ensures forall e :: srv.bindOk(userDN, passwd) && ChecksPassed(st, srv, s.bound, userDN, name, e) ==> r.result == Ok(e)
    ensures FilterSafe(name) ==> r.result != Err(UserQueryRejected)
  {
    var c := Checks(st, srv, s, userDN, name);
    LateTraceShape(s, c.session, userDN, passwd);
    if c.result.Err? then Fail(c.result.error, c.session)
    else LateBind(srv, c.session, userDN, passwd, c.result.value)
  }

  /** The identity the checks run as: the user when binding early, else whoever resolved the DN. */
  function CheckIdentity(st: Settings, s: Session, userDN: string, directBind: bool): string
  {
    if BindsEarly(st, directBind) then userDN else s.bound
  }

  /**
   * Everything after the DN is known. The requests it adds end with the one
   * close; on success they hold exactly one bind, the user's, first when
   * binding early and right before the close otherwise.
   */
  function Authorize(st: Settings, srv: Server, s: Session, userDN: string, name: string, passwd: string, directBind: bool): (r: Reply)
    ensures |s.trace| < |r.trace| && r.trace[..|s.trace|] == s.trace
    ensures ClosesOnce(r.trace[|s.trace|..])
    ensures r.result.Ok? ==> srv.bindOk(userDN, passwd)
    ensures r.result.Ok? ==>
      var rest := r.trace[|s.trace|..];
      && (BindsEarly(st, directBind) ==> SoleBindAt(rest, 0, userDN, passwd))
      && (!BindsEarly(st, directBind) ==> SoleBindAt(rest, |rest| - 2, userDN, passwd))
    ensures r.result.Ok? ==> ChecksPassed(st, srv, CheckIdentity(st, s, userDN, directBind), userDN, name, r.result.value)
    ensures forall e ::
      srv.bindOk(userDN, passwd) && ChecksPassed(st, srv, CheckIdentity(st, s, userDN, directBind), userDN, name, e) ==>
      r.result == Ok(e)
    ensures FilterSafe(name) ==> r.result != Err(UserQueryRejected)
  {
    if BindsEarly(st, directBind) then AuthorizeEarly(st, srv, s, userDN, name, passwd)
    else AuthorizeLate(st, srv, s, userDN, name, passwd)
  }

  /** A call that opened a connection: the dial first, the one close last. */
  lemma OpenedCallCloses(pre: seq<Op>, full: seq<Op>)
    requires |pre| > 0 && pre[0] == Dial
    requires forall i :: 1 <= i < |pre| ==> pre[i].Bind? || pre[i].Search?
    requires |pre| < |full| && full[..|pre|] == pre
    requires ClosesOnce(full[|pre|..])
    ensures full[0] == Dial && ClosesOnce(full)
  {
  }

  /** A bind found among the requests added after `pre` is a request of the call. */
  lemma BindIsSent(pre: seq<Op>, full: seq<Op>, k: int, dn: string, pw: string)
    requires |pre| <= |full|
    requires SoleBindAt(full[|pre|..], k, dn, pw)
    ensures Op.Bind(dn, pw) in full
  {
  }

  /**
   * `SearchEntry(name, passwd, directBind)`: a profile only for a password
   * the directory accepted for the resolved DN, after every gate passed.
   */
  function SearchEntry(st: Settings, srv: Server, name: string, passwd: string, directBind: bool): (r: Reply)
    ensures |passwd| == 0 ==> r.result == Err(EmptyPassword) && r.trace == []
    ensures |passwd| > 0 && !srv.dialOk ==> r.result == Err(ConnectFailed) && r.trace == [Dial]
    ensures r.result.Ok? ==>
      && ResolveUserDN(st, srv, Opened, name, directBind).result.Ok?
      && var dn := ResolveUserDN(st, srv, Opened, name, directBind).result.value;
         srv.bindOk(dn, passwd) && Op.Bind(dn, passwd) in r.trace
    ensures |passwd| > 0 && srv.dialOk ==> ClosesOnce(r.trace) && r.trace[0] == Dial
    ensures r.result != Err(UserQueryRejected)
  {
    if |passwd| == 0 then Reply(Err(EmptyPassword), [])
    else if !srv.dialOk then Reply(Err(ConnectFailed), [Dial])
    else
      var resolved := ResolveUserDN(st, srv, Opened, name, directBind);
      var pre := resolved.session.trace;
      if resolved.result.Err? then
        var r := Fail(resolved.result.error, resolved.session);
        assert r.trace[|pre|..] == [Close];
        OpenedCallCloses(pre, r.trace);
        r
      else
        var dn := resolved.result.value;
        var r := Authorize(st, srv, resolved.session, dn, name, passwd, directBind);
        OpenedCallCloses(pre, r.trace);
        if r.result.Err? then r
        else
          var k := if BindsEarly(st, directBind) then 0 else |r.trace| - |pre| - 2;
          BindIsSent(pre, r.trace, k, dn, passwd);
          r
  }

  // ---------------------------------------------------------------------------
  // LdapSearch (ldap.go:362-466): the exit-code variant

  /** Why the command-line front end would stop with a Go runtime panic. */
  datatype CrashCause = NilConnection | NoUidMatch(member: string)

  /** How an exit-code check ends: `Code(0)` authorized, `Code(1)` refused, or a panic. */
  datatype Exit = Code(n: int) | Crash(cause: CrashCause)

  datatype ExitReply = ExitReply(status: Exit, trace: seq<Op>)

  /**
   * The group gate of the exit-code variants lets `username` in when run as
   * `who`: it is off, or both sanitizers accept and the group search answer
   * admits the username in UID mode.
   */
  predicate UidGateAdmits(st: Settings, srv: Server, who: string, username: string)
  {
    || !st.groupEnabled
    || (&& SanitizedGroupFilter(st.groupFilter).1
        && SanitizedGroupDN(st.groupDN).1
        && var g := srv.search(who, st.groupDN, st.groupFilter);
           g.Found? && UidAdmits(MemberValues(g.entries, st.groupMemberUID), username))
  }

  /**
   * The group search as `who` answers entries listing `member` under the
   * member attribute, and the `uid=` pattern does not match it.
   */
  predicate ListsMalformed(st: Settings, srv: Server, who: string, member: string)
  {
    && UidMatch(member).None?
    && var res := srv.search(who, st.groupDN, st.groupFilter);
       res.Found? && member in MemberValues(res.entries, st.groupMemberUID)
  }

  /**
   * The group gate of the exit-code variants, always in UID mode. The source's
   * "0 entries" guard tests the length of the user search result, passed
   * here as `userEntries`, not the group search result.
   */
  function ExitGroupGate(st: Settings, srv: Server, s: Session, userEntries: int, username: string): (r: Step<(), Exit>)
    ensures ExtendsWithSearches(s, r.session)
    ensures userEntries >= 1 ==> (r.result.Ok? <==> UidGateAdmits(st, srv, s.bound, username))
    ensures r.result.Err? ==> r.result.error == Code(1) || r.result.error.Crash?
    ensures r.result.Err? && r.result.error.Crash? ==>
      r.result.error.cause.NoUidMatch? && ListsMalformed(st, srv, s.bound, r.result.error.cause.member)
  {
    if !st.groupEnabled then Step(Ok(()), s)
    else
      var gf := SanitizedGroupFilter(st.groupFilter);
      if !gf.1 then Step(Err(Code(1)), s)
      else
        var gd := SanitizedGroupDN(st.groupDN);
        if !gd.1 then Step(Err(Code(1)), s)
        else
          var sr := SendSearch(srv, s, gd.0, gf.0);
          if sr.result.SearchError? then Step(Err(Code(1)), sr.session)
          else if userEntries < 1 then Step(Err(Code(1)), sr.session)
          else
            var members := MemberValues(sr.result.entries, st.groupMemberUID);
            UidScanAdmits(members, username);
            match UidScan(members, username)
            case Err(m) => Step(Err(Crash(NoUidMatch(m))), sr.session)
            case Ok(isMember) => if isMember then Step(Ok(()), sr.session) else Step(Err(Code(1)), sr.session)
  }

  /**
   * Searching as `who` with `userFilter` finds exactly one entry with a DN,
   * the group gate (if enabled) admits its username attribute, and the
   * directory accepts `pw` for its DN.
   */
  predicate SearchBindGrants(st: Settings, srv: Server, who: string, userFilter: string, pw: string)
  {
    var res := srv.search(who, st.userBase, userFilter);
    && res.Found? && |res.entries| == 1 && res.entries[0].dn != ""
    && UidGateAdmits(st, srv, who, AttributeValue(res.entries[0], st.attributeUsername))
    && srv.bindOk(res.entries[0].dn, pw)
  }

  /** The last step of the exit-code variants: bind as the user, then close. */
  function FinalBind(srv: Server, s: Session, dn: string, pw: string): (r: ExitReply)
    ensures r.status == (if srv.bindOk(dn, pw) then Code(0) else Code(1))
    ensures r.trace == s.trace + [Op.Bind(dn, pw), Close]
  {
    var b := SendBind(srv, s, dn, pw);
    ExitReply(if b.ok then Code(0) else Code(1), Closed(b.session))
  }

  /**
   * After the user entry is found: the group gate (if enabled) on its
   * username attribute, then the bind with `pw` on its DN.
   */
  function GateAndBind(st: Settings, srv: Server, s: Session, entry: Entry, pw: string): (r: ExitReply)
    ensures r.status == Code(0) <==>
      UidGateAdmits(st, srv, s.bound, AttributeValue(entry, st.attributeUsername)) && srv.bindOk(entry.dn, pw)
    ensures r.status == Code(0) || r.status == Code(1) || r.status.Crash?
    ensures r.status.Crash? ==>
      st.groupEnabled && r.status.cause.NoUidMatch? && ListsMalformed(st, srv, s.bound, r.status.cause.member)
    ensures |s.trace| < |r.trace| && r.trace[..|s.trace|] == s.trace
    ensures ClosesOnce(r.trace[|s.trace|..])
    ensures r.status == Code(0) ==> |r.trace| >= |s.trace| + 2 && r.trace[|r.trace| - 2] == Op.Bind(entry.dn, pw)
  {
    var g := ExitGroupGate(st, srv, s, 1, AttributeValue(entry, st.attributeUsername));
    LateTraceShape(s, g.session, entry.dn, pw);
    if g.result.Err? then ExitReply(g.result.error, Closed(g.session))
    else FinalBind(srv, g.session, entry.dn, pw)
  }

  /** One more request in front of a tail that ends with the one close. */
  lemma ClosesOnceAfterSearch(s: Session, s1: Session, full: seq<Op>)
    requires |s1.trace| == |s.trace| + 1 && s1.trace[..|s.trace|] == s.trace && s1.trace[|s.trace|].Search?
    requires |s1.trace| < |full| && full[..|s1.trace|] == s1.trace
    requires ClosesOnce(full[|s1.trace|..])
    ensures |s.trace| < |full| && full[..|s.trace|] == s.trace
    ensures ClosesOnce(full[|s.trace|..])
  {
  }

  /**
   * The part after the filter is built, shared by `LdapSearch` and the
   * command-line tool's `ldapSearch`: user search, group gate, user bind.
   */
  function SearchAndBindUser(st: Settings, srv: Server, s: Session, userFilter: string, pw: string): (r: ExitReply)
    ensures r.status == Code(0) <==> SearchBindGrants(st, srv, s.bound, userFilter, pw)
    ensures r.status == Code(0) || r.status == Code(1) || r.status.Crash?
    ensures r.status.Crash? ==>
      st.groupEnabled && r.status.cause.NoUidMatch? && ListsMalformed(st, srv, s.bound, r.status.cause.member)
    ensures |s.trace| < |r.trace| && r.trace[..|s.trace|] == s.trace
    ensures ClosesOnce(r.trace[|s.trace|..])
    ensures r.status == Code(0) ==> |r.trace| >= 2 && r.trace[|r.trace| - 2].Bind? && r.trace[|r.trace| - 2].password == pw
  {
    var sr := SendSearch(srv, s, st.userBase, userFilter);
    var res := sr.result;
    if res.SearchError? || |res.entries| != 1 || res.entries[0].dn == "" then
      var r := ExitReply(Code(1), Closed(sr.session));
      assert r.trace[|s.trace|..] == [Op.Search(st.userBase, userFilter), Close];
      r
    else
      var r := GateAndBind(st, srv, sr.session, res.entries[0], pw);
      ClosesOnceAfterSearch(s, sr.session, r.trace);
      r
  }

  /**
   * `LdapSearch` grants access: the dial succeeds, the service bind with the
   * bind DN exactly as configured succeeds, the name is filter-safe, and the
   * search, group gate and user bind succeed as the service identity.
   */
  predicate LdapSearchGrants(st: Settings, srv: Server, name: string, pw: string)
  {
    && srv.dialOk
    && srv.bindOk(st.bindDN, st.bindPassword)
    && FilterSafe(name)
    && SearchBindGrants(st, srv, st.bindDN, Substitute(st.filter, name), pw)
  }

  /**
   * `LdapSearch(name, pw)`: exit code 0 only when every step succeeds in
   * order, 1 on every refusal; a malformed group member panics as in the source.
   */
  function LdapSearch(st: Settings, srv: Server, name: string, pw: string): (r: ExitReply)
    ensures r.status == Code(0) <==> LdapSearchGrants(st, srv, name, pw)
    ensures r.status == Code(0) || r.status == Code(1) || (r.status.Crash? && r.status.cause.NoUidMatch?)
    ensures r.status.Crash? ==> st.groupEnabled && ListsMalformed(st, srv, st.bindDN, r.status.cause.member)
    ensures |r.trace| >= 1 && r.trace[0] == Dial
    ensures srv.dialOk ==> |r.trace| >= 2 && r.trace[1] == Op.Bind(st.bindDN, st.bindPassword)
    ensures srv.dialOk && srv.bindOk(st.bindDN, st.bindPassword) ==> ClosesOnce(r.trace)
    ensures !(srv.dialOk && srv.bindOk(st.bindDN, st.bindPassword)) ==> Close !in r.trace
    ensures r.status == Code(0) ==>
      && r.trace[|r.trace| - 1] == Close
      && r.trace[|r.trace| - 2].Bind? && r.trace[|r.trace| - 2].password == pw
  {
    if !srv.dialOk then ExitReply(Code(1), [Dial])
    else
      var b := SendBind(srv, Opened, st.bindDN, st.bindPassword);
      if !b.ok then ExitReply(Code(1), b.session.trace)  // the deferred close is not registered yet
      else
        var q := SanitizedUserQuery(st, name);
        if !q.1 then
          assert Closed(b.session) == [Dial, Op.Bind(st.bindDN, st.bindPassword), Close];
          ExitReply(Code(1), Closed(b.session))
        else
          var r := SearchAndBindUser(st, srv, b.session, q.0, pw);
          OpenedCallCloses(b.session.trace, r.trace);
          assert r.trace[1] == r.trace[..|b.session.trace|][1];
          r
  }
}

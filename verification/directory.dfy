/**
 * The directory server, seen from the client: an oracle that answers dials,
 * binds and searches, and a session that records every request sent to it.
 * The transport (TCP, TLS, StartTLS) and the LDAP library are not modelled;
 * what they would answer is a parameter of every operation.
 */
module Directory {

  /** A search result entry: its DN and the attribute values returned with it. */
  datatype Entry = Entry(dn: string, attributes: map<string, seq<string>>)

  /** `GetAttributeValues`: all values of one attribute, none when absent. */
  function AttributeValues(e: Entry, name: string): seq<string>
  {
    if name in e.attributes then e.attributes[name] else []
  }

  /** `GetAttributeValue`: the first value of one attribute, `""` when absent. */
  function AttributeValue(e: Entry, name: string): string
  {
    var vs := AttributeValues(e, name);
    if |vs| == 0 then "" else vs[0]
  }

  /** What a subtree search answers: a protocol error, or the matching entries. */
  datatype SearchResult = SearchError | Found(entries: seq<Entry>)

  /**
   * The directory's answers. `search` receives the DN the connection is
   * bound as (`""` when anonymous or bound only as nothing yet), the base and
   * the filter: servers may expose attributes differently per identity.
   */
  datatype Server = Server(
    dialOk: bool,
    bindOk: (string, string) -> bool,
    search: (string, string, string) -> SearchResult)

  /** A request sent over the connection, in the order it was sent. */
  datatype Op = Dial | Bind(dn: string, password: string) | Search(base: string, filter: string) | Close

  /** A live connection: the identity it is bound as, and the requests so far. */
  datatype Session = Session(bound: string, trace: seq<Op>)

  /** The connection right after a successful dial: anonymous, one request. */
  const Opened: Session := Session("", [Dial])

  datatype BindOutcome = BindOutcome(ok: bool, session: Session)

  /** `Conn.Bind`: on success the connection is bound as `dn`. */
  function SendBind(srv: Server, s: Session, dn: string, password: string): BindOutcome
  {
    var ok := srv.bindOk(dn, password);
    BindOutcome(ok, Session(if ok then dn else s.bound, s.trace + [Op.Bind(dn, password)]))
  }

  datatype SearchOutcome = SearchOutcome(result: SearchResult, session: Session)

  /** `Conn.Search` with subtree scope, as the identity the connection is bound as. */
  function SendSearch(srv: Server, s: Session, base: string, filter: string): SearchOutcome
  {
    SearchOutcome(srv.search(s.bound, base, filter), Session(s.bound, s.trace + [Op.Search(base, filter)]))
  }

  /** The trace of a session after the deferred `Close` has run. */
  function Closed(s: Session): seq<Op>
  {
    s.trace + [Close]
  }

  /**
   * `s'` continues `s` with searches only: same identity, and every request
   * added after `s` is a search.
   */
  predicate ExtendsWithSearches(s: Session, s': Session)
  {
    && s'.bound == s.bound
    && |s.trace| <= |s'.trace|
    && s'.trace[..|s.trace|] == s.trace
    && forall i :: |s.trace| <= i < |s'.trace| ==> s'.trace[i].Search?
  }

  /** Continuing with searches only is transitive. */
  lemma SearchesCompose(s1: Session, s2: Session, s3: Session)
    requires ExtendsWithSearches(s1, s2) && ExtendsWithSearches(s2, s3)
    ensures ExtendsWithSearches(s1, s3)
  {
    assert s3.trace[..|s1.trace|] == s3.trace[..|s2.trace|][..|s1.trace|];
  }
}

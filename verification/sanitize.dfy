/**
 * The four input sanitizers of the `ldap` package. Each one is a reject-set
 * check: a value holding a forbidden character (or, for distinguished names,
 * a leading or trailing space) is refused, never silently stripped. The
 * filter sets follow section 3 of RFC 4515, the DN sets the special
 * characters of section 2.4 of RFC 4514.
 */
module Sanitize {
  import opened GoStrings
  import opened Config

  /** Characters refused in a username placed into a search filter. */
  const FilterSpecials: string := "\0()*\\"
  /** Characters refused in a username placed into a DN template. */
  const DnSpecials: string := "\0()*\\,='\"#+;<>"
  /** Characters refused in the configured group filter. */
  const GroupFilterSpecials: string := "\0*\\"
  /** Characters refused in the configured group search base. */
  const GroupDnSpecials: string := "\0()*\\'\"#+;<>"

  /** No character of `name` is one the filter sanitizer refuses. */
  predicate FilterSafe(name: string)
  {
    forall c | c in name :: c !in {'\0', '(', ')', '*', '\\'}
  }

  /** A leading or trailing space, which would be dropped by DN parsing. */
  predicate EdgeSpace(s: string)
  {
    HasPrefix(s, " ") || HasSuffix(s, " ")
  }

  /**
   * `sanitizedUserQuery`: the user filter with every `%s` replaced by the
   * username, or `("", false)` when the username could alter the filter.
   */
  function SanitizedUserQuery(st: Settings, username: string): (r: (string, bool))
    ensures r.1 <==> FilterSafe(username)
    ensures r.1 ==> r.0 == Substitute(st.filter, username)
    ensures !r.1 ==> r.0 == ""
  {
    if ContainsAny(username, FilterSpecials) then
      var i :| 0 <= i < |username| && username[i] in FilterSpecials;
      assert username[i] in username;
      ("", false)
    else (Substitute(st.filter, username), true)
  }

  /**
   * `sanitizedUserDN`: the DN template with every `%s` replaced by the
   * username, or `("", false)` when the username could alter DN parsing.
   */
  function SanitizedUserDN(st: Settings, username: string): (r: (string, bool))
    ensures r.1 <==>
      && (forall c | c in username ::
            c !in {'\0', '(', ')', '*', '\\', ',', '=', '\'', '"', '#', '+', ';', '<', '>'})
      && !(|username| > 0 && (username[0] == ' ' || username[|username| - 1] == ' '))
    ensures r.1 ==> r.0 == Substitute(st.userDN, username)
    ensures !r.1 ==> r.0 == ""
  {
    if ContainsAny(username, DnSpecials) then
      var i :| 0 <= i < |username| && username[i] in DnSpecials;
      assert username[i] in username;
      ("", false)
    else if EdgeSpace(username) then ("", false)
    else (Substitute(st.userDN, username), true)
  }

  /**
   * `sanitizedGroupFilter`: the group filter itself when it holds none of
   * NUL, `*` and backslash; parentheses are allowed.
   */
  function SanitizedGroupFilter(group: string): (r: (string, bool))
    ensures r.1 <==> forall c | c in group :: c != '\0' && c != '*' && c != '\\'
    ensures r.1 ==> r.0 == group
    ensures !r.1 ==> r.0 == ""
  {
    if ContainsAny(group, GroupFilterSpecials) then
      var i :| 0 <= i < |group| && group[i] in GroupFilterSpecials;
      assert group[i] in group;
      ("", false)
    else (group, true)
  }

  /**
   * `sanitizedGroupDN`: the group base itself when it has no edge space and
   * none of the DN specials except `,` and `=`, which a DN needs.
   */
  function SanitizedGroupDN(groupDn: string): (r: (string, bool))
    ensures r.1 <==>
      && (forall c | c in groupDn ::
            c !in {'\0', '(', ')', '*', '\\', '\'', '"', '#', '+', ';', '<', '>'})
      && !(|groupDn| > 0 && (groupDn[0] == ' ' || groupDn[|groupDn| - 1] == ' '))
    ensures r.1 ==> r.0 == groupDn
    ensures !r.1 ==> r.0 == ""
  {
    if ContainsAny(groupDn, GroupDnSpecials) then
      var i :| 0 <= i < |groupDn| && groupDn[i] in GroupDnSpecials;
      assert groupDn[i] in groupDn;
      ("", false)
    else if EdgeSpace(groupDn) then ("", false)
    else (groupDn, true)
  }

  /**
   * The DN reject set contains the filter reject set: a username accepted
   * for a DN is accepted for a filter too, under any settings.
   */
  lemma DnAcceptanceImpliesFilterAcceptance(st: Settings, username: string)
    ensures SanitizedUserDN(st, username).1 ==> SanitizedUserQuery(st, username).1
  {
  }

  /**
   * A group base that passes is also a valid place for a username only if it
   * lacks `,` and `=`: the group DN check is strictly weaker than the user DN
   * check, exactly by those two characters.
   */
  lemma GroupDnCheckAllowsSeparators(st: Settings, s: string)
    ensures SanitizedUserDN(st, s).1 ==> SanitizedGroupDN(s).1
    ensures SanitizedGroupDN(s).1 && ',' !in s && '=' !in s ==> SanitizedUserDN(st, s).1
  {
  }
}

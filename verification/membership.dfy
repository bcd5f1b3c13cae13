/**
 * Group membership tests of the `ldap` package and of the command-line tool.
 * In UID mode a member value is matched against `^uid=[a-z0-9_.-][^,]*`,
 * hand-coded here; the source indexes the match without checking it exists,
 * so a member value the pattern does not match is a runtime panic, modelled
 * as an explicit failure carrying that member value.
 */
module Membership {
  import opened Results
  import opened Directory

  /** The class `[a-z0-9_.-]` the fifth character of a member value must be in. */
  predicate UidLead(c: char)
  {
    ('a' <= c <= 'z') || ('0' <= c <= '9') || c == '_' || c == '.' || c == '-'
  }

  /** The longest prefix of `s` without a comma: the greedy `[^,]*` part. */
  function UpToComma(s: string): (r: string)
    ensures |r| <= |s| && r == s[..|r|]
    ensures ',' !in r
    ensures |r| < |s| ==> s[|r|] == ','
  {
    if |s| == 0 || s[0] == ',' then "" else [s[0]] + UpToComma(s[1..])
  }

  /**
   * `match[0]` of `^uid=[a-z0-9_.-][^,]*` on a member value, `None` when the
   * pattern does not match (the source's nil match).
   */
  function UidMatch(member: string): (r: Option<string>)
    ensures r.Some? <==> |member| >= 5 && member[..4] == "uid=" && UidLead(member[4])
    ensures r.Some? ==>
      && 5 <= |r.value| <= |member|
      && r.value == member[..|r.value|]
      && ',' !in r.value
      && (|r.value| == |member| || member[|r.value|] == ',')
  {
    if |member| >= 5 && member[..4] == "uid=" && UidLead(member[4]) then
      Some(UpToComma(member))
    else None
  }

  /**
   * The member attribute values of every group entry, in the order the source's
   * two nested loops visit them.
   */
  function MemberValues(groups: seq<Entry>, attr: string): (r: seq<string>)
    ensures forall m :: m in r <==> exists g :: g in groups && m in AttributeValues(g, attr)
  {
    if |groups| == 0 then []
    else
      var rest := MemberValues(groups[1..], attr);
      assert forall g :: g in groups <==> g == groups[0] || g in groups[1..];
      AttributeValues(groups[0], attr) + rest
  }

  /** DN mode (ldap.go:304-311): the loop sets its flag when a value equals the DN. */
  function DnListed(members: seq<string>, dn: string): (r: bool)
    ensures r <==> dn in members
  {
    if |members| == 0 then false
    else members[0] == dn || DnListed(members[1..], dn)
  }

  /**
   * UID mode (ldap.go:313-325): the loop visits every value, even after a
   * match, so any value the pattern rejects panics; otherwise the flag is set
   * when some value's match is `uid=` followed by the username.
   */
  function UidScan(members: seq<string>, username: string): (r: Result<bool, string>)
    ensures r.Err? <==> exists i :: 0 <= i < |members| && UidMatch(members[i]).None?
    ensures r.Err? ==>
      exists i :: 0 <= i < |members| && members[i] == r.error && UidMatch(members[i]).None?
        && forall k :: 0 <= k < i ==> UidMatch(members[k]).Some?
    ensures r.Ok? ==> (r.value <==> exists m :: m in members && UidMatch(m) == Some("uid=" + username))
  {
    if |members| == 0 then Ok(false)
    else
      match UidMatch(members[0])
      case None => Err(members[0])
      case Some(token) =>
        var rest := UidScan(members[1..], username);
        assert forall m :: m in members <==> m == members[0] || m in members[1..];
        match rest
        case Err(m) =>
          assert forall i :: 1 <= i < |members| ==> members[i] == members[1..][i - 1];
          Err(m)
        case Ok(found) => Ok(token == "uid=" + username || found)
  }

  /** UID-mode admission, stated over the value set: all values well formed, one matching. */
  predicate UidAdmits(members: seq<string>, username: string)
  {
    && (forall m | m in members :: UidMatch(m).Some?)
    && exists m | m in members :: UidMatch(m) == Some("uid=" + username)
  }

  /** The scan succeeds with a match exactly when the value set admits the user. */
  lemma UidScanAdmits(members: seq<string>, username: string)
    ensures UidScan(members, username) == Ok(true) <==> UidAdmits(members, username)
  {
  }

  /** A member value lacking the `uid=` prefix never counts as a match. */
  lemma MalformedNeverMatches(member: string, username: string)
    requires |member| < 4 || member[..4] != "uid="
    ensures UidMatch(member) != Some("uid=" + username)
    ensures !UidAdmits([member], username)
  {
  }
}

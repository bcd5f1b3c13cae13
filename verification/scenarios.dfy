/**
 * Worked cases against a small directory: alice under
 * `ou=people` with password `secret`, a service account,
 * and a `vpn` group listing its members by `uid=` DN.
 */
module Scenarios {
  import opened Results
  import opened GoStrings
  import opened Config
  import opened Directory
  import opened Membership
  import opened Sanitize
  import opened Ldap
  import SearchEntryProperties

  const People: string := ",ou=people"
  const AliceDn: string := "uid=alice" + People
  const BobDn: string := "uid=bob" + People
  const ServiceAccount: string := "cn=svc"
  const Groups: string := "ou=groups"

  const Alice: Entry := Entry(AliceDn, map["uid" := ["alice"], "cn" := ["Alice Liddell"], "mail" := ["alice@example.com"]])

  /** Direct binding by template, no service account, no group gate. */
  const DirectSettings: Settings := Settings(
    bindDN := "", bindPassword := "",
    userBase := "ou=people", userDN := "uid=%s" + People,
    attributeCN := "cn", attributeUsername := "uid", attributeName := "givenName",
    attributeSurname := "sn", attributeMail := "mail", attributesInBind := false,
    filter := "(uid=%s)", adminFilter := "",
    groupEnabled := false, groupDN := "", groupFilter := "", groupMemberUID := "", userUID := "uid")

  /** Search then bind with the service account, members of `vpn` only. */
  const GroupSettings: Settings := DirectSettings.(
    bindDN := ServiceAccount, bindPassword := "svcpw",
    groupEnabled := true, groupDN := Groups, groupFilter := "(cn=vpn)", groupMemberUID := "member")

  /** A directory whose `vpn` group lists the given member values. */
  function Example(members: seq<string>): Server
  {
    Server(
      true,
      (dn: string, pw: string) => (dn == AliceDn && pw == "secret") || (dn == ServiceAccount && pw == "svcpw"),
      (who: string, base: string, f: string) =>
        if base == Groups then Found([Entry("cn=vpn," + Groups, map["member" := members])])
        else if f == "(uid=alice)" then Found([Alice])
        else Found([]))
  }

  /** The DN template filled with alice. */
  lemma AliceDnTemplate()
    ensures Substitute(DirectSettings.userDN, "alice") == AliceDn
  {
    assert DirectSettings.userDN == "uid=" + Placeholder + People;
    SubstituteSingle("uid=", People, "alice");
  }

  /** The user filter filled with alice. */
  lemma AliceFilter()
    ensures Substitute(DirectSettings.filter, "alice") == "(uid=alice)"
  {
  }

  /** A literal avoids a character set, checked character by character. */
  predicate Avoids(s: string, chars: string)
  {
    |s| == 0 || (s[0] !in chars && Avoids(s[1..], chars))
  }

  /** A literal that avoids a set contains none of it. */
  lemma AvoidsNotContains(s: string, chars: string)
    requires Avoids(s, chars)
    ensures !ContainsAny(s, chars)
  {
  }

  lemma AliceDnAccepted()
    ensures SanitizedUserDN(DirectSettings, "alice") == (AliceDn, true)
  {
    AliceDnTemplate();
    assert Avoids("alice", DnSpecials);
    AvoidsNotContains("alice", DnSpecials);
  }

  lemma AliceFilterAccepted()
    ensures SanitizedUserQuery(DirectSettings, "alice") == ("(uid=alice)", true)
  {
    AliceFilter();
    assert Avoids("alice", FilterSpecials);
    AvoidsNotContains("alice", FilterSpecials);
  }

  /** Both username sanitizers accept alice. */
  lemma AliceAccepted()
    ensures SanitizedUserDN(DirectSettings, "alice") == (AliceDn, true)
    ensures SanitizedUserQuery(DirectSettings, "alice") == ("(uid=alice)", true)
  {
    AliceDnAccepted();
    AliceFilterAccepted();
  }

  const AliceProfile: UserEntry := UserEntry("alice", AliceDn, "Alice Liddell", "alice", "", "", "alice@example.com", false)

  /** Bound as alice, the attribute search yields her profile; no group gate, no administrator filter. */
  lemma AliceChecks()
    ensures ChecksPassed(DirectSettings, Example([]), AliceDn, AliceDn, "alice", AliceProfile)
  {
    AliceAccepted();
    assert Example([]).search(AliceDn, AliceDn, "(uid=alice)") == Found([Alice]);
    assert UserEntryOf(DirectSettings, Alice) == AliceProfile;
  }

  /** Direct binding with the right password yields alice's profile. */
  lemma DirectBindSucceeds()
    ensures SearchEntry(DirectSettings, Example([]), "alice", "secret", true).result == Ok(AliceProfile)
  {
    AliceAccepted();
    AliceChecks();
    var srv := Example([]);
    assert ResolveUserDN(DirectSettings, srv, Opened, "alice", true).result == Ok(AliceDn);
    SearchEntryProperties.SucceedsExactlyWhenEveryGatePasses(DirectSettings, srv, "alice", "secret", true, AliceProfile);
  }

  /** A wrong password is refused. */
  lemma DirectBindWrongPassword()
    ensures SearchEntry(DirectSettings, Example([]), "alice", "guess", true).result.Err?
  {
  }

  /** `ad(min` holds a parenthesis. */
  lemma BadNameHasParen()
    ensures ContainsAny("ad(min", FilterSpecials) && ContainsAny("ad(min", DnSpecials)
    ensures !FilterSafe("ad(min")
  {
    assert "ad(min"[2] == '(';
    assert '(' in "ad(min";
  }

  /** Direct binding refuses `ad(min` at the DN sanitizer, after the dial and before any bind. */
  lemma MetacharacterRefusedDirect()
    ensures SearchEntry(DirectSettings, Example([]), "ad(min", "secret", true) == Reply(Err(UserDnRejected), [Dial, Close])
  {
    BadNameHasParen();
  }

  /**
   * Searching refuses `ad(min` at the filter sanitizer, after the dial; with
   * no service account configured no bind precedes it.
   */
  lemma MetacharacterRefusedSearch()
    ensures SearchEntry(DirectSettings, Example([]), "ad(min", "secret", false) == Reply(Err(UserNotFound(FilterRejected)), [Dial, Close])
  {
    BadNameHasParen();
  }

  /** The exit-code check refuses `ad(min` right after the service bind. */
  lemma MetacharacterRefusedExit()
    ensures LdapSearch(GroupSettings, Example([AliceDn]), "ad(min", "secret") ==
      ExitReply(Code(1), [Dial, Op.Bind(ServiceAccount, "svcpw"), Close])
  {
    BadNameHasParen();
    assert SanitizedUserQuery(GroupSettings, "ad(min") == ("", false);
    assert Example([AliceDn]).bindOk(ServiceAccount, "svcpw");
  }

  /**
   * A username carrying a filter metacharacter is refused by the sanitizers,
   * after the connection is opened (and, in the exit-code check, after the
   * service bind), and before any search or user bind.
   */
  lemma MetacharacterRefused()
    ensures SearchEntry(DirectSettings, Example([]), "ad(min", "secret", true) == Reply(Err(UserDnRejected), [Dial, Close])
    ensures SearchEntry(DirectSettings, Example([]), "ad(min", "secret", false) == Reply(Err(UserNotFound(FilterRejected)), [Dial, Close])
    ensures LdapSearch(GroupSettings, Example([AliceDn]), "ad(min", "secret") ==
      ExitReply(Code(1), [Dial, Op.Bind(ServiceAccount, "svcpw"), Close])
  {
    MetacharacterRefusedDirect();
    MetacharacterRefusedSearch();
    MetacharacterRefusedExit();
  }

  /** The group search answers one entry listing exactly `members`. */
  lemma GroupMembers(members: seq<string>)
    ensures Example(members).search(ServiceAccount, Groups, "(cn=vpn)").Found?
    ensures MemberValues(Example(members).search(ServiceAccount, Groups, "(cn=vpn)").entries, "member") == members
  {
  }

  /** The configured group filter passes its sanitizer. */
  lemma GroupFilterAccepted()
    ensures SanitizedGroupFilter(GroupSettings.groupFilter).1
  {
  }

  /** The configured group base passes its sanitizer. */
  lemma GroupDnAccepted()
    ensures SanitizedGroupDN(GroupSettings.groupDN).1
  {
  }

  /** The `uid=` pattern on a people DN yields `uid=` and the name. */
  lemma UidOf(member: string, name: string)
    requires member == "uid=" + name + People
    requires |name| > 0 && UidLead(name[0]) && ',' !in name
    ensures UidMatch(member) == Some("uid=" + name)
  {
    var r := UidMatch(member).value;
    assert member[..4] == "uid=" && member[4] == name[0];
    assert member[4 + |name|] == ',';
    forall k | 0 <= k < 4 + |name|
      ensures member[k] != ','
    {
      if k >= 4 {
        assert member[k] == name[k - 4];
      }
    }
    assert |r| == 4 + |name|;
    assert r == member[..4 + |name|];
  }

  /** The group gate admits alice while the group lists her DN. */
  lemma AliceInGroup()
    ensures UidGateAdmits(GroupSettings, Example([AliceDn]), ServiceAccount, "alice")
  {
    GroupMembers([AliceDn]);
    GroupFilterAccepted();
    GroupDnAccepted();
    UidOf(AliceDn, "alice");
    assert AliceDn in [AliceDn];
    assert UidAdmits([AliceDn], "alice");
  }

  /** Searching as the service account finds alice, the gate admits her, her password is accepted. */
  lemma AliceSearchBind()
    ensures SearchBindGrants(GroupSettings, Example([AliceDn]), ServiceAccount, "(uid=alice)", "secret")
  {
    AliceInGroup();
    assert Example([AliceDn]).search(ServiceAccount, GroupSettings.userBase, "(uid=alice)") == Found([Alice]);
    assert AttributeValue(Alice, GroupSettings.attributeUsername) == "alice";
  }

  /** The exit-code check admits alice while the group lists her. */
  lemma GroupMemberAdmitted()
    ensures LdapSearch(GroupSettings, Example([AliceDn]), "alice", "secret").status == Code(0)
  {
    AliceFilterAccepted();
    AliceSearchBind();
    assert GroupSettings.filter == DirectSettings.filter;
    assert LdapSearchGrants(GroupSettings, Example([AliceDn]), "alice", "secret");
  }

  /** The group gate refuses alice when the group lists only bob. */
  lemma AliceNotInBobsGroup()
    ensures !UidGateAdmits(GroupSettings, Example([BobDn]), ServiceAccount, "alice")
  {
  }

  /** Bob's group lists no value the `uid=` pattern rejects. */
  lemma BobsGroupWellFormed(m: string)
    ensures !ListsMalformed(GroupSettings, Example([BobDn]), ServiceAccount, m)
  {
    UidOf(BobDn, "bob");
    GroupMembers([BobDn]);
  }

  /** The exit-code check does not grant alice when the group lists only bob. */
  lemma NonMemberNotGranted()
    ensures LdapSearch(GroupSettings, Example([BobDn]), "alice", "secret").status != Code(0)
  {
    AliceFilterAccepted();
    AliceNotInBobsGroup();
    assert GroupSettings.filter == DirectSettings.filter;
    assert Example([BobDn]).search(ServiceAccount, GroupSettings.userBase, "(uid=alice)") == Found([Alice]);
    assert AttributeValue(Alice, GroupSettings.attributeUsername) == "alice";
    assert !SearchBindGrants(GroupSettings, Example([BobDn]), ServiceAccount, "(uid=alice)", "secret");
  }

  /** The exit-code check refuses alice with exit code 1, not a panic, when the group lists only bob. */
  lemma NonMemberRefused()
    ensures LdapSearch(GroupSettings, Example([BobDn]), "alice", "secret").status == Code(1)
  {
    NonMemberNotGranted();
    var r := LdapSearch(GroupSettings, Example([BobDn]), "alice", "secret");
    if r.status.Crash? {
      BobsGroupWellFormed(r.status.cause.member);
    }
  }
}

# LDAP authentication core of go-ldap-ovpn, in Dafny

go-ldap-ovpn checks a username and password against an LDAP directory for
two front ends: an OpenVPN command-line check that answers with an exit
code, and a Matrix homeserver REST callback that answers with a profile.
This project models the part that decides:

- the four input sanitizers, which refuse a username or a configured group
  value that holds a character able to change a search filter or a DN
  (`pkg/auth/ldap/ldap.go` and the helper's copy in `functions.go`);
- `findUserDN`, which binds with the service account when both service
  credentials are set (otherwise it searches anonymously) and finds exactly
  one entry for the username;
- `SearchEntry`, which returns the user's profile. It sends the user bind
  early or late, fetches the attributes, applies the group gate in DN or
  UID mode, and sets the administrator flag;
- `LdapSearch` and the helper's `ldapSearch`, which return exit code 0 or 1;
- `ExtractUsernameFromMatrixID`, which takes the localpart of a Matrix ID.

The directory is an oracle (`Directory.Server`):

- whether the dial succeeds;
- which (DN, password) pairs a bind accepts;
- what a subtree search answers, for the identity the connection is bound
  as, a base and a filter.

A `Session` records every request the source issues (dial, bind, search,
close); whether the library puts it on the wire is the oracle's business,
see "## Left out". The
contracts can therefore say which binds were sent, in what order, and that
the connection is closed exactly once, where the source registers its
deferred close.

Go runtime panics in the source become explicit results, never success:

- the unchecked nil regex match on a malformed group member value. This is
  `AuthError.MalformedMember` in `SearchEntry` and `Crash(NoUidMatch)` in
  the exit-code checks;
- the nil connection after the helper ignores its dial error
  (`Crash(NilConnection)`);
- the nil submatch in `ExtractUsernameFromMatrixID` (`None`).

Files:

- `results.dfy`: `Option` and `Result`.
- `gostrings.dfy`: `strings.ContainsAny`, `HasPrefix`, `HasSuffix`, and
  `Replace(t, "%s", v, -1)` as `Substitute`.
- `config.dfy`: the settings.
- `sanitize.dfy`: the sanitizers. In `functions.go:24-55` the reject sets,
  the edge-space rule and the returned values are those of
  `ldap.go:72-103`; only the receiver and the logging differ, so the same
  members model both.
- `directory.dfy`: the oracle and the sessions.
- `membership.dfy`: the group member scans.
- `ldap.dfy`: the engine.
- `search_entry_properties.dfy` and `exit_check_properties.dfy`: properties
  relating whole calls.
- `ovpn_check.dfy`: the helper's check.
- `matrix_id.dfy`: the Matrix ID extractor.
- `scenarios.dfy`: worked cases against a small directory.

Notes on the source's behaviour, which the model keeps:

- A group member value that the `uid=` pattern does not match makes the
  code index a nil match and panic (`ldap.go:319-321`,
  `functions.go:148-150`). The model keeps this as a failure, never as a
  match.
- Both exit-code checks register their deferred close only after the
  service bind succeeds (`ldap.go:372-378`, `functions.go:72-78`). When that
  bind fails they return without closing, so their traces then hold no
  `Close`.
- `LdapSearch` always uses UID mode for the group gate. It binds the bind DN
  exactly as configured, without substituting the username. Its "0 entries"
  guard after the group search tests the user search's result, so it never
  fires (`ldap.go:432`, `functions.go:138`);
  `ExitCheckProperties.EmptyGroupAnswerRefuses` shows that an empty group
  answer is still refused.

## Model

| member | source | states |
|---|---|---|
| `Sanitize.SanitizedUserQuery` | pkg/auth/ldap/ldap.go:61-70 | Accepts exactly the usernames free of NUL, `(`, `)`, `*` and backslash. On acceptance the filter is the template with every `%s` replaced by the username; on refusal it is empty. |
| `Sanitize.SanitizedUserDN` | pkg/auth/ldap/ldap.go:72-81 | Accepts exactly the usernames free of the 14 DN special characters and without a leading or trailing space. On acceptance the DN is the template with the username substituted. |
| `Sanitize.SanitizedGroupFilter` | pkg/auth/ldap/ldap.go:83-92 | Accepts exactly the group filters free of NUL, `*` and backslash, and returns them unchanged. |
| `Sanitize.SanitizedGroupDN` | pkg/auth/ldap/ldap.go:94-103 | Accepts exactly the group bases free of its 12 special characters and without an edge space, and returns them unchanged. |
| `Sanitize.DnAcceptanceImpliesFilterAcceptance` | pkg/auth/ldap/ldap.go:63-75 | Every username the DN sanitizer accepts is also accepted by the filter sanitizer. |
| `Sanitize.GroupDnCheckAllowsSeparators` | pkg/auth/ldap/ldap.go:74-97 | The group base check is the DN check without `,` and `=`. Whatever passes as a username DN passes as a group base, and the converse holds for values without `,` or `=`. |
| `GoStrings.SubstituteWithoutPlaceholder` | pkg/auth/ldap/ldap.go:69 | A template with no `%s` is left unchanged by the replacement. |
| `GoStrings.SubstituteSplit` | pkg/auth/ldap/ldap.go:109 | Replacement is compositional: the value lands exactly where a placeholder stood, and each side is replaced on its own. |
| `GoStrings.SubstituteSingle` | pkg/auth/ldap/ldap.go:80 | A template with one placeholder and no other `%` yields the text before it, the value, then the text after it. |
| `GoStrings.SubstitutePlaceholderIsIdentity` | pkg/auth/ldap/ldap.go:69 | Replacing `%s` by itself leaves every template unchanged. The scan never re-reads inserted text. |
| `Membership.UidMatch` | pkg/auth/ldap/ldap.go:318-319 | `^uid=[a-z0-9_.-][^,]*` matches iff the value starts with `uid=` and a character of the class. The match is then the longest prefix without a comma, ending at the first comma or at the end. |
| `Membership.MemberValues` | pkg/auth/ldap/ldap.go:313-314 | A value is visited iff some group entry lists it under the member attribute. |
| `Membership.DnListed` | pkg/auth/ldap/ldap.go:304-311 | DN mode admits iff the user's DN is among the member values. |
| `Membership.UidScan` | pkg/auth/ldap/ldap.go:312-326 | The scan fails iff some value is malformed, and the failure names the first malformed value. Otherwise it reports a match iff some value's match is `uid=` plus the username. |
| `Membership.UidScanAdmits` | pkg/auth/ldap/ldap.go:312-326 | The scan reports a match exactly when every value is well formed and one matches. |
| `Membership.MalformedNeverMatches` | pkg/auth/ldap/ldap.go:318-321 | A value without the `uid=` prefix never matches and never admits anyone on its own. |
| `Ldap.FindUserDN` | pkg/auth/ldap/ldap.go:105-148 | Succeeds with `dn` iff `dn` is resolved, with both directions stated. Resolved means: the service bind with the substituted bind DN succeeds when both credentials are set, the name is filter-safe, and the search finds exactly one entry whose DN is `dn` and not empty. That service bind is the only bind sent and comes first. |
| `Ldap.ResolveUserDN` | pkg/auth/ldap/ldap.go:221-238 | Direct mode sends nothing and succeeds iff the DN sanitizer accepts, giving the filled template. Search mode succeeds with exactly the DN `FindUserDN` resolves. |
| `Ldap.FetchAttributes` | pkg/auth/ldap/ldap.go:248-277 | Succeeds iff the name is filter-safe and the search under the user's DN finds an entry. Each profile field is read from the first entry, and the administrator flag starts false. It sends only searches. |
| `Ldap.GroupGate` | pkg/auth/ldap/ldap.go:279-331 | Passes iff the gate is off, or both sanitizers accept and the group answer admits the user (DN or UID mode). A malformed-member failure names a value the answer holds that the pattern rejects. |
| `Ldap.AdminCheck` | pkg/auth/ldap/ldap.go:333-349 | The flag is set iff an administrator filter is configured and its search under the user's DN finds an entry. It never fails the call, and sends nothing without a filter. |
| `Ldap.Checks` | pkg/auth/ldap/ldap.go:248-349 | Succeeds with profile `e` iff `e` is what the attribute fetch, the group gate and the administrator search yield, with both directions stated. It sends only searches. |
| `Ldap.AuthorizeEarly` | pkg/auth/ldap/ldap.go:240-349 | Succeeds iff the directory accepts the password and the checks pass as the user. The user bind is the first and only bind, and the requests end with one close. |
| `Ldap.AuthorizeLate` | pkg/auth/ldap/ldap.go:248-357 | Succeeds iff the checks pass as the search identity and the directory then accepts the password. The user bind is the only bind and comes right before the close. |
| `Ldap.LateBind` | pkg/auth/ldap/ldap.go:351-357 | After the checks, the profile is returned iff the directory accepts the user's password; otherwise the error names the DN. The bind is followed by the close. |
| `Ldap.Authorize` | pkg/auth/ldap/ldap.go:240-357 | Chooses early or late binding as the source does, with the success iff and the bind position of the chosen path. |
| `Ldap.OpenedCallCloses` | pkg/auth/ldap/ldap.go:206-219 | A call that dialled and registered the deferred close starts with the dial and closes exactly once, at the end. |
| `Ldap.SearchEntry` | pkg/auth/ldap/ldap.go:200-360 | An empty password fails before any request. A failed dial fails after it. Success implies the resolved DN's bind with this password was sent and accepted. Once connected, the connection is closed exactly once. The user query is never refused after resolution. |
| `Ldap.ExitGroupGate` | pkg/auth/ldap/ldap.go:411-454 | With the user search's entry count at least 1, passes iff the gate is off, or both sanitizers accept and the group answer admits the username in UID mode. Otherwise it refuses with 1 or panics on a malformed value the answer holds. |
| `Ldap.FinalBind` | pkg/auth/ldap/ldap.go:456-465 | Exit 0 iff the directory accepts the user's password. The bind is followed by the close. |
| `Ldap.GateAndBind` | pkg/auth/ldap/ldap.go:409-465 | Exit 0 iff the group gate admits the username attribute and the password is accepted for the entry's DN. On success the bind of that DN is the last request before the one close. |
| `Ldap.SearchAndBindUser` | pkg/auth/ldap/ldap.go:386-465 | Exit 0 iff the search finds exactly one entry with a DN, the gate admits it, and the user bind succeeds. A panic comes only from the group gate and names a malformed value the group answer holds. The added requests end with one close. |
| `Ldap.LdapSearch` | pkg/auth/ldap/ldap.go:363-466 | Exit 0 iff the dial, the service bind with the configured bind DN, the filter sanitizer, the search, the gate and the user bind all succeed. The dial comes first and the service bind second. A panic names a malformed value in the group answer seen by the bind DN. The close is sent once iff the service bind succeeded. |
| `SearchEntryProperties.SucceedsExactlyWhenEveryGatePasses` | pkg/auth/ldap/ldap.go:200-360 | A call returns profile `e` iff every gate passes in order: password not empty, dial, DN resolution, the user bind, then the checks as the right identity. |
| `SearchEntryProperties.UserBindOrdering` | pkg/auth/ldap/ldap.go:240-357 | After resolution a successful call sends exactly one bind, the user's. It comes before every search when binding early, and right before the close otherwise. |
| `SearchEntryProperties.ResolveIgnoresAdminFilter` | pkg/auth/ldap/ldap.go:221-238 | DN resolution does not depend on the administrator filter. |
| `SearchEntryProperties.AdminIsEnrichmentOnly` | pkg/auth/ldap/ldap.go:333-349 | Dropping the administrator filter changes neither whether a call succeeds nor its profile, except the administrator flag. |
| `SearchEntryProperties.MalformedMemberBlocksSuccess` | pkg/auth/ldap/ldap.go:318-321 | In UID mode, when the group answer seen by the identity the checks run as holds a value the pattern rejects, the call never succeeds. |
| `ExitCheckProperties.EmptyGroupAnswerRefuses` | pkg/auth/ldap/ldap.go:428-453 | With the gate on, a group search that answers no entries gives exit 1, although the "0 entries" guard tests the wrong result. |
| `ExitCheckProperties.GrantedTraceEndsWithUserBind` | pkg/auth/ldap/ldap.go:456-465 | On exit 0 the request before the close is the bind of the one entry found, with the given password. |
| `ExitCheckProperties.LookupFailureReasons` | pkg/auth/ldap/ldap.go:105-148 | Why a lookup fails: a refused service bind gives that reason; once the service bind passed (or none is configured), an unsafe name gives exactly the filter refusal; after that the search answer decides among a search error, no entry, several entries and an entry without a DN. |
| `OvpnCheck.InvertedUserQuery` | functions.go:13-22 | The flag is true exactly when the username holds a filter special character, and the filter is only built when the flag is false. |
| `OvpnCheck.InvertedFlagNegatesPackage` | functions.go:13-22 | The helper's flag is the negation of the package sanitizer's flag, and the filter is the same. |
| `OvpnCheck.LdapSearch` | functions.go:68-172 | A failed dial panics on the nil connection. Otherwise exit 0 iff the same gates as the package's check pass. The close is sent once iff the service bind succeeded. |
| `OvpnCheck.AgreesWithPackageOnceConnected` | functions.go:68-172 | Once connected, the helper's check gives the package's exact exit status and requests; without a connection it panics where the package answers 1. |
| `MatrixId.LastReach` | models/matrix_synapse.go:37 | The last colon followed by a word character on the rest of the line, or none when there is none. |
| `MatrixId.FirstMatch` | models/matrix_synapse.go:37-38 | The leftmost `@` from which the pattern matches, with its greedy colon; none when no match starts at or after the position. |
| `MatrixId.ExtractUsernameFromMatrixID` | models/matrix_synapse.go:36-40 | `None` (the source's panic) iff nothing matches. Otherwise the text between the leftmost matching `@` and its last matching colon, which is the regexp engine's one reported match. |
| `MatrixId.CaptureUnique` | models/matrix_synapse.go:37-38 | At most one match is the reported one. |
| `MatrixId.ExtractedIsShorter` | models/matrix_synapse.go:36-40 | The localpart is at least three characters shorter than the ID and holds no newline. |
| `MatrixId.PlainId` | models/matrix_synapse.go:36-40 | `@alice:example.org` gives `alice`. |
| `MatrixId.GreedyColon` | models/matrix_synapse.go:37 | `@a:b:c` gives `a:b`: the greedy `.*` keeps all but the last colon. |
| `MatrixId.EmptyLocalpart` | models/matrix_synapse.go:37 | `@:x` gives the empty localpart. |
| `MatrixId.NoServerPart` | models/matrix_synapse.go:38-39 | `@alice:` matches nothing, where the source panics. |
| `Scenarios.DirectBindSucceeds` | pkg/auth/ldap/ldap.go:221-277 | Direct binding with a `uid=%s` template and the right password returns alice's profile, not an administrator. |
| `Scenarios.DirectBindWrongPassword` | pkg/auth/ldap/ldap.go:240-246 | The same call with a wrong password fails. |
| `Scenarios.MetacharacterRefused` | pkg/auth/ldap/ldap.go:61-238 | `ad(min` is refused in direct mode by the DN sanitizer and in search mode by `findUserDN`'s filter check, both after the dial: the trace is the dial and the close. The exit-code check sends only the dial, the service bind and the close for it. |
| `Scenarios.GroupMemberAdmitted` | pkg/auth/ldap/ldap.go:409-465 | The exit-code check admits alice when the group lists `uid=alice,…`. |
| `Scenarios.NonMemberNotGranted` | pkg/auth/ldap/ldap.go:437-453 | The exit-code check does not admit alice when the group lists only bob. |
| `Scenarios.NonMemberRefused` | pkg/auth/ldap/ldap.go:437-453 | The exit-code check answers exit 1, not 0 and not a panic, when the group lists only bob. |

## Left out

- Dialling (`ldap.go:150-173`, `functions.go:70`): URI parsing, TCP, LDAPS and StartTLS, and certificate checks. Only whether the dial succeeds is kept, as `Server.dialOk`, and the settings omit URI, host, port, security protocol and skip-verify.
- The go-ldap library: bind and search semantics, the BER wire format, scope, alias dereferencing and the requested attribute lists. A bind or search answer is whatever the `Server` oracle says.
- Logging, configuration loading, the REST and command-line transports, controllers and `main` are outside the core.
- The nil checks at `ldap.go:211-217` cannot fire after a successful dial and are not modelled.
- Cancellation, timeouts and concurrency: each call is a pure function of the settings and the oracle.
- `MatrixId.ExtractUsernameFromMatrixID`: strings are sequences of code points. Invalid UTF-8 and Go's byte-level handling of it are not modelled.
- `Ldap.LdapSearch`: go-ldap refuses a bind with an empty password in the client, before anything is sent. That refusal is not modelled: such a bind still appears in the trace and the oracle decides it, so with an oracle that accepts it the model answers 0. Neither `LdapSearch` (`ldap.go:372`, `ldap.go:457`) nor `ldapSearch` (`functions.go:72`, `functions.go:163`) guards against an empty password itself, unlike `SearchEntry` (`ldap.go:202`); both rely on the library's refusal, and the command-line tool passes an unset `password` variable as `""` (`cmd/ldap_ovpn/main.go:26`).
- `OvpnCheck.LdapSearch`: the same holds for the helper's check.

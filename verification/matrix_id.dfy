/**
 * `ExtractUsernameFromMatrixID`: the localpart of a Matrix user ID, taken
 * with the regular expression `@(.*):\w+` and its first submatch. Go's
 * `regexp` reports the leftmost match, and among the matches starting
 * there the one its greedy `.*` prefers: the last suitable colon on the
 * line. `.` does not cross a newline and `\w` is `[0-9A-Za-z_]`. When
 * nothing matches the source indexes a nil slice and panics; here that is
 * `None`.
 */
module MatrixId {
  import opened Results

  /** `\w`: an ASCII letter, digit or underscore. */
  predicate WordChar(c: char)
  {
    ('a' <= c <= 'z') || ('A' <= c <= 'Z') || ('0' <= c <= '9') || c == '_'
  }

  /**
   * From position `a`, `.*:\w` can end its colon at `j`: `s[j]` is a colon
   * followed by a word character, and no newline lies in `s[a..j]`.
   */
  predicate Reach(s: string, a: int, j: int)
  {
    && 0 <= a <= j && j + 1 < |s|
    && s[j] == ':' && WordChar(s[j + 1])
    && forall k | a <= k < j :: s[k] != '\n'
  }

  /** The pattern matches with its `@` at `i` and its colon at `j`. */
  predicate MatchAt(s: string, i: int, j: int)
  {
    0 <= i < |s| && s[i] == '@' && Reach(s, i + 1, j)
  }

  /** Some match starts at `i`. */
  predicate MatchesFrom(s: string, i: int)
  {
    exists j | 0 <= j < |s| :: MatchAt(s, i, j)
  }

  /**
   * The match Go reports: no match starts further left, and no later colon
   * would also complete the match from the same `@`.
   */
  predicate IsCapture(s: string, i: int, j: int)
  {
    && MatchAt(s, i, j)
    && (forall i' | 0 <= i' < i :: !MatchesFrom(s, i'))
    && (forall j' | j < j' < |s| :: !MatchAt(s, i, j'))
  }

  /** Past a character that is not a newline, reaching a later colon does not depend on it. */
  lemma ReachStep(s: string, a: int)
    requires 0 <= a < |s| && s[a] != '\n'
    ensures forall j | a < j :: Reach(s, a, j) == Reach(s, a + 1, j)
  {
  }

  /** The last colon reachable from `a` on its line, if any. */
  function LastReach(s: string, a: nat): (r: Option<nat>)
    requires a <= |s|
    ensures r.Some? ==> Reach(s, a, r.value) && forall j | r.value < j :: !Reach(s, a, j)
    ensures r.None? ==> forall j :: !Reach(s, a, j)
    decreases |s| - a
  {
    if a == |s| || s[a] == '\n' then
      None
    else
      var rest := LastReach(s, a + 1);
      ReachStep(s, a);
      if rest.Some? then
        Some(rest.value)
      else if a + 1 < |s| && s[a] == ':' && WordChar(s[a + 1]) then
        Some(a)
      else
        None
  }

  /** The leftmost `@` at or after `i` from which the pattern matches, and its greedy colon. */
  function FirstMatch(s: string, i: nat): (r: Option<(nat, nat)>)
    requires i <= |s|
    ensures r.Some? ==>
      && i <= r.value.0
      && MatchAt(s, r.value.0, r.value.1)
      && (forall i' | i <= i' < r.value.0 :: !MatchesFrom(s, i'))
      && (forall j' | r.value.1 < j' :: !MatchAt(s, r.value.0, j'))
    ensures r.None? ==> forall i', j | i <= i' :: !MatchAt(s, i', j)
    decreases |s| - i
  {
    if i == |s| then
      None
    else
      var end := if s[i] == '@' then LastReach(s, i + 1) else None;
      if end.Some? then
        Some((i, end.value))
      else
        assert !MatchesFrom(s, i);
        FirstMatch(s, i + 1)
  }

  /** `ExtractUsernameFromMatrixID`: the first submatch, or `None` where the source panics. */
  function ExtractUsernameFromMatrixID(s: string): (r: Option<string>)
    ensures r.None? <==> forall i, j :: !MatchAt(s, i, j)
    ensures forall i, j :: IsCapture(s, i, j) ==> r == Some(s[i + 1..j])
    ensures r.Some? ==> exists i, j :: IsCapture(s, i, j) && r.value == s[i + 1..j]
  {
    var m := FirstMatch(s, 0);
    if m.None? then
      None
    else
      var i, j := m.value.0, m.value.1;
      assert IsCapture(s, i, j);
      forall i', j' | IsCapture(s, i', j')
        ensures i' == i && j' == j
      {
        CaptureUnique(s, i, j, i', j');
      }
      Some(s[i + 1..j])
  }

  /** At most one match is the reported one. */
  lemma CaptureUnique(s: string, i: int, j: int, i': int, j': int)
    requires IsCapture(s, i, j) && IsCapture(s, i', j')
    ensures i == i' && j == j'
  {
    if i < i' {
      assert MatchesFrom(s, i);
    } else if i' < i {
      assert MatchesFrom(s, i');
    }
  }

  /** The extracted localpart is a proper part of the ID: it loses at least the `@` and the `:x`. */
  lemma ExtractedIsShorter(s: string)
    requires ExtractUsernameFromMatrixID(s).Some?
    ensures |ExtractUsernameFromMatrixID(s).value| + 3 <= |s|
    ensures '\n' !in ExtractUsernameFromMatrixID(s).value
  {
  }

  /** A plain user ID gives its localpart. */
  lemma PlainId()
    ensures ExtractUsernameFromMatrixID("@alice:example.org") == Some("alice")
  {
    var s := "@alice:example.org";
    assert s[1..6] == "alice";
    assert IsCapture(s, 0, 6) by {
      assert Reach(s, 1, 6);
      forall j' | 6 < j'
        ensures !MatchAt(s, 0, j')
      {
        if 6 < j' < |s| - 1 {
          assert s[j'] != ':';
        }
      }
    }
  }

  /** The greedy `.*` keeps every colon but the last. */
  lemma GreedyColon()
    ensures ExtractUsernameFromMatrixID("@a:b:c") == Some("a:b")
  {
    var s := "@a:b:c";
    assert s[1..4] == "a:b";
    assert IsCapture(s, 0, 4) by {
      assert Reach(s, 1, 4);
    }
  }

  /** The localpart may be empty. */
  lemma EmptyLocalpart()
    ensures ExtractUsernameFromMatrixID("@:x") == Some("")
  {
  }

  /** Without a word character after the colon nothing matches, and the source panics. */
  lemma NoServerPart()
    ensures ExtractUsernameFromMatrixID("@alice:").None?
  {
  }
}

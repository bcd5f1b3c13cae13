/**
 * The few functions of Go's `strings` package the authentication core relies
 * on, over Dafny strings (sequences of characters).
 */
module GoStrings {

  /** `strings.ContainsAny(s, chars)`: some character of `s` occurs in `chars`. */
  predicate ContainsAny(s: string, chars: string)
  {
    exists i :: 0 <= i < |s| && s[i] in chars
  }

  /** `strings.HasPrefix(s, p)`. */
  predicate HasPrefix(s: string, p: string)
  {
    |p| <= |s| && s[..|p|] == p
  }

  /** `strings.HasSuffix(s, p)`. */
  predicate HasSuffix(s: string, p: string)
  {
    |p| <= |s| && s[|s| - |p|..] == p
  }

  /** The placeholder every template of the configuration uses. */
  const Placeholder: string := "%s"

  /** `t` holds the placeholder `%s` somewhere. */
  predicate HasPlaceholder(t: string)
  {
    exists i :: 0 <= i < |t| - 1 && t[i] == '%' && t[i + 1] == 's'
  }

  /**
   * `strings.Replace(t, "%s", v, -1)`: scanning `t` from the left, every
   * non-overlapping occurrence of `%s` is replaced by `v`; the inserted text
   * is never scanned again.
   */
  function Substitute(t: string, v: string): string
    decreases |t|
  {
    if |t| < 2 then t
    else if t[0] == '%' && t[1] == 's' then v + Substitute(t[2..], v)
    else [t[0]] + Substitute(t[1..], v)
  }

  /** A template without the placeholder comes back unchanged, whatever the value. */
  lemma {:induction false} SubstituteWithoutPlaceholder(t: string, v: string)
    requires !HasPlaceholder(t)
    ensures Substitute(t, v) == t
    decreases |t|
  {
    if |t| >= 2 {
      assert !(t[0] == '%' && t[1] == 's');
      assert !HasPlaceholder(t[1..]) by {
        forall i | 0 <= i < |t[1..]| - 1
          ensures !(t[1..][i] == '%' && t[1..][i + 1] == 's')
        {
          assert t[1..][i] == t[i + 1] && t[1..][i + 1] == t[i + 2];
        }
      }
      SubstituteWithoutPlaceholder(t[1..], v);
      assert t == [t[0]] + t[1..];
    }
  }

  /**
   * Substitution is compositional at a placeholder: the value lands exactly
   * where the placeholder stood, and each side is substituted on its own.
   */
  lemma {:induction false} SubstituteSplit(a: string, b: string, v: string)
    ensures Substitute(a + Placeholder + b, v) == Substitute(a, v) + v + Substitute(b, v)
    decreases |a|
  {
    var t := a + Placeholder + b;
    if |a| <= 1 {
      SubstituteSplitShort(a, b, v);
    } else if a[0] == '%' && a[1] == 's' {
      assert t[0] == '%' && t[1] == 's';
      assert t[2..] == a[2..] + Placeholder + b;
      SubstituteSplit(a[2..], b, v);
      calc {
        Substitute(t, v);
        v + Substitute(t[2..], v);
        v + (Substitute(a[2..], v) + v + Substitute(b, v));
        (v + Substitute(a[2..], v)) + v + Substitute(b, v);
        Substitute(a, v) + v + Substitute(b, v);
      }
    } else {
      assert t[0] == a[0] && t[1] == a[1];
      assert t[1..] == a[1..] + Placeholder + b;
      SubstituteSplit(a[1..], b, v);
      calc {
        Substitute(t, v);
        [a[0]] + Substitute(t[1..], v);
        [a[0]] + (Substitute(a[1..], v) + v + Substitute(b, v));
        ([a[0]] + Substitute(a[1..], v)) + v + Substitute(b, v);
        Substitute(a, v) + v + Substitute(b, v);
      }
    }
  }

  /** The base cases of `SubstituteSplit`: at most one character before the placeholder. */
  lemma SubstituteSplitShort(a: string, b: string, v: string)
    requires |a| <= 1
    ensures Substitute(a + Placeholder + b, v) == a + v + Substitute(b, v)
  {
  }

  /** A template whose only `%` is its one placeholder yields the text around it with the value between. */
  lemma SubstituteSingle(a: string, b: string, v: string)
    requires '%' !in a && '%' !in b
    ensures Substitute(a + Placeholder + b, v) == a + v + b
  {
    SubstituteSplit(a, b, v);
    forall t | t == a || t == b
      ensures !HasPlaceholder(t)
    {
      forall i | 0 <= i < |t| - 1
        ensures t[i] != '%'
      {
        assert t[i] in t;
      }
    }
    SubstituteWithoutPlaceholder(a, v);
    SubstituteWithoutPlaceholder(b, v);
  }

  /** Substituting the placeholder for itself leaves every template unchanged. */
  lemma {:induction false} SubstitutePlaceholderIsIdentity(t: string)
    ensures Substitute(t, Placeholder) == t
    decreases |t|
  {
    if |t| >= 2 {
      if t[0] == '%' && t[1] == 's' {
        SubstitutePlaceholderIsIdentity(t[2..]);
        assert t == Placeholder + t[2..];
      } else {
        SubstitutePlaceholderIsIdentity(t[1..]);
        assert t == [t[0]] + t[1..];
      }
    }
  }
}

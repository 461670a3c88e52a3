/**
  The email shape test `/\S+@\S+\.\S+/.test(s)`.

  The pattern is not anchored, so it succeeds when SOME infix of `s` has the
  shape: a run of non-whitespace, `@`, a run of non-whitespace, `.`, a run of
  non-whitespace. Since a run of one character suffices at both ends, a match
  exists exactly when there are positions `at < dot` with a non-whitespace
  character just before `at`, `@` at `at`, at least one character strictly
  between them all non-whitespace, `.` at `dot`, and a non-whitespace
  character just after `dot`.
 */
module EmailPattern {
  import opened Text

  /** The pattern matches with its `@` at index `at` and its `\.` at index `dot`. */
  predicate MatchAt(s: string, at: nat, dot: nat)
    requires 0 < at && at + 1 < dot && dot + 1 < |s|
  {
    && !IsSpace(s[at - 1])
    && s[at] == '@'
    && (forall k | at < k < dot :: !IsSpace(s[k]))
    && s[dot] == '.'
    && !IsSpace(s[dot + 1])
  }

  /** `/\S+@\S+\.\S+/.test(s)` */
  predicate HasEmailShape(s: string) {
    exists at: nat, dot: nat | 0 < at && at + 1 < dot && dot + 1 < |s| :: MatchAt(s, at, dot)
  }

  /** A string of the email shape is at least five characters long, holds an
      `@` and a `.`, and is not blank. */
  lemma ShapeNeedsAtAndDot(s: string)
    requires HasEmailShape(s)
    ensures |s| >= 5 && '@' in s && '.' in s && !AllSpace(s)
  {
    var at: nat, dot: nat :| 0 < at && at + 1 < dot && dot + 1 < |s| && MatchAt(s, at, dot);
    assert s[at] == '@' && s[dot] == '.' && !IsSpace(s[at]);
  }

  /** A whitespace-only string never has the email shape. */
  lemma BlankHasNoShape(s: string)
    requires AllSpace(s)
    ensures !HasEmailShape(s)
  {
    if HasEmailShape(s) {
      ShapeNeedsAtAndDot(s);
    }
  }

  /** The test is unanchored: surrounding a matching string with any text keeps
      it matching. */
  lemma ShapeSurvivesContext(prefix: string, s: string, suffix: string)
    requires HasEmailShape(s)
    ensures HasEmailShape(prefix + s + suffix)
  {
    var at: nat, dot: nat :| 0 < at && at + 1 < dot && dot + 1 < |s| && MatchAt(s, at, dot);
    var t := prefix + s + suffix;
    var n := |prefix|;
    assert forall k | 0 <= k < |s| :: t[n + k] == s[k];
    assert MatchAt(t, n + at, n + dot);
  }

  /** The examples that pin the pattern down: `a@b.com` passes; `abc`, `a@b`,
      `a@bcom` (no dot after the `@`) and `a @b.com` (whitespace before the `@`)
      fail; a match inside surrounding text still passes. */
  lemma ShapeExamples()
    ensures HasEmailShape("a@b.com")
    ensures !HasEmailShape("abc") && !HasEmailShape("a@b")
    ensures !HasEmailShape("a@bcom")
    ensures !HasEmailShape("a @b.com")
    ensures HasEmailShape("mail me at x@y.z now")
  {
    assert MatchAt("a@b.com", 1, 3);
    var s := "a@bcom";
    forall at: nat, dot: nat | 0 < at && at + 1 < dot && dot + 1 < |s|
      ensures !MatchAt(s, at, dot)
    {
      assert s[dot] != '.';
    }
    s := "a @b.com";
    forall at: nat, dot: nat | 0 < at && at + 1 < dot && dot + 1 < |s|
      ensures !MatchAt(s, at, dot)
    {
      if s[at] == '@' {
        assert at == 2;
      }
    }
    assert MatchAt("x@y.z", 1, 3);
    ShapeSurvivesContext("mail me at ", "x@y.z", " now");
    assert "mail me at " + "x@y.z" + " now" == "mail me at x@y.z now";
  }
}

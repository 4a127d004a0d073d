/**
 * The key rule applied to view data keys and helper names:
 * `preg_match('/^[a-zA-Z_][a-zA-Z0-9_]*$/', $key)`.
 *
 * Without the `D` modifier, PCRE's `$` matches at the very end of the subject
 * and also just before a newline that is the subject's last character, so a
 * key made of one identifier followed by a single "\n" is accepted too.
 */
module Keys {

  predicate IsLeadChar(c: char) {
    ('a' <= c <= 'z') || ('A' <= c <= 'Z') || c == '_'
  }

  predicate IsWordChar(c: char) {
    IsLeadChar(c) || ('0' <= c <= '9')
  }

  /** `[a-zA-Z_][a-zA-Z0-9_]*` matched against the whole of `s` */
  predicate IsIdentifier(s: string) {
    |s| > 0 && IsLeadChar(s[0]) && forall i :: 1 <= i < |s| ==> IsWordChar(s[i])
  }

  /**
   * What the anchored pattern accepts, `$` included: an identifier, except
   * that its last character may be a newline; no other character occurs.
   */
  predicate IsValidKey(s: string): (b: bool)
    ensures b ==>
      && |s| > 0 && IsLeadChar(s[0])
      && (forall i :: 0 <= i < |s| - 1 ==> IsWordChar(s[i]))
      && (IsWordChar(s[|s| - 1]) || (s[|s| - 1] == '\n' && |s| >= 2))
  {
    IsIdentifier(s) || (|s| > 0 && s[|s| - 1] == '\n' && IsIdentifier(s[..|s| - 1]))
  }

  /**
   * The pattern read as the regex engine runs it: one lead character, then
   * word characters, then either the end or a final "\n".
   */
  function MatchRest(s: string): (ok: bool)
    decreases |s|
  {
    if s == [] then true
    else if s == "\n" then true
    else IsWordChar(s[0]) && MatchRest(s[1..])
  }

  function MatchKey(s: string): (ok: bool) {
    |s| > 0 && IsLeadChar(s[0]) && MatchRest(s[1..])
  }

  lemma {:induction false} MatchRestSound(s: string)
    ensures MatchRest(s) <==>
      (forall i :: 0 <= i < |s| ==> IsWordChar(s[i])) ||
      (|s| > 0 && s[|s| - 1] == '\n' && forall i :: 0 <= i < |s| - 1 ==> IsWordChar(s[i]))
    decreases |s|
  {
    if s != [] && s != "\n" {
      MatchRestSound(s[1..]);
      assert forall i :: 1 <= i < |s| ==> s[1..][i - 1] == s[i];
    }
  }

  /** The character-by-character reading agrees with the declarative rule. */
  lemma MatchKeyIsValidKey(s: string)
    ensures MatchKey(s) <==> IsValidKey(s)
  {
    if |s| > 0 {
      MatchRestSound(s[1..]);
      assert forall i :: 1 <= i < |s| ==> s[1..][i - 1] == s[i];
      if |s| > 1 {
        assert forall i :: 1 <= i < |s| - 1 ==> s[..|s| - 1][i] == s[i];
      }
    }
  }
}

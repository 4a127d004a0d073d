/**
 * File-extension normalisation of the two `setExtension` versions.
 *
 * Both store `"." . ltrim($extension, '.')`; the current manager skips the
 * rewrite for `""` as well as for `null`, the legacy manager only for `null`.
 */
module Extension {
  import opened Wrappers

  /** `ltrim($s, '.')`: `s` without its leading dots. */
  function LTrimDots(s: string): (r: string)
    ensures |r| <= |s| && r == s[|s| - |r|..]
    ensures forall i :: 0 <= i < |s| - |r| ==> s[i] == '.'
    ensures r == [] || r[0] != '.'
    decreases |s|
  {
    if s != [] && s[0] == '.' then LTrimDots(s[1..]) else s
  }

  /** The shape every rewritten extension has: one dot, then no dot. */
  predicate HasSingleLeadingDot(e: string) {
    |e| >= 1 && e[0] == '.' && (|e| == 1 || e[1] != '.')
  }

  /** `setExtension` of src/ViewManager.php. */
  function Normalize(e: Option<string>): (r: Option<string>)
    ensures r.None? <==> e.None?
    ensures e == Some("") ==> r == Some("")
    ensures e.Some? && e.value != "" ==> HasSingleLeadingDot(r.value)
  {
    if e.None? || e.value == "" then e else Some("." + LTrimDots(e.value))
  }

  /** `setExtension` of the legacy manager. */
  function LegacyNormalize(e: Option<string>): (r: Option<string>)
    ensures r.None? <==> e.None?
    ensures e.Some? ==> HasSingleLeadingDot(r.value)
  {
    if e.None? then None else Some("." + LTrimDots(e.value))
  }

  /** Stripping leading dots does not change a string that has none. */
  lemma {:induction false} LTrimDotsFixed(s: string)
    requires s == [] || s[0] != '.'
    ensures LTrimDots(s) == s
  {
  }

  /**
   * The rewritten extension is `"."` followed by the caller's string with
   * every leading dot removed, and nothing else is lost.
   */
  lemma NormalizeKeepsRest(e: string, k: nat)
    requires k <= |e| && (forall i :: 0 <= i < k ==> e[i] == '.') && (k == |e| || e[k] != '.')
    ensures Normalize(Some(e)) == if e == "" then Some("") else Some("." + e[k..])
    ensures LegacyNormalize(Some(e)) == Some("." + e[k..])
  {
    var t := LTrimDots(e);
    assert |e| - |t| == k;
  }

  /** Normalising an already normalised extension changes nothing. */
  lemma NormalizeIdempotent(e: Option<string>)
    ensures Normalize(Normalize(e)) == Normalize(e)
  {
    if e.Some? && e.value != "" {
      var t := LTrimDots(e.value);
      var n := "." + t;
      assert n[1..] == t;
      LTrimDotsFixed(t);
    }
  }

  lemma LegacyNormalizeIdempotent(e: Option<string>)
    ensures LegacyNormalize(LegacyNormalize(e)) == LegacyNormalize(e)
  {
    if e.Some? {
      var t := LTrimDots(e.value);
      var n := "." + t;
      assert n[1..] == t;
      LTrimDotsFixed(t);
    }
  }

  /**
   * The two versions disagree on exactly one input: the empty string, which
   * the current manager keeps as `""` and the legacy manager turns into `"."`.
   */
  lemma VersionsDifferOnlyOnEmpty(e: Option<string>)
    ensures Normalize(e) != LegacyNormalize(e) <==> e == Some("")
    ensures LegacyNormalize(Some("")) == Some(".")
  {
    assert LTrimDots("") == "";
    assert "." + "" == ".";
  }
}

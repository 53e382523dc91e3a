/** Naming conventions (Decoration.cs): a decoration is a prefix and a suffix
    put around a property name to form the name of a companion member
    (`defaultFor` + `Value`, `On` + `Value` + `Changed`). */
module Decorations {
  import opened Wrappers
  import opened Text

  datatype Affixes = Affixes(prefix: string, suffix: string)

  /** A decoration never has both affixes empty. */
  type Decoration = d: Affixes | d.prefix != "" || d.suffix != "" witness Affixes("On", "Changed")

  /** The constructor: a null affix and a pair of empty affixes are refused. */
  function NewDecoration(prefix: Option<string>, suffix: Option<string>): (r: Result<Decoration>)
    ensures r.Ok? <==> prefix.Some? && suffix.Some? && (prefix.value != "" || suffix.value != "")
    ensures r.Ok? ==> r.value.prefix == prefix.value && r.value.suffix == suffix.value
    ensures prefix.None? ==> r == Err(ArgumentNull("prefix"))
    ensures prefix.Some? && suffix.None? ==> r == Err(ArgumentNull("suffix"))
  {
    if prefix.None? then Err(ArgumentNull("prefix"))
    else if suffix.None? then Err(ArgumentNull("suffix"))
    else if prefix.value == "" && suffix.value == "" then
      Err(Argument("Both prefix and suffix cannot be empty"))
    else
      Ok(Affixes(prefix.value, suffix.value))
  }

  /** `s.Matches(d)`: a non-empty name that starts with the prefix and ends with the suffix. */
  predicate Matches(s: string, d: Decoration) {
    s != "" && StartsWith(s, d.prefix) && EndsWith(s, d.suffix)
  }

  /** The decorated form of a name. */
  function ApplyTo(d: Decoration, s: string): (r: string)
    ensures Matches(r, d)
    ensures |r| == |d.prefix| + |s| + |d.suffix|
  {
    StartsWithConcat(d.prefix, s + d.suffix);
    assert d.prefix + (s + d.suffix) == d.prefix + s + d.suffix;
    EndsWithConcat(d.prefix + s, d.suffix);
    d.prefix + s + d.suffix
  }

  /** `Strip` as written: a name that does not match gives `null`; a matching name
      shorter than both affixes together (they overlap in it) reaches `Substring`
      with a negative length, which throws. */
  function StripAsWritten(d: Decoration, s: string): (r: Result<Option<string>>)
    ensures r.Err? <==> Matches(s, d) && |s| < |d.prefix| + |d.suffix|
    ensures r.Err? ==> r.error == ArgumentOutOfRange
  {
    if !Matches(s, d) then Ok(None)
    else
      var length := |s| - (|d.prefix| + |d.suffix|);
      if length < 0 then Err(ArgumentOutOfRange)
      else Ok(Some(s[|d.prefix|..|d.prefix| + length]))
  }

  /** A prefix and a suffix that overlap inside the name make `Strip` throw. */
  lemma StripAsWrittenThrowsOnOverlap()
    ensures StripAsWritten(Affixes("ab", "ba"), "aba") == Err(ArgumentOutOfRange)
  {
    assert StartsWith("aba", "ab") by { assert "aba"[..2] == "ab"; }
    assert EndsWith("aba", "ba") by { assert "aba"[1..] == "ba"; }
  }

  /** `Strip` corrected: the name inside the affixes, exactly when the name is a
      decorated form; `None` otherwise, including the overlapping case. */
  function Strip(d: Decoration, s: string): (r: Option<string>)
    ensures r.Some? ==> ApplyTo(d, r.value) == s
    ensures r.None? ==> forall n :: ApplyTo(d, n) != s
  {
    if Matches(s, d) && |d.prefix| + |d.suffix| <= |s| then
      var n := s[|d.prefix|..|s| - |d.suffix|];
      assert s == s[..|d.prefix|] + n + s[|s| - |d.suffix|..];
      Some(n)
    else
      None
  }

  /** Wherever `Strip` as written returns, the corrected one returns the same. */
  lemma StripAgreesWithAsWritten(d: Decoration, s: string)
    requires StripAsWritten(d, s).Ok?
    ensures StripAsWritten(d, s).value == Strip(d, s)
  {
  }

  /** Stripping a decorated name gives back the name. */
  lemma StripApplyRoundTrip(d: Decoration, n: string)
    ensures Strip(d, ApplyTo(d, n)) == Some(n)
  {
    var s := ApplyTo(d, n);
    assert s[|d.prefix|..|s| - |d.suffix|] == n;
  }
}

/**
 Strategy-name normalisation done once at startup in `main.go`: the configured
 name is lower-cased and an empty name becomes "round-robin". Lower-casing is
 modelled on ASCII letters.
 */
module Strategy {
  import ServerPool

  predicate IsUpper(c: char) {
    'A' <= c <= 'Z'
  }

  function LowerChar(c: char): (r: char)
    ensures !IsUpper(r)
    ensures IsUpper(c) ==> r as int == c as int + 32
    ensures !IsUpper(c) ==> r == c
  {
    if IsUpper(c) then (c as int + 32) as char else c
  }

  /** `strings.ToLower` on ASCII letters. */
  function ToLower(s: string): (r: string)
    ensures |r| == |s|
    ensures forall i :: 0 <= i < |s| ==> r[i] == LowerChar(s[i])
  {
    seq(|s|, i requires 0 <= i < |s| => LowerChar(s[i]))
  }

  /** Two names that differ only in the case of ASCII letters. */
  predicate SameIgnoringCase(a: string, b: string) {
    |a| == |b| && forall i :: 0 <= i < |a| ==> LowerChar(a[i]) == LowerChar(b[i])
  }

  /** The strategy name `main.go` hands to every selection. */
  function NormalizeStrategy(raw: string): (r: string)
    ensures r != ""
    ensures raw == "" ==> r == "round-robin"
    ensures raw != "" ==> SameIgnoringCase(r, raw)
    ensures forall i :: 0 <= i < |r| ==> !IsUpper(r[i])
  {
    var lowered := ToLower(raw);
    if lowered == "" then "round-robin" else lowered
  }

  /** Normalising twice is normalising once. */
  lemma NormalizeIdempotent(raw: string)
    ensures NormalizeStrategy(NormalizeStrategy(raw)) == NormalizeStrategy(raw)
  {
  }

  /** The configured name is case-insensitive: names equal up to ASCII case normalise alike. */
  lemma NormalizeIgnoresCase(a: string, b: string)
    requires SameIgnoringCase(a, b)
    ensures NormalizeStrategy(a) == NormalizeStrategy(b)
  {
  }

  /** "LEAST_CONN" in the configuration selects least-connections; an empty or unknown name does not. */
  lemma NormalizeExamples()
    ensures ServerPool.IsLeastConnections(NormalizeStrategy("LEAST_CONN"))
    ensures ServerPool.IsLeastConnections(NormalizeStrategy("Least-Connections"))
    ensures !ServerPool.IsLeastConnections(NormalizeStrategy(""))
    ensures !ServerPool.IsLeastConnections(NormalizeStrategy("Weighted"))
  {
  }

}

/** The keyword heuristic that grades a clause. */
module RiskHeuristic {
  import opened IngestStores

  const HIGH_SIGNAL_TERMS: seq<string> :=
    ["unlimited liability", "perpetual", "exclusive", "non-compete", "indemnify", "irrevocable", "without limitation"]

  const MEDIUM_SIGNAL_TERMS: seq<string> := ["terminate", "breach", "damages", "liability"]

  predicate ContainsAt(text: string, term: string, i: nat) {
    i + |term| <= |text| && text[i..i + |term|] == term
  }

  predicate Contains(text: string, term: string) {
    exists i :: 0 <= i <= |text| && ContainsAt(text, term, i)
  }

  predicate Mentions(text: string, terms: seq<string>) {
    exists i :: 0 <= i < |terms| && Contains(text, terms[i])
  }

  /** `lower` is the case mapping of the host language. */
  function Assess(lower: string -> string, text: string): Level {
    var lowered := lower(text);
    if Mentions(lowered, HIGH_SIGNAL_TERMS) then High
    else if Mentions(lowered, MEDIUM_SIGNAL_TERMS) then Medium
    else Low
  }
}

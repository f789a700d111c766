/** What the levels of risk mean, term by term, and the rationale written beside each. */
module RiskLevels {
  import opened IngestStores
  import opened RiskHeuristic

  const HIGH_RATIONALE: string :=
    "Contains high-risk language (e.g. unlimited liability / non-compete / " +
    "perpetual obligation). Worth a senior lawyer's review."

  const MEDIUM_RATIONALE: string :=
    "Standard but consequential clause \U{2014} verify the specific terms align " +
    "with our usual position."

  /** What is written beside a level. */
  function Rationale(level: Level): string {
    match level
    case High => HIGH_RATIONALE
    case Medium => MEDIUM_RATIONALE
    case Low => "Routine language; no obvious red flags."
  }

  ghost predicate OccursIn(term: string, text: string) {
    exists before: string, after: string :: text == before + term + after
  }

  ghost predicate SaysHigh(text: string) {
    || OccursIn("unlimited liability", text) || OccursIn("perpetual", text) || OccursIn("exclusive", text)
    || OccursIn("non-compete", text) || OccursIn("indemnify", text) || OccursIn("irrevocable", text)
    || OccursIn("without limitation", text)
  }

  ghost predicate SaysMedium(text: string) {
    || OccursIn("terminate", text) || OccursIn("breach", text) || OccursIn("damages", text)
    || OccursIn("liability", text)
  }

  /** The level that the terms in the lowercased text call for. */
  ghost predicate IsGrade(lower: string -> string, text: string, level: Level) {
    && (level == High <==> SaysHigh(lower(text)))
    && (level == Medium <==> !SaysHigh(lower(text)) && SaysMedium(lower(text)))
    && (level == Low <==> !SaysHigh(lower(text)) && !SaysMedium(lower(text)))
  }

  ghost predicate ExplainsHigh(rationale: string) {
    rationale == "Contains high-risk language (e.g. unlimited liability / non-compete / " +
                 "perpetual obligation). Worth a senior lawyer's review."
  }

  ghost predicate ExplainsMedium(rationale: string) {
    rationale == "Standard but consequential clause \U{2014} verify the specific terms align " +
                 "with our usual position."
  }

  ghost predicate Explains(level: Level, rationale: string) {
    match level
    case High => ExplainsHigh(rationale)
    case Medium => ExplainsMedium(rationale)
    case Low => rationale == "Routine language; no obvious red flags."
  }

  lemma ContainsIsOccurs(text: string, term: string)
    ensures Contains(text, term) <==> OccursIn(term, text)
  {
    if Contains(text, term) {
      var i :| 0 <= i <= |text| && ContainsAt(text, term, i);
      assert text == text[..i] + term + text[i + |term|..];
    }
    if OccursIn(term, text) {
      var before, after :| text == before + term + after;
      assert ContainsAt(text, term, |before|);
    }
  }

  lemma MentionsHigh(text: string)
    ensures Mentions(text, HIGH_SIGNAL_TERMS) <==> SaysHigh(text)
  {
    forall i | 0 <= i < |HIGH_SIGNAL_TERMS|
      ensures Contains(text, HIGH_SIGNAL_TERMS[i]) <==> OccursIn(HIGH_SIGNAL_TERMS[i], text)
    {
      ContainsIsOccurs(text, HIGH_SIGNAL_TERMS[i]);
    }
    assert HIGH_SIGNAL_TERMS[0] == "unlimited liability" && HIGH_SIGNAL_TERMS[1] == "perpetual";
    assert HIGH_SIGNAL_TERMS[2] == "exclusive" && HIGH_SIGNAL_TERMS[3] == "non-compete";
    assert HIGH_SIGNAL_TERMS[4] == "indemnify" && HIGH_SIGNAL_TERMS[5] == "irrevocable";
    assert HIGH_SIGNAL_TERMS[6] == "without limitation";
  }

  lemma MentionsMedium(text: string)
    ensures Mentions(text, MEDIUM_SIGNAL_TERMS) <==> SaysMedium(text)
  {
    forall i | 0 <= i < |MEDIUM_SIGNAL_TERMS|
      ensures Contains(text, MEDIUM_SIGNAL_TERMS[i]) <==> OccursIn(MEDIUM_SIGNAL_TERMS[i], text)
    {
      ContainsIsOccurs(text, MEDIUM_SIGNAL_TERMS[i]);
    }
    assert MEDIUM_SIGNAL_TERMS[0] == "terminate" && MEDIUM_SIGNAL_TERMS[1] == "breach";
    assert MEDIUM_SIGNAL_TERMS[2] == "damages" && MEDIUM_SIGNAL_TERMS[3] == "liability";
  }

  /** A text is high if and only if one of the seven terms occurs in it, medium if and only if none does
      but one of the four others, and low if and only if none of the eleven does. */
  lemma AssessIsGrade(lower: string -> string, text: string)
    ensures IsGrade(lower, text, Assess(lower, text))
  {
    MentionsHigh(lower(text));
    MentionsMedium(lower(text));
  }

  lemma HighExplained()
    ensures ExplainsHigh(HIGH_RATIONALE)
  {}

  lemma MediumExplained()
    ensures ExplainsMedium(MEDIUM_RATIONALE)
  {}

  lemma RationaleExplains(level: Level)
    ensures Explains(level, Rationale(level))
  {
    match level
    case High => HighExplained();
    case Medium => MediumExplained();
    case Low =>
  }
}

/** From the annotated corpus to contracts with identified, de-duplicated clauses. */
module Parser {
  import opened Options
  import opened Slug
  import opened IngestStores

  /** String functions of the host language and its libraries: the SHA-1 digest in hexadecimal,
      lowercasing, stripping of white space, and the quoted category of a question. */
  datatype TextOps = TextOps(
    sha1: string -> string,
    lower: string -> string,
    strip: string -> string,
    quoted: string -> Option<string>)

  datatype Answer = Answer(text: Option<string>)
  datatype Qa = Qa(question: string, answers: seq<Answer>)
  datatype Paragraph = Paragraph(qas: seq<Qa>)
  datatype Document = Document(title: string, paragraphs: seq<Paragraph>)

  datatype ParsedContract = ParsedContract(contractId: string, filename: string, clauses: seq<Clause>)

  // ----- Identities -----

  predicate HexDigit(c: char) {
    '0' <= c <= '9' || 'a' <= c <= 'f'
  }

  predicate IsHex(s: string) {
    |s| == 40 && forall i :: 0 <= i < |s| ==> HexDigit(s[i])
  }

  /** Digests have 40 hexadecimal digits. */
  ghost predicate HexDigests(sha1: string -> string) {
    forall s :: IsHex(sha1(s))
  }

  function FirstSixty(question: string): string {
    if |question| <= 60 then question else question[..60]
  }

  function NormalizeCategory(ops: TextOps, question: string): string {
    var quoted := ops.quoted(question);
    ToSlug(ops.lower, if quoted.Some? then quoted.value else FirstSixty(question))
  }

  function ContractId(ops: TextOps, title: string): string
    requires IsHex(ops.sha1(title))
  {
    ops.sha1(title)[..16]
  }

  function Preimage(contractId: string, category: string, text: string): string {
    contractId + "|" + (category + "|" + text)
  }

  /** The first ten digits of the digest. */
  function Tag(sha1: string -> string, s: string): string
    requires IsHex(sha1(s))
  {
    sha1(s)[..10]
  }

  function ClauseId(ops: TextOps, contractId: string, category: string, text: string): string
    requires IsHex(ops.sha1(Preimage(contractId, category, text)))
  {
    contractId + "-" + Tag(ops.sha1, Preimage(contractId, category, text))
  }

  /** Where the first bar is, or the length when there is none. */
  function FirstBar(s: string): nat {
    if s == [] || s[0] == '|' then 0 else 1 + FirstBar(s[1..])
  }

  lemma {:induction false} FirstBarAfter(a: string, b: string)
    requires '|' !in a
    ensures FirstBar(a + "|" + b) == |a|
  {
    var s := a + "|" + b;
    if a != [] {
      assert s[0] == a[0] && a[0] in a;
      assert s[1..] == a[1..] + "|" + b;
      FirstBarAfter(a[1..], b);
    }
  }

  function Decode(s: string): (string, string, string) {
    var i := FirstBar(s);
    var rest := if i < |s| then s[i + 1..] else [];
    var j := FirstBar(rest);
    (if i <= |s| then s[..i] else s,
     if j <= |rest| then rest[..j] else rest,
     if j < |rest| then rest[j + 1..] else [])
  }

  /** A clause's preimage is read back uniquely: neither a contract id nor a slug has a bar. */
  lemma PreimageDecodes(contractId: string, category: string, text: string)
    requires '|' !in contractId && '|' !in category
    ensures Decode(Preimage(contractId, category, text)) == (contractId, category, text)
  {
    var s := Preimage(contractId, category, text);
    assert s == contractId + "|" + (category + "|" + text);
    FirstBarAfter(contractId, category + "|" + text);
    assert s[..|contractId|] == contractId;
    var rest := s[|contractId| + 1..];
    assert rest == category + "|" + text;
    FirstBarAfter(category, text);
    assert rest[..|category|] == category && rest[|category| + 1..] == text;
  }

  lemma NoBars(ops: TextOps, title: string, question: string)
    requires HexDigests(ops.sha1)
    ensures |ContractId(ops, title)| == 16 && '|' !in ContractId(ops, title)
    ensures '|' !in NormalizeCategory(ops, question)
  {
    assert IsHex(ops.sha1(title));
    var quoted := ops.quoted(question);
    SlugsAreSlugs(ops.lower, if quoted.Some? then quoted.value else FirstSixty(question));
  }

  // ----- Collecting the clauses of a document -----

  function AnswerText(ops: TextOps, a: Answer): string {
    ops.strip(if a.text.Some? then a.text.value else "")
  }

  function FromAnswers(ops: TextOps, contractId: string, category: string, answers: seq<Answer>): seq<Clause>
    requires HexDigests(ops.sha1)
  {
    if answers == [] then []
    else
      var text := AnswerText(ops, answers[|answers| - 1]);
      FromAnswers(ops, contractId, category, answers[..|answers| - 1]) +
      if text == [] then [] else [Clause(ClauseId(ops, contractId, category, text), category, text)]
  }

  function FromQas(ops: TextOps, contractId: string, qas: seq<Qa>): seq<Clause>
    requires HexDigests(ops.sha1)
  {
    if qas == [] then []
    else
      var qa := qas[|qas| - 1];
      FromQas(ops, contractId, qas[..|qas| - 1]) +
      FromAnswers(ops, contractId, NormalizeCategory(ops, qa.question), qa.answers)
  }

  function Collected(ops: TextOps, contractId: string, paragraphs: seq<Paragraph>): seq<Clause>
    requires HexDigests(ops.sha1)
  {
    if paragraphs == [] then []
    else
      Collected(ops, contractId, paragraphs[..|paragraphs| - 1]) +
      FromQas(ops, contractId, paragraphs[|paragraphs| - 1].qas)
  }

  /** A clause as this parser makes it for a contract. */
  ghost predicate MadeFor(ops: TextOps, contractId: string, c: Clause)
    requires HexDigests(ops.sha1)
  {
    '|' !in c.category && c.id == ClauseId(ops, contractId, c.category, c.text)
  }

  lemma {:induction false} AnswersMadeFor(ops: TextOps, contractId: string, category: string, answers: seq<Answer>)
    requires HexDigests(ops.sha1) && '|' !in category
    ensures forall c :: c in FromAnswers(ops, contractId, category, answers) ==> MadeFor(ops, contractId, c)
  {
    if answers != [] { AnswersMadeFor(ops, contractId, category, answers[..|answers| - 1]); }
  }

  lemma {:induction false} QasMadeFor(ops: TextOps, contractId: string, qas: seq<Qa>)
    requires HexDigests(ops.sha1)
    ensures forall c :: c in FromQas(ops, contractId, qas) ==> MadeFor(ops, contractId, c)
  {
    if qas != [] {
      QasMadeFor(ops, contractId, qas[..|qas| - 1]);
      NoBars(ops, "", qas[|qas| - 1].question);
      AnswersMadeFor(ops, contractId, NormalizeCategory(ops, qas[|qas| - 1].question), qas[|qas| - 1].answers);
    }
  }

  lemma {:induction false} CollectedMadeFor(ops: TextOps, contractId: string, paragraphs: seq<Paragraph>)
    requires HexDigests(ops.sha1)
    ensures forall c :: c in Collected(ops, contractId, paragraphs) ==> MadeFor(ops, contractId, c)
  {
    if paragraphs != [] {
      CollectedMadeFor(ops, contractId, paragraphs[..|paragraphs| - 1]);
      QasMadeFor(ops, contractId, paragraphs[|paragraphs| - 1].qas);
    }
  }

  // ----- The annotations of a document, by position -----

  /** Where an answer stands: its paragraph, the question there, and the answer to it. */
  datatype Spot = Spot(paragraph: nat, question: nat, answer: nat)

  predicate IsSpot(paragraphs: seq<Paragraph>, s: Spot) {
    && s.paragraph < |paragraphs| && s.question < |paragraphs[s.paragraph].qas|
    && s.answer < |paragraphs[s.paragraph].qas[s.question].answers|
  }

  function TextAt(ops: TextOps, paragraphs: seq<Paragraph>, s: Spot): string
    requires IsSpot(paragraphs, s)
  {
    match paragraphs[s.paragraph].qas[s.question].answers[s.answer].text
    case None => ops.strip("")
    case Some(text) => ops.strip(text)
  }

  /** The words of the question's quoted part, or else of its first sixty characters. */
  function CategoryAt(ops: TextOps, paragraphs: seq<Paragraph>, s: Spot): string
    requires IsSpot(paragraphs, s)
  {
    var question := paragraphs[s.paragraph].qas[s.question].question;
    match ops.quoted(question)
    case None => Joined(Words(ops.lower(if |question| > 60 then question[..60] else question)))
    case Some(name) => Joined(Words(ops.lower(name)))
  }

  predicate Annotates(ops: TextOps, paragraphs: seq<Paragraph>, s: Spot) {
    IsSpot(paragraphs, s) && TextAt(ops, paragraphs, s) != ""
  }

  /** Reading order. */
  predicate Precedes(s: Spot, t: Spot) {
    s.paragraph < t.paragraph ||
    (s.paragraph == t.paragraph && (s.question < t.question || (s.question == t.question && s.answer < t.answer)))
  }

  predicate InReadingOrder(at: seq<Spot>) {
    forall i, j :: 0 <= i < j < |at| ==> Precedes(at[i], at[j])
  }

  predicate StartsOf(digits: string, digest: string, n: nat) {
    |digits| == n && digits <= digest
  }

  /** The clause that the answer there stands for, under the contract's id. */
  predicate IsClauseAt(ops: TextOps, contractId: string, paragraphs: seq<Paragraph>, s: Spot, c: Clause) {
    && Annotates(ops, paragraphs, s)
    && c.text == TextAt(ops, paragraphs, s) && c.category == CategoryAt(ops, paragraphs, s)
    && contractId + "-" <= c.id
    && StartsOf(c.id[|contractId| + 1..], ops.sha1(contractId + "|" + c.category + "|" + c.text), 10)
  }

  /** One clause for each answer whose stripped text is not empty, in reading order. */
  ghost predicate ReadsOff(ops: TextOps, contractId: string, paragraphs: seq<Paragraph>, at: seq<Spot>,
                           clauses: seq<Clause>) {
    && |at| == |clauses| && InReadingOrder(at)
    && (forall s :: s in at <==> Annotates(ops, paragraphs, s))
    && (forall i :: 0 <= i < |at| ==> IsClauseAt(ops, contractId, paragraphs, at[i], clauses[i]))
  }

  // How the loops go through the positions.

  function ClauseFor(ops: TextOps, contractId: string, question: string, a: Answer): Clause
    requires HexDigests(ops.sha1)
  {
    var category, text := NormalizeCategory(ops, question), AnswerText(ops, a);
    Clause(ClauseId(ops, contractId, category, text), category, text)
  }

  function AnswerSpots(ops: TextOps, p: nat, q: nat, answers: seq<Answer>): seq<Spot> {
    if answers == [] then []
    else
      var n := |answers| - 1;
      AnswerSpots(ops, p, q, answers[..n]) + if AnswerText(ops, answers[n]) == [] then [] else [Spot(p, q, n)]
  }

  function QaSpots(ops: TextOps, p: nat, qas: seq<Qa>): seq<Spot> {
    if qas == [] then []
    else QaSpots(ops, p, qas[..|qas| - 1]) + AnswerSpots(ops, p, |qas| - 1, qas[|qas| - 1].answers)
  }

  function Spots(ops: TextOps, paragraphs: seq<Paragraph>): seq<Spot> {
    if paragraphs == [] then []
    else
      Spots(ops, paragraphs[..|paragraphs| - 1]) +
      QaSpots(ops, |paragraphs| - 1, paragraphs[|paragraphs| - 1].qas)
  }

  lemma OrderJoined(a: seq<Spot>, b: seq<Spot>)
    requires InReadingOrder(a) && InReadingOrder(b) && forall s, t :: s in a && t in b ==> Precedes(s, t)
    ensures InReadingOrder(a + b)
  {}

  lemma {:induction false} AnswerSpotsAre(ops: TextOps, p: nat, q: nat, answers: seq<Answer>)
    ensures InReadingOrder(AnswerSpots(ops, p, q, answers))
    ensures forall s :: s in AnswerSpots(ops, p, q, answers) <==>
              s.paragraph == p && s.question == q && s.answer < |answers| && AnswerText(ops, answers[s.answer]) != []
  {
    if answers != [] {
      var n := |answers| - 1;
      AnswerSpotsAre(ops, p, q, answers[..n]);
      assert forall k :: 0 <= k < n ==> answers[..n][k] == answers[k];
      OrderJoined(AnswerSpots(ops, p, q, answers[..n]),
                  if AnswerText(ops, answers[n]) == [] then [] else [Spot(p, q, n)]);
    }
  }

  lemma {:induction false} QaSpotsAre(ops: TextOps, p: nat, qas: seq<Qa>)
    ensures InReadingOrder(QaSpots(ops, p, qas))
    ensures forall s :: s in QaSpots(ops, p, qas) <==>
              s.paragraph == p && s.question < |qas| && s.answer < |qas[s.question].answers| &&
              AnswerText(ops, qas[s.question].answers[s.answer]) != []
  {
    if qas != [] {
      var n := |qas| - 1;
      QaSpotsAre(ops, p, qas[..n]);
      AnswerSpotsAre(ops, p, n, qas[n].answers);
      assert forall k :: 0 <= k < n ==> qas[..n][k] == qas[k];
      OrderJoined(QaSpots(ops, p, qas[..n]), AnswerSpots(ops, p, n, qas[n].answers));
    }
  }

  lemma {:induction false} SpotsAre(ops: TextOps, paragraphs: seq<Paragraph>)
    ensures InReadingOrder(Spots(ops, paragraphs))
    ensures forall s :: s in Spots(ops, paragraphs) <==> Annotates(ops, paragraphs, s)
  {
    if paragraphs != [] {
      var n := |paragraphs| - 1;
      SpotsAre(ops, paragraphs[..n]);
      QaSpotsAre(ops, n, paragraphs[n].qas);
      forall s ensures s in Spots(ops, paragraphs) <==> Annotates(ops, paragraphs, s) {
        if s.paragraph < n {
          assert paragraphs[..n][s.paragraph] == paragraphs[s.paragraph];
          assert Annotates(ops, paragraphs[..n], s) <==> Annotates(ops, paragraphs, s);
        }
      }
      OrderJoined(Spots(ops, paragraphs[..n]), QaSpots(ops, n, paragraphs[n].qas));
    }
  }

  lemma {:induction false} AnswersRead(ops: TextOps, contractId: string, question: string, p: nat, q: nat,
                                       answers: seq<Answer>)
    requires HexDigests(ops.sha1)
    ensures var at := AnswerSpots(ops, p, q, answers);
            var clauses := FromAnswers(ops, contractId, NormalizeCategory(ops, question), answers);
            && |clauses| == |at|
            && forall i :: 0 <= i < |at| ==>
                 at[i].answer < |answers| && clauses[i] == ClauseFor(ops, contractId, question, answers[at[i].answer])
  {
    if answers != [] {
      AnswersRead(ops, contractId, question, p, q, answers[..|answers| - 1]);
    }
  }

  lemma {:induction false} QasRead(ops: TextOps, contractId: string, p: nat, qas: seq<Qa>)
    requires HexDigests(ops.sha1)
    ensures var at, clauses := QaSpots(ops, p, qas), FromQas(ops, contractId, qas);
            && |clauses| == |at|
            && forall i :: 0 <= i < |at| ==>
                 && at[i].question < |qas| && at[i].answer < |qas[at[i].question].answers|
                 && clauses[i] == ClauseFor(ops, contractId, qas[at[i].question].question,
                                            qas[at[i].question].answers[at[i].answer])
  {
    if qas != [] {
      var n := |qas| - 1;
      QasRead(ops, contractId, p, qas[..n]);
      AnswersRead(ops, contractId, qas[n].question, p, n, qas[n].answers);
      AnswerSpotsAre(ops, p, n, qas[n].answers);
    }
  }

  lemma {:induction false} ParagraphsRead(ops: TextOps, contractId: string, paragraphs: seq<Paragraph>)
    requires HexDigests(ops.sha1)
    ensures var at, clauses := Spots(ops, paragraphs), Collected(ops, contractId, paragraphs);
            && |clauses| == |at|
            && forall i :: 0 <= i < |at| ==>
                 && IsSpot(paragraphs, at[i])
                 && var qa := paragraphs[at[i].paragraph].qas[at[i].question];
                    clauses[i] == ClauseFor(ops, contractId, qa.question, qa.answers[at[i].answer])
  {
    if paragraphs != [] {
      var n := |paragraphs| - 1;
      ParagraphsRead(ops, contractId, paragraphs[..n]);
      QasRead(ops, contractId, n, paragraphs[n].qas);
      QaSpotsAre(ops, n, paragraphs[n].qas);
    }
  }

  lemma ClauseForIs(ops: TextOps, contractId: string, paragraphs: seq<Paragraph>, s: Spot)
    requires HexDigests(ops.sha1) && Annotates(ops, paragraphs, s)
    ensures var qa := paragraphs[s.paragraph].qas[s.question];
            IsClauseAt(ops, contractId, paragraphs, s, ClauseFor(ops, contractId, qa.question, qa.answers[s.answer]))
  {
    var qa := paragraphs[s.paragraph].qas[s.question];
    var quoted := ops.quoted(qa.question);
    SlugKeepsWords(ops.lower, if quoted.Some? then quoted.value else FirstSixty(qa.question));
    var c := ClauseFor(ops, contractId, qa.question, qa.answers[s.answer]);
    var preimage := Preimage(contractId, c.category, c.text);
    assert preimage == contractId + "|" + c.category + "|" + c.text;
    assert IsHex(ops.sha1(preimage));
    assert c.id == contractId + "-" + ops.sha1(preimage)[..10];
    assert c.id[|contractId| + 1..] == ops.sha1(preimage)[..10];
  }

  /** What the collecting loops find is what a reader of the document would write down. */
  lemma CollectedReadsOff(ops: TextOps, contractId: string, paragraphs: seq<Paragraph>)
    requires HexDigests(ops.sha1)
    ensures ReadsOff(ops, contractId, paragraphs, Spots(ops, paragraphs), Collected(ops, contractId, paragraphs))
  {
    SpotsAre(ops, paragraphs);
    ParagraphsRead(ops, contractId, paragraphs);
    var at, clauses := Spots(ops, paragraphs), Collected(ops, contractId, paragraphs);
    forall i | 0 <= i < |at| ensures IsClauseAt(ops, contractId, paragraphs, at[i], clauses[i]) {
      assert at[i] in at;
      ClauseForIs(ops, contractId, paragraphs, at[i]);
    }
  }

  lemma OneClauseEach(ops: TextOps, contractId: string, paragraphs: seq<Paragraph>, s: Spot, c: Clause, d: Clause)
    requires IsClauseAt(ops, contractId, paragraphs, s, c) && IsClauseAt(ops, contractId, paragraphs, s, d)
    ensures c == d
  {
    assert c.id == contractId + "-" + c.id[|contractId| + 1..];
    assert d.id == contractId + "-" + d.id[|contractId| + 1..];
  }

  lemma CollectedFrom(ops: TextOps, contractId: string, paragraphs: seq<Paragraph>, at: seq<Spot>, clauses: seq<Clause>,
                      c: Clause)
    requires ReadsOff(ops, contractId, paragraphs, at, clauses) && c in clauses
    ensures exists s :: IsClauseAt(ops, contractId, paragraphs, s, c)
  {
    var i :| 0 <= i < |clauses| && clauses[i] == c;
    assert IsClauseAt(ops, contractId, paragraphs, at[i], c);
  }

  lemma EachIsCollected(ops: TextOps, contractId: string, paragraphs: seq<Paragraph>, at: seq<Spot>,
                        clauses: seq<Clause>, s: Spot, c: Clause)
    requires ReadsOff(ops, contractId, paragraphs, at, clauses) && IsClauseAt(ops, contractId, paragraphs, s, c)
    ensures c in clauses
  {
    assert s in at;
    var i :| 0 <= i < |at| && at[i] == s;
    OneClauseEach(ops, contractId, paragraphs, s, c, clauses[i]);
  }

  /** A clause is collected if and only if some answer of the document stands for it. */
  lemma CollectedExactly(ops: TextOps, contractId: string, paragraphs: seq<Paragraph>, c: Clause)
    requires HexDigests(ops.sha1)
    ensures c in Collected(ops, contractId, paragraphs) <==>
            exists s :: IsClauseAt(ops, contractId, paragraphs, s, c)
  {
    CollectedReadsOff(ops, contractId, paragraphs);
    var at, clauses := Spots(ops, paragraphs), Collected(ops, contractId, paragraphs);
    if c in clauses { CollectedFrom(ops, contractId, paragraphs, at, clauses, c); }
    if s :| IsClauseAt(ops, contractId, paragraphs, s, c) {
      EachIsCollected(ops, contractId, paragraphs, at, clauses, s, c);
    }
  }

  // ----- De-duplication -----

  function IdsOf(clauses: seq<Clause>): set<string> {
    set c | c in clauses :: c.id
  }

  /** Keeps the first clause of each id. */
  function Deduplicated(clauses: seq<Clause>): seq<Clause> {
    if clauses == [] then []
    else
      var before := Deduplicated(clauses[..|clauses| - 1]);
      var c := clauses[|clauses| - 1];
      if c.id in IdsOf(before) then before else before + [c]
  }

  predicate IdsIdentify(clauses: seq<Clause>) {
    forall c, d :: c in clauses && d in clauses && c.id == d.id ==> c == d
  }

  lemma {:induction false} DeduplicatedIds(clauses: seq<Clause>)
    ensures IdsOf(Deduplicated(clauses)) == IdsOf(clauses)
    ensures forall i, j :: 0 <= i < j < |Deduplicated(clauses)| ==>
              Deduplicated(clauses)[i].id != Deduplicated(clauses)[j].id
    ensures forall c :: c in Deduplicated(clauses) ==> c in clauses
  {
    if clauses != [] {
      var n := |clauses| - 1;
      DeduplicatedIds(clauses[..n]);
      assert clauses == clauses[..n] + [clauses[n]];
      assert IdsOf(clauses) == IdsOf(clauses[..n]) + {clauses[n].id};
      var before, after := Deduplicated(clauses[..n]), Deduplicated(clauses);
      forall i, j | 0 <= i < j < |after| ensures after[i].id != after[j].id {
        if j == |before| { assert before[i].id in IdsOf(before); }
      }
      assert IdsOf(after) == IdsOf(before) + {clauses[n].id};
    }
  }

  predicate NewIdAt(clauses: seq<Clause>, k: nat) {
    k < |clauses| && forall j :: 0 <= j < k ==> clauses[j].id != clauses[k].id
  }

  /** What is kept: each clause whose id did not occur before, in order. */
  ghost predicate KeepsFirst(clauses: seq<Clause>, kept: seq<Clause>) {
    Selects(kept, clauses, (k: nat) => NewIdAt(clauses, k))
  }

  lemma NewIdExactly(clauses: seq<Clause>)
    requires clauses != []
    ensures var n := |clauses| - 1;
            NewIdAt(clauses, n) <==> clauses[n].id !in IdsOf(Deduplicated(clauses[..n]))
  {
    DeduplicatedIds(clauses[..|clauses| - 1]);
    var before := clauses[..|clauses| - 1];
    assert forall j :: 0 <= j < |before| ==> before[j] == clauses[j] && before[j].id in IdsOf(before);
  }

  lemma {:induction false} DeduplicatedKeepsFirst(clauses: seq<Clause>)
    ensures KeepsFirst(clauses, Deduplicated(clauses))
  {
    if clauses == [] {
      SelectsNone<Clause>((k: nat) => NewIdAt(clauses, k));
    } else {
      var n := |clauses| - 1;
      DeduplicatedKeepsFirst(clauses[..n]);
      NewIdExactly(clauses);
      KeepsOneMore(clauses, Deduplicated(clauses[..n]));
    }
  }

  lemma KeepsOneMore(clauses: seq<Clause>, kept: seq<Clause>)
    requires clauses != [] && KeepsFirst(clauses[..|clauses| - 1], kept)
    ensures KeepsFirst(clauses, if NewIdAt(clauses, |clauses| - 1) then kept + [clauses[|clauses| - 1]] else kept)
  {
    var n := |clauses| - 1;
    forall k: nat | k < n ensures NewIdAt(clauses[..n], k) == NewIdAt(clauses, k) {}
    SelectsLast(kept, clauses, (k: nat) => NewIdAt(clauses[..n], k), (k: nat) => NewIdAt(clauses, k));
  }

  lemma {:induction false} DeduplicatedIsFirst(clauses: seq<Clause>)
    requires IdsIdentify(clauses)
    ensures Deduplicated(clauses) == FirstOccurrences(clauses)
  {
    if clauses != [] {
      var n := |clauses| - 1;
      DeduplicatedIsFirst(clauses[..n]);
      FirstOccurrencesKeep(clauses[..n]);
      var before := Deduplicated(clauses[..n]);
      if clauses[n].id in IdsOf(before) {
        var c :| c in before && c.id == clauses[n].id;
        assert c in clauses[..n] && c in clauses;
      }
    }
  }

  /** De-duplicating by id keeps the first occurrence of each clause, in order and losing none,
      exactly when ids tell the clauses apart. */
  lemma NothingLost(clauses: seq<Clause>)
    ensures (forall c :: c in clauses ==> c in Deduplicated(clauses)) <==> IdsIdentify(clauses)
    ensures IdsIdentify(clauses) ==> Deduplicated(clauses) == FirstOccurrences(clauses)
  {
    var kept := Deduplicated(clauses);
    DeduplicatedIds(clauses);
    if IdsIdentify(clauses) {
      DeduplicatedIsFirst(clauses);
      FirstOccurrencesKeep(clauses);
    }
    if forall c :: c in clauses ==> c in kept {
      forall c, d | c in clauses && d in clauses && c.id == d.id ensures c == d {
        assert c in kept && d in kept;
        var i :| 0 <= i < |kept| && kept[i] == c;
        var j :| 0 <= j < |kept| && kept[j] == d;
      }
    }
  }

  // ----- Digests that tell clauses apart -----

  predicate InjectiveOn(f: string -> string, s: set<string>) {
    forall x, y :: x in s && y in s && f(x) == f(y) ==> x == y
  }

  function Tagger(sha1: string -> string): string -> string {
    s => if IsHex(sha1(s)) then Tag(sha1, s) else ""
  }

  lemma IdParts(ops: TextOps, contractId: string, c: Clause)
    requires HexDigests(ops.sha1) && |contractId| == 16 && MadeFor(ops, contractId, c)
    ensures |c.id| == 27 && c.id[..16] == contractId
    ensures c.id[17..] == Tagger(ops.sha1)(Preimage(contractId, c.category, c.text))
  {
    assert IsHex(ops.sha1(Preimage(contractId, c.category, c.text)));
  }

  /** What the ids of a contract's clauses are digests of. */
  function PreimagesIn(contractId: string, clauses: seq<Clause>): set<string> {
    set c | c in clauses :: Preimage(contractId, c.category, c.text)
  }

  /** Two clauses of a contract have the same id exactly when their digests have the same first digits. */
  lemma SameIdSameTag(ops: TextOps, contractId: string, c: Clause, d: Clause)
    requires HexDigests(ops.sha1) && |contractId| == 16 && MadeFor(ops, contractId, c) && MadeFor(ops, contractId, d)
    ensures c.id == d.id <==> Tagger(ops.sha1)(Preimage(contractId, c.category, c.text)) ==
                              Tagger(ops.sha1)(Preimage(contractId, d.category, d.text))
  {
    var x, y := Preimage(contractId, c.category, c.text), Preimage(contractId, d.category, d.text);
    IdParts(ops, contractId, c);
    IdParts(ops, contractId, d);
    assert IsHex(ops.sha1(x)) && IsHex(ops.sha1(y));
    assert c.id == contractId + "-" + Tagger(ops.sha1)(x) && d.id == contractId + "-" + Tagger(ops.sha1)(y);
  }

  lemma SamePreimage(ops: TextOps, contractId: string, c: Clause, d: Clause)
    requires HexDigests(ops.sha1) && '|' !in contractId && MadeFor(ops, contractId, c) && MadeFor(ops, contractId, d)
    requires Preimage(contractId, c.category, c.text) == Preimage(contractId, d.category, d.text)
    ensures c == d
  {
    PreimageDecodes(contractId, c.category, c.text);
    PreimageDecodes(contractId, d.category, d.text);
  }

  /** Ids tell the clauses of a contract apart exactly when truncated digests do not collide on them. */
  lemma IdsIdentifyExactly(ops: TextOps, contractId: string, clauses: seq<Clause>)
    requires HexDigests(ops.sha1) && |contractId| == 16 && '|' !in contractId
    requires forall c :: c in clauses ==> MadeFor(ops, contractId, c)
    ensures IdsIdentify(clauses) <==> InjectiveOn(Tagger(ops.sha1), PreimagesIn(contractId, clauses))
  {
    var f, s := Tagger(ops.sha1), PreimagesIn(contractId, clauses);
    if InjectiveOn(f, s) {
      forall c, d | c in clauses && d in clauses && c.id == d.id ensures c == d {
        SameIdSameTag(ops, contractId, c, d);
        assert Preimage(contractId, c.category, c.text) in s && Preimage(contractId, d.category, d.text) in s;
        SamePreimage(ops, contractId, c, d);
      }
    }
    if IdsIdentify(clauses) {
      forall x, y | x in s && y in s && f(x) == f(y) ensures x == y {
        var c :| c in clauses && Preimage(contractId, c.category, c.text) == x;
        var d :| d in clauses && Preimage(contractId, d.category, d.text) == y;
        SameIdSameTag(ops, contractId, c, d);
      }
    }
  }

  // ----- The parser -----

  /** All clauses that a document annotates, repetitions included. */
  function CollectedOf(ops: TextOps, doc: Document): seq<Clause>
    requires HexDigests(ops.sha1)
  {
    assert IsHex(ops.sha1(doc.title));
    Collected(ops, ContractId(ops, doc.title), doc.paragraphs)
  }

  /** A document's contract has a bar-free id of 16 characters that its clauses were made for. */
  lemma CollectedOfMadeFor(ops: TextOps, doc: Document)
    requires HexDigests(ops.sha1)
    ensures var id := Parsed(ops, doc).contractId;
            && |id| == 16 && '|' !in id && (forall c :: c in CollectedOf(ops, doc) ==> MadeFor(ops, id, c))
            && (forall c :: c in Parsed(ops, doc).clauses ==> c in CollectedOf(ops, doc))
  {
    NoBars(ops, doc.title, "");
    CollectedMadeFor(ops, Parsed(ops, doc).contractId, doc.paragraphs);
    DeduplicatedIds(CollectedOf(ops, doc));
  }

  /** The clause of an answer somewhere in the document. */
  ghost predicate IsAnnotated(ops: TextOps, doc: Document, contractId: string, c: Clause) {
    exists s :: IsClauseAt(ops, contractId, doc.paragraphs, s, c)
  }

  /** Parsing loses no clause of the document's answers exactly when truncated digests do not collide on
      them, and then keeps exactly the first occurrence of each, in order. */
  lemma ParsingLosesNothing(ops: TextOps, doc: Document)
    requires HexDigests(ops.sha1)
    ensures var p, all := Parsed(ops, doc), CollectedOf(ops, doc);
            && (forall c :: c in all <==> IsAnnotated(ops, doc, p.contractId, c))
            && ((forall c :: IsAnnotated(ops, doc, p.contractId, c) ==> c in p.clauses) <==>
                InjectiveOn(Tagger(ops.sha1), PreimagesIn(p.contractId, all)))
            && (InjectiveOn(Tagger(ops.sha1), PreimagesIn(p.contractId, all)) ==> p.clauses == FirstOccurrences(all))
  {
    CollectedOfMadeFor(ops, doc);
    IdsIdentifyExactly(ops, Parsed(ops, doc).contractId, CollectedOf(ops, doc));
    NothingLost(CollectedOf(ops, doc));
    forall c ensures c in CollectedOf(ops, doc) <==> IsAnnotated(ops, doc, Parsed(ops, doc).contractId, c) {
      CollectedExactly(ops, Parsed(ops, doc).contractId, doc.paragraphs, c);
    }
  }

  function Parsed(ops: TextOps, doc: Document): ParsedContract
    requires HexDigests(ops.sha1)
  {
    assert IsHex(ops.sha1(doc.title));
    var contractId := ContractId(ops, doc.title);
    ParsedContract(contractId, doc.title, Deduplicated(CollectedOf(ops, doc)))
  }

  /** What parsing a document means: the contract of its title, with the clause of each answer that is not
      blank, in reading order, without those whose id occurred before. */
  ghost predicate IsParse(ops: TextOps, doc: Document, p: ParsedContract) {
    && StartsOf(p.contractId, ops.sha1(doc.title), 16) && p.filename == doc.title
    && exists at, clauses ::
         ReadsOff(ops, p.contractId, doc.paragraphs, at, clauses) && KeepsFirst(clauses, p.clauses)
  }

  lemma ParsedIsParse(ops: TextOps, doc: Document)
    requires HexDigests(ops.sha1)
    ensures IsParse(ops, doc, Parsed(ops, doc))
  {
    assert IsHex(ops.sha1(doc.title));
    CollectedReadsOff(ops, Parsed(ops, doc).contractId, doc.paragraphs);
    DeduplicatedKeepsFirst(CollectedOf(ops, doc));
    assert ReadsOff(ops, Parsed(ops, doc).contractId, doc.paragraphs, Spots(ops, doc.paragraphs),
                    CollectedOf(ops, doc));
  }

  /** The innermost loop: appends the clauses of one question's answers to those found so far. */
  method CollectAnswers(ops: TextOps, contractId: string, category: string, answers: seq<Answer>, found: seq<Clause>)
    returns (clauses: seq<Clause>)
    requires HexDigests(ops.sha1)
    ensures clauses == found + FromAnswers(ops, contractId, category, answers)
  {
    clauses := found;
    var j := 0;
    while j < |answers|
      invariant 0 <= j <= |answers|
      invariant clauses == found + FromAnswers(ops, contractId, category, answers[..j])
    {
      assert answers[..j + 1][..j] == answers[..j];
      var text := AnswerText(ops, answers[j]);
      if text != [] {
        assert IsHex(ops.sha1(Preimage(contractId, category, text)));
        clauses := clauses + [Clause(ClauseId(ops, contractId, category, text), category, text)];
      }
      j := j + 1;
    }
    assert answers[..j] == answers;
  }

  lemma OneMoreQa(ops: TextOps, contractId: string, qas: seq<Qa>, i: nat, found: seq<Clause>)
    requires HexDigests(ops.sha1) && i < |qas|
    ensures found + FromQas(ops, contractId, qas[..i + 1]) ==
            (found + FromQas(ops, contractId, qas[..i])) +
            FromAnswers(ops, contractId, NormalizeCategory(ops, qas[i].question), qas[i].answers)
  {
    assert qas[..i + 1][..i] == qas[..i];
    Regroup(found, FromQas(ops, contractId, qas[..i]),
            FromAnswers(ops, contractId, NormalizeCategory(ops, qas[i].question), qas[i].answers));
  }

  lemma Regroup<T>(a: seq<T>, b: seq<T>, c: seq<T>)
    ensures a + (b + c) == (a + b) + c
  {}

  method CollectQas(ops: TextOps, contractId: string, qas: seq<Qa>, found: seq<Clause>) returns (clauses: seq<Clause>)
    requires HexDigests(ops.sha1)
    ensures clauses == found + FromQas(ops, contractId, qas)
  {
    clauses := found;
    var i := 0;
    while i < |qas|
      invariant 0 <= i <= |qas|
      invariant clauses == found + FromQas(ops, contractId, qas[..i])
    {
      OneMoreQa(ops, contractId, qas, i, found);
      clauses := CollectAnswers(ops, contractId, NormalizeCategory(ops, qas[i].question), qas[i].answers, clauses);
      i := i + 1;
    }
    assert qas[..i] == qas;
  }

  method CollectParagraphs(ops: TextOps, contractId: string, paragraphs: seq<Paragraph>) returns (clauses: seq<Clause>)
    requires HexDigests(ops.sha1)
    ensures clauses == Collected(ops, contractId, paragraphs)
  {
    clauses := [];
    var j := 0;
    while j < |paragraphs|
      invariant 0 <= j <= |paragraphs|
      invariant clauses == Collected(ops, contractId, paragraphs[..j])
    {
      assert paragraphs[..j + 1][..j] == paragraphs[..j];
      clauses := CollectQas(ops, contractId, paragraphs[j].qas, clauses);
      j := j + 1;
    }
    assert paragraphs[..j] == paragraphs;
  }

  method Deduplicate(clauses: seq<Clause>) returns (unique: seq<Clause>)
    ensures unique == Deduplicated(clauses)
  {
    unique := [];
    var seen: set<string> := {};
    var i := 0;
    while i < |clauses|
      invariant 0 <= i <= |clauses|
      invariant unique == Deduplicated(clauses[..i]) && seen == IdsOf(unique)
    {
      assert clauses[..i + 1][..i] == clauses[..i];
      if clauses[i].id !in seen {
        assert IdsOf(unique + [clauses[i]]) == IdsOf(unique) + {clauses[i].id};
        seen := seen + {clauses[i].id};
        unique := unique + [clauses[i]];
      }
      i := i + 1;
    }
    assert clauses[..i] == clauses;
  }

  method ParseCuad(ops: TextOps, docs: seq<Document>) returns (contracts: seq<ParsedContract>)
    requires HexDigests(ops.sha1)
    ensures |contracts| == |docs|
    ensures forall i :: 0 <= i < |docs| ==> contracts[i] == Parsed(ops, docs[i]) && IsParse(ops, docs[i], contracts[i])
  {
    contracts := [];
    var i := 0;
    while i < |docs|
      invariant 0 <= i == |contracts| <= |docs|
      invariant forall k :: 0 <= k < i ==> contracts[k] == Parsed(ops, docs[k])
    {
      assert IsHex(ops.sha1(docs[i].title));
      var contractId := ContractId(ops, docs[i].title);
      var clauses := CollectParagraphs(ops, contractId, docs[i].paragraphs);
      var unique := Deduplicate(clauses);
      contracts := contracts + [ParsedContract(contractId, docs[i].title, unique)];
      i := i + 1;
    }
    forall i | 0 <= i < |docs| ensures IsParse(ops, docs[i], contracts[i]) {
      ParsedIsParse(ops, docs[i]);
    }
  }
}

/** The normal form of clause categories. */
module Slug {
  predicate SlugLetter(c: char) {
    'a' <= c <= 'z' || '0' <= c <= '9'
  }

  predicate NoDouble(s: string) {
    forall i :: 0 <= i < |s| - 1 ==> s[i] != '_' || s[i + 1] != '_'
  }

  predicate Alphabet(s: string) {
    forall i :: 0 <= i < |s| ==> SlugLetter(s[i]) || s[i] == '_'
  }

  /** Only `[a-z0-9_]`, and no leading, trailing or doubled underscore. */
  predicate IsSlug(s: string) {
    Alphabet(s) && NoDouble(s) && (s != [] ==> s[0] != '_' && s[|s| - 1] != '_')
  }

  /** Replaces each run of characters outside `[a-z0-9]` by one underscore; `inRun` says that such a
      run has already begun. */
  function Collapse(s: string, inRun: bool): string {
    if s == [] then []
    else if SlugLetter(s[0]) then [s[0]] + Collapse(s[1..], false)
    else (if inRun then [] else ['_']) + Collapse(s[1..], true)
  }

  function StripLeft(s: string): string {
    if s != [] && s[0] == '_' then StripLeft(s[1..]) else s
  }

  function StripRight(s: string): string {
    if s != [] && s[|s| - 1] == '_' then StripRight(s[..|s| - 1]) else s
  }

  /** `lower` is the case mapping of the host language. */
  function ToSlug(lower: string -> string, raw: string): string {
    StripRight(StripLeft(Collapse(lower(raw), false)))
  }

  lemma {:induction false} CollapseShape(s: string, inRun: bool)
    ensures Alphabet(Collapse(s, inRun)) && NoDouble(Collapse(s, inRun))
    ensures inRun && Collapse(s, inRun) != [] ==> Collapse(s, inRun)[0] != '_'
  {
    if s != [] {
      CollapseShape(s[1..], !SlugLetter(s[0]));
    }
  }

  lemma {:induction false} StripLeftShape(s: string)
    requires Alphabet(s) && NoDouble(s)
    ensures Alphabet(StripLeft(s)) && NoDouble(StripLeft(s))
    ensures StripLeft(s) != [] ==> StripLeft(s)[0] != '_'
  {
    if s != [] && s[0] == '_' { StripLeftShape(s[1..]); }
  }

  lemma {:induction false} StripRightShape(s: string)
    requires Alphabet(s) && NoDouble(s) && (s != [] ==> s[0] != '_')
    ensures IsSlug(StripRight(s))
  {
    if s != [] && s[|s| - 1] == '_' { StripRightShape(s[..|s| - 1]); }
  }

  /** Every category is a slug, whatever the case mapping does. */
  lemma SlugsAreSlugs(lower: string -> string, raw: string)
    ensures IsSlug(ToSlug(lower, raw))
  {
    CollapseShape(lower(raw), false);
    StripLeftShape(Collapse(lower(raw), false));
    StripRightShape(StripLeft(Collapse(lower(raw), false)));
  }

  lemma {:induction false} CollapseSlug(s: string, inRun: bool)
    requires Alphabet(s) && NoDouble(s) && (inRun && s != [] ==> s[0] != '_')
    ensures Collapse(s, inRun) == s
  {
    if s != [] {
      CollapseSlug(s[1..], s[0] == '_');
    }
  }

  /** A case mapping that leaves slugs alone, as lowercasing does. */
  ghost predicate KeepsSlugs(lower: string -> string) {
    forall s: string :: Alphabet(s) ==> lower(s) == s
  }

  /** The slugs are exactly the strings that normalising leaves unchanged. */
  lemma SlugsAreFixed(lower: string -> string, s: string)
    requires KeepsSlugs(lower)
    ensures IsSlug(s) <==> ToSlug(lower, s) == s
  {
    SlugsAreSlugs(lower, s);
    if IsSlug(s) { CollapseSlug(s, false); }
  }

  lemma SlugTwice(lower: string -> string, raw: string)
    requires KeepsSlugs(lower)
    ensures ToSlug(lower, ToSlug(lower, raw)) == ToSlug(lower, raw)
  {
    SlugsAreSlugs(lower, raw);
    SlugsAreFixed(lower, ToSlug(lower, raw));
  }

  // ----- Which characters survive -----

  /** The maximal runs of slug letters in a string, in order. */
  function Words(s: string): (words: seq<string>)
    ensures s != [] && SlugLetter(s[0]) ==> words != []
  {
    if s == [] then []
    else if !SlugLetter(s[0]) then Words(s[1..])
    else if |s| > 1 && SlugLetter(s[1]) then
      var rest := Words(s[1..]);
      [[s[0]] + rest[0]] + rest[1..]
    else [[s[0]]] + Words(s[1..])
  }

  function Joined(words: seq<string>): string {
    if words == [] then "" else if |words| == 1 then words[0] else words[0] + "_" + Joined(words[1..])
  }

  lemma {:induction false} CollapseWords(s: string, inRun: bool)
    ensures Words(Collapse(s, inRun)) == Words(s)
  {
    if s != [] {
      var rest := Collapse(s[1..], !SlugLetter(s[0]));
      CollapseWords(s[1..], !SlugLetter(s[0]));
      if SlugLetter(s[0]) {
        assert Collapse(s, inRun) == [s[0]] + rest;
        assert ([s[0]] + rest)[1..] == rest;
        if |s| > 1 && SlugLetter(s[1]) { assert rest[0] == s[1]; }
      } else {
        assert (['_'] + rest)[1..] == rest && [] + rest == rest;
        assert Words(['_'] + rest) == Words(rest);
      }
    }
  }

  lemma {:induction false} StripLeftWords(s: string)
    ensures Words(StripLeft(s)) == Words(s)
  {
    if s != [] && s[0] == '_' { StripLeftWords(s[1..]); }
  }

  lemma {:induction false} WordsSnoc(s: string, c: char)
    requires !SlugLetter(c)
    ensures Words(s + [c]) == Words(s)
  {
    if s == [] {
      assert (s + [c])[1..] == [];
    } else {
      assert (s + [c])[1..] == s[1..] + [c];
      WordsSnoc(s[1..], c);
    }
  }

  lemma {:induction false} StripRightWords(s: string)
    ensures Words(StripRight(s)) == Words(s)
  {
    if s != [] && s[|s| - 1] == '_' {
      WordsSnoc(s[..|s| - 1], '_');
      assert s == s[..|s| - 1] + ['_'];
      StripRightWords(s[..|s| - 1]);
    }
  }

  /** A slug is its words with an underscore between each two. */
  lemma {:induction false} SlugIsJoined(s: string)
    requires IsSlug(s)
    ensures Joined(Words(s)) == s
  {
    if |s| == 1 {
      assert s[1..] == [];
    } else if |s| > 1 && SlugLetter(s[1]) {
      SlugIsJoined(s[1..]);
      LetterBefore(s[0], Words(s[1..]));
      assert s == [s[0]] + s[1..];
    } else if |s| > 1 {
      assert s[1] == '_' && s[2] != '_';
      SlugIsJoined(s[2..]);
      assert s[1..][1..] == s[2..];
      assert Words(s) == [[s[0]]] + Words(s[2..]);
      assert s == [s[0]] + "_" + s[2..];
    }
  }

  lemma LetterBefore(c: char, words: seq<string>)
    requires words != []
    ensures Joined([[c] + words[0]] + words[1..]) == [c] + Joined(words)
  {
    if |words| > 1 {
      assert ([[c] + words[0]] + words[1..])[1..] == words[1..];
      assert ([c] + words[0]) + "_" + Joined(words[1..]) == [c] + (words[0] + "_" + Joined(words[1..]));
    }
  }

  /** Normalising keeps exactly the runs of letters and digits of the lowered text, in order, joined by
      single underscores. */
  lemma SlugKeepsWords(lower: string -> string, raw: string)
    ensures ToSlug(lower, raw) == Joined(Words(lower(raw)))
  {
    CollapseWords(lower(raw), false);
    StripLeftWords(Collapse(lower(raw), false));
    StripRightWords(StripLeft(Collapse(lower(raw), false)));
    SlugsAreSlugs(lower, raw);
    SlugIsJoined(ToSlug(lower, raw));
  }
}

/** The heading histogram: start tags bucketed by the first two characters of their name. */
module Headings {
  import opened Tokens
  import opened Tally

  /** The level `HeadingsCount.Add` bumps for a two-character prefix, or 0 when it bumps none. */
  function LevelOf(h: string): nat {
    if h == "h1" then 1
    else if h == "h2" then 2
    else if h == "h3" then 3
    else if h == "h4" then 4
    else if h == "h5" then 5
    else if h == "h6" then 6
    else 0
  }

  /** The level a token counts towards: only start tags whose name has at
      least two characters are looked at, by their first two. */
  function HeadingLevel(t: Token): nat {
    if t.StartTag? && |t.name| > 1 then LevelOf(t.name[..2]) else 0
  }

  /** Number of start tags counted at `level`. */
  function HeadingCount(s: seq<Token>, level: nat): nat {
    CountIf(s, t => HeadingLevel(t) == level)
  }

  /** A start tag whose name begins with 'h' followed by a digit 1 to 6. */
  predicate IsHeadingTag(t: Token) {
    t.StartTag? && |t.name| >= 2 && t.name[0] == 'h' && '1' <= t.name[1] <= '6'
  }

  /** Number of start tags whose name begins with h1 .. h6. */
  function HeadingTags(s: seq<Token>): nat {
    CountIf(s, IsHeadingTag)
  }

  /** A token counts exactly when it is such a start tag, and then at the
      level its second character spells. */
  lemma HeadingLevelIff(t: Token)
    ensures HeadingLevel(t) == if IsHeadingTag(t) then t.name[1] as int - '0' as int else 0
  {
    if t.StartTag? && |t.name| > 1 {
      var p := t.name[..2];
      assert p == [t.name[0], t.name[1]];
    }
  }

  /** End tags, `hr`, `header` and one-letter tags add nothing; a name is
      bucketed by its prefix, so `h2x` counts as a level-2 heading. */
  lemma HeadingLevelExamples()
    ensures HeadingLevel(EndTag("h1")) == 0
    ensures HeadingLevel(StartTag("hr", [])) == 0
    ensures HeadingLevel(StartTag("header", [])) == 0
    ensures HeadingLevel(StartTag("h", [])) == 0
    ensures HeadingLevel(SelfClosingTag("h3", [])) == 0
    ensures HeadingLevel(StartTag("h1", [])) == 1
    ensures HeadingLevel(StartTag("h2x", [])) == 2
  {
    HeadingLevelIff(StartTag("hr", []));
    HeadingLevelIff(StartTag("header", []));
    HeadingLevelIff(StartTag("h1", []));
    HeadingLevelIff(StartTag("h2x", []));
  }

  /** The six buckets together count every h1 .. h6 start tag once. */
  lemma {:induction false} HeadingSum(s: seq<Token>)
    ensures HeadingCount(s, 1) + HeadingCount(s, 2) + HeadingCount(s, 3)
          + HeadingCount(s, 4) + HeadingCount(s, 5) + HeadingCount(s, 6) == HeadingTags(s)
  {
    if s != [] {
      HeadingSum(s[..|s| - 1]);
      HeadingLevelIff(s[|s| - 1]);
    }
  }

  /** The histogram does not depend on the order of the tokens. */
  lemma HeadingsPermutation(a: seq<Token>, b: seq<Token>)
    requires multiset(a) == multiset(b)
    ensures forall level :: HeadingCount(a, level) == HeadingCount(b, level)
  {
    forall level ensures HeadingCount(a, level) == HeadingCount(b, level) {
      CountIfPermutation(a, b, t => HeadingLevel(t) == level);
    }
  }
}

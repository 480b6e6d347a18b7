/** `SimpleStemmer`: naive, first-match-wins suffix stripping. */
module Stemmer {
  import opened Text

  predicate EndsWith(w: string, suffix: string) {
    |suffix| <= |w| && w[|w| - |suffix|..] == suffix
  }

  /** The endings `Stem` can remove; "" means nothing was removed. */
  const Endings: set<string> := {"", "ing", "ed", "es", "s"}

  /**
   * The suffix rules on a lower-cased word: words of at most three
   * characters are kept; else strip "ing" (only when more than one character
   * would remain), else "ed", else "es", else a single "s".
   */
  function StripSuffix(w: string): (r: string)
    ensures |w| <= 3 ==> r == w
    ensures |r| <= |w|
    ensures w == r + w[|r|..]
    ensures w[|r|..] in Endings
    ensures |w| - 3 <= |r|
    ensures w != [] ==> r != []
  {
    if |w| <= 3 then w
    else if EndsWith(w, "ing") && |w| > 4 then w[..|w| - 3]
    else if EndsWith(w, "ed") && |w| > 3 then w[..|w| - 2]
    else if EndsWith(w, "es") && |w| > 3 then w[..|w| - 2]
    else if EndsWith(w, "s") && |w| > 3 then w[..|w| - 1]
    else w
  }

  /** The suffix rules in the order they are tried. */
  const SuffixRules: seq<string> := ["ing", "ed", "es", "s"]

  /**
   * Rule `e` applies to `w`: the word is longer than three characters and
   * ends with `e`, and "ing" further needs more than four characters.
   */
  predicate Applies(w: string, e: string) {
    |w| > 3 && EndsWith(w, e) && (e == "ing" ==> |w| > 4)
  }

  /**
   * First match wins: the removed ending is the first rule, in order, that
   * applies to the word, and nothing is removed when no rule applies.
   */
  lemma StripSuffixFirstRule(w: string)
    ensures var e := w[|StripSuffix(w)|..];
      && (e == "" <==> forall k :: 0 <= k < |SuffixRules| ==> !Applies(w, SuffixRules[k]))
      && (e != "" ==> exists k :: (0 <= k < |SuffixRules| && SuffixRules[k] == e && Applies(w, e)
            && forall j :: 0 <= j < k ==> !Applies(w, SuffixRules[j])))
  {
    var r := StripSuffix(w);
    var e := w[|r|..];
    assert SuffixRules[0] == "ing" && SuffixRules[1] == "ed" && SuffixRules[2] == "es" && SuffixRules[3] == "s";
    if Applies(w, "ing") {
      assert e == "ing";
    } else if Applies(w, "ed") {
      assert e == "ed";
    } else if Applies(w, "es") {
      assert e == "es";
    } else if Applies(w, "s") {
      assert e == "s";
    } else {
      assert r == w;
      assert e == "";
    }
  }

  /** `stem`: lower-case the word, then apply the suffix rules. */
  function Stem(word: string): (r: string)
    ensures |Lower(word)| <= 3 ==> r == Lower(word)
    ensures |r| <= |Lower(word)|
    ensures Lower(word) == r + Lower(word)[|r|..]
    ensures Lower(word)[|r|..] in Endings
    ensures |Lower(word)| - 3 <= |r|
    ensures word != [] ==> r != []
    ensures var w := Lower(word); var e := w[|r|..];
      && (e == "" <==> forall k :: 0 <= k < |SuffixRules| ==> !Applies(w, SuffixRules[k]))
      && (e != "" ==> exists k :: (0 <= k < |SuffixRules| && SuffixRules[k] == e && Applies(w, e)
            && forall j :: 0 <= j < k ==> !Applies(w, SuffixRules[j])))
  {
    StripSuffixFirstRule(Lower(word));
    StripSuffix(Lower(word))
  }

  /** Lower-casing first changes nothing: the stemmer folds case itself. */
  lemma StemIgnoresCase(word: string)
    ensures Stem(Lower(word)) == Stem(word)
  {
    assert Lower(Lower(word)) == Lower(word);
  }

  /** Without upper-case letters, the stem is the suffix rules applied to the word itself. */
  lemma StemOfLowerCase(word: string)
    requires forall i :: 0 <= i < |word| ==> !('A' <= word[i] <= 'Z')
    ensures Stem(word) == StripSuffix(word)
  {
    LowerOfLowerCase(word);
  }

  // The worked cases below evaluate each literal in a lemma of its own; in
  // one proof obligation with the contract of `Stem` they exceed the solver's
  // budget.

  /** Worked cases: one per rule, and the short-word pass-through. */
  lemma StemExamples()
    ensures Stem("running") == "runn"
    ensures Stem("jumped") == "jump"
    ensures Stem("boxes") == "box"
    ensures Stem("cats") == "cat"
    ensures Stem("cat") == "cat"
  {
    StemRunning();
    StemJumped();
    StemBoxes();
    StemCats();
    StemOfLowerCase("cat");
  }

  lemma StemRunning() ensures Stem("running") == "runn" {
    LowerRunning();
    StripRunning();
  }

  lemma LowerRunning() ensures Lower("running") == "running" { }

  lemma StripRunning() ensures StripSuffix("running") == "runn" { }

  lemma StemJumped() ensures Stem("jumped") == "jump" {
    LowerJumped();
    StripJumped();
  }

  lemma LowerJumped() ensures Lower("jumped") == "jumped" { }

  lemma StripJumped() ensures StripSuffix("jumped") == "jump" { }

  lemma StemBoxes() ensures Stem("boxes") == "box" {
    LowerBoxes();
    StripBoxes();
  }

  lemma LowerBoxes() ensures Lower("boxes") == "boxes" { }

  lemma StripBoxes() ensures StripSuffix("boxes") == "box" { }

  lemma StemCats() ensures Stem("cats") == "cat" {
    LowerCats();
    StripCats();
  }

  lemma LowerCats() ensures Lower("cats") == "cats" { }

  lemma StripCats() ensures StripSuffix("cats") == "cat" { }

  /**
   * "ring" keeps its "ing", because only "r" would remain, and no later
   * rule applies; upper case is folded first.
   */
  lemma StemRingUpper() ensures Stem("RING") == "ring" {
    assert Lower("RING") == "ring";
    assert StripSuffix("ring") == "ring";
  }
}

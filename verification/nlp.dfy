/** `NLP`: the normalizer that turns a text into a sequence of terms. */
module Nlp {
  import opened Wrappers
  import opened Text
  import opened Stemmer

  /**
   * Membership in the fixed stopword set; it is checked against words before
   * stemming.
   */
  predicate IsStopword(w: string) {
    match w
    case "a" | "an" | "the" | "is" | "are" | "am" | "was" | "were" | "be" | "been" | "being"
      | "to" | "of" | "in" | "for" | "on" | "and" | "or" | "not" | "with"
      | "this" | "that" | "these" | "those" | "it" | "its"
      | "i" | "you" | "he" | "she" | "we" | "they" | "me" | "my" | "your" | "our" | "their"
      | "can" | "could" | "should" | "would" | "will" | "shall" | "may" | "might" | "do" | "does" | "did"
      | "what" | "when" | "where" | "why" | "how" | "which" | "who" | "whom" | "as" | "at" | "by" | "from"
      | "have" | "has" | "had" | "if" | "else" | "then" | "than" | "so" | "such" | "also" | "about"
      => true
    case _ => false
  }

  /** The characters the pattern `[^a-z0-9 ]` leaves alone, space aside. */
  predicate IsTermChar(c: char) {
    'a' <= c <= 'z' || '0' <= c <= '9'
  }

  predicate AllTermChars(s: string) {
    forall i :: 0 <= i < |s| ==> IsTermChar(s[i])
  }

  /** What a token looks like: non-empty, only `[a-z0-9]`. */
  predicate IsTerm(s: string) {
    s != [] && AllTermChars(s)
  }

  /** Lower-case, then turn every character outside `[a-z0-9 ]` into a space. */
  function NormalizeChar(c: char): (r: char)
    ensures IsTermChar(r) || r == ' '
    ensures IsTermChar(LowerChar(c)) ==> r == LowerChar(c)
    ensures !IsTermChar(LowerChar(c)) ==> r == ' '
  {
    var l := LowerChar(c);
    if IsTermChar(l) || l == ' ' then l else ' '
  }

  function Normalize(s: string): (r: string)
    ensures |r| == |s|
    ensures forall i :: 0 <= i < |s| ==> r[i] == NormalizeChar(s[i])
  {
    seq(|s|, i requires 0 <= i < |s| => NormalizeChar(s[i]))
  }

  lemma LowerOfTermChars(s: string)
    requires AllTermChars(s)
    ensures Lower(s) == s
  {
  }

  /**
   * The body of the loop over the split parts: a blank part or a stopword
   * gives nothing, any other part its stem unless that is blank.
   */
  function TokenOf(p: string): (r: seq<string>)
    ensures |r| <= 1
    ensures AllTermChars(p) ==> forall k :: 0 <= k < |r| ==> IsTerm(r[k])
  {
    if IsBlank(p) || IsStopword(p) then []
    else
      var s := Stem(p);
      if IsBlank(s) then []
      else
        assert AllTermChars(p) ==> IsTerm(s) by {
          if AllTermChars(p) {
            LowerOfTermChars(p);
          }
        }
        [s]
  }

  /** The loop over the split parts, in order. */
  function TokenizeParts(parts: seq<string>): (r: seq<string>)
    ensures |r| <= |parts|
    ensures (forall k :: 0 <= k < |parts| ==> AllTermChars(parts[k])) ==>
              forall k :: 0 <= k < |r| ==> IsTerm(r[k])
  {
    if parts == [] then []
    else TokenOf(parts[0]) + TokenizeParts(parts[1..])
  }

  /**
   * `tokenize`: a null text has no tokens. Splitting the normalized text on
   * single spaces and skipping the empty parts gives the same parts as
   * `trim().split("\\s+")` followed by the blank-part skip, since only
   * spaces remain as whitespace after normalization.
   */
  function Tokenize(text: Option<string>): (r: seq<string>)
    ensures text.None? ==> r == []
    ensures forall k :: 0 <= k < |r| ==> IsTerm(r[k])
  {
    if text.None? then []
    else
      var n := Normalize(text.value);
      var parts := Fields(n);
      assert forall k :: 0 <= k < |parts| ==> AllTermChars(parts[k]) by {
        forall k, i | 0 <= k < |parts| && 0 <= i < |parts[k]|
          ensures IsTermChar(parts[k][i])
        {
          assert parts[k][i] in parts[k];
          assert parts[k][i] in n;
        }
      }
      TokenizeParts(parts)
  }

  lemma {:induction false} TokenizePartsAppend(p: seq<string>, q: seq<string>)
    ensures TokenizeParts(p + q) == TokenizeParts(p) + TokenizeParts(q)
    decreases |p|
  {
    if p == [] {
      assert p + q == q;
    } else {
      assert (p + q)[0] == p[0];
      assert (p + q)[1..] == p[1..] + q;
      TokenizePartsAppend(p[1..], q);
      assert TokenizeParts(p + q) == TokenOf(p[0]) + TokenizeParts(p[1..] + q);
    }
  }

  lemma {:induction false} TokenizePartsOfBlanks(p: seq<string>)
    requires forall k :: 0 <= k < |p| ==> p[k] == []
    ensures TokenizeParts(p) == []
    decreases |p|
  {
    if p != [] {
      TokenizePartsOfBlanks(p[1..]);
      assert IsBlank(p[0]);
    }
  }

  lemma {:induction false} FieldsOfSpaces(s: string)
    requires forall i :: 0 <= i < |s| ==> s[i] == ' '
    ensures forall k :: 0 <= k < |Fields(s)| ==> Fields(s)[k] == []
    decreases |s|
  {
    if s != [] {
      FieldsOfSpaces(s[1..]);
      assert Fields(s) == [[]] + Fields(s[1..]);
    }
  }

  /** A text with no ASCII letter or digit has no tokens. */
  lemma TokenizeWithoutTermChars(text: string)
    requires forall i :: 0 <= i < |text| ==> !IsTermChar(LowerChar(text[i]))
    ensures Tokenize(Some(text)) == []
  {
    var n := Normalize(text);
    var parts := Fields(n);
    FieldsOfSpaces(n);
    TokenizePartsOfBlanks(parts);
  }

  /**
   * Any character that is not an ASCII letter or digit separates words: the
   * tokens of `a + [c] + b` are the tokens of `a` followed by those of `b`.
   */
  lemma TokenizeSplits(a: string, c: char, b: string)
    requires !IsTermChar(LowerChar(c))
    ensures Tokenize(Some(a + [c] + b)) == Tokenize(Some(a)) + Tokenize(Some(b))
  {
    assert Normalize(a + [c] + b) == Normalize(a) + " " + Normalize(b);
    FieldsSplitAtSpace(Normalize(a), Normalize(b));
    TokenizePartsAppend(Fields(Normalize(a)), Fields(Normalize(b)));
  }

  /**
   * A single word yields no token when its lower-cased form is a stopword,
   * and exactly its stem otherwise.
   */
  lemma TokenizeWord(w: string)
    requires w != []
    requires forall i :: 0 <= i < |w| ==> IsTermChar(LowerChar(w[i]))
    ensures IsStopword(Lower(w)) ==> Tokenize(Some(w)) == []
    ensures !IsStopword(Lower(w)) ==> Tokenize(Some(w)) == [Stem(w)]
  {
    TokenizeSingleField(w);
    StemIgnoresCase(w);
    TokenOfTerm(Lower(w));
  }

  /**
   * A word without tokens (a stopword, by `TokenizeTerm`) between two
   * separators contributes nothing: the text is tokenized as if the word
   * were not there.
   */
  lemma SilentWordBetweenSeparators(a: string, c1: char, w: string, c2: char, b: string)
    requires !IsTermChar(LowerChar(c1)) && !IsTermChar(LowerChar(c2))
    requires Tokenize(Some(w)) == []
    ensures Tokenize(Some(a + [c1] + w + [c2] + b)) == Tokenize(Some(a)) + Tokenize(Some(b))
  {
    TokenizeAround(a, c1, w, c2, b);
    DropEmptyMiddle(Tokenize(Some(a)), Tokenize(Some(w)), Tokenize(Some(b)));
  }

  /**
   * Stopwords are dropped before stemming: a stopword between two
   * separators contributes no token.
   */
  lemma StopwordBetweenSeparators(a: string, c1: char, w: string, c2: char, b: string)
    requires !IsTermChar(LowerChar(c1)) && !IsTermChar(LowerChar(c2))
    requires IsTerm(w) && IsStopword(w)
    ensures Tokenize(Some(a + [c1] + w + [c2] + b)) == Tokenize(Some(a)) + Tokenize(Some(b))
  {
    TokenizeTerm(w);
    SilentWordBetweenSeparators(a, c1, w, c2, b);
  }

  /**
   * Dropping an empty middle piece, stated on bare sequences so that the
   * solver need not unfold the `Tokenize` terms it is applied to.
   */
  lemma DropEmptyMiddle(x: seq<string>, y: seq<string>, z: seq<string>)
    requires y == []
    ensures x + y + z == x + z
  {
  }

  /** Any other word between two separators contributes exactly its stem, in place. */
  lemma WordBetweenSeparators(a: string, c1: char, w: string, c2: char, b: string)
    requires !IsTermChar(LowerChar(c1)) && !IsTermChar(LowerChar(c2))
    requires w != []
    requires forall i :: 0 <= i < |w| ==> IsTermChar(LowerChar(w[i]))
    requires !IsStopword(Lower(w))
    ensures Tokenize(Some(a + [c1] + w + [c2] + b)) == Tokenize(Some(a)) + [Stem(w)] + Tokenize(Some(b))
  {
    TokenizeAround(a, c1, w, c2, b);
    TokenizeWord(w);
  }

  /** Separators on both sides cut the text into independently tokenized pieces. */
  lemma TokenizeAround(a: string, c1: char, m: string, c2: char, b: string)
    requires !IsTermChar(LowerChar(c1)) && !IsTermChar(LowerChar(c2))
    ensures Tokenize(Some(a + [c1] + m + [c2] + b))
         == Tokenize(Some(a)) + Tokenize(Some(m)) + Tokenize(Some(b))
  {
    var rest := m + [c2] + b;
    assert a + [c1] + m + [c2] + b == a + [c1] + rest;
    TokenizeSplits(a, c1, rest);
    TokenizeSplits(m, c2, b);
  }

  /** A word of letters and digits is one field of the normalized text. */
  lemma TokenizeSingleField(w: string)
    requires forall i :: 0 <= i < |w| ==> IsTermChar(LowerChar(w[i]))
    ensures AllTermChars(Lower(w))
    ensures Tokenize(Some(w)) == TokenOf(Lower(w))
  {
    var l := Lower(w);
    assert Normalize(w) == l;
    assert ' ' !in l;
    FieldsOfWord(l);
    assert [l][1..] == [];
    assert TokenizeParts([l]) == TokenOf(l) + TokenizeParts([]);
  }

  /** The loop body on a term: nothing for a stopword, else its stem. */
  lemma TokenOfTerm(l: string)
    requires IsTerm(l)
    ensures IsStopword(l) ==> TokenOf(l) == []
    ensures !IsStopword(l) ==> TokenOf(l) == [Stem(l)]
  {
    assert !IsJavaWhitespace(l[0]);
    LowerOfTermChars(l);
    assert Stem(l)[0] == l[0];
    assert !IsJavaWhitespace(Stem(l)[0]);
  }

  /**
   * A word already made of lower-case letters and digits: no token if it is
   * a stopword, else exactly the suffix rules applied to it.
   */
  lemma TokenizeTerm(w: string)
    requires IsTerm(w)
    ensures IsStopword(w) ==> Tokenize(Some(w)) == []
    ensures !IsStopword(w) ==> Tokenize(Some(w)) == [StripSuffix(w)]
  {
    TokenizeSingleField(w);
    LowerOfTermChars(w);
    TokenOfTerm(w);
  }

  /**
   * Stopwords are removed before stemming, so a stem can still be a
   * stopword: "abouts" yields the token "about".
   */
  lemma StopwordCheckPrecedesStemming()
    ensures IsStopword("about")
    ensures Tokenize(Some("abouts")) == ["about"]
  {
    AboutIsStopword();
    AboutsIsNotStopword();
    AboutsStem();
    TokenizeTerm("abouts");
  }

  // The facts about fixed words below (`AboutIsStopword`, `AboutsIsTerm`,
  // `TimeIsTerm`, ...) are separate lemmas on purpose: each evaluates one
  // string literal in a proof obligation of its own. Evaluated together, in
  // one obligation with the `Tokenize` terms, they exceed the solver's budget.

  lemma AboutIsStopword() ensures IsStopword("about") { }

  lemma AboutsIsNotStopword() ensures !IsStopword("abouts") { }

  lemma AboutsStem() ensures IsTerm("abouts") && StripSuffix("abouts") == "about" {
    AboutsIsTerm();
    AboutsStripped();
  }

  lemma AboutsIsTerm() ensures IsTerm("abouts") { }

  lemma AboutsStripped() ensures StripSuffix("abouts") == "about" { }

  /** Prepending a stopword and a space adds no token. */
  lemma StopwordAddsNothing(w: string, rest: string)
    requires IsTerm(w) && IsStopword(w)
    ensures Tokenize(Some(w + " " + rest)) == Tokenize(Some(rest))
  {
    assert w + " " + rest == w + [' '] + rest;
    StopwordThenSeparator(w, ' ', rest);
  }

  lemma StopwordThenSeparator(w: string, c: char, rest: string)
    requires !IsTermChar(LowerChar(c))
    requires IsTerm(w) && IsStopword(w)
    ensures Tokenize(Some(w + [c] + rest)) == Tokenize(Some(rest))
  {
    TokenizeSplits(w, c, rest);
    TokenizeTerm(w);
  }

  /** "what is the time" keeps only "time". */
  lemma TokenizeDropsStopwords()
    ensures Tokenize(Some("what is the time")) == ["time"]
  {
    var time := "time";
    var the := "the" + " " + time;
    var isThe := "is" + " " + the;
    assert "what is the time" == "what" + " " + isThe;
    StopwordAddsNothing("what", isThe);
    DropIs(the);
    DropThe(time);
    TimeIsItsOwnToken();
  }

  lemma DropIs(rest: string)
    ensures Tokenize(Some("is" + " " + rest)) == Tokenize(Some(rest))
  {
    StopwordAddsNothing("is", rest);
  }

  lemma DropThe(rest: string)
    ensures Tokenize(Some("the" + " " + rest)) == Tokenize(Some(rest))
  {
    StopwordAddsNothing("the", rest);
  }

  lemma TimeIsItsOwnToken()
    ensures Tokenize(Some("time")) == ["time"]
  {
    TimeIsNotStopword();
    TimeStem();
    TokenizeTerm("time");
  }

  lemma TimeIsNotStopword() ensures !IsStopword("time") { }

  lemma TimeStem() ensures IsTerm("time") && StripSuffix("time") == "time" {
    TimeIsTerm();
  }

  lemma TimeIsTerm() ensures IsTerm("time") { }
}

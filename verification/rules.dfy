/**
 * The rule-based quick replies of the chatbot: the clock and calendar
 * checks, then a fixed, ordered table of word-bounded regular expressions,
 * each with a canned response. Every rule pattern has the shape
 * `\b(alt1|alt2|...)\b`; it is modelled by its list of alternatives, and
 * `Matcher.find` by the existence of a position where one alternative
 * occurs with a word boundary on both sides.
 */
module Rules {
  import opened Wrappers
  import opened Text

  /** `\w`: letters, digits and the underscore. */
  predicate IsWordChar(c: char) {
    'a' <= c <= 'z' || 'A' <= c <= 'Z' || '0' <= c <= '9' || c == '_'
  }

  /**
   * `\b` at position `i`: exactly one of the characters on either side is a
   * word character; the outside of the string counts as a non-word character.
   */
  predicate Boundary(s: string, i: int)
    requires 0 <= i <= |s|
  {
    (i > 0 && IsWordChar(s[i - 1])) != (i < |s| && IsWordChar(s[i]))
  }

  /** `\b(p)\b` matches at position `i`. */
  predicate BoundedAt(s: string, p: string, i: int) {
    OccursAt(s, p, i) && Boundary(s, i) && Boundary(s, i + |p|)
  }

  /** `find()` of `\b(alt1|...|altn)\b` on `s`. */
  predicate FindsAny(s: string, alts: seq<string>) {
    exists k, i :: 0 <= k < |alts| && 0 <= i <= |s| && BoundedAt(s, alts[k], i)
  }

  /** A single word-bounded alternative that occurs makes the whole pattern match. */
  lemma FindsAt(s: string, alts: seq<string>, k: int, i: int)
    requires 0 <= k < |alts| && BoundedAt(s, alts[k], i)
    ensures FindsAny(s, alts)
  {
  }

  /** A rule: the alternatives of its pattern and its reply. */
  datatype Rule = Rule(alternatives: seq<string>, response: string)

  /** Whole words: non-empty, starting and ending with a word character. */
  predicate IsWholeWords(p: string) {
    p != [] && IsWordChar(p[0]) && IsWordChar(p[|p| - 1])
  }

  /** A rule with at least one alternative, each of whole words, and a reply. */
  predicate WellFormed(r: Rule) {
    && r.alternatives != []
    && r.response != []
    && forall j :: 0 <= j < |r.alternatives| ==> IsWholeWords(r.alternatives[j])
  }

  /** The canned replies of the rule table. */
  const GreetingText: string := "Hello! How can I help you today?"
  const ThanksText: string := "You're welcome!"
  const FarewellText: string := "Goodbye! Have a great day!"
  const IdentityText: string := "I am a Java-based AI chatbot using NLP + TF-IDF."
  const HelpText: string := "I can answer FAQs, handle small talk, and you can train me using the 'Train' button."

  function GreetingRule(): (r: Rule)
    ensures WellFormed(r)
  {
    Rule(["hi", "hello", "hey", "yo"], GreetingText)
  }

  /** `thank(s| you)?` has the three alternatives "thank", "thanks" and "thank you". */
  function ThanksRule(): (r: Rule)
    ensures WellFormed(r)
  {
    Rule(["thank", "thanks", "thank you"], ThanksText)
  }

  function FarewellRule(): (r: Rule)
    ensures WellFormed(r)
  {
    Rule(["bye", "goodbye", "see you", "ttyl"], FarewellText)
  }

  function IdentityRule(): (r: Rule)
    ensures WellFormed(r)
  {
    Rule(["who are you", "what are you"], IdentityText)
  }

  function HelpRule(): (r: Rule)
    ensures WellFormed(r)
  {
    Rule(["help", "what can you do"],
         HelpText)
  }

  /** `buildRules`, in insertion order. */
  function BuildRules(): (rules: seq<Rule>)
    ensures |rules| == 5
    ensures forall k :: 0 <= k < |rules| ==> WellFormed(rules[k])
  {
    [GreetingRule(), ThanksRule(), FarewellRule(), IdentityRule(), HelpRule()]
  }

  /** The scan over the rule table: the reply of the first rule whose pattern is found. */
  function FirstRule(rules: seq<Rule>, text: string): (r: Option<string>)
    ensures r.None? <==> forall k :: 0 <= k < |rules| ==> !FindsAny(text, rules[k].alternatives)
    ensures r.Some? ==> exists k :: (0 <= k < |rules| && FindsAny(text, rules[k].alternatives)
      && r.value == rules[k].response
      && forall j :: 0 <= j < k ==> !FindsAny(text, rules[j].alternatives))
  {
    if rules == [] then None
    else if FindsAny(text, rules[0].alternatives) then Some(rules[0].response)
    else
      var r := FirstRule(rules[1..], text);
      if r.Some? then
        var k :| 0 <= k < |rules[1..]| && FindsAny(text, rules[1..][k].alternatives)
          && r.value == rules[1..][k].response
          && forall j :: 0 <= j < k ==> !FindsAny(text, rules[1..][j].alternatives);
        assert FindsAny(text, rules[k + 1].alternatives) && r.value == rules[k + 1].response;
        r
      else
        r
  }

  /** The characters `.` does not match: the line terminators. */
  predicate IsLineTerminator(c: char) {
    c == '\n' || c == '\r' || c == '\U{85}' || c == '\U{2028}' || c == '\U{2029}'
  }

  /**
   * `text.matches(".\\bwhat('s| is) the NOUN\\b.")`: the whole text is one
   * character, "what's the NOUN" or "what is the NOUN", and one more
   * character, with word boundaries before "what" and after the noun.
   */
  predicate MatchesWhatIsThe(text: string, noun: string) {
    && |text| >= 2
    && !IsLineTerminator(text[0]) && !IsLineTerminator(text[|text| - 1])
    && (text[1..|text| - 1] == "what's the " + noun || text[1..|text| - 1] == "what is the " + noun)
    && Boundary(text, 1) && Boundary(text, |text| - 1)
  }

  /** The whole-text question form never matches unless the noun already occurs. */
  lemma WhatIsTheContainsNoun(text: string, noun: string)
    requires MatchesWhatIsThe(text, noun)
    ensures Contains(text, noun)
  {
    var mid := text[1..|text| - 1];
    var i := |mid| - |noun|;
    assert mid[i..] == noun;
    assert text[i + 1..i + 1 + |noun|] == mid[i..];
    assert OccursAt(text, noun, i + 1);
  }

  function TimeReply(now: string): string {
    "It's " + now + " (system time)."
  }

  function DateReply(today: string): string {
    "Today's date is " + today + "."
  }

  /**
   * `tryRuleBased`: lower-case and trim the input; a text containing "time"
   * gets the clock reply, else one containing "date" the calendar reply,
   * else the first rule whose pattern is found, else nothing. The formatted
   * clock readings are parameters.
   */
  function TryRules(input: string, now: string, today: string): Option<string> {
    var text := Trim(Lower(input));
    if Contains(text, "time") || MatchesWhatIsThe(text, "time") then Some(TimeReply(now))
    else if Contains(text, "date") || MatchesWhatIsThe(text, "date") then Some(DateReply(today))
    else FirstRule(BuildRules(), text)
  }

  /**
   * The regular-expression half of each clock and calendar test adds
   * nothing: the rules fire exactly on a contained "time", then "date".
   */
  lemma TryRulesByContainment(input: string, now: string, today: string)
    ensures var text := Trim(Lower(input));
      && (Contains(text, "time") ==> TryRules(input, now, today) == Some(TimeReply(now)))
      && (!Contains(text, "time") && Contains(text, "date") ==> TryRules(input, now, today) == Some(DateReply(today)))
      && (!Contains(text, "time") && !Contains(text, "date") ==> TryRules(input, now, today) == FirstRule(BuildRules(), text))
  {
    var text := Trim(Lower(input));
    if MatchesWhatIsThe(text, "time") {
      WhatIsTheContainsNoun(text, "time");
    }
    if MatchesWhatIsThe(text, "date") {
      WhatIsTheContainsNoun(text, "date");
    }
  }

  /**
   * Any input that contains "time" in any letter case gets the clock reply,
   * ahead of the date check and the rule table: trimming cannot cut into it.
   */
  lemma TimeCheckedFirst(input: string, now: string, today: string)
    requires Contains(Lower(input), "time")
    ensures TryRules(input, now, today) == Some(TimeReply(now))
  {
    TrimKeepsOccurrence(Lower(input), "time");
  }

  /** The same for "date", when "time" does not occur. */
  lemma DateCheckedSecond(input: string, now: string, today: string)
    requires Contains(Lower(input), "date")
    requires !Contains(Lower(input), "time")
    ensures TryRules(input, now, today) == Some(DateReply(today))
  {
    if Contains(Trim(Lower(input)), "time") {
      ContainsInTrim(Lower(input), "time");
    }
    TrimKeepsOccurrence(Lower(input), "date");
    TryRulesByContainment(input, now, today);
  }

  /** A greeting, as a whole word, is answered by the first rule. */
  lemma GreetingAnswered(now: string, today: string)
    ensures TryRules("Hi!", now, today) == Some(GreetingText)
  {
    HiTrimmed();
    HiBounded();
    FindsAt("hi!", GreetingRule().alternatives, 0, 0);
    TryRulesByContainment("Hi!", now, today);
  }

  /** "hello" on its own is answered by the greeting rule. */
  lemma HelloAnswered(now: string, today: string)
    ensures TryRules("hello", now, today) == Some(GreetingText)
  {
    HelloTrimmed();
    HelloBounded();
    FindsAt("hello", GreetingRule().alternatives, 1, 0);
    TryRulesByContainment("hello", now, today);
  }

  // The facts about the fixed inputs "hello", "Hi!" and "this" are separate
  // lemmas on purpose: each evaluates a string literal in a proof obligation
  // of its own, away from `BuildRules` and `TryRules`, whose unfolding makes a
  // combined proof exceed the solver's budget.

  lemma HelloBounded()
    ensures BoundedAt("hello", "hello", 0)
  {
    assert "hello"[0..5] == "hello";
  }

  lemma HelloTrimmed()
    ensures Trim(Lower("hello")) == "hello"
    ensures !Contains("hello", "time") && !Contains("hello", "date")
  {
    assert Lower("hello") == "hello";
    forall i | 0 <= i <= 1
      ensures !OccursAt("hello", "time", i) && !OccursAt("hello", "date", i)
    {
      assert "hello"[i..i + 4][0] == "hello"[i];
      assert "hello"[i] == 'h' || "hello"[i] == 'e';
    }
  }

  lemma HiBounded()
    ensures BoundedAt("hi!", "hi", 0)
  {
    assert "hi!"[0..2] == "hi";
    assert IsWordChar('i') && !IsWordChar('!');
  }

  lemma HiTrimmed()
    ensures Trim(Lower("Hi!")) == "hi!"
    ensures !Contains("hi!", "time") && !Contains("hi!", "date")
  {
    assert Lower("Hi!") == "hi!";
  }

  /**
   * In a text made only of word characters the sole boundaries are its two
   * ends, so a pattern is found there only when the text is one of its
   * alternatives.
   */
  lemma {:induction false} SingleWordMatchesWhole(text: string, alts: seq<string>)
    requires forall j :: 0 <= j < |text| ==> IsWordChar(text[j])
    requires forall p :: p in alts ==> p != []
    ensures FindsAny(text, alts) <==> text in alts
  {
    if FindsAny(text, alts) {
      var k, i :| 0 <= k < |alts| && 0 <= i <= |text| && BoundedAt(text, alts[k], i);
      var p := alts[k];
      assert p in alts;
      forall j | 0 < j < |text|
        ensures !Boundary(text, j)
      {
        assert IsWordChar(text[j - 1]) && IsWordChar(text[j]);
      }
      assert p == text[0..|text|];
    }
    if text in alts {
      var k :| 0 <= k < |alts| && alts[k] == text;
      assert text[0..|text|] == text;
      FindsAt(text, alts, k, 0);
    }
  }

  /** "hi" inside "this" is not a whole word, so no rule fires. */
  lemma EmbeddedGreetingIgnored(now: string, today: string)
    ensures TryRules("this", now, today) == None
  {
    var text := "this";
    ThisIsPlain();
    NoRuleForThis();
    TryRulesByContainment(text, now, today);
  }

  lemma ThisIsPlain()
    ensures Trim(Lower("this")) == "this"
    ensures !Contains("this", "time") && !Contains("this", "date")
  {
    assert Lower("this") == "this";
  }

  lemma NoRuleForThis()
    ensures FirstRule(BuildRules(), "this") == None
  {
    var rules := BuildRules();
    forall k | 0 <= k < |rules|
      ensures !FindsAny("this", rules[k].alternatives)
    {
      NotAnAlternative(k);
      ThisIsOneWord();
      SingleWordMatchesWhole("this", rules[k].alternatives);
    }
  }

  lemma ThisIsOneWord()
    ensures forall j :: 0 <= j < |"this"| ==> IsWordChar("this"[j])
  {
  }

  lemma NotAnAlternative(k: int)
    requires 0 <= k < 5
    ensures "this" !in BuildRules()[k].alternatives
    ensures forall p :: p in BuildRules()[k].alternatives ==> p != []
  {
    var r := BuildRules()[k];
    assert forall j :: 0 <= j < |r.alternatives| ==> IsWholeWords(r.alternatives[j]);
    if k == 0 {
      assert r == GreetingRule();
    } else if k == 1 {
      assert r == ThanksRule();
    } else if k == 2 {
      assert r == FarewellRule();
    } else if k == 3 {
      assert r == IdentityRule();
    } else {
      assert r == HelpRule();
    }
  }
}

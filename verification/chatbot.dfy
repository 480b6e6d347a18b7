/**
 * `Chatbot`: the knowledge base of question/answer pairs, its cached TF-IDF
 * fit, and the reply pipeline: blank check, rules, best FAQ match above a
 * similarity threshold, fallback.
 */
module ChatbotLogic {
  import opened Wrappers
  import opened Text
  import opened Nlp
  import opened Numerics
  import opened Similarity
  import opened Tfidf
  import opened Rules

  /** `FAQ`: one trained question and its answer. */
  datatype Faq = Faq(question: string, answer: string)

  /**
   * The chatbot's state: the knowledge base in insertion order, the question
   * list handed to the vectorizer, the vectorizer, and one cached vector per
   * knowledge-base entry.
   */
  datatype Chatbot = Chatbot(
    knowledgeBase: seq<Faq>,
    faqQuestions: seq<string>,
    tfidf: Vectorizer,
    faqVectors: seq<seq<real>>)

  /**
   * What the reply depends on besides the state: the clock formatted as
   * `yyyy-MM-dd HH:mm` and as `yyyy-MM-dd`, and the two-decimal score format.
   */
  datatype Env = Env(now: string, today: string, format: real -> string)

  /** The state a new chatbot starts from, before seeding. */
  const Fresh: Chatbot := Chatbot([], [], Unfitted, [])

  /** The least similarity an FAQ match needs. */
  const Threshold: real := 0.22

  const EmptyPrompt: string := "Please type something."

  const Fallback: string :=
    "I am not sure about that yet. Could you rephrase?\n"
    + "Tip: You can also click \"Train\" to teach me the right answer!"

  function Questions(kb: seq<Faq>): (qs: seq<string>)
    ensures |qs| == |kb|
    ensures forall i :: 0 <= i < |kb| ==> qs[i] == kb[i].question
  {
    seq(|kb|, i requires 0 <= i < |kb| => kb[i].question)
  }

  /**
   * The cache invariant: the question list follows the knowledge base, the
   * vectorizer is fitted to those questions, and vector `i` is the TF-IDF
   * vector of question `i` under that fit.
   */
  ghost predicate Valid(bot: Chatbot, log: real -> real) {
    var docs := Docs(bot.faqQuestions);
    && bot.faqQuestions == Questions(bot.knowledgeBase)
    && FittedTo(bot.tfidf, docs, log)
    && |bot.faqVectors| == |bot.knowledgeBase|
    && forall i :: 0 <= i < |bot.faqVectors| ==>
      bot.faqVectors[i] == TfidfRef(docs[i], bot.tfidf.vocab, bot.tfidf.idf)
  }

  /**
   * `rebuildVectors`: refill the question list from the knowledge base and
   * refit the vectorizer on it, caching the new vectors.
   */
  method Rebuild(bot: Chatbot, log: real -> real) returns (bot': Chatbot)
    ensures bot'.knowledgeBase == bot.knowledgeBase
    ensures Valid(bot', log)
  {
    var questions := Questions(bot.knowledgeBase);
    var v, vectors := FitTransform(Some(questions), log);
    bot' := Chatbot(bot.knowledgeBase, questions, v, vectors);
  }

  /**
   * `addFaq`: append the pair to the knowledge base and its question to the
   * question list, then rebuild.
   */
  method AddFaq(bot: Chatbot, question: string, answer: string, log: real -> real) returns (bot': Chatbot)
    ensures bot'.knowledgeBase == bot.knowledgeBase + [Faq(question, answer)]
    ensures Valid(bot', log)
  {
    var appended := Chatbot(
      bot.knowledgeBase + [Faq(question, answer)],
      bot.faqQuestions + [question],
      bot.tfidf,
      bot.faqVectors);
    bot' := Rebuild(appended, log);
  }

  /** The starter knowledge base of `seedFAQs`, in order. */
  const SeedFaqs: seq<Faq> := [
    Faq("What is Artificial Intelligence?",
        "Artificial Intelligence (AI) is the simulation of human intelligence in machines that are programmed to think and learn."),
    Faq("What is Machine Learning?",
        "Machine Learning (ML) is a subset of AI that enables systems to learn patterns from data and improve over time without being explicitly programmed."),
    Faq("What is NLP?",
        "Natural Language Processing (NLP) helps computers understand, interpret, and generate human language."),
    Faq("How do I train this chatbot?",
        "Click the 'Train' button, then add a sample question and the answer I should give."),
    Faq("What technologies does this chatbot use?",
        "It's built in Java with Swing for the GUI, NLP preprocessing, and TF-IDF similarity to retrieve FAQ answers."),
    Faq("Can I integrate this with a web app?",
        "Yes. Expose the Chatbot.respond() method via a REST controller (for example, Spring Boot) or WebSocket."),
    Faq("How can I reset or clear training?",
        "Restart the app to restore the default seeded FAQs. For persistence, save and load FAQs to a file (can be added easily).")
  ]

  /**
   * `seedFAQs`: add the starter pairs one by one, each followed by a rebuild.
   * The first `Rebuild` is not in `seedFAQs`; it only establishes `Valid` on
   * an arbitrary starting state, for the loop invariant. It keeps the
   * knowledge base, and the later rebuilds overwrite every cache it sets.
   */
  method SeedFaqsInto(bot: Chatbot, log: real -> real) returns (bot': Chatbot)
    ensures bot'.knowledgeBase == bot.knowledgeBase + SeedFaqs
    ensures Valid(bot', log)
  {
    bot' := Rebuild(bot, log);
    var k := 0;
    while k < |SeedFaqs|
      invariant 0 <= k <= |SeedFaqs|
      invariant bot'.knowledgeBase == bot.knowledgeBase + SeedFaqs[..k]
      invariant Valid(bot', log)
    {
      bot' := AddFaq(bot', SeedFaqs[k].question, SeedFaqs[k].answer, log);
      assert SeedFaqs[..k + 1] == SeedFaqs[..k] + [SeedFaqs[k]];
      k := k + 1;
    }
    assert SeedFaqs[..k] == SeedFaqs;
  }

  /** The constructor: seed the starter pairs, then rebuild once more. */
  method Create(log: real -> real) returns (bot: Chatbot)
    ensures bot.knowledgeBase == SeedFaqs
    ensures Valid(bot, log)
  {
    bot := SeedFaqsInto(Fresh, log);
    bot := Rebuild(bot, log);
  }

  /** The note appended to an FAQ answer: the score with two decimals. */
  function Annotation(format: real -> string, score: real): string {
    "\n\n(Found via FAQ match \U{2022} similarity=" + format(score) + ")"
  }

  /** The query vector of a (possibly null) input under the bot's current fit. */
  function QueryVector(bot: Chatbot, input: Option<string>): (q: seq<real>)
    requires |bot.tfidf.idf| == |bot.tfidf.vocab|
    ensures |q| == |bot.tfidf.vocab|
  {
    TfidfRef(Tokenize(input), bot.tfidf.vocab, bot.tfidf.idf)
  }

  /**
   * The FAQ reply: nothing for an empty knowledge base; otherwise take the
   * earliest entry of greatest cosine similarity to the query, and answer
   * with it, annotated, when that similarity reaches the threshold.
   */
  ghost function FaqReply(bot: Chatbot, input: Option<string>, m: MathLib, format: real -> string): Option<string>
    requires Valid(bot, m.log) && SqrtLaw(m.sqrt)
  {
    if bot.knowledgeBase == [] then None
    else
      var sims := Similarities(QueryVector(bot, input), bot.faqVectors, m.sqrt);
      var i := FirstMax(sims);
      if sims[i] >= Threshold then Some(bot.knowledgeBase[i].answer + Annotation(format, sims[i]))
      else None
  }

  /**
   * `bestFAQAnswer`: vectorize the input, scan the cached vectors for the
   * first best similarity from a start of index -1 and score -1, and answer
   * when an index was found and its score reaches the threshold.
   */
  method BestFaqAnswer(bot: Chatbot, input: Option<string>, m: MathLib, format: real -> string)
    returns (r: Option<string>)
    requires Valid(bot, m.log) && SqrtLaw(m.sqrt)
    ensures r == FaqReply(bot, input, m, format)
  {
    if bot.knowledgeBase == [] {
      return None;
    }
    var q := TransformOne(bot.tfidf, input);
    var sims := Similarities(q, bot.faqVectors, m.sqrt);
    var bestIdx, bestSim := BestIndex(sims);
    ghost var i := FirstMax(sims);
    if bestIdx >= 0 {
      FirstMaxUnique(sims, bestIdx, i);
    } else {
      assert sims[i] <= -1.0;
    }
    if bestIdx >= 0 && bestSim >= Threshold {
      r := Some(bot.knowledgeBase[bestIdx].answer + Annotation(format, bestSim));
    } else {
      r := None;
    }
  }

  /** The whole reply pipeline, in order of precedence. */
  ghost function Reply(bot: Chatbot, input: Option<string>, m: MathLib, env: Env): string
    requires Valid(bot, m.log) && SqrtLaw(m.sqrt)
  {
    if input.None? || IsBlank(input.value) then EmptyPrompt
    else
      match TryRules(input.value, env.now, env.today)
      case Some(hit) => hit
      case None =>
        match FaqReply(bot, input, m, env.format)
        case Some(best) => best
        case None => Fallback
  }

  /**
   * `respond`: a null or blank input is prompted for; then the rules; then
   * the best FAQ answer; then the fallback.
   */
  method Respond(bot: Chatbot, input: Option<string>, m: MathLib, env: Env) returns (r: string)
    requires Valid(bot, m.log) && SqrtLaw(m.sqrt)
    ensures r == Reply(bot, input, m, env)
  {
    if input.None? || IsBlank(input.value) {
      return EmptyPrompt;
    }
    var ruleHit := TryRules(input.value, env.now, env.today);
    if ruleHit.Some? {
      return ruleHit.value;
    }
    var best := BestFaqAnswer(bot, input, m, env.format);
    if best.Some? {
      return best.value;
    }
    return Fallback;
  }

  /** A text that contains "time" in any letter case is not blank. */
  lemma ContainsTimeNotBlank(input: string)
    requires Contains(Lower(input), "time")
    ensures !IsBlank(input)
  {
    var i :| 0 <= i <= |input| - 4 && OccursAt(Lower(input), "time", i);
    assert Lower(input)[i] == 't';
    assert !IsJavaWhitespace(input[i]);
  }

  /**
   * The clock rule wins over the knowledge base: whatever has been trained,
   * an input mentioning "time" gets the time of day.
   */
  lemma TimeQuestionsIgnoreKnowledge(bot: Chatbot, input: string, m: MathLib, env: Env)
    requires Valid(bot, m.log) && SqrtLaw(m.sqrt)
    requires Contains(Lower(input), "time")
    ensures Reply(bot, Some(input), m, env) == TimeReply(env.now)
  {
    ContainsTimeNotBlank(input);
    TimeCheckedFirst(input, env.now, env.today);
  }

  /** A blank input is prompted for, before anything else is consulted. */
  lemma BlankPrompted(bot: Chatbot, input: string, m: MathLib, env: Env)
    requires Valid(bot, m.log) && SqrtLaw(m.sqrt)
    requires IsBlank(input)
    ensures Reply(bot, Some(input), m, env) == EmptyPrompt
  {
  }

  /** "hello" gets the greeting whatever the knowledge base holds. */
  lemma HelloGreeted(bot: Chatbot, m: MathLib, env: Env)
    requires Valid(bot, m.log) && SqrtLaw(m.sqrt)
    ensures Reply(bot, Some("hello"), m, env) == GreetingText
  {
    HelloAnswered(env.now, env.today);
    assert !IsJavaWhitespace("hello"[0]);
  }

  /** A query with no vocabulary term has the zero vector. */
  lemma QueryWithoutVocabularyIsZero(bot: Chatbot, input: Option<string>)
    requires |bot.tfidf.idf| == |bot.tfidf.vocab|
    requires forall t :: t in Tokenize(input) ==> t !in bot.tfidf.vocab
    ensures forall j :: 0 <= j < |bot.tfidf.vocab| ==> QueryVector(bot, input)[j] == 0.0
  {
    forall j | 0 <= j < |bot.tfidf.vocab|
      ensures QueryVector(bot, input)[j] == 0.0
    {
      assert bot.tfidf.vocab[j] in bot.tfidf.vocab;
      TfidfZeroUnlessPresent(Tokenize(input), bot.tfidf.vocab, bot.tfidf.idf, j);
    }
  }

  /**
   * An input none of whose tokens was ever trained matches no FAQ: every
   * similarity is 0, below the threshold.
   */
  lemma UnknownWordsMatchNothing(bot: Chatbot, input: Option<string>, m: MathLib, format: real -> string)
    requires Valid(bot, m.log) && SqrtLaw(m.sqrt)
    requires forall t :: t in Tokenize(input) ==> t !in bot.tfidf.vocab
    ensures FaqReply(bot, input, m, format) == None
  {
    if bot.knowledgeBase != [] {
      var q := QueryVector(bot, input);
      QueryWithoutVocabularyIsZero(bot, input);
      var sims := Similarities(q, bot.faqVectors, m.sqrt);
      var i := FirstMax(sims);
      CosineWithZeroVector(q, bot.faqVectors[i], m.sqrt);
      assert sims[i] == 0.0;
    }
  }

  /**
   * An input that no rule answers and whose tokens were never trained gets
   * the fallback, whatever the knowledge base holds.
   */
  lemma UnknownWordsFallBack(bot: Chatbot, input: string, m: MathLib, env: Env)
    requires Valid(bot, m.log) && SqrtLaw(m.sqrt)
    requires !IsBlank(input)
    requires TryRules(input, env.now, env.today) == None
    requires forall t :: t in Tokenize(Some(input)) ==> t !in bot.tfidf.vocab
    ensures Reply(bot, Some(input), m, env) == Fallback
  {
    UnknownWordsMatchNothing(bot, Some(input), m, env.format);
  }

  /** A question whose tokens are all stopwords or punctuation never finds an FAQ. */
  lemma EmptyQueryMatchesNothing(bot: Chatbot, input: Option<string>, m: MathLib, format: real -> string)
    requires Valid(bot, m.log) && SqrtLaw(m.sqrt)
    requires Tokenize(input) == []
    ensures FaqReply(bot, input, m, format) == None
  {
    UnknownWordsMatchNothing(bot, input, m, format);
  }

  /** The cached vector of an entry with at least one token is non-zero. */
  lemma TrainedVectorNonZero(bot: Chatbot, i: int, log: real -> real)
    requires Valid(bot, log) && LogLaw(log)
    requires 0 <= i < |bot.knowledgeBase|
    requires Tokenize(Some(bot.knowledgeBase[i].question)) != []
    ensures exists j :: 0 <= j < |bot.faqVectors[i]| && bot.faqVectors[i][j] != 0.0
  {
    var docs := Docs(bot.faqQuestions);
    var tokens := docs[i];
    var t := tokens[0];
    assert InSomeDoc(docs, t);
    var v := bot.tfidf;
    assert t in v.vocab;
    var j := v.vocabIndex[t];
    IdfAtLeastOne(v, docs, log);
    TfidfPositiveWhenPresent(tokens, v.vocab, v.idf, j);
  }

  /** When score 1 is the most any entry has, the first maximum is the first entry scoring 1. */
  lemma FirstMaxOfOne(sims: seq<real>, i: int)
    requires 0 <= i < |sims| && sims[i] == 1.0
    requires forall k :: 0 <= k < |sims| ==> sims[k] <= 1.0
    ensures sims[FirstMax(sims)] == 1.0 && FirstMax(sims) <= i
    ensures (forall k :: 0 <= k < i ==> sims[k] < 1.0) ==> FirstMax(sims) == i
  {
  }

  /** The similarities of a trained question, asked verbatim: 1 for its own entry, at most 1 for all. */
  lemma SelfSimilarity(bot: Chatbot, i: int, m: MathLib)
    requires Valid(bot, m.log) && Lawful(m)
    requires 0 <= i < |bot.knowledgeBase|
    requires Tokenize(Some(bot.knowledgeBase[i].question)) != []
    ensures var sims := Similarities(QueryVector(bot, Some(bot.knowledgeBase[i].question)), bot.faqVectors, m.sqrt);
      && sims[i] == 1.0
      && (forall k :: 0 <= k < |sims| ==> sims[k] <= 1.0)
      && forall k :: 0 <= k < |sims| ==> sims[k] == Cosine(bot.faqVectors[i], bot.faqVectors[k], m.sqrt)
  {
    var q := QueryVector(bot, Some(bot.knowledgeBase[i].question));
    assert q == bot.faqVectors[i];
    TrainedVectorNonZero(bot, i, m.log);
    CosineSelf(q, m.sqrt);
    forall k | 0 <= k < |bot.faqVectors|
      ensures Cosine(q, bot.faqVectors[k], m.sqrt) <= 1.0
    {
      CosineAtMostOne(q, bot.faqVectors[k], m.sqrt);
    }
  }

  /**
   * Asking a trained question verbatim finds an FAQ match, provided the
   * question has at least one token: its own cached vector has similarity 1
   * with the query, the most any vector can have, so the reply is the answer
   * of the earliest entry of similarity 1, at or before the asked one, and
   * the asked one's own answer when no earlier entry reaches 1.
   */
  lemma TrainedQuestionAnswered(bot: Chatbot, i: int, m: MathLib, format: real -> string)
    requires Valid(bot, m.log) && Lawful(m)
    requires 0 <= i < |bot.knowledgeBase|
    requires Tokenize(Some(bot.knowledgeBase[i].question)) != []
    ensures exists j :: (0 <= j <= i
      && FaqReply(bot, Some(bot.knowledgeBase[i].question), m, format)
         == Some(bot.knowledgeBase[j].answer + Annotation(format, 1.0)))
    ensures (forall k :: 0 <= k < i ==> Cosine(bot.faqVectors[i], bot.faqVectors[k], m.sqrt) < 1.0) ==>
      FaqReply(bot, Some(bot.knowledgeBase[i].question), m, format)
      == Some(bot.knowledgeBase[i].answer + Annotation(format, 1.0))
  {
    var input := Some(bot.knowledgeBase[i].question);
    var sims := Similarities(QueryVector(bot, input), bot.faqVectors, m.sqrt);
    SelfSimilarity(bot, i, m);
    FirstMaxOfOne(sims, i);
    var best := FirstMax(sims);
    assert FaqReply(bot, input, m, format) == Some(bot.knowledgeBase[best].answer + Annotation(format, 1.0));
  }
}

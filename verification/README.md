# AI chatbot retrieval core, in Dafny

This project models the text-retrieval core of `AIChatbot.java`, a small
desktop chatbot, and proves properties of the model. The Swing window is not
part of the model. The core answers a message with four steps, in order:

- a prompt for blank input;
- a handful of rule-based quick replies: clock, calendar, greetings, thanks, farewells, identity, help;
- the answer of the best-matching trained question, by TF-IDF cosine similarity above a confidence threshold of 0.22;
- a fixed fallback.

Modules: one module per class, with `Chatbot`'s scoring and rule table split into `Similarity` and `Rules`, and the class `FAQ` as the datatype `ChatbotLogic.Faq`. Four helper modules (`Wrappers`, `Text`, `StringOrder`, `Numerics`) model the Java library behaviour the classes rely on:

| file | module | models |
|---|---|---|
| `wrappers.dfy` | `Wrappers` | `Option`, standing for Java `null` |
| `text.dfy` | `Text` | the `String` operations used: ASCII `toLowerCase`, `trim`, `isBlank`, `contains`, splitting on spaces |
| `stemmer.dfy` | `Stemmer` | `SimpleStemmer.stem` |
| `nlp.dfy` | `Nlp` | `NLP`: the stopword set and `tokenize` |
| `string_order.dfy` | `StringOrder` | `String.compareTo` order and the sorted vocabulary |
| `numerics.dfy` | `Numerics` | `Math.log` and `Math.sqrt` as parameters with stated laws |
| `tfidf.dfy` | `Tfidf` | `TFIDF`: `fitTransform`, `transformOne`, `tfidfVector` |
| `similarity.dfy` | `Similarity` | `cosine` and the arg-max scan of `bestFAQAnswer` |
| `rules.dfy` | `Rules` | `tryRuleBased` and `buildRules` |
| `chatbot.dfy` | `ChatbotLogic` | `FAQ`, `Chatbot`: `respond`, `addFaq`, `bestFAQAnswer`, `rebuildVectors`, `seedFAQs` |

Most loops of the Java code become methods whose contracts equate the result
with an independent functional definition. The others become functions:
- recursive functions: the tokenize loop (AIChatbot.java:343-348) is `Nlp.TokenizeParts`, the cosine sums (:269-273) are `Similarity.Dot`, and the rule-table loop (:228-232) is `Rules.FirstRule`;
- sequence comprehensions: the question list of `rebuildVectors` (:262) is `ChatbotLogic.Questions`, and the idf loop (:381-384) is `Tfidf.IdfTable`.

Examples of the methods:
- `TfidfVector` fills a term-count map and then writes the entries; it is equated with `TfidfRef`, which gives each entry's relative frequency times idf.
- `BestIndex` scans with a strict `>` from index -1 and score -1; it is equated with `IsFirstMax`, the earliest position of the largest score.
- `Fit` builds a df map, sorts its keys and indexes them; it is equated with `FittedTo`, which says the vocabulary is the strictly sorted set of all terms in some document.

Lemmas then relate those definitions to each other and to the chatbot's promises.

The chatbot state is an immutable record. `AddFaq` and `Rebuild` are state
transformers that keep the cache invariant `Valid`:
- the question list equals the knowledge-base questions in order;
- the vectorizer is fitted to those questions;
- there is one cached vector per entry, and each is that question's TF-IDF vector.

`Valid` is what makes `knowledgeBase.get(bestIdx)` at AIChatbot.java:253 safe.

`Math.log`, `Math.sqrt`, the clock and the score formatter are parameters:
- `Numerics.MathLib` holds the log and square root. Only these laws are assumed of them, always as preconditions:
  - `LogLaw`: `log(x) >= 0` for `x >= 1`;
  - `SqrtLaw`: for `x >= 0`, `sqrt(x) >= 0` and `sqrt(x) * sqrt(x) == x`.
- `ChatbotLogic.Env` holds the clock readings, already formatted as `yyyy-MM-dd HH:mm` and `yyyy-MM-dd`, and the two-decimal score format.

Three behaviours of the code are easy to misread:
- Out-of-vocabulary query tokens get no vector entry, but they still count in the `tokens.size()` denominator of every relative frequency (AIChatbot.java:405). `Tfidf.TfidfDependsOnVocabularyCounts` states exactly what the vector depends on.
- Asking a trained question verbatim does not always return that entry's answer. The rules come first, for example for a question containing "time". A question with no tokens matches nothing. An earlier entry whose vector is parallel wins the tie. `ChatbotLogic.TrainedQuestionAnswered` proves the qualified statement.
- The time and date regular expressions `.\bwhat('s| is) the time\b.` are modelled with ASCII word characters (`Rules.MatchesWhatIsThe`). They are proved never to fire unless the plain substring test already does (`Rules.WhatIsTheContainsNoun`).

## Model

| member | source | states |
|---|---|---|
| Text.Lower | AIChatbot.java:339 | `toLowerCase` on ASCII: same length, each upper-case letter mapped to its lower-case letter, every other character kept |
| Text.IsBlank | AIChatbot.java:190 | `isBlank`: every character is Java white space (definition; `ChatbotLogic.ContainsTimeNotBlank` and `ChatbotLogic.BlankPrompted` use it) |
| Text.Trim | AIChatbot.java:216 | `trim`: leading and trailing characters up to U+0020 removed (definition; partner lemmas `Text.TrimKeepsOccurrence`, `Text.ContainsInTrim`) |
| Text.Fields | AIChatbot.java:341 | splitting on single spaces: at least one piece, no piece holds a space, and every character of a piece comes from the text; `Text.JoinFields` makes it the inverse of `Text.Join` |
| Text.LowerOfLowerCase | AIChatbot.java:424 | lower-casing a text without upper-case letters changes nothing |
| Text.TrimKeepsOccurrence | AIChatbot.java:216 | `trim` never destroys an occurrence of a pattern that begins and ends above U+0020, so "time" and "date" survive trimming |
| Text.ContainsInTrim | AIChatbot.java:216 | conversely, whatever the trimmed text contains, the untrimmed text contains |
| Text.JoinFields | AIChatbot.java:341 | splitting on single spaces and gluing the pieces back with single spaces gives the text back |
| Text.FieldsJoin | AIChatbot.java:341 | gluing space-free pieces and splitting again gives the pieces back |
| Text.FieldsSplitAtSpace | AIChatbot.java:341 | the pieces of `a + " " + b` are the pieces of `a` followed by those of `b` |
| Stemmer.StripSuffix | AIChatbot.java:425-431 | words of at most 3 characters are unchanged; otherwise the result is a prefix of the word, at most 3 characters shorter, non-empty for a non-empty word, and the removed tail is one of "", "ing", "ed", "es", "s" |
| Stemmer.Stem | AIChatbot.java:424-431 | the stem is the lower-cased word with the first applicable ending removed, trying "ing" (only for more than four characters), then "ed", "es" and "s" (each only for more than three characters), and it is the lower-cased word itself when no ending applies |
| Stemmer.StripSuffixFirstRule | AIChatbot.java:427-430 | first match wins: the removed ending is the first rule of ing/ed/es/s, in order, whose guard holds ("ing" needs more than 4 characters, the rest more than 3), and nothing is removed when no rule applies |
| Stemmer.StemIgnoresCase | AIChatbot.java:424 | stemming a lower-cased word gives the same stem as stemming the word |
| Stemmer.StemOfLowerCase | AIChatbot.java:424 | without upper-case letters the stem is the suffix rules applied to the word itself |
| Stemmer.StemExamples | AIChatbot.java:423-431 | "running" gives "runn", "jumped" gives "jump", "boxes" gives "box", "cats" gives "cat", and "cat" is unchanged |
| Stemmer.StemRingUpper | AIChatbot.java:424-427 | "RING" is lower-cased and keeps its "ing", because only one character would remain |
| Nlp.IsStopword | AIChatbot.java:326-334 | membership in the fixed stopword set, listed word for word (definition; used by `Nlp.TokenizeTerm` and the stopword lemmas) |
| Nlp.NormalizeChar | AIChatbot.java:339-340 | every character becomes `[a-z0-9]` or a space: a character whose lower-case form is in `[a-z0-9]` becomes that form, and every other character becomes a space |
| Nlp.Normalize | AIChatbot.java:340 | `replaceAll(" ")` with `[^a-z0-9 ]` on the lower-cased text: same length, each character normalized on its own |
| Nlp.TokenOf | AIChatbot.java:344-347 | one split part yields at most one token, which is a term when the part is made of term characters |
| Nlp.TokenizeParts | AIChatbot.java:343-348 | no more tokens than parts, and every token is a term when every part is made of term characters |
| Nlp.Tokenize | AIChatbot.java:337-350 | a null text has no tokens; every token is non-empty and consists only of `[a-z0-9]` |
| Nlp.TokenizeWithoutTermChars | AIChatbot.java:339-344 | a text with no ASCII letter or digit has no tokens |
| Nlp.TokenizeSplits | AIChatbot.java:340-341 | any character other than an ASCII letter or digit separates words: the tokens of `a + [c] + b` are those of `a` followed by those of `b` |
| Nlp.TokenizeAround | AIChatbot.java:340-341 | two such separators cut a text into three independently tokenized pieces |
| Nlp.TokenizeWord | AIChatbot.java:343-348 | a single word yields nothing when its lower-cased form is a stopword, and exactly its stem otherwise |
| Nlp.TokenizeSingleField | AIChatbot.java:339-343 | a word of letters and digits is one split part, its lower-cased form |
| Nlp.TokenOfTerm | AIChatbot.java:344-347 | the loop body on a term: nothing for a stopword, else its stem |
| Nlp.TokenizeTerm | AIChatbot.java:343-348 | a lower-case word yields nothing if it is a stopword, else exactly its suffix-stripped form |
| Nlp.SilentWordBetweenSeparators | AIChatbot.java:341-348 | a word without tokens between two separators leaves the rest of the tokens unchanged |
| Nlp.StopwordBetweenSeparators | AIChatbot.java:345 | a stopword between two separators contributes no token |
| Nlp.WordBetweenSeparators | AIChatbot.java:343-348 | any other word between two separators contributes exactly its stem, in place |
| Nlp.StopwordCheckPrecedesStemming | AIChatbot.java:345-346 | the stopword test comes before stemming: "about" is a stopword, yet "abouts" yields the token "about" |
| Nlp.StopwordAddsNothing | AIChatbot.java:345 | a leading stopword followed by a space adds no token |
| Nlp.StopwordThenSeparator | AIChatbot.java:345 | a leading stopword followed by any separator adds no token |
| Nlp.TokenizeDropsStopwords | AIChatbot.java:326-348 | "what is the time" yields only "time" |
| StringOrder.Less | AIChatbot.java:375 | `String.compareTo` order used by `sorted()`: lexicographic by character code, a proper prefix first (definition; a strict total order by the four lemmas below) |
| StringOrder.LessIrreflexive | AIChatbot.java:375 | no string sorts before itself |
| StringOrder.LessTransitive | AIChatbot.java:375 | the `compareTo` order is transitive |
| StringOrder.LessTotal | AIChatbot.java:375 | any two different strings are ordered one way or the other |
| StringOrder.LessAsymmetric | AIChatbot.java:375 | if `a` sorts before `b`, `b` does not sort before `a` |
| StringOrder.SortedDistinct | AIChatbot.java:375 | a strictly sorted sequence has no duplicates |
| StringOrder.Insert | AIChatbot.java:375 | insertion keeps the sequence strictly sorted, adds exactly the new element, and never adds it twice |
| StringOrder.SortedUnique | AIChatbot.java:375 | a strictly sorted sequence is determined by its set of elements |
| StringOrder.SortKeys | AIChatbot.java:375 | sorting the df keys gives a strictly sorted sequence holding exactly those keys |
| Tfidf.CountPositiveIffPresent | AIChatbot.java:403 | a token's count is positive exactly when it occurs |
| Tfidf.Docs | AIChatbot.java:368-370 | one token list per text, in order, each the text's tokenization |
| Tfidf.DocFreqBounds | AIChatbot.java:371-382 | a document frequency is at most the number of documents, and at least 1 exactly when the term occurs in some document |
| Tfidf.CountTokens | AIChatbot.java:402-403 | the term-count map has exactly the tokens as keys, each mapped to its number of occurrences |
| Tfidf.WriteEntries | AIChatbot.java:405-411 | entry `j` is `count / sum * idf[j]` when `vocab[j]` was counted and 0 otherwise |
| Tfidf.TfidfVector | AIChatbot.java:398-413 | the vector equals the reference definition: entry `i` is the relative frequency of `vocab[i]` among the tokens times `idf[i]`, and the vector is all zeros for an empty token list |
| Tfidf.TransformOne | AIChatbot.java:393-396 | the query vector is the TF-IDF vector of the text's tokens against the current fit |
| Tfidf.CountDistinct | AIChatbot.java:371-372 | one text adds exactly 1 to the df of each of its distinct tokens and leaves every other entry alone |
| Tfidf.DfTableStep | AIChatbot.java:368-373 | one such step turns the df table of some documents into the df table of those documents plus the new one |
| Tfidf.CountDocFreqs | AIChatbot.java:366-373 | after the tokenizing pass, the df map holds exactly the occurring terms, each with its document frequency |
| Tfidf.IndexVocabulary | AIChatbot.java:376-377 | the index maps exactly the vocabulary terms to their positions |
| Tfidf.FittedFromTables | AIChatbot.java:375-384 | a sorted vocabulary with the df table's keys, its index and the idf loop's table together form a fit of the documents |
| Tfidf.Fit | AIChatbot.java:364-384 | the fit is the strictly sorted sequence of every term in some text, with a consistent index and idf `ln((N+1)/(df+1)) + 1` where `N = max(1, number of texts)` |
| Tfidf.TransformAll | AIChatbot.java:386-389 | one row per document, each its TF-IDF vector against the new fit |
| Tfidf.FitTransform | AIChatbot.java:363-391 | a null list counts as empty; the result is a fit of the texts' token lists and one row per text, each of length equal to the vocabulary and equal to the TF-IDF vector of its text |
| Tfidf.FitOfNothing | AIChatbot.java:364-384 | fitting no texts gives an empty vocabulary and idf table |
| Tfidf.Idf | AIChatbot.java:383 | the smoothed idf `log((N + 1) / (df + 1)) + 1` (definition; `Tfidf.IdfAtLeastOne` bounds it) |
| Tfidf.IdfTable | AIChatbot.java:380-384 | the idf loop: one weight per vocabulary term, with df 0 for a term missing from the df map |
| Tfidf.IdfAtLeastOne | AIChatbot.java:379-384 | under the log law every idf weight is at least 1 |
| Tfidf.IdfOfOccurringTerm | AIChatbot.java:383 | `1 <= df <= N` makes the log argument at least 1, so the smoothed idf is at least 1 |
| Tfidf.FitIsDeterministic | AIChatbot.java:366-384 | two fits of the same documents are equal: the vocabulary order does not depend on the hash-map iteration order |
| Tfidf.TfidfZeroUnlessPresent | AIChatbot.java:406-410 | an entry is zero unless its vocabulary term occurs among the tokens |
| Tfidf.TfidfNonNegative | AIChatbot.java:409-410 | with non-negative idf weights every entry is non-negative |
| Tfidf.TfidfPositiveWhenPresent | AIChatbot.java:409-410 | an occurring vocabulary term with positive idf has a positive entry |
| Tfidf.TfidfDependsOnVocabularyCounts | AIChatbot.java:405-410 | two token lists of equal length with the same vocabulary-term counts have the same vector |
| Tfidf.UnseenTokensInterchangeable | AIChatbot.java:407-408 | which out-of-vocabulary token is appended makes no difference to the vector |
| Similarity.DotSymmetric | AIChatbot.java:270 | the dot product is symmetric |
| Similarity.NormSquared | AIChatbot.java:271-274 | a squared norm is non-negative, and zero exactly for the zero vector |
| Similarity.DotNonNegative | AIChatbot.java:270 | non-negative vectors have a non-negative dot product |
| Similarity.Cosine | AIChatbot.java:266-276 | `cosine`: 0 on a length mismatch or a zero norm, else dot over the product of the square-rooted norms (definition; bounded by `Similarity.CosineAtMostOne` and `Similarity.CosineNonNegative`) |
| Similarity.CosineGuards | AIChatbot.java:267-274 | a length mismatch, or a zero norm on either side, gives similarity 0 |
| Similarity.CosineWithZeroVector | AIChatbot.java:274 | a zero vector has similarity 0 with anything, on either side |
| Similarity.CosineSymmetric | AIChatbot.java:266-276 | cosine similarity is symmetric |
| Similarity.CosineSelf | AIChatbot.java:275 | every non-zero vector has similarity exactly 1 with itself |
| Similarity.CosineNonNegative | AIChatbot.java:266-276 | non-negative vectors have non-negative similarity |
| Similarity.CauchySchwarz | AIChatbot.java:268-273 | the squared dot product is at most the product of the squared norms |
| Similarity.CosineAtMostOne | AIChatbot.java:275 | no similarity exceeds 1 |
| Similarity.Similarities | AIChatbot.java:243-244 | one score per cached vector, each the cosine with the query |
| Similarity.FirstMaxExists | AIChatbot.java:243-249 | every non-empty score list has an earliest position of its largest score |
| Similarity.FirstMaxUnique | AIChatbot.java:243-249 | that position is unique |
| Similarity.BestIndex | AIChatbot.java:240-249 | the scan keeps -1 only when every score is at most -1; otherwise it returns the earliest index of the largest score and that score, so ties go to the earlier entry |
| Rules.FindsAt | AIChatbot.java:229 | one alternative occurring with a word boundary on both sides makes the pattern match |
| Rules.BuildRules | AIChatbot.java:278-287 | five rules, in insertion order, each with at least one alternative of whole words and a non-empty reply |
| Rules.Boundary | AIChatbot.java:219 | `\b`: exactly one of the characters on either side of a position is a word character |
| Rules.FindsAny | AIChatbot.java:229 | `matcher(text).find()` for `\b(alternatives)\b`: some alternative occurs with a boundary on both sides (`Rules.FindsAt`, `Rules.SingleWordMatchesWhole`) |
| Rules.MatchesWhatIsThe | AIChatbot.java:219-223 | the whole-text regular expressions for "what's the NOUN" and "what is the NOUN": one character that is not a line terminator, the phrase, one more such character, with a word boundary after the first character and before the last |
| Rules.TryRules | AIChatbot.java:215-234 | `tryRuleBased`: lower-case and trim, then the clock reply, the calendar reply, or the first rule of the table; `Rules.TryRulesByContainment` states the precedence |
| Rules.FirstRule | AIChatbot.java:228-233 | no reply exactly when no pattern is found; otherwise the reply of the first rule whose pattern is found |
| Rules.WhatIsTheContainsNoun | AIChatbot.java:219 | the whole-text question pattern only matches a text that already contains the noun |
| Rules.TryRulesByContainment | AIChatbot.java:219-233 | the rules fire exactly on a contained "time", then "date", then the rule table |
| Rules.TimeCheckedFirst | AIChatbot.java:216-222 | any input containing "time" in any letter case gets the clock reply, ahead of the date check and the table |
| Rules.DateCheckedSecond | AIChatbot.java:223-226 | an input containing "date" but not "time" gets the calendar reply |
| Rules.GreetingAnswered | AIChatbot.java:280 | "Hi!" gets the greeting |
| Rules.HelloAnswered | AIChatbot.java:280 | "hello" gets the greeting |
| Rules.SingleWordMatchesWhole | AIChatbot.java:280-285 | in a text of word characters only, a pattern is found exactly when the text is one of its alternatives |
| Rules.EmbeddedGreetingIgnored | AIChatbot.java:280 | "hi" inside "this" is not a whole word, so no rule fires |
| Rules.NoRuleForThis | AIChatbot.java:280-285 | no pattern of the table is found in "this" |
| ChatbotLogic.Questions | AIChatbot.java:261-262 | the question list has one question per entry, in order |
| ChatbotLogic.Rebuild | AIChatbot.java:259-264 | rebuilding keeps the knowledge base and re-establishes the cache invariant |
| ChatbotLogic.AddFaq | AIChatbot.java:207-211 | exactly one entry is appended at the end, earlier entries are unchanged, and the cache invariant holds, so there is one vector per entry |
| ChatbotLogic.SeedFaqsInto | AIChatbot.java:289-305 | seeding appends the seven starter pairs in order and keeps the cache invariant |
| ChatbotLogic.Create | AIChatbot.java:184-187 | a new chatbot holds exactly the seven starter pairs and satisfies the cache invariant |
| ChatbotLogic.QueryVector | AIChatbot.java:239 | the query vector has one entry per vocabulary term |
| ChatbotLogic.BestFaqAnswer | AIChatbot.java:236-257 | no answer for an empty knowledge base; otherwise the answer of the earliest entry of greatest similarity, annotated, exactly when that similarity is at least 0.22 |
| ChatbotLogic.Annotation | AIChatbot.java:254 | the suffix appended to an FAQ answer: a blank line, the bullet and the formatted similarity |
| ChatbotLogic.FaqReply | AIChatbot.java:236-257 | reference definition of `bestFAQAnswer`: no answer for an empty knowledge base; else the earliest best-scoring entry's answer with its annotation when its score is at least 0.22 |
| ChatbotLogic.Reply | AIChatbot.java:189-205 | reference definition of `respond`: the prompt, then the rule reply, then `FaqReply`, then the fallback |
| ChatbotLogic.Respond | AIChatbot.java:189-205 | blank or null input is prompted for; a rule reply comes first; then the FAQ answer; then the fallback |
| ChatbotLogic.BlankPrompted | AIChatbot.java:190-191 | a blank input gets "Please type something." whatever the state |
| ChatbotLogic.HelloGreeted | AIChatbot.java:195-196 | "hello" gets the greeting whatever the knowledge base holds |
| ChatbotLogic.ContainsTimeNotBlank | AIChatbot.java:190 | a text containing "time" in any letter case is not blank |
| ChatbotLogic.TimeQuestionsIgnoreKnowledge | AIChatbot.java:189-196 | any input mentioning "time" gets the clock reply, whatever has been trained |
| ChatbotLogic.QueryWithoutVocabularyIsZero | AIChatbot.java:239 | a query with no vocabulary term has the zero vector |
| ChatbotLogic.UnknownWordsMatchNothing | AIChatbot.java:243-256 | an input none of whose tokens was trained matches no FAQ |
| ChatbotLogic.UnknownWordsFallBack | AIChatbot.java:189-204 | an input no rule answers and with no trained token gets the fallback |
| ChatbotLogic.EmptyQueryMatchesNothing | AIChatbot.java:236-256 | an input whose words are all stopwords or punctuation never finds an FAQ |
| ChatbotLogic.TrainedVectorNonZero | AIChatbot.java:263 | the cached vector of an entry with at least one token is non-zero |
| ChatbotLogic.FirstMaxOfOne | AIChatbot.java:245 | when no score exceeds 1, the first maximum of a list containing 1 is the earliest 1 |
| ChatbotLogic.SelfSimilarity | AIChatbot.java:244 | a trained question asked verbatim has similarity 1 with its own entry and at most 1 with all |
| ChatbotLogic.TrainedQuestionAnswered | AIChatbot.java:236-257 | a trained question with a token, asked verbatim, is answered with similarity 1 by an entry at or before its own, and by its own entry when no earlier entry reaches 1 |

## Left out

- The Swing window, `main`, the dialogs and the `SwingWorker` dispatch (AIChatbot.java:25-172): presentation and concurrency only.
- The system clock and `DateTimeFormatter` (AIChatbot.java:220, 224) are not modelled. The replies take the current time and date as strings already formatted as `yyyy-MM-dd HH:mm` and `yyyy-MM-dd`.
- `String.format(Locale.US, "%.2f", ...)` (AIChatbot.java:254) is the parameter `format`; rounding to two decimals is not modelled.
- `Math.log` and `Math.sqrt` are parameters. Only `LogLaw` and `SqrtLaw` are assumed of them, as preconditions.
- Floating point: scores, weights and the 0.22 threshold are `real`. IEEE-754 rounding in division, `log` and `sqrt` is not modelled, so `CosineSelf` is exact where the program is within rounding.
- Text.Lower: only ASCII letters are lower-cased. Java's full Unicode `toLowerCase` also maps a few non-ASCII characters to ASCII ones, for example the Kelvin sign to "k" and U+0130 to "i" plus a combining dot. In `Tokenize` the model turns such characters into spaces. In `TryRules` it keeps them as they are, so "THAN\u212A YOU" (with a Kelvin sign) gets no thanks reply in the model, while Java lower-cases it to "thank you" and replies.
- Rules.FindsAny: only the five fixed patterns are modelled, each as word-bounded alternatives, not a general regular-expression engine. A word character is taken to be one of `[A-Za-z0-9_]`. Java's `\b` (as in JDK 21) also counts a non-spacing mark as a word character when the nearest earlier character that is not a mark is a letter or digit in the sense of `Character.isLetterOrDigit` (any script; `_` does not count); the model counts every non-spacing mark as a non-word character. So for "hi" followed by U+0301 the model answers with the greeting while Java falls back, and likewise for "\u03A9\u0301hi"; for "_\u0301hi" both greet. The same difference applies to the `\b` in `Rules.MatchesWhatIsThe`.
- Stemmer.Stem: the `null` guard at AIChatbot.java:423 is not modelled; the only caller never passes `null`.
- Tfidf.FitTransform: the text list may be `null` (modelled), but its elements are non-null strings.
- ChatbotLogic.AddFaq: the append to `faqQuestions` at AIChatbot.java:209 is modelled, but `rebuildVectors` overwrites it at once, so only the final state is stated.
- `FAQ.toString` (AIChatbot.java:314): not used by the core.
- Tfidf.WriteEntries: requires a positive token count, which the early return at AIChatbot.java:400 guarantees.

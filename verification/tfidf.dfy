/**
 * `TFIDF`: the vectorizer. A fit builds the sorted vocabulary, its position
 * index and the smoothed idf table from a list of texts, and one vector per
 * text; a transform builds a query vector against the current fit.
 */
module Tfidf {
  import opened Wrappers
  import opened Nlp
  import opened StringOrder
  import opened Numerics

  /** Occurrences of `t` in `tokens`. */
  function Count(t: string, tokens: seq<string>): nat {
    if tokens == [] then 0
    else Count(t, tokens[..|tokens| - 1]) + (if tokens[|tokens| - 1] == t then 1 else 0)
  }

  lemma CountSnoc(t: string, s: seq<string>, x: string)
    ensures Count(t, s + [x]) == Count(t, s) + (if x == t then 1 else 0)
  {
    assert (s + [x])[..|s|] == s;
  }

  lemma {:induction false} CountPositiveIffPresent(t: string, tokens: seq<string>)
    ensures Count(t, tokens) > 0 <==> t in tokens
    decreases |tokens|
  {
    if tokens != [] {
      var init := tokens[..|tokens| - 1];
      CountPositiveIffPresent(t, init);
      assert tokens == init + [tokens[|tokens| - 1]];
    }
  }

  /** The token list of each text, in order. */
  function Docs(texts: seq<string>): (docs: seq<seq<string>>)
    ensures |docs| == |texts|
    ensures forall i :: 0 <= i < |texts| ==> docs[i] == Tokenize(Some(texts[i]))
  {
    seq(|texts|, i requires 0 <= i < |texts| => Tokenize(Some(texts[i])))
  }

  ghost predicate InSomeDoc(docs: seq<seq<string>>, t: string) {
    exists i :: 0 <= i < |docs| && t in docs[i]
  }

  /** Document frequency: how many documents contain `t` at least once. */
  function DocFreq(docs: seq<seq<string>>, t: string): nat {
    if docs == [] then 0
    else DocFreq(docs[..|docs| - 1], t) + (if t in docs[|docs| - 1] then 1 else 0)
  }

  /** A term occurring somewhere has document frequency between 1 and the corpus size. */
  lemma {:induction false} DocFreqBounds(docs: seq<seq<string>>, t: string)
    ensures DocFreq(docs, t) <= |docs|
    ensures DocFreq(docs, t) >= 1 <==> InSomeDoc(docs, t)
    decreases |docs|
  {
    if docs != [] {
      var init := docs[..|docs| - 1];
      DocFreqBounds(init, t);
      if InSomeDoc(init, t) {
        var i :| 0 <= i < |init| && t in init[i];
        assert t in docs[i];
      }
      if InSomeDoc(docs, t) && t !in docs[|docs| - 1] {
        var i :| 0 <= i < |docs| && t in docs[i];
        assert t in init[i];
      }
    }
  }

  /** `Math.max(1, n)`: the corpus size used by idf, never zero. */
  function MaxOne(n: nat): nat {
    if n < 1 then 1 else n
  }

  /** Smoothed inverse document frequency, `ln((N + 1) / (df + 1)) + 1`. */
  function Idf(log: real -> real, n: nat, df: nat): real {
    log((n as real + 1.0) / (df as real + 1.0)) + 1.0
  }

  /** The vectorizer's state: vocabulary, term-to-position index, idf table. */
  datatype Vectorizer = Vectorizer(vocab: seq<string>, vocabIndex: map<string, nat>, idf: seq<real>)

  /** The state before any fit. */
  const Unfitted: Vectorizer := Vectorizer([], map[], [])

  /** The index maps exactly the vocabulary terms to their positions. */
  ghost predicate IndexConsistent(v: Vectorizer) {
    && |v.idf| == |v.vocab|
    && (forall i :: 0 <= i < |v.vocab| ==> v.vocab[i] in v.vocabIndex && v.vocabIndex[v.vocab[i]] == i)
    && (forall t :: t in v.vocabIndex ==> v.vocabIndex[t] < |v.vocab| && v.vocab[v.vocabIndex[t]] == t)
  }

  /**
   * `v` is the result of fitting the token lists `docs`: the vocabulary is
   * the strictly sorted sequence of all terms occurring in some document, and
   * idf entry `i` is the smoothed idf of `vocab[i]` with `N = max(1, |docs|)`.
   */
  ghost predicate FittedTo(v: Vectorizer, docs: seq<seq<string>>, log: real -> real) {
    && StrictlySorted(v.vocab)
    && (forall t :: t in v.vocab <==> InSomeDoc(docs, t))
    && IndexConsistent(v)
    && forall i :: 0 <= i < |v.vocab| ==> v.idf[i] == Idf(log, MaxOne(|docs|), DocFreq(docs, v.vocab[i]))
  }

  /** The weight of term `t` in a token list: its relative frequency times `w`. */
  function Weight(tokens: seq<string>, t: string, w: real): real {
    if tokens == [] then 0.0 else (Count(t, tokens) as real / |tokens| as real) * w
  }

  /**
   * The TF-IDF vector of a token list, entry by entry: the relative
   * frequency of the vocabulary term in the tokens, times its idf.
   */
  function TfidfRef(tokens: seq<string>, vocab: seq<string>, idf: seq<real>): (r: seq<real>)
    requires |idf| == |vocab|
    ensures |r| == |vocab|
  {
    seq(|vocab|, i requires 0 <= i < |vocab| => Weight(tokens, vocab[i], idf[i]))
  }

  /** The term-frequency map of `tfidfVector`: every token mapped to its count. */
  method CountTokens(tokens: seq<string>) returns (tf: map<string, nat>)
    ensures forall t :: t in tf <==> t in tokens
    ensures forall t :: t in tf ==> tf[t] == Count(t, tokens)
  {
    tf := map[];
    var i := 0;
    while i < |tokens|
      invariant 0 <= i <= |tokens|
      invariant forall t :: t in tf <==> t in tokens[..i]
      invariant forall t :: t in tf ==> tf[t] == Count(t, tokens[..i])
    {
      var t := tokens[i];
      ghost var prefix := tokens[..i];
      assert tokens[..i + 1] == prefix + [t];
      CountPositiveIffPresent(t, prefix);
      CountSnoc(t, prefix, t);
      forall u | u in tf && u != t
        ensures tf[u] == Count(u, prefix + [t])
      {
        CountSnoc(u, prefix, t);
      }
      tf := tf[t := (if t in tf then tf[t] else 0) + 1];
      i := i + 1;
    }
    assert tokens[..|tokens|] == tokens;
  }

  /**
   * `tfidfVector`: count the tokens in a map, then write each counted term
   * that has a vocabulary position; every other entry stays zero.
   */
  method TfidfVector(v: Vectorizer, tokens: seq<string>) returns (vec: seq<real>)
    requires IndexConsistent(v)
    ensures vec == TfidfRef(tokens, v.vocab, v.idf)
  {
    vec := seq(|v.vocab|, _ => 0.0);
    if |v.vocab| == 0 || |tokens| == 0 {
      return;
    }
    var tf := CountTokens(tokens);
    vec := WriteEntries(v, tf, |tokens| as real);
    forall j | 0 <= j < |vec|
      ensures vec[j] == TfidfRef(tokens, v.vocab, v.idf)[j]
    {
      var t := v.vocab[j];
      assert TfidfRef(tokens, v.vocab, v.idf)[j] == Weight(tokens, t, v.idf[j]);
      CountPositiveIffPresent(t, tokens);
      if t !in tf {
        var c := Count(t, tokens) as real;
        assert c == 0.0;
        assert c / |tokens| as real == 0.0;
      }
    }
  }

  /** The second loop of `tfidfVector`: counted terms in the vocabulary get `tf / sum * idf`. */
  method WriteEntries(v: Vectorizer, tf: map<string, nat>, sum: real) returns (vec: seq<real>)
    requires IndexConsistent(v)
    requires sum > 0.0
    ensures |vec| == |v.vocab|
    ensures forall j :: 0 <= j < |vec| ==>
      vec[j] == if v.vocab[j] in tf then (tf[v.vocab[j]] as real / sum) * v.idf[j] else 0.0
  {
    vec := seq(|v.vocab|, _ => 0.0);
    var pending := tf.Keys;
    while pending != {}
      invariant pending <= tf.Keys
      invariant |vec| == |v.vocab|
      invariant forall j :: 0 <= j < |vec| ==>
        vec[j] == if v.vocab[j] in tf && v.vocab[j] !in pending then (tf[v.vocab[j]] as real / sum) * v.idf[j] else 0.0
      decreases pending
    {
      var e :| e in pending;
      if e in v.vocabIndex {
        var idx := v.vocabIndex[e];
        vec := vec[idx := (tf[e] as real / sum) * v.idf[idx]];
      }
      pending := pending - {e};
    }
  }

  /** `transformOne`: the query vector of a (possibly null) text. */
  method TransformOne(v: Vectorizer, text: Option<string>) returns (vec: seq<real>)
    requires IndexConsistent(v)
    ensures vec == TfidfRef(Tokenize(text), v.vocab, v.idf)
  {
    var tokens := Tokenize(text);
    vec := TfidfVector(v, tokens);
  }

  /** Document-frequency table after some documents. */
  ghost predicate DfTable(df: map<string, nat>, docs: seq<seq<string>>) {
    && (forall t :: t in df ==> InSomeDoc(docs, t) && df[t] == DocFreq(docs, t))
    && (forall t :: InSomeDoc(docs, t) ==> t in df)
  }

  lemma AppendDoc(docs: seq<seq<string>>, tokens: seq<string>, t: string)
    ensures InSomeDoc(docs + [tokens], t) <==> InSomeDoc(docs, t) || t in tokens
    ensures DocFreq(docs + [tokens], t) == DocFreq(docs, t) + (if t in tokens then 1 else 0)
  {
    var d := docs + [tokens];
    assert d[..|d| - 1] == docs;
    if InSomeDoc(docs, t) {
      var i :| 0 <= i < |docs| && t in docs[i];
      assert t in d[i];
    }
    if t in tokens {
      assert t in d[|docs|];
    }
    if InSomeDoc(d, t) && t !in tokens {
      var i :| 0 <= i < |d| && t in d[i];
      assert t in docs[i];
    }
  }

  /** One step of the df count: add 1 for each distinct token of one text. */
  method CountDistinct(df: map<string, nat>, tokens: seq<string>) returns (df': map<string, nat>)
    ensures forall t :: t in df' <==> t in df || t in tokens
    ensures forall t :: t in df' ==> df'[t] == (if t in df then df[t] else 0) + (if t in tokens then 1 else 0)
  {
    var unique := set t | t in tokens;
    df' := df;
    var pending := unique;
    while pending != {}
      invariant pending <= unique
      invariant forall t :: t in df' <==> t in df || t in unique - pending
      invariant forall t :: t in df' ==>
        df'[t] == (if t in df then df[t] else 0) + (if t in unique - pending then 1 else 0)
      decreases pending
    {
      var t :| t in pending;
      df' := df'[t := (if t in df' then df'[t] else 0) + 1];
      pending := pending - {t};
    }
  }

  lemma DfTableStep(df: map<string, nat>, df': map<string, nat>, docs: seq<seq<string>>, tokens: seq<string>)
    requires DfTable(df, docs)
    requires forall t :: t in df' <==> t in df || t in tokens
    requires forall t :: t in df' ==> df'[t] == (if t in df then df[t] else 0) + (if t in tokens then 1 else 0)
    ensures DfTable(df', docs + [tokens])
  {
    forall t
      ensures InSomeDoc(docs + [tokens], t) <==> InSomeDoc(docs, t) || t in tokens
      ensures DocFreq(docs + [tokens], t) == DocFreq(docs, t) + (if t in tokens then 1 else 0)
    {
      AppendDoc(docs, tokens, t);
    }
    forall t | t in df' && t !in df
      ensures DocFreq(docs, t) == 0
    {
      DocFreqBounds(docs, t);
    }
  }

  /** The tokenizing pass of `fitTransform`: token lists and df table. */
  method CountDocFreqs(ts: seq<string>) returns (docs: seq<seq<string>>, df: map<string, nat>)
    ensures docs == Docs(ts)
    ensures DfTable(df, docs)
  {
    df := map[];
    docs := [];
    var k := 0;
    while k < |ts|
      invariant 0 <= k <= |ts|
      invariant |docs| == k
      invariant forall j :: 0 <= j < k ==> docs[j] == Tokenize(Some(ts[j]))
      invariant DfTable(df, docs)
    {
      var tokens := Tokenize(Some(ts[k]));
      ghost var before := df;
      df := CountDistinct(df, tokens);
      DfTableStep(before, df, docs, tokens);
      docs := docs + [tokens];
      k := k + 1;
    }
  }

  /** `vocabIndex`: each vocabulary term mapped to its position. */
  method IndexVocabulary(vocab: seq<string>) returns (index: map<string, nat>)
    requires StrictlySorted(vocab)
    ensures forall j :: 0 <= j < |vocab| ==> vocab[j] in index && index[vocab[j]] == j
    ensures forall t :: t in index ==> index[t] < |vocab| && vocab[index[t]] == t
  {
    index := map[];
    var i := 0;
    while i < |vocab|
      invariant 0 <= i <= |vocab|
      invariant forall j :: 0 <= j < i ==> vocab[j] in index && index[vocab[j]] == j
      invariant forall t :: t in index ==> index[t] < i && vocab[index[t]] == t
    {
      forall j | 0 <= j < i
        ensures vocab[j] != vocab[i]
      {
        SortedDistinct(vocab, j, i);
      }
      index := index[vocab[i] := i];
      i := i + 1;
    }
  }

  /** The idf loop; a term missing from the df table would get df 0. */
  function IdfTable(log: real -> real, n: nat, vocab: seq<string>, df: map<string, nat>): (idf: seq<real>)
    ensures |idf| == |vocab|
  {
    seq(|vocab|, j requires 0 <= j < |vocab| =>
      Idf(log, n, if vocab[j] in df then df[vocab[j]] else 0))
  }

  lemma FittedFromTables(v: Vectorizer, docs: seq<seq<string>>, df: map<string, nat>, log: real -> real)
    requires DfTable(df, docs)
    requires StrictlySorted(v.vocab)
    requires forall t :: t in v.vocab <==> t in df.Keys
    requires forall j :: 0 <= j < |v.vocab| ==> v.vocab[j] in v.vocabIndex && v.vocabIndex[v.vocab[j]] == j
    requires forall t :: t in v.vocabIndex ==> v.vocabIndex[t] < |v.vocab| && v.vocab[v.vocabIndex[t]] == t
    requires v.idf == IdfTable(log, MaxOne(|docs|), v.vocab, df)
    ensures FittedTo(v, docs, log)
  {
  }

  /** The fitting half of `fitTransform`: token lists, df table, vocabulary, index, idf. */
  method Fit(ts: seq<string>, log: real -> real) returns (v: Vectorizer, docs: seq<seq<string>>)
    ensures docs == Docs(ts)
    ensures FittedTo(v, docs, log)
  {
    var df;
    docs, df := CountDocFreqs(ts);
    var vocab := SortKeys(df.Keys);
    var index := IndexVocabulary(vocab);
    var n := if |ts| > 1 then |ts| else 1;
    v := Vectorizer(vocab, index, IdfTable(log, n, vocab, df));
    FittedFromTables(v, docs, df, log);
  }

  /** The vectorizing half of `fitTransform`: one row per document. */
  method TransformAll(v: Vectorizer, docs: seq<seq<string>>) returns (out: seq<seq<real>>)
    requires IndexConsistent(v)
    ensures |out| == |docs|
    ensures forall i :: 0 <= i < |docs| ==> out[i] == TfidfRef(docs[i], v.vocab, v.idf)
  {
    out := [];
    var r := 0;
    while r < |docs|
      invariant 0 <= r <= |docs|
      invariant |out| == r
      invariant forall j :: 0 <= j < r ==> out[j] == TfidfRef(docs[j], v.vocab, v.idf)
    {
      var row := TfidfVector(v, docs[r]);
      out := out + [row];
      r := r + 1;
    }
  }

  /**
   * `fitTransform`: a null list counts as empty. Count document frequencies
   * over each text's distinct tokens, sort the counted terms into the
   * vocabulary, index it, compute the idf table with `N = max(1, |texts|)`,
   * and vectorize every text against the new state.
   */
  method FitTransform(texts: Option<seq<string>>, log: real -> real) returns (v: Vectorizer, out: seq<seq<real>>)
    ensures var docs := Docs(if texts.None? then [] else texts.value);
      && FittedTo(v, docs, log)
      && |out| == |docs|
      && forall i :: 0 <= i < |docs| ==> out[i] == TfidfRef(docs[i], v.vocab, v.idf)
  {
    var ts := if texts.None? then [] else texts.value;
    var docs;
    v, docs := Fit(ts, log);
    out := TransformAll(v, docs);
  }

  /** A fit of no texts has an empty vocabulary. */
  lemma FitOfNothing(v: Vectorizer, log: real -> real)
    requires FittedTo(v, [], log)
    ensures v.vocab == [] && v.idf == []
  {
    forall t
      ensures t !in multiset(v.vocab)
    {
      assert !InSomeDoc([], t);
    }
    assert multiset(v.vocab) == multiset{};
    assert |v.vocab| == |multiset(v.vocab)|;
  }

  /** Every idf weight is at least 1: `1 <= df <= N`, so the log argument is at least 1. */
  lemma IdfAtLeastOne(v: Vectorizer, docs: seq<seq<string>>, log: real -> real)
    requires FittedTo(v, docs, log)
    requires LogLaw(log)
    ensures forall i :: 0 <= i < |v.idf| ==> v.idf[i] >= 1.0
  {
    forall i | 0 <= i < |v.idf|
      ensures v.idf[i] >= 1.0
    {
      var t := v.vocab[i];
      assert InSomeDoc(docs, t);
      DocFreqBounds(docs, t);
      IdfOfOccurringTerm(log, MaxOne(|docs|), DocFreq(docs, t));
    }
  }

  lemma IdfOfOccurringTerm(log: real -> real, n: nat, df: nat)
    requires LogLaw(log)
    requires 1 <= df <= n
    ensures Idf(log, n, df) >= 1.0
  {
    var x := (n as real + 1.0) / (df as real + 1.0);
    assert x >= 1.0;
    assert log(x) >= 0.0;
  }

  /** The fit is determined by the documents: two fits of the same corpus are equal. */
  lemma FitIsDeterministic(v1: Vectorizer, v2: Vectorizer, docs: seq<seq<string>>, log: real -> real)
    requires FittedTo(v1, docs, log) && FittedTo(v2, docs, log)
    ensures v1 == v2
  {
    SortedUnique(v1.vocab, v2.vocab);
    assert v1.vocabIndex.Keys == v2.vocabIndex.Keys;
  }

  /** An entry is zero unless its vocabulary term occurs among the tokens. */
  lemma TfidfZeroUnlessPresent(tokens: seq<string>, vocab: seq<string>, idf: seq<real>, i: int)
    requires |idf| == |vocab| && 0 <= i < |vocab|
    requires vocab[i] !in tokens
    ensures TfidfRef(tokens, vocab, idf)[i] == 0.0
  {
    CountPositiveIffPresent(vocab[i], tokens);
    if tokens != [] {
      var c := Count(vocab[i], tokens) as real;
      assert c == 0.0;
      assert c / |tokens| as real == 0.0;
    }
  }

  /** With non-negative idf weights every entry is non-negative. */
  lemma TfidfNonNegative(tokens: seq<string>, vocab: seq<string>, idf: seq<real>)
    requires |idf| == |vocab|
    requires forall i :: 0 <= i < |idf| ==> idf[i] >= 0.0
    ensures forall i :: 0 <= i < |vocab| ==> TfidfRef(tokens, vocab, idf)[i] >= 0.0
  {
  }

  /** A vocabulary term that occurs gets a positive entry when its idf is positive. */
  lemma TfidfPositiveWhenPresent(tokens: seq<string>, vocab: seq<string>, idf: seq<real>, i: int)
    requires |idf| == |vocab| && 0 <= i < |vocab|
    requires vocab[i] in tokens && idf[i] > 0.0
    ensures TfidfRef(tokens, vocab, idf)[i] > 0.0
  {
    CountPositiveIffPresent(vocab[i], tokens);
    var c, n := Count(vocab[i], tokens) as real, |tokens| as real;
    assert c / n > 0.0;
  }

  lemma WeightCongruent(t1: seq<string>, t2: seq<string>, vocab: seq<string>, idf: seq<real>, i: int)
    requires |idf| == |vocab| && 0 <= i < |vocab|
    requires |t1| == |t2| && Count(vocab[i], t1) == Count(vocab[i], t2)
    ensures TfidfRef(t1, vocab, idf)[i] == TfidfRef(t2, vocab, idf)[i]
  {
    assert TfidfRef(t1, vocab, idf)[i] == Weight(t1, vocab[i], idf[i]);
    assert TfidfRef(t2, vocab, idf)[i] == Weight(t2, vocab[i], idf[i]);
    WeightsAgree(t1, t2, vocab[i], idf[i]);
  }

  lemma WeightsAgree(t1: seq<string>, t2: seq<string>, t: string, w: real)
    requires |t1| == |t2| && Count(t, t1) == Count(t, t2)
    ensures Weight(t1, t, w) == Weight(t2, t, w)
  {
  }

  /**
   * Only the counts of vocabulary terms and the number of tokens matter:
   * tokens outside the vocabulary get no entry of their own, but they still
   * count in the denominator of every relative frequency.
   */
  lemma TfidfDependsOnVocabularyCounts(t1: seq<string>, t2: seq<string>, vocab: seq<string>, idf: seq<real>)
    requires |idf| == |vocab|
    requires |t1| == |t2|
    requires forall i :: 0 <= i < |vocab| ==> Count(vocab[i], t1) == Count(vocab[i], t2)
    ensures TfidfRef(t1, vocab, idf) == TfidfRef(t2, vocab, idf)
  {
    forall i | 0 <= i < |vocab|
      ensures TfidfRef(t1, vocab, idf)[i] == TfidfRef(t2, vocab, idf)[i]
    {
      WeightCongruent(t1, t2, vocab, idf, i);
    }
  }

  /** Which out-of-vocabulary token is appended makes no difference. */
  lemma UnseenTokensInterchangeable(tokens: seq<string>, u1: string, u2: string, vocab: seq<string>, idf: seq<real>)
    requires |idf| == |vocab|
    requires u1 !in vocab && u2 !in vocab
    ensures TfidfRef(tokens + [u1], vocab, idf) == TfidfRef(tokens + [u2], vocab, idf)
  {
    forall i | 0 <= i < |vocab|
      ensures Count(vocab[i], tokens + [u1]) == Count(vocab[i], tokens + [u2])
    {
      CountSnoc(vocab[i], tokens, u1);
      CountSnoc(vocab[i], tokens, u2);
    }
    TfidfDependsOnVocabularyCounts(tokens + [u1], tokens + [u2], vocab, idf);
  }
}

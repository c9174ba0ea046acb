/**
 * What LargeTrigramModel.java promises about one query and about repeated
 * queries, stated against the uncached model: which statistics counter a
 * query moves, the score each path returns, that a repeated query returns
 * the first answer and, with a trigram cache of room at least one, that the
 * second trigram query is served from the cache without touching the state.
 */
module QueryRules {
  import opened Wrappers
  import opened NgramTables
  import opened LruCache
  import opened TrigramModel
  import opened CacheTransparency
  import Uncached

  /** A repeated query answers what the first one answered. */
  lemma {:induction false} RepeatedQuery(m: LanguageModel, s: LmState, ws: seq<Word>)
    requires Inv(m, s)
    requires GetProbability(m, s, ws).Success?
    ensures var first := GetProbability(m, s, ws).value;
      Value(GetProbability(m, first.1, ws)) == Success(first.0)
  {
    GetProbabilityAgrees(m, s, ws);
    GetProbabilityAgrees(m, GetProbability(m, s, ws).value.1, ws);
  }

  /**
   * A cached trigram is answered from the cache: the state, counters included,
   * is left as it was, and the cached score is the uncached model's score.
   */
  lemma {:induction false} CachedTrigram(m: LanguageModel, s: LmState, ws: seq<Word>)
    requires Inv(m, s) && |ws| == 3 && 3 <= MaxDepth(m)
    requires m.numberTrigrams != 0 && ws[0] in m.dictionary && ws in s.trigramCache.entries
    ensures GetProbability(m, s, ws) == Success((s.trigramCache.entries[ws], s))
    ensures Uncached.GetProbability(m, ws) == Success(s.trigramCache.entries[ws])
  {
    GetProbabilityAgrees(m, s, ws);
  }

  /**
   * With a trigram cache of room at least one, the second query of a trigram
   * is served from the cache: same score, and no counter or buffer changes.
   */
  lemma {:induction false} SecondTrigramQueryIsCached(m: LanguageModel, s: LmState, ws: seq<Word>)
    requires Inv(m, s) && |ws| == 3 && 3 <= MaxDepth(m)
    requires m.numberTrigrams != 0 && ws[0] in m.dictionary && m.maxTrigramCacheSize >= 1
    requires GetProbability(m, s, ws).Success?
    ensures var first := GetProbability(m, s, ws).value;
      GetProbability(m, first.1, ws) == Success(first)
  {
    GetProbabilityAgrees(m, s, ws);
    var first := GetProbability(m, s, ws).value;
    if ws !in s.trigramCache.entries {
      var computed := TrigramScore(m, s, ws).value;
      GetAfterPut(computed.1.trigramCache, ws, computed.0);
    }
    CachedTrigram(m, first.1, ws);
  }

  /**
   * `getBigramProbability` past its early exit counts a miss exactly when the
   * bigram is not in the file, scoring it as the first word's back-off weight
   * plus the second word's unigram score; a found bigram scores its entry in
   * the bigram probability table.
   */
  lemma {:induction false} BigramMissCounted(m: LanguageModel, s: LmState, ws: seq<Word>)
    requires Inv(m, s) && |ws| == 2 && m.numberBigrams > 0 && ws[0] in m.dictionary
    requires GetBigramProbability(m, s, ws).Success?
    ensures var r := GetBigramProbability(m, s, ws).value;
      var found := Uncached.FindBigram(m, ws[0], ws[1]);
      && found.Success? && ws[1] in m.dictionary
      && (found.value.Some? ==>
            && r.1.bigramMisses == s.bigramMisses
            && 0 <= found.value.value.probId < |m.bigramProbTable|
            && r.0 == m.bigramProbTable[found.value.value.probId])
      && (found.value.None? ==>
            var firstWordId, secondWordId := m.dictionary[ws[0]].wordId, m.dictionary[ws[1]].wordId;
            && r.1.bigramMisses == s.bigramMisses + 1
            && 0 <= firstWordId < |m.unigrams| && 0 <= secondWordId < |m.unigrams|
            && r.0 == m.unigrams[firstWordId].logBackoff + m.unigrams[secondWordId].logProbability)
  {
    FindBigramAgrees(m, s, ws);
  }

  /**
   * The uncached branch of `getTrigramProbability` counts a hit exactly when
   * the trigram is in the file, scoring its entry in the trigram probability
   * table, and a miss otherwise, scoring by back-off.
   */
  lemma {:induction false} TrigramHitCounted(m: LanguageModel, s: LmState, ws: seq<Word>)
    requires Inv(m, s) && |ws| == 3 && m.numberTrigrams != 0 && ws[0] in m.dictionary
    requires ws !in s.trigramCache.entries
    requires GetTrigramProbability(m, s, ws).Success?
    ensures var r := GetTrigramProbability(m, s, ws).value;
      var found := Uncached.FindTrigram(m, ws[0], ws[1], ws[2]);
      && found.Success?
      && (found.value.Some? ==>
            && r.1.trigramHit == s.trigramHit + 1 && r.1.trigramMisses == s.trigramMisses
            && 0 <= found.value.value < |m.trigramProbTable|
            && r.0 == m.trigramProbTable[found.value.value])
      && (found.value.None? ==>
            && r.1.trigramMisses == s.trigramMisses + 1 && r.1.trigramHit == s.trigramHit
            && Uncached.TrigramBackoff(m, ws[0], ws[1], ws[2]) == Success(r.0))
  {
    FindTrigramAgrees(m, s, ws);
    TrigramScoreSteps(m, s, ws);
    TrigramScoreAgrees(m, s, ws);
    UncachedTrigramScoreSteps(m, ws[0], ws[1], ws[2]);
  }

  /**
   * An unknown second word of a bigram fails the word-id lookup of `findBigram`
   * before the "Bad word2" branch of the back-off could be reached.
   */
  lemma {:induction false} UnknownSecondWord(m: LanguageModel, s: LmState, w1: Word, w2: Word)
    requires Inv(m, s) && 2 <= MaxDepth(m) && m.numberBigrams > 0
    requires w1 in m.dictionary && w2 !in m.dictionary
    ensures Value(GetProbability(m, s, [w1, w2])) == Failure(NoWordId(w2))
  {
    GetProbabilityAgrees(m, s, [w1, w2]);
  }
  /**
   * Without bigrams in the file, or with an unknown first word, a bigram query
   * is the unigram query of its newest word, and the state is left alone.
   */
  lemma BigramEarlyExit(m: LanguageModel, s: LmState, w1: Word, w2: Word)
    requires WellFormed(m, s) && 2 <= MaxDepth(m)
    requires m.numberBigrams <= 0 || w1 !in m.dictionary
    ensures w2 in m.dictionary ==> GetProbability(m, s, [w1, w2]) == Success((m.dictionary[w2].logProbability, s))
    ensures w2 !in m.dictionary ==> GetProbability(m, s, [w1, w2]) == Failure(UnigramNotInLm(w2))
  {
  }

  /**
   * Without trigrams in the file, or with an unknown first word, a trigram
   * query is the bigram query of its newest two words, through neither the
   * trigram cache nor the trigram counters.
   */
  lemma {:induction false} TrigramEarlyExit(m: LanguageModel, s: LmState, w1: Word, w2: Word, w3: Word)
    requires WellFormed(m, s) && 3 <= MaxDepth(m)
    requires m.numberTrigrams == 0 || w1 !in m.dictionary
    ensures GetProbability(m, s, [w1, w2, w3]) == GetProbability(m, s, [w2, w3])
    ensures GetProbability(m, s, [w1, w2, w3]).Success? ==>
      var r := GetProbability(m, s, [w1, w2, w3]).value.1;
      r.trigramHit == s.trigramHit && r.trigramMisses == s.trigramMisses && r.trigramCache == s.trigramCache
  {
    assert [w1, w2, w3][1..] == [w2, w3];
  }
}

/**
 * Cache transparency of LargeTrigramModel.java: from any state satisfying the
 * invariant, a query answers exactly what the uncached model answers (the
 * same score or the same error) and leaves a state that again satisfies the
 * invariant. Hence a repeated query returns the first answer.
 */
module CacheTransparency {
  import opened Wrappers
  import opened NgramTables
  import opened LruCache
  import opened TrigramModel
  import Uncached

  /** The answer of a stateful query without the state it leaves. */
  function Value<T>(r: Result<(T, LmState), LmError>): Result<T, LmError> {
    match r
    case Success(p) => Success(p.0)
    case Failure(e) => Failure(e)
  }

  function Records(b: Option<BigramBuffer>): Option<seq<BigramRecord>> {
    match b
    case None => None
    case Some(buffer) => Some(buffer.records)
  }

  /** The state right after `allocate` satisfies the invariant. */
  lemma {:induction false} AllocateInv(m: LanguageModel)
    ensures Inv(m, Allocate(m))
  {
  }

  /** A change of the statistics alone keeps the invariant. */
  lemma {:induction false} InvIgnoresCounters(m: LanguageModel, s: LmState, bigramMisses: nat, trigramMisses: nat, trigramHit: nat)
    requires Inv(m, s)
    ensures Inv(m, s.(bigramMisses := bigramMisses, trigramMisses := trigramMisses, trigramHit := trigramHit))
  {
  }

  lemma {:induction false} GetBigramBufferAgrees(m: LanguageModel, s: LmState, wordId: int)
    requires Inv(m, s)
    ensures var r := GetBigramBuffer(m, s, wordId);
      && (r.Failure? ==> Uncached.Followers(m, wordId) == Failure(r.error))
      && (r.Success? ==> Uncached.Followers(m, wordId) == Success(Records(r.value.0)) && Inv(m, r.value.1))
  {
    var r := GetBigramBuffer(m, s, wordId);
    if r.Success? && s.loadedBigramBuffers[wordId].None? && r.value.0.Some? {
      var s1 := r.value.1;
      forall i | 0 <= i < |s1.loadedBigramBuffers| && s1.loadedBigramBuffers[i].Some?
        ensures Uncached.Followers(m, i) == Success(Some(s1.loadedBigramBuffers[i].value.records))
      {
        if i != wordId {
          assert s1.loadedBigramBuffers[i] == s.loadedBigramBuffers[i];
        }
      }
    }
  }

  /** Marking a loaded buffer used keeps the invariant. */
  lemma {:induction false} MarkUsedInv(m: LanguageModel, s: LmState, wordId: int, buffer: BigramBuffer)
    requires Inv(m, s) && 0 <= wordId < |s.loadedBigramBuffers|
    requires s.loadedBigramBuffers[wordId] == Some(buffer)
    ensures Inv(m, MarkBufferUsed(s, wordId, buffer))
  {
    var s2 := MarkBufferUsed(s, wordId, buffer);
    forall i | 0 <= i < |s2.loadedBigramBuffers| && s2.loadedBigramBuffers[i].Some?
      ensures Uncached.Followers(m, i) == Success(Some(s2.loadedBigramBuffers[i].value.records))
    {
      if i != wordId {
        assert s2.loadedBigramBuffers[i] == s.loadedBigramBuffers[i];
      }
    }
  }

  /** Caching a bigram the uncached search finds keeps the invariant. */
  lemma {:induction false} PutBigramInv(m: LanguageModel, s: LmState, ws: seq<Word>, bigram: BigramProbability)
    requires Inv(m, s) && |ws| == 2
    requires Uncached.FindBigram(m, ws[0], ws[1]) == Success(Some(bigram))
    ensures Inv(m, s.(bigramCache := Put(s.bigramCache, ws, bigram)))
  {
    PutEntries(s.bigramCache, ws, bigram);
  }

  /** Caching the uncached score of a trigram on the cached path keeps the invariant. */
  lemma {:induction false} PutTrigramInv(m: LanguageModel, s: LmState, ws: seq<Word>, score: real)
    requires Inv(m, s) && |ws| == 3 && m.numberTrigrams != 0 && ws[0] in m.dictionary
    requires Uncached.TrigramScore(m, ws[0], ws[1], ws[2]) == Success(score)
    ensures Inv(m, s.(trigramCache := Put(s.trigramCache, ws, score)))
  {
    PutEntries(s.trigramCache, ws, score);
  }

  /** How `findBigram` searches past the cache, stated once so that the proofs below need not unfold it. */
  lemma FindBigramSteps(m: LanguageModel, s: LmState, ws: seq<Word>)
    requires WellFormed(m, s) && |ws| == 2
    requires ws !in s.bigramCache.entries && ws[0] in m.dictionary && ws[1] in m.dictionary
    ensures var firstWordId, secondWordId := m.dictionary[ws[0]].wordId, m.dictionary[ws[1]].wordId;
      var loaded := GetBigramBuffer(m, s, firstWordId);
      && (loaded.Failure? ==> FindBigram(m, s, ws) == Failure(loaded.error))
      && (loaded.Success? && loaded.value.0.None? ==> FindBigram(m, s, ws) == Success((None, loaded.value.1)))
      && (loaded.Success? && loaded.value.0.Some? ==>
            var s2 := MarkBufferUsed(loaded.value.1, firstWordId, loaded.value.0.value);
            var bigram := FindFollower(loaded.value.0.value.records, secondWordId);
            && (bigram.None? ==> FindBigram(m, s, ws) == Success((None, s2)))
            && (bigram.Some? ==> FindBigram(m, s, ws) == Success((bigram, s2.(bigramCache := Put(s2.bigramCache, ws, bigram.value))))))
  {
  }

  lemma UncachedFindBigramSteps(m: LanguageModel, w1: Word, w2: Word)
    requires w1 in m.dictionary && w2 in m.dictionary
    ensures var followers := Uncached.Followers(m, m.dictionary[w1].wordId);
      && (followers.Failure? ==> Uncached.FindBigram(m, w1, w2) == Failure(followers.error))
      && (followers.Success? && followers.value.None? ==> Uncached.FindBigram(m, w1, w2) == Success(None))
      && (followers.Success? && followers.value.Some? ==>
            Uncached.FindBigram(m, w1, w2) == Success(FindFollower(followers.value.value, m.dictionary[w2].wordId)))
  {
  }

  /** `findBigram` answers what the uncached search answers. */
  lemma {:induction false} FindBigramAgrees(m: LanguageModel, s: LmState, ws: seq<Word>)
    requires Inv(m, s) && |ws| == 2
    ensures Value(FindBigram(m, s, ws)) == Uncached.FindBigram(m, ws[0], ws[1])
    ensures FindBigram(m, s, ws).Success? ==> Inv(m, FindBigram(m, s, ws).value.1)
  {
    if ws !in s.bigramCache.entries && ws[0] in m.dictionary && ws[1] in m.dictionary {
      var firstWordId := m.dictionary[ws[0]].wordId;
      var secondWordId := m.dictionary[ws[1]].wordId;
      FindBigramSteps(m, s, ws);
      UncachedFindBigramSteps(m, ws[0], ws[1]);
      GetBigramBufferAgrees(m, s, firstWordId);
      var loaded := GetBigramBuffer(m, s, firstWordId);
      if loaded.Success? && loaded.value.0.Some? {
        var buffer := loaded.value.0.value;
        var s1 := loaded.value.1;
        MarkUsedInv(m, s1, firstWordId, buffer);
        var s2 := MarkBufferUsed(s1, firstWordId, buffer);
        var bigram := FindFollower(buffer.records, secondWordId);
        if bigram.Some? {
          PutBigramInv(m, s2, ws, bigram.value);
        }
      }
    }
  }

  /** `getBigramProbability` answers what the uncached model answers. */
  lemma {:induction false} BigramProbabilityAgrees(m: LanguageModel, s: LmState, ws: seq<Word>)
    requires Inv(m, s) && |ws| == 2
    ensures Value(GetBigramProbability(m, s, ws)) == Uncached.GetBigramProbability(m, ws[0], ws[1])
    ensures GetBigramProbability(m, s, ws).Success? ==> Inv(m, GetBigramProbability(m, s, ws).value.1)
  {
    if !(m.numberBigrams <= 0 || ws[0] !in m.dictionary) {
      FindBigramAgrees(m, s, ws);
      BigramProbabilityCombines(m, s, ws);
      var found := FindBigram(m, s, ws);
      if found.Success? && found.value.0.None? {
        var s1 := found.value.1;
        InvIgnoresCounters(m, s1, s1.bigramMisses + 1, s1.trigramMisses, s1.trigramHit);
      }
    }
  }

  /** Past the early exit, the bigram probability agrees with the uncached one as soon as its lookup does. */
  lemma BigramProbabilityCombines(m: LanguageModel, s: LmState, ws: seq<Word>)
    requires WellFormed(m, s) && |ws| == 2 && m.numberBigrams > 0 && ws[0] in m.dictionary
    requires Value(FindBigram(m, s, ws)) == Uncached.FindBigram(m, ws[0], ws[1])
    ensures Value(GetBigramProbability(m, s, ws)) == Uncached.GetBigramProbability(m, ws[0], ws[1])
    ensures GetBigramProbability(m, s, ws).Success? ==>
      var s1 := FindBigram(m, s, ws).value.1;
      GetBigramProbability(m, s, ws).value.1 == if FindBigram(m, s, ws).value.0.Some? then s1 else CountBigramMiss(s1)
  {
    var found := FindBigram(m, s, ws);
    if found.Success? {
      assert Uncached.FindBigram(m, ws[0], ws[1]) == Success(found.value.0);
    }
  }

  lemma {:induction false} LoadTrigramBufferAgrees(m: LanguageModel, s: LmState, firstWordId: int, secondWordId: int)
    requires Inv(m, s)
    ensures Value(LoadTrigramBuffer(m, s, firstWordId, secondWordId)) == Uncached.TrigramFollowers(m, firstWordId, secondWordId)
    ensures LoadTrigramBuffer(m, s, firstWordId, secondWordId).Success? ==>
      Inv(m, LoadTrigramBuffer(m, s, firstWordId, secondWordId).value.1)
  {
    GetBigramBufferAgrees(m, s, firstWordId);
  }

  /** Keeping a trigram buffer a fresh load gives keeps the invariant. */
  lemma {:induction false} StoreTrigramBufferInv(m: LanguageModel, s: LmState, oldest: seq<Word>, trigrams: seq<TrigramRecord>)
    requires Inv(m, s) && |oldest| == 2
    requires Uncached.TrigramBuffer(m, oldest[0], oldest[1]) == Success(Some(trigrams))
    ensures Inv(m, s.(loadedTrigramBuffer := s.loadedTrigramBuffer[oldest := trigrams]))
  {
  }

  /** How a trigram buffer is found or loaded, stated once so that the proofs below need not unfold it. */
  lemma TrigramBufferOfSteps(m: LanguageModel, s: LmState, oldest: seq<Word>)
    requires WellFormed(m, s) && |oldest| == 2
    requires oldest !in s.loadedTrigramBuffer && oldest[0] in m.dictionary && oldest[1] in m.dictionary
    ensures var loaded := LoadTrigramBuffer(m, s, m.dictionary[oldest[0]].wordId, m.dictionary[oldest[1]].wordId);
      && (loaded.Failure? ==> TrigramBufferOf(m, s, oldest) == Failure(loaded.error))
      && (loaded.Success? && loaded.value.0.None? ==> TrigramBufferOf(m, s, oldest) == loaded)
      && (loaded.Success? && loaded.value.0.Some? ==>
            TrigramBufferOf(m, s, oldest)
              == Success((loaded.value.0, loaded.value.1.(loadedTrigramBuffer :=
                           loaded.value.1.loadedTrigramBuffer[oldest := loaded.value.0.value]))))
    ensures Uncached.TrigramBuffer(m, oldest[0], oldest[1])
      == Uncached.TrigramFollowers(m, m.dictionary[oldest[0]].wordId, m.dictionary[oldest[1]].wordId)
  {
  }

  lemma {:induction false} TrigramBufferOfAgrees(m: LanguageModel, s: LmState, oldest: seq<Word>)
    requires Inv(m, s) && |oldest| == 2
    ensures Value(TrigramBufferOf(m, s, oldest)) == Uncached.TrigramBuffer(m, oldest[0], oldest[1])
    ensures TrigramBufferOf(m, s, oldest).Success? ==> Inv(m, TrigramBufferOf(m, s, oldest).value.1)
  {
    if oldest !in s.loadedTrigramBuffer && oldest[0] in m.dictionary && oldest[1] in m.dictionary {
      var firstWordId := m.dictionary[oldest[0]].wordId;
      var secondWordId := m.dictionary[oldest[1]].wordId;
      TrigramBufferOfSteps(m, s, oldest);
      LoadTrigramBufferAgrees(m, s, firstWordId, secondWordId);
      var loaded := LoadTrigramBuffer(m, s, firstWordId, secondWordId);
      if loaded.Success? && loaded.value.0.Some? {
        StoreTrigramBufferInv(m, loaded.value.1, oldest, loaded.value.0.value);
      }
    }
  }

  /** `findTrigram` answers what the uncached search answers. */
  lemma {:induction false} FindTrigramAgrees(m: LanguageModel, s: LmState, ws: seq<Word>)
    requires Inv(m, s) && |ws| == 3
    ensures Value(FindTrigram(m, s, ws)) == Uncached.FindTrigram(m, ws[0], ws[1], ws[2])
    ensures FindTrigram(m, s, ws).Success? ==> Inv(m, FindTrigram(m, s, ws).value.1)
  {
    var oldest := ws[..2];
    assert oldest[0] == ws[0] && oldest[1] == ws[1];
    TrigramBufferOfAgrees(m, s, oldest);
    var loaded := TrigramBufferOf(m, s, oldest);
    var expected := Uncached.TrigramBuffer(m, ws[0], ws[1]);
    assert Value(loaded) == expected;
    if loaded.Failure? {
      assert expected.Failure?;
      assert FindTrigram(m, s, ws) == Failure(loaded.error);
    } else if loaded.value.0.None? {
      assert FindTrigram(m, s, ws) == Success((None, loaded.value.1));
    } else {
      assert expected == Success(loaded.value.0);
    }
  }

  /** How the back-off branch composes its steps, stated once so that the proofs below need not unfold it. */
  lemma TrigramBackoffSteps(m: LanguageModel, s: LmState, ws: seq<Word>)
    requires WellFormed(m, s) && |ws| == 3
    ensures var oldest := FindBigram(m, s, ws[..2]);
      && (oldest.Failure? ==> TrigramBackoff(m, s, ws) == Failure(oldest.error))
      && (oldest.Success? && oldest.value.0.None? ==>
            TrigramBackoff(m, s, ws) == GetBigramProbability(m, oldest.value.1, ws[1..]))
      && (oldest.Success? && oldest.value.0.Some? ==>
            var backoff := At(m.trigramBackoffTable, oldest.value.0.value.backoffId);
            var newest := GetBigramProbability(m, oldest.value.1, ws[1..]);
            && (backoff.Failure? ==> TrigramBackoff(m, s, ws) == Failure(backoff.error))
            && (backoff.Success? && newest.Failure? ==> TrigramBackoff(m, s, ws) == Failure(newest.error))
            && (backoff.Success? && newest.Success? ==>
                  TrigramBackoff(m, s, ws) == Success((backoff.value + newest.value.0, newest.value.1))))
  {
    var oldest := FindBigram(m, s, ws[..2]);
    if oldest.Success? && oldest.value.0.Some? {
      var backoff := At(m.trigramBackoffTable, oldest.value.0.value.backoffId);
      var newest := GetBigramProbability(m, oldest.value.1, ws[1..]);
      if backoff.Success? && newest.Success? {
        assert TrigramBackoff(m, s, ws) == Success((backoff.value + newest.value.0, newest.value.1));
      }
    }
  }

  lemma UncachedTrigramBackoffSteps(m: LanguageModel, w1: Word, w2: Word, w3: Word)
    ensures var oldest := Uncached.FindBigram(m, w1, w2);
      && (oldest.Failure? ==> Uncached.TrigramBackoff(m, w1, w2, w3) == Failure(oldest.error))
      && (oldest.Success? && oldest.value.None? ==>
            Uncached.TrigramBackoff(m, w1, w2, w3) == Uncached.GetBigramProbability(m, w2, w3))
      && (oldest.Success? && oldest.value.Some? ==>
            var backoff := At(m.trigramBackoffTable, oldest.value.value.backoffId);
            var newest := Uncached.GetBigramProbability(m, w2, w3);
            && (backoff.Failure? ==> Uncached.TrigramBackoff(m, w1, w2, w3) == Failure(backoff.error))
            && (backoff.Success? && newest.Failure? ==> Uncached.TrigramBackoff(m, w1, w2, w3) == Failure(newest.error))
            && (backoff.Success? && newest.Success? ==>
                  Uncached.TrigramBackoff(m, w1, w2, w3) == Success(backoff.value + newest.value)))
  {
    var oldest := Uncached.FindBigram(m, w1, w2);
    if oldest.Success? && oldest.value.Some? {
      var backoff := At(m.trigramBackoffTable, oldest.value.value.backoffId);
      var newest := Uncached.GetBigramProbability(m, w2, w3);
      if backoff.Success? && newest.Success? {
        assert Uncached.TrigramBackoff(m, w1, w2, w3) == Success(backoff.value + newest.value);
      }
    }
  }

  /**
   * The back-off branch agrees with the uncached one as soon as its two steps do: the
   * bigram lookup of the oldest pair and the bigram probability of the newest pair.
   */
  lemma TrigramBackoffCombines(m: LanguageModel, s: LmState, ws: seq<Word>)
    requires WellFormed(m, s) && |ws| == 3
    requires Value(FindBigram(m, s, ws[..2])) == Uncached.FindBigram(m, ws[0], ws[1])
    requires FindBigram(m, s, ws[..2]).Success? ==>
      Value(GetBigramProbability(m, FindBigram(m, s, ws[..2]).value.1, ws[1..]))
        == Uncached.GetBigramProbability(m, ws[1], ws[2])
    ensures Value(TrigramBackoff(m, s, ws)) == Uncached.TrigramBackoff(m, ws[0], ws[1], ws[2])
    ensures TrigramBackoff(m, s, ws).Success? ==>
      TrigramBackoff(m, s, ws).value.1 == GetBigramProbability(m, FindBigram(m, s, ws[..2]).value.1, ws[1..]).value.1
  {
    TrigramBackoffSteps(m, s, ws);
    UncachedTrigramBackoffSteps(m, ws[0], ws[1], ws[2]);
    var oldest := FindBigram(m, s, ws[..2]);
    if oldest.Success? {
      var newest := GetBigramProbability(m, oldest.value.1, ws[1..]);
      var uncachedNewest := Uncached.GetBigramProbability(m, ws[1], ws[2]);
      assert Value(newest) == uncachedNewest;
      if oldest.value.0.Some? {
        assert Uncached.FindBigram(m, ws[0], ws[1]) == Success(oldest.value.0);
        var backoff := At(m.trigramBackoffTable, oldest.value.0.value.backoffId);
        if backoff.Success? && newest.Success? {
          assert uncachedNewest == Success(newest.value.0);
          assert Uncached.TrigramBackoff(m, ws[0], ws[1], ws[2]) == Success(backoff.value + newest.value.0);
        }
      }
    }
  }

  /** The back-off branch of `getTrigramProbability` answers what the uncached model answers. */
  lemma {:induction false} TrigramBackoffAgrees(m: LanguageModel, s: LmState, ws: seq<Word>)
    requires Inv(m, s) && |ws| == 3
    ensures Value(TrigramBackoff(m, s, ws)) == Uncached.TrigramBackoff(m, ws[0], ws[1], ws[2])
    ensures TrigramBackoff(m, s, ws).Success? ==> Inv(m, TrigramBackoff(m, s, ws).value.1)
  {
    var oldestWords, newestWords := ws[..2], ws[1..];
    assert oldestWords[0] == ws[0] && oldestWords[1] == ws[1];
    assert newestWords[0] == ws[1] && newestWords[1] == ws[2];
    FindBigramAgrees(m, s, oldestWords);
    var oldest := FindBigram(m, s, oldestWords);
    if oldest.Success? {
      BigramProbabilityAgrees(m, oldest.value.1, newestWords);
    }
    TrigramBackoffCombines(m, s, ws);
  }

  /** How the trigram score composes its steps. */
  lemma TrigramScoreSteps(m: LanguageModel, s: LmState, ws: seq<Word>)
    requires WellFormed(m, s) && |ws| == 3
    ensures var found := FindTrigram(m, s, ws);
      && (found.Failure? ==> TrigramScore(m, s, ws) == Failure(found.error))
      && (found.Success? && found.value.0.Some? ==>
            var score := At(m.trigramProbTable, found.value.0.value);
            && (score.Failure? ==> TrigramScore(m, s, ws) == Failure(score.error))
            && (score.Success? ==>
                  TrigramScore(m, s, ws) == Success((score.value, CountTrigramHit(found.value.1)))))
      && (found.Success? && found.value.0.None? ==>
            TrigramScore(m, s, ws)
              == TrigramBackoff(m, CountTrigramMiss(found.value.1), ws))
  {
  }

  lemma UncachedTrigramScoreSteps(m: LanguageModel, w1: Word, w2: Word, w3: Word)
    ensures var found := Uncached.FindTrigram(m, w1, w2, w3);
      && (found.Failure? ==> Uncached.TrigramScore(m, w1, w2, w3) == Failure(found.error))
      && (found.Success? && found.value.Some? ==>
            Uncached.TrigramScore(m, w1, w2, w3) == At(m.trigramProbTable, found.value.value))
      && (found.Success? && found.value.None? ==>
            Uncached.TrigramScore(m, w1, w2, w3) == Uncached.TrigramBackoff(m, w1, w2, w3))
  {
  }

  /** The trigram score agrees with the uncached one as soon as its lookup and its back-off do. */
  lemma TrigramScoreCombines(m: LanguageModel, s: LmState, ws: seq<Word>)
    requires WellFormed(m, s) && |ws| == 3
    requires Value(FindTrigram(m, s, ws)) == Uncached.FindTrigram(m, ws[0], ws[1], ws[2])
    requires FindTrigram(m, s, ws).Success? && FindTrigram(m, s, ws).value.0.None? ==>
      var s1 := FindTrigram(m, s, ws).value.1;
      Value(TrigramBackoff(m, CountTrigramMiss(s1), ws))
        == Uncached.TrigramBackoff(m, ws[0], ws[1], ws[2])
    ensures Value(TrigramScore(m, s, ws)) == Uncached.TrigramScore(m, ws[0], ws[1], ws[2])
    ensures TrigramScore(m, s, ws).Success? ==>
      var s1 := FindTrigram(m, s, ws).value.1;
      (if FindTrigram(m, s, ws).value.0.Some?
       then TrigramScore(m, s, ws).value.1 == CountTrigramHit(s1)
       else TrigramScore(m, s, ws).value.1
              == TrigramBackoff(m, CountTrigramMiss(s1), ws).value.1)
  {
    TrigramScoreSteps(m, s, ws);
    UncachedTrigramScoreSteps(m, ws[0], ws[1], ws[2]);
  }

  /** The uncached branch of `getTrigramProbability`, before caching, answers what the uncached model answers. */
  lemma {:induction false} TrigramScoreAgrees(m: LanguageModel, s: LmState, ws: seq<Word>)
    requires Inv(m, s) && |ws| == 3
    ensures Value(TrigramScore(m, s, ws)) == Uncached.TrigramScore(m, ws[0], ws[1], ws[2])
    ensures TrigramScore(m, s, ws).Success? ==> Inv(m, TrigramScore(m, s, ws).value.1)
  {
    FindTrigramAgrees(m, s, ws);
    var found := FindTrigram(m, s, ws);
    if found.Success? {
      var s1 := found.value.1;
      if found.value.0.Some? {
        InvIgnoresCounters(m, s1, s1.bigramMisses, s1.trigramMisses, s1.trigramHit + 1);
      } else {
        InvIgnoresCounters(m, s1, s1.bigramMisses, s1.trigramMisses + 1, s1.trigramHit);
        TrigramBackoffAgrees(m, CountTrigramMiss(s1), ws);
      }
    }
    TrigramScoreCombines(m, s, ws);
  }

  /** `getTrigramProbability` answers what the uncached model answers. */
  lemma {:induction false} TrigramProbabilityAgrees(m: LanguageModel, s: LmState, ws: seq<Word>)
    requires Inv(m, s) && |ws| == 3
    ensures Value(GetTrigramProbability(m, s, ws)) == Uncached.GetTrigramProbability(m, ws[0], ws[1], ws[2])
    ensures GetTrigramProbability(m, s, ws).Success? ==> Inv(m, GetTrigramProbability(m, s, ws).value.1)
  {
    if m.numberTrigrams == 0 || ws[0] !in m.dictionary {
      assert ws[1..][0] == ws[1] && ws[1..][1] == ws[2];
      BigramProbabilityAgrees(m, s, ws[1..]);
    } else if ws !in s.trigramCache.entries {
      TrigramScoreAgrees(m, s, ws);
      var computed := TrigramScore(m, s, ws);
      if computed.Success? {
        PutTrigramInv(m, computed.value.1, ws, computed.value.0);
      }
    }
  }

  /**
   * Cache transparency of `getProbability`: from a state satisfying the
   * invariant it answers what the uncached model answers, and keeps the invariant.
   */
  lemma {:induction false} GetProbabilityAgrees(m: LanguageModel, s: LmState, ws: seq<Word>)
    requires Inv(m, s)
    ensures Value(GetProbability(m, s, ws)) == Uncached.GetProbability(m, ws)
    ensures GetProbability(m, s, ws).Success? ==> Inv(m, GetProbability(m, s, ws).value.1)
  {
    if |ws| <= MaxDepth(m) {
      if |ws| == 3 {
        TrigramProbabilityAgrees(m, s, ws);
      } else if |ws| == 2 {
        BigramProbabilityAgrees(m, s, ws);
      }
    }
  }
}

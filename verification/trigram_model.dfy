/**
 * The query side of LargeTrigramModel.java with its working state: the
 * hit/miss statistics, the bigram and trigram caches, the bigram buffers
 * loaded per word and the trigram buffers loaded per bigram. Every query is a
 * function from the immutable model and a state to a score and the next
 * state; a thrown error is a Failure and the state it leaves is not modelled.
 */
module TrigramModel {
  import opened Wrappers
  import opened NgramTables
  import opened LruCache
  import Uncached

  /** A word's loaded bigram records and whether they were used during the current utterance. */
  datatype BigramBuffer = BigramBuffer(records: seq<BigramRecord>, used: bool)

  /** The statistics and working data of the model between calls. */
  datatype LmState = LmState(
    bigramMisses: nat,
    trigramMisses: nat,
    trigramHit: nat,
    loadedBigramBuffers: seq<Option<BigramBuffer>>,
    loadedTrigramBuffer: map<seq<Word>, seq<TrigramRecord>>,
    trigramCache: Cache<seq<Word>, real>,
    bigramCache: Cache<seq<Word>, BigramProbability>)

  /** The three statistics counters: bigram misses, trigram misses, trigram hits. */
  function Counters(s: LmState): (int, int, int) {
    (s.bigramMisses, s.trigramMisses, s.trigramHit)
  }

  /** The state after a search in the loaded bigram buffer of `wordId`, which marks it used. */
  function MarkBufferUsed(s: LmState, wordId: int, buffer: BigramBuffer): LmState
    requires 0 <= wordId < |s.loadedBigramBuffers|
  {
    s.(loadedBigramBuffers := s.loadedBigramBuffers[wordId := Some(buffer.(used := true))])
  }

  /** The state after one more bigram miss. */
  function CountBigramMiss(s: LmState): LmState {
    s.(bigramMisses := s.bigramMisses + 1)
  }

  /** The state after one more trigram hit. */
  function CountTrigramHit(s: LmState): LmState {
    s.(trigramHit := s.trigramHit + 1)
  }

  /** The state after one more trigram miss. */
  function CountTrigramMiss(s: LmState): LmState {
    s.(trigramMisses := s.trigramMisses + 1)
  }

  /** The shape `allocate` gives the state: one buffer slot per unigram, well-formed caches. */
  ghost predicate WellFormed(m: LanguageModel, s: LmState) {
    && |s.loadedBigramBuffers| == |m.unigrams|
    && Valid(s.bigramCache)
    && Valid(s.trigramCache)
  }

  /** The state right after `allocate`: nothing loaded or cached, all counters zero. */
  function Allocate(m: LanguageModel): (s: LmState)
    ensures WellFormed(m, s)
    ensures forall i :: 0 <= i < |s.loadedBigramBuffers| ==> s.loadedBigramBuffers[i] == None
    ensures Counters(s) == (0, 0, 0)
    ensures s.loadedTrigramBuffer == map[]
    ensures s.bigramCache.entries == map[] && s.bigramCache.maxSize == m.maxBigramCacheSize
    ensures s.trigramCache.entries == map[] && s.trigramCache.maxSize == m.maxTrigramCacheSize
  {
    LmState(0, 0, 0, seq(|m.unigrams|, _ => None), map[],
            Empty(m.maxTrigramCacheSize), Empty(m.maxBigramCacheSize))
  }

  /**
   * `getBigramBuffer`: the word's loaded buffer, or a freshly loaded one that
   * is then kept, or None when the word has no followers.
   */
  function GetBigramBuffer(m: LanguageModel, s: LmState, wordId: int): (r: Result<(Option<BigramBuffer>, LmState), LmError>)
    requires WellFormed(m, s)
    ensures r.Success? ==> 0 <= wordId < |m.unigrams| && WellFormed(m, r.value.1)
    ensures r.Success? ==> (Counters(r.value.1) == Counters(s)
      && r.value.1.bigramCache == s.bigramCache && r.value.1.trigramCache == s.trigramCache
      && r.value.1.loadedTrigramBuffer == s.loadedTrigramBuffer)
    ensures r.Success? && r.value.0.Some? ==> r.value.1.loadedBigramBuffers[wordId] == r.value.0
    ensures r.Success? ==> forall i :: 0 <= i < |s.loadedBigramBuffers| && i != wordId ==>
      r.value.1.loadedBigramBuffers[i] == s.loadedBigramBuffers[i]
  {
    if !(0 <= wordId < |s.loadedBigramBuffers|) then Failure(IndexOutOfRange(wordId))
    else match s.loadedBigramBuffers[wordId]
      case Some(buffer) => Success((Some(buffer), s))
      case None =>
        var numberBigrams := NumberBigramFollowers(m, wordId);
        if numberBigrams > 0 then
          var records :- LoadBigramRecords(m, wordId, numberBigrams);
          var buffer := BigramBuffer(records, false);
          Success((Some(buffer), s.(loadedBigramBuffers := s.loadedBigramBuffers[wordId := Some(buffer)])))
        else
          Success((None, s))
  }

  /**
   * `findBigram`: a cached bigram, or a search of the first word's buffer,
   * which marks the buffer used; a bigram that is found is cached.
   */
  function FindBigram(m: LanguageModel, s: LmState, ws: seq<Word>): (r: Result<(Option<BigramProbability>, LmState), LmError>)
    requires WellFormed(m, s) && |ws| == 2
    ensures r.Success? ==> (WellFormed(m, r.value.1) && Counters(r.value.1) == Counters(s)
      && r.value.1.trigramCache == s.trigramCache && r.value.1.loadedTrigramBuffer == s.loadedTrigramBuffer)
    ensures ws in s.bigramCache.entries ==> r == Success((Some(s.bigramCache.entries[ws]), s))
  {
    if ws in s.bigramCache.entries then Success((Some(s.bigramCache.entries[ws]), s))
    else
      var firstWordId :- WordId(m, ws[0]);
      var secondWordId :- WordId(m, ws[1]);
      var loaded :- GetBigramBuffer(m, s, firstWordId);
      var s1 := loaded.1;
      match loaded.0
      case None => Success((None, s1))
      case Some(buffer) =>
        var s2 := MarkBufferUsed(s1, firstWordId, buffer);
        var bigram := FindFollower(buffer.records, secondWordId);
        if bigram.Some? then Success((bigram, s2.(bigramCache := Put(s2.bigramCache, ws, bigram.value))))
        else Success((None, s2))
  }

  /**
   * `getBigramProbability`: with no bigrams in the model or an unknown first
   * word, the unigram score of the newest word; otherwise the bigram's score,
   * or on a miss the back-off score, counted as a bigram miss.
   */
  function GetBigramProbability(m: LanguageModel, s: LmState, ws: seq<Word>): (r: Result<(real, LmState), LmError>)
    requires WellFormed(m, s) && |ws| == 2
    ensures r.Success? ==> (WellFormed(m, r.value.1)
      && r.value.1.trigramMisses == s.trigramMisses && r.value.1.trigramHit == s.trigramHit
      && r.value.1.trigramCache == s.trigramCache && r.value.1.loadedTrigramBuffer == s.loadedTrigramBuffer
      && s.bigramMisses <= r.value.1.bigramMisses <= s.bigramMisses + 1)
  {
    if m.numberBigrams <= 0 || ws[0] !in m.dictionary then
      var score :- Uncached.GetUnigramProbability(m, ws[1]);
      Success((score, s))
    else
      var found :- FindBigram(m, s, ws);
      var s1 := found.1;
      match found.0
      case Some(bigram) =>
        var score :- At(m.bigramProbTable, bigram.probId);
        Success((score, s1))
      case None =>
        var score :- Uncached.BackoffScore(m, ws[0], ws[1]);
        Success((score, CountBigramMiss(s1)))
  }

  /**
   * `loadTrigramBuffer`: the trigram followers of the bigram of the two word
   * ids, read through the first word's (possibly newly loaded) bigram buffer.
   */
  function LoadTrigramBuffer(m: LanguageModel, s: LmState, firstWordId: int, secondWordId: int)
    : (r: Result<(Option<seq<TrigramRecord>>, LmState), LmError>)
    requires WellFormed(m, s)
    ensures r.Success? ==> (WellFormed(m, r.value.1) && Counters(r.value.1) == Counters(s)
      && r.value.1.bigramCache == s.bigramCache && r.value.1.trigramCache == s.trigramCache
      && r.value.1.loadedTrigramBuffer == s.loadedTrigramBuffer)
  {
    var loaded :- GetBigramBuffer(m, s, firstWordId);
    match loaded.0
    case None => Success((None, loaded.1))
    case Some(buffer) =>
      var trigrams :- TrigramRecordsOf(m, firstWordId, buffer.records, secondWordId);
      Success((trigrams, loaded.1))
  }

  /** The trigram buffer of the bigram `oldest`: the one kept from earlier, or one loaded and kept now. */
  function TrigramBufferOf(m: LanguageModel, s: LmState, oldest: seq<Word>)
    : (r: Result<(Option<seq<TrigramRecord>>, LmState), LmError>)
    requires WellFormed(m, s) && |oldest| == 2
    ensures r.Success? ==> (WellFormed(m, r.value.1) && Counters(r.value.1) == Counters(s)
      && r.value.1.bigramCache == s.bigramCache && r.value.1.trigramCache == s.trigramCache)
  {
    if oldest in s.loadedTrigramBuffer then Success((Some(s.loadedTrigramBuffer[oldest]), s))
    else
      var firstWordId :- WordId(m, oldest[0]);
      var secondWordId :- WordId(m, oldest[1]);
      var loaded :- LoadTrigramBuffer(m, s, firstWordId, secondWordId);
      match loaded.0
      case None => Success((None, loaded.1))
      case Some(trigrams) =>
        Success((loaded.0, loaded.1.(loadedTrigramBuffer := loaded.1.loadedTrigramBuffer[oldest := trigrams])))
  }

  /** `findTrigram`: the probability id of the trigram, None for Java's -1. */
  function FindTrigram(m: LanguageModel, s: LmState, ws: seq<Word>): (r: Result<(Option<int>, LmState), LmError>)
    requires WellFormed(m, s) && |ws| == 3
    ensures r.Success? ==> (WellFormed(m, r.value.1) && Counters(r.value.1) == Counters(s)
      && r.value.1.bigramCache == s.bigramCache && r.value.1.trigramCache == s.trigramCache)
  {
    var loaded :- TrigramBufferOf(m, s, ws[..2]);
    match loaded.0
    case None => Success((None, loaded.1))
    case Some(trigrams) =>
      var thirdWordId :- WordId(m, ws[2]);
      Success((FindProbabilityId(trigrams, thirdWordId), loaded.1))
  }

  /**
   * The back-off branch of `getTrigramProbability`: the back-off weight of
   * the oldest bigram, when it is found, plus the bigram score of the newest two words.
   */
  function TrigramBackoff(m: LanguageModel, s: LmState, ws: seq<Word>): (r: Result<(real, LmState), LmError>)
    requires WellFormed(m, s) && |ws| == 3
    ensures r.Success? ==> (WellFormed(m, r.value.1) && r.value.1.trigramCache == s.trigramCache
      && r.value.1.trigramHit == s.trigramHit && r.value.1.trigramMisses == s.trigramMisses)
  {
    var oldest :- FindBigram(m, s, ws[..2]);
    var s1 := oldest.1;
    match oldest.0
    case Some(bigram) =>
      var backoff :- At(m.trigramBackoffTable, bigram.backoffId);
      var newest :- GetBigramProbability(m, s1, ws[1..]);
      Success((backoff + newest.0, newest.1))
    case None =>
      GetBigramProbability(m, s1, ws[1..])
  }

  /**
   * The uncached branch of `getTrigramProbability`: a trigram found in the
   * file is a hit; otherwise a miss, scored by back-off.
   */
  function TrigramScore(m: LanguageModel, s: LmState, ws: seq<Word>): (r: Result<(real, LmState), LmError>)
    requires WellFormed(m, s) && |ws| == 3
    ensures r.Success? ==> WellFormed(m, r.value.1) && r.value.1.trigramCache == s.trigramCache
    ensures r.Success? ==> var s' := r.value.1;
      || (s'.trigramHit == s.trigramHit + 1 && s'.trigramMisses == s.trigramMisses)
      || (s'.trigramHit == s.trigramHit && s'.trigramMisses == s.trigramMisses + 1)
  {
    var found :- FindTrigram(m, s, ws);
    var s1 := found.1;
    match found.0
    case Some(probId) =>
      var score :- At(m.trigramProbTable, probId);
      Success((score, CountTrigramHit(s1)))
    case None =>
      TrigramBackoff(m, CountTrigramMiss(s1), ws)
  }

  /**
   * `getTrigramProbability`: with no trigrams in the model or an unknown first
   * word, the bigram score of the newest two words; otherwise the cached
   * score, or the computed score, which is then cached.
   */
  function GetTrigramProbability(m: LanguageModel, s: LmState, ws: seq<Word>): (r: Result<(real, LmState), LmError>)
    requires WellFormed(m, s) && |ws| == 3
    ensures r.Success? ==> WellFormed(m, r.value.1)
  {
    if m.numberTrigrams == 0 || ws[0] !in m.dictionary then GetBigramProbability(m, s, ws[1..])
    else if ws in s.trigramCache.entries then Success((s.trigramCache.entries[ws], s))
    else
      var computed :- TrigramScore(m, s, ws);
      var s1 := computed.1;
      Success((computed.0, s1.(trigramCache := Put(s1.trigramCache, ws, computed.0))))
  }

  /** `getProbability`: dispatch on the number of words, within the model's depth. */
  function GetProbability(m: LanguageModel, s: LmState, ws: seq<Word>): (r: Result<(real, LmState), LmError>)
    requires WellFormed(m, s)
    ensures r.Success? ==> WellFormed(m, r.value.1)
    ensures !(1 <= |ws| <= 3 && |ws| <= MaxDepth(m)) ==> r == Failure(UnsupportedNgram(|ws|))
    ensures |ws| == 1 && 1 <= MaxDepth(m) ==> r.Success? == (ws[0] in m.dictionary)
    ensures r.Success? && |ws| == 1 ==> r.value == (m.dictionary[ws[0]].logProbability, s)
  {
    if |ws| <= MaxDepth(m) then
      if |ws| == 3 then GetTrigramProbability(m, s, ws)
      else if |ws| == 2 then GetBigramProbability(m, s, ws)
      else if |ws| == 1 then
        var score :- Uncached.GetUnigramProbability(m, ws[0]);
        Success((score, s))
      else Failure(UnsupportedNgram(|ws|))
    else
      Failure(UnsupportedNgram(|ws|))
  }

  // ---------------------------------------------------------------------
  // What the working state may hold
  // ---------------------------------------------------------------------

  /** A kept bigram buffer: the followers a fresh load of word `wordId` reads. */
  ghost predicate BufferFaithful(m: LanguageModel, wordId: int, buffer: BigramBuffer) {
    Uncached.Followers(m, wordId) == Success(Some(buffer.records))
  }

  /** Every loaded bigram buffer holds what a fresh load of that word would give. */
  ghost predicate BuffersFaithful(m: LanguageModel, buffers: seq<Option<BigramBuffer>>) {
    forall i :: 0 <= i < |buffers| && buffers[i].Some? ==> BufferFaithful(m, i, buffers[i].value)
  }

  /** A bigram cache entry: the pair the uncached search finds it for. */
  ghost predicate BigramEntryFaithful(m: LanguageModel, ws: seq<Word>, bigram: BigramProbability) {
    |ws| == 2 && Uncached.FindBigram(m, ws[0], ws[1]) == Success(Some(bigram))
  }

  /** Every cached bigram is one the uncached search finds (misses are never cached). */
  ghost predicate BigramCacheFaithful(m: LanguageModel, c: Cache<seq<Word>, BigramProbability>) {
    forall ws :: ws in c.entries ==> BigramEntryFaithful(m, ws, c.entries[ws])
  }

  /** A kept trigram buffer: the trigram records a fresh load for the pair reads. */
  ghost predicate TrigramBufferFaithful(m: LanguageModel, ws: seq<Word>, records: seq<TrigramRecord>) {
    |ws| == 2 && Uncached.TrigramBuffer(m, ws[0], ws[1]) == Success(Some(records))
  }

  /** Every kept trigram buffer is the one a fresh load of its bigram would give. */
  ghost predicate TrigramBuffersFaithful(m: LanguageModel, buffers: map<seq<Word>, seq<TrigramRecord>>) {
    forall ws :: ws in buffers ==> TrigramBufferFaithful(m, ws, buffers[ws])
  }

  /** A trigram cache entry: the uncached score of a trigram that reaches the cache. */
  ghost predicate TrigramEntryFaithful(m: LanguageModel, ws: seq<Word>, score: real) {
    && |ws| == 3 && m.numberTrigrams != 0 && ws[0] in m.dictionary
    && Uncached.TrigramScore(m, ws[0], ws[1], ws[2]) == Success(score)
  }

  /** Every cached trigram score is the uncached score of a trigram that takes the cached path. */
  ghost predicate TrigramCacheFaithful(m: LanguageModel, c: Cache<seq<Word>, real>) {
    forall ws :: ws in c.entries ==> TrigramEntryFaithful(m, ws, c.entries[ws])
  }

  /** The invariant of the working state: well-formed, bounded caches, and faithful contents. */
  ghost predicate Inv(m: LanguageModel, s: LmState) {
    && WellFormed(m, s)
    && s.bigramCache.maxSize == m.maxBigramCacheSize
    && s.trigramCache.maxSize == m.maxTrigramCacheSize
    && Bounded(s.bigramCache)
    && Bounded(s.trigramCache)
    && BuffersFaithful(m, s.loadedBigramBuffers)
    && BigramCacheFaithful(m, s.bigramCache)
    && TrigramBuffersFaithful(m, s.loadedTrigramBuffer)
    && TrigramCacheFaithful(m, s.trigramCache)
  }

  // ---------------------------------------------------------------------
  // End of utterance
  // ---------------------------------------------------------------------

  /**
   * The loop of `clearCache` over the loaded bigram buffers: a buffer not used
   * since the last clear is freed, a used one is kept and marked unused.
   */
  method ClearBigramBuffers(buffers: seq<Option<BigramBuffer>>) returns (released: seq<Option<BigramBuffer>>)
    ensures |released| == |buffers|
    ensures forall i :: 0 <= i < |buffers| ==>
      (released[i].Some? <==> buffers[i].Some? && buffers[i].value.used)
    ensures forall i :: 0 <= i < |buffers| && released[i].Some? ==>
      released[i].value.records == buffers[i].value.records && !released[i].value.used
  {
    released := buffers;
    var i := 0;
    while i < |released|
      invariant 0 <= i <= |released| == |buffers|
      invariant forall j :: 0 <= j < i ==> (released[j].Some? <==> buffers[j].Some? && buffers[j].value.used)
      invariant forall j :: 0 <= j < i && released[j].Some? ==>
        released[j].value.records == buffers[j].value.records && !released[j].value.used
      invariant forall j :: i <= j < |released| ==> released[j] == buffers[j]
    {
      match released[i] {
        case None =>
        case Some(buffer) =>
          if !buffer.used {
            released := released[i := None];
          } else {
            released := released[i := Some(buffer.(used := false))];
          }
      }
      i := i + 1;
    }
  }

  /**
   * `clearCache`, called when an utterance ends: releases unused bigram
   * buffers, forgets every trigram buffer, and replaces both caches with
   * empty ones only when `clearCacheAfterUtterance` is set.
   */
  method ClearCache(m: LanguageModel, s: LmState) returns (r: LmState)
    requires WellFormed(m, s)
    ensures WellFormed(m, r)
    ensures Counters(r) == Counters(s)
    ensures |r.loadedBigramBuffers| == |s.loadedBigramBuffers|
    ensures forall i :: 0 <= i < |s.loadedBigramBuffers| ==>
      (r.loadedBigramBuffers[i].Some? <==> s.loadedBigramBuffers[i].Some? && s.loadedBigramBuffers[i].value.used)
    ensures forall i :: 0 <= i < |s.loadedBigramBuffers| && r.loadedBigramBuffers[i].Some? ==>
      (r.loadedBigramBuffers[i].value.records == s.loadedBigramBuffers[i].value.records
       && !r.loadedBigramBuffers[i].value.used)
    ensures r.loadedTrigramBuffer == map[]
    ensures m.clearCacheAfterUtterance ==>
      r.bigramCache.entries == map[] && r.trigramCache.entries == map[]
      && r.bigramCache.maxSize == m.maxBigramCacheSize && r.trigramCache.maxSize == m.maxTrigramCacheSize
    ensures !m.clearCacheAfterUtterance ==> r.bigramCache == s.bigramCache && r.trigramCache == s.trigramCache
    ensures Inv(m, s) ==> Inv(m, r)
  {
    var released := ClearBigramBuffers(s.loadedBigramBuffers);
    r := s.(loadedBigramBuffers := released, loadedTrigramBuffer := map[]);
    if m.clearCacheAfterUtterance {
      r := r.(trigramCache := Empty(m.maxTrigramCacheSize), bigramCache := Empty(m.maxBigramCacheSize));
    }
  }
}

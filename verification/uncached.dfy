/**
 * The n-gram scores of LargeTrigramModel.java computed with no caches, no
 * loaded buffers and no statistics: every buffer is read afresh from the
 * model file. This is the reference the cached model must agree with.
 * Each function follows the Java control flow of its namesake, including the
 * order in which lookups can fail.
 */
module Uncached {
  import opened Wrappers
  import opened NgramTables

  /** `getUnigramProbability`: the word's log probability, or an error when it has no unigram. */
  function GetUnigramProbability(m: LanguageModel, w: Word): (r: Result<real, LmError>)
    ensures r.Success? <==> w in m.dictionary
    ensures r.Success? ==> r.value == m.dictionary[w].logProbability
    ensures r.Failure? ==> r.error == UnigramNotInLm(w)
  {
    if w in m.dictionary then Success(m.dictionary[w].logProbability) else Failure(UnigramNotInLm(w))
  }

  /**
   * `getBigramBuffer` when nothing is loaded: the word's bigram records (its
   * followers plus one), or None when it has no followers.
   */
  function Followers(m: LanguageModel, wordId: int): (r: Result<Option<seq<BigramRecord>>, LmError>)
    ensures r.Success? ==> 0 <= wordId < |m.unigrams|
    ensures r.Success? && r.value.Some? ==> (0 <= wordId < |m.unigrams| && NumberBigramFollowers(m, wordId) > 0
      && |r.value.value| == NumberBigramFollowers(m, wordId) + 1)
    ensures 0 <= wordId < |m.unigrams| && NumberBigramFollowers(m, wordId) <= 0 ==> r == Success(None)
    ensures 0 <= wordId < |m.unigrams| && NumberBigramFollowers(m, wordId) > 0 ==>
      var first, n := m.unigrams[wordId].firstBigramEntry, NumberBigramFollowers(m, wordId);
      && (r.Success? <==> 0 <= first && first + n + 1 <= |m.bigramSection|)
      && (r.Success? ==> r.value == Some(m.bigramSection[first..first + n + 1]))
    ensures r.Failure? ==> r.error == if 0 <= wordId < |m.unigrams| then BigramLoadFailed else IndexOutOfRange(wordId)
  {
    if !(0 <= wordId < |m.unigrams|) then Failure(IndexOutOfRange(wordId))
    else
      var n := NumberBigramFollowers(m, wordId);
      if n > 0 then
        var records :- LoadBigramRecords(m, wordId, n);
        Success(Some(records))
      else
        Success(None)
  }

  /** `findBigram` with an empty cache: the bigram (w1, w2) among w1's followers. */
  function FindBigram(m: LanguageModel, w1: Word, w2: Word): (r: Result<Option<BigramProbability>, LmError>)
    ensures r.Success? ==> w1 in m.dictionary && w2 in m.dictionary
    ensures r.Success? && r.value.Some? ==> r.value.value.wordId == m.dictionary[w2].wordId
    ensures r.Success? ==>
      var firstWordId, secondWordId := m.dictionary[w1].wordId, m.dictionary[w2].wordId;
      && 0 <= firstWordId < |m.unigrams|
      && var first, n := m.unigrams[firstWordId].firstBigramEntry, NumberBigramFollowers(m, firstWordId);
      && (n > 0 ==> 0 <= first && first + n + 1 <= |m.bigramSection|)
      && (r.value.Some? ==> var b := r.value.value;
            && 0 <= b.whichFollower < n
            && m.bigramSection[first + b.whichFollower] == BigramRecord(b.wordId, b.probId, b.backoffId, b.firstTrigramEntry))
      && (r.value.None? <==> n <= 0 || forall i :: first <= i < first + n ==> m.bigramSection[i].wordId != secondWordId)
  {
    var firstWordId :- WordId(m, w1);
    var secondWordId :- WordId(m, w2);
    var followers :- Followers(m, firstWordId);
    match followers
    case None => Success(None)
    case Some(records) =>
      var first, n := m.unigrams[firstWordId].firstBigramEntry, NumberBigramFollowers(m, firstWordId);
      SearchInSlice(m.bigramSection, first, n, records, secondWordId);
      Success(FindFollower(records, secondWordId))
  }


  /** The back-off score of a missing bigram: w1's back-off weight plus w2's unigram score. */
  function BackoffScore(m: LanguageModel, w1: Word, w2: Word): (r: Result<real, LmError>)
    ensures w2 !in m.dictionary ==> r == Failure(BadWord2(w2))
    ensures r.Success? ==> (w1 in m.dictionary && w2 in m.dictionary
      && 0 <= m.dictionary[w1].wordId < |m.unigrams| && 0 <= m.dictionary[w2].wordId < |m.unigrams|
      && r.value == m.unigrams[m.dictionary[w1].wordId].logBackoff + m.unigrams[m.dictionary[w2].wordId].logProbability)
  {
    if w2 !in m.dictionary then Failure(BadWord2(w2))
    else
      var firstWordId :- WordId(m, w1);
      // getWordID(secondWord) cannot throw here: the word was just found
      var secondWordId := m.dictionary[w2].wordId;
      var first :- At(m.unigrams, firstWordId);
      var second :- At(m.unigrams, secondWordId);
      Success(first.logBackoff + second.logProbability)
  }

  /** `getBigramProbability` with empty caches. */
  function GetBigramProbability(m: LanguageModel, w1: Word, w2: Word): (r: Result<real, LmError>)
    ensures m.numberBigrams <= 0 || w1 !in m.dictionary ==> r == GetUnigramProbability(m, w2)
    ensures r.Success? ==> w2 in m.dictionary
    ensures m.numberBigrams > 0 && w1 in m.dictionary && w2 !in m.dictionary ==> r == Failure(NoWordId(w2))
    ensures m.numberBigrams > 0 && FindBigram(m, w1, w2).Success? ==>
      match FindBigram(m, w1, w2).value
      case Some(b) => r == At(m.bigramProbTable, b.probId)
      case None =>
        var firstWordId, secondWordId := m.dictionary[w1].wordId, m.dictionary[w2].wordId;
        && (r.Success? <==> 0 <= secondWordId < |m.unigrams|)
        && (r.Success? ==> r.value == m.unigrams[firstWordId].logBackoff + m.unigrams[secondWordId].logProbability)
  {
    if m.numberBigrams <= 0 || w1 !in m.dictionary then GetUnigramProbability(m, w2)
    else
      var bigram :- FindBigram(m, w1, w2);
      match bigram
      case Some(b) => At(m.bigramProbTable, b.probId)
      case None => BackoffScore(m, w1, w2)
  }

  /** `loadTrigramBuffer` with nothing loaded: the trigram followers of the bigram of two word ids. */
  function TrigramFollowers(m: LanguageModel, firstWordId: int, secondWordId: int): (r: Result<Option<seq<TrigramRecord>>, LmError>)
    ensures r.Success? ==> 0 <= firstWordId < |m.unigrams|
    ensures Followers(m, firstWordId) == Success(None) ==> r == Success(None)
    ensures (&& Followers(m, firstWordId).Success? && Followers(m, firstWordId).value.Some?
             && FindFollower(Followers(m, firstWordId).value.value, secondWordId).None?) ==> r == Success(None)
    ensures r.Success? && r.value.Some? ==>
      && Followers(m, firstWordId).Success? && Followers(m, firstWordId).value.Some?
      && var records := Followers(m, firstWordId).value.value;
      && FindFollower(records, secondWordId).Some?
      && var bigram := FindFollower(records, secondWordId).value;
      && var fbe := m.unigrams[firstWordId].firstBigramEntry;
      && var first := FirstTrigramEntry(m, bigram, fbe);
      && var next := FirstTrigramEntry(m, FollowerAt(records, bigram.whichFollower + 1), fbe);
      && first.Success? && next.Success?
      && 0 <= first.value <= next.value <= |m.trigramSection|
      && r.value.value == m.trigramSection[first.value..next.value]
  {
    var followers :- Followers(m, firstWordId);
    match followers
    case None => Success(None)
    case Some(records) => TrigramRecordsOf(m, firstWordId, records, secondWordId)
  }

  /** The trigram buffer `findTrigram` would load for the bigram (w1, w2). */
  function TrigramBuffer(m: LanguageModel, w1: Word, w2: Word): (r: Result<Option<seq<TrigramRecord>>, LmError>)
    ensures r.Success? ==> w1 in m.dictionary && w2 in m.dictionary
    ensures FindBigram(m, w1, w2) == Success(None) ==> r == Success(None)
    ensures r.Success? && r.value.Some? ==> FindBigram(m, w1, w2).Success? && FindBigram(m, w1, w2).value.Some?
  {
    var firstWordId :- WordId(m, w1);
    var secondWordId :- WordId(m, w2);
    TrigramFollowers(m, firstWordId, secondWordId)
  }

  /** `findTrigram` with nothing loaded: the probability id of (w1, w2, w3), None for Java's -1. */
  function FindTrigram(m: LanguageModel, w1: Word, w2: Word, w3: Word): (r: Result<Option<int>, LmError>)
    ensures r.Success? ==> w1 in m.dictionary && w2 in m.dictionary
    ensures FindBigram(m, w1, w2) == Success(None) ==> r == Success(None)
    ensures r.Success? && r.value.Some? ==>
      && w3 in m.dictionary && TrigramBuffer(m, w1, w2).Success? && TrigramBuffer(m, w1, w2).value.Some?
      && var records := TrigramBuffer(m, w1, w2).value.value;
      exists i :: 0 <= i < |records| && records[i].wordId == m.dictionary[w3].wordId && records[i].probId == r.value.value
    ensures r.Success? && r.value.None? && TrigramBuffer(m, w1, w2).Success? && TrigramBuffer(m, w1, w2).value.Some? ==>
      && w3 in m.dictionary
      && var records := TrigramBuffer(m, w1, w2).value.value;
      forall i :: 0 <= i < |records| ==> records[i].wordId != m.dictionary[w3].wordId
  {
    var buffer :- TrigramBuffer(m, w1, w2);
    match buffer
    case None => Success(None)
    case Some(records) =>
      var thirdWordId :- WordId(m, w3);
      var found := FindProbabilityId(records, thirdWordId);
      assert found.Some? ==> exists i :: 0 <= i < |records| && records[i].wordId == thirdWordId && records[i].probId == found.value;
      Success(found)
  }

  /**
   * The back-off score of a trigram that is not in the file: the back-off
   * weight of the bigram (w1, w2), when that bigram exists, plus the bigram
   * score of (w2, w3).
   */
  function TrigramBackoff(m: LanguageModel, w1: Word, w2: Word, w3: Word): (r: Result<real, LmError>)
    ensures r.Success? ==> w1 in m.dictionary && w2 in m.dictionary && w3 in m.dictionary
    ensures FindBigram(m, w1, w2) == Success(None) ==> r == GetBigramProbability(m, w2, w3)
    ensures FindBigram(m, w1, w2).Success? && FindBigram(m, w1, w2).value.Some? ==>
      var backoffId, newest := FindBigram(m, w1, w2).value.value.backoffId, GetBigramProbability(m, w2, w3);
      && (r.Success? <==> 0 <= backoffId < |m.trigramBackoffTable| && newest.Success?)
      && (r.Success? ==> r.value == m.trigramBackoffTable[backoffId] + newest.value)
  {
    var bigram :- FindBigram(m, w1, w2);
    match bigram
    case Some(b) =>
      var backoff :- At(m.trigramBackoffTable, b.backoffId);
      var newest :- GetBigramProbability(m, w2, w3);
      Success(backoff + newest)
    case None => GetBigramProbability(m, w2, w3)
  }

  /**
   * The score `getTrigramProbability` computes on a cache miss: the trigram's
   * probability when it is in the file, its back-off score otherwise.
   */
  function TrigramScore(m: LanguageModel, w1: Word, w2: Word, w3: Word): (r: Result<real, LmError>)
    ensures r.Success? ==> w1 in m.dictionary && w2 in m.dictionary && w3 in m.dictionary
    ensures FindBigram(m, w1, w2) == Success(None) ==> r == TrigramBackoff(m, w1, w2, w3)
    ensures FindTrigram(m, w1, w2, w3).Success? && FindTrigram(m, w1, w2, w3).value.Some? ==>
      r == At(m.trigramProbTable, FindTrigram(m, w1, w2, w3).value.value)
    ensures FindTrigram(m, w1, w2, w3) == Success(None) ==> r == TrigramBackoff(m, w1, w2, w3)
  {
    var trigram :- FindTrigram(m, w1, w2, w3);
    match trigram
    case Some(probId) => At(m.trigramProbTable, probId)
    case None => TrigramBackoff(m, w1, w2, w3)
  }

  /** `getTrigramProbability` with empty caches. */
  function GetTrigramProbability(m: LanguageModel, w1: Word, w2: Word, w3: Word): (r: Result<real, LmError>)
    ensures m.numberTrigrams == 0 || w1 !in m.dictionary ==> r == GetBigramProbability(m, w2, w3)
    ensures m.numberTrigrams != 0 && w1 in m.dictionary ==> r == TrigramScore(m, w1, w2, w3)
    ensures r.Success? ==> w3 in m.dictionary
  {
    if m.numberTrigrams == 0 || w1 !in m.dictionary then GetBigramProbability(m, w2, w3)
    else TrigramScore(m, w1, w2, w3)
  }

  /**
   * `getProbability` with empty caches: a sequence of one, two or three words
   * (oldest first) within the model's depth is scored; any other length is an error.
   */
  function GetProbability(m: LanguageModel, ws: seq<Word>): (r: Result<real, LmError>)
    ensures !(1 <= |ws| <= 3 && |ws| <= MaxDepth(m)) ==> r == Failure(UnsupportedNgram(|ws|))
    ensures |ws| == 3 && 3 <= MaxDepth(m) ==> r == GetTrigramProbability(m, ws[0], ws[1], ws[2])
    ensures |ws| == 2 && 2 <= MaxDepth(m) ==> r == GetBigramProbability(m, ws[0], ws[1])
    ensures |ws| == 1 && 1 <= MaxDepth(m) ==> r == GetUnigramProbability(m, ws[0])
  {
    if |ws| <= MaxDepth(m) then
      if |ws| == 3 then GetTrigramProbability(m, ws[0], ws[1], ws[2])
      else if |ws| == 2 then GetBigramProbability(m, ws[0], ws[1])
      else if |ws| == 1 then GetUnigramProbability(m, ws[0])
      else Failure(UnsupportedNgram(|ws|))
    else
      Failure(UnsupportedNgram(|ws|))
  }
}

/**
 * The immutable tables of a large trigram language model in the binary
 * format of the CMU-Cambridge Statistical Language Modeling Toolkit, and the
 * index arithmetic of LargeTrigramModel.java that locates a word's bigram
 * followers and a bigram's trigram followers in the file.
 *
 * The loader, the dictionary and the bigram/trigram buffer classes are not
 * part of this model; they appear here as the tables they produce.
 */
module NgramTables {
  import opened Wrappers

  type Word = string

  /** Sizes of one bigram and one trigram record in the file. */
  const BytesPerBigram: int := 8
  const BytesPerTrigram: int := 4

  /** A unigram as the loader reads it: its id, log probability, log back-off weight and first bigram. */
  datatype Unigram = Unigram(wordId: int, logProbability: real, logBackoff: real, firstBigramEntry: int)

  /** One bigram record of the file: second word, probability and back-off ids, first trigram (within its segment). */
  datatype BigramRecord = BigramRecord(wordId: int, probId: int, backoffId: int, firstTrigramEntry: int)

  /** One trigram record of the file: third word and probability id. */
  datatype TrigramRecord = TrigramRecord(wordId: int, probId: int)

  /** A bigram decoded from a loaded buffer, together with its position (`whichFollower`) in that buffer. */
  datatype BigramProbability = BigramProbability(
    whichFollower: int, wordId: int, probId: int, backoffId: int, firstTrigramEntry: int)

  /** The errors the model raises (`throw new Error(...)`, IllegalArgumentException, index errors). */
  datatype LmError =
    | UnsupportedNgram(size: int)
    | UnigramNotInLm(word: Word)
    | NoWordId(word: Word)
    | BadWord2(word: Word)
    | IndexOutOfRange(index: int)
    | BigramLoadFailed
    | TrigramLoadFailed

  /**
   * Everything the model reads and never changes after allocation: the
   * dictionary's word-to-unigram map, the loader's tables, the bigram and
   * trigram sections of the file as records, and the configuration.
   */
  datatype LanguageModel = LanguageModel(
    dictionary: map<Word, Unigram>,
    unigrams: seq<Unigram>,
    numberBigrams: int,
    numberTrigrams: int,
    bigramProbTable: seq<real>,
    trigramProbTable: seq<real>,
    trigramBackoffTable: seq<real>,
    trigramSegmentTable: seq<int>,
    logBigramSegmentSize: int,
    bigramOffset: int,
    trigramOffset: int,
    bigramSection: seq<BigramRecord>,
    trigramSection: seq<TrigramRecord>,
    configuredMaxDepth: int,
    loaderMaxDepth: int,
    maxBigramCacheSize: int,
    maxTrigramCacheSize: int,
    clearCacheAfterUtterance: bool,
    fullSmear: bool,
    unigramSmearTerm: seq<real>,
    bigramSmearMap: map<int, real>)

  /**
   * The clamp `allocate` applies to the configured depth: a non-positive
   * depth, or one deeper than the file, becomes the file's depth.
   */
  function ClampMaxDepth(configured: int, loaderDepth: int): (d: int)
    ensures d <= loaderDepth
    ensures loaderDepth >= 1 ==> d >= 1
    ensures 0 < configured <= loaderDepth ==> d == configured
    ensures d == configured || d == loaderDepth
  {
    if configured <= 0 || configured > loaderDepth then loaderDepth else configured
  }

  /** The depth `getProbability` serves after allocation. */
  function MaxDepth(m: LanguageModel): int {
    ClampMaxDepth(m.configuredMaxDepth, m.loaderMaxDepth)
  }

  /** `getWordID`: the word's id, or IllegalArgumentException when the word has no unigram. */
  function WordId(m: LanguageModel, w: Word): (r: Result<int, LmError>)
    ensures r.Success? <==> w in m.dictionary
    ensures r.Success? ==> r.value == m.dictionary[w].wordId
    ensures r.Failure? ==> r.error == NoWordId(w)
  {
    if w in m.dictionary then Success(m.dictionary[w].wordId) else Failure(NoWordId(w))
  }

  /** A Java array read, which throws when the index is out of range. */
  function At<T>(table: seq<T>, i: int): (r: Result<T, LmError>)
    ensures r.Success? <==> 0 <= i < |table|
    ensures r.Success? ==> r.value == table[i]
    ensures r.Failure? ==> r.error == IndexOutOfRange(i)
  {
    if 0 <= i < |table| then Success(table[i]) else Failure(IndexOutOfRange(i))
  }

  /** `getNumberBigramFollowers`: the gap to the next word's first bigram; the last word has none. */
  function NumberBigramFollowers(m: LanguageModel, wordId: int): (r: int)
    requires 0 <= wordId < |m.unigrams|
    ensures wordId == |m.unigrams| - 1 ==> r == 0
    ensures wordId < |m.unigrams| - 1 ==> m.unigrams[wordId].firstBigramEntry + r == m.unigrams[wordId + 1].firstBigramEntry
  {
    if wordId == |m.unigrams| - 1 then 0
    else m.unigrams[wordId + 1].firstBigramEntry - m.unigrams[wordId].firstBigramEntry
  }

  /** The first-bigram entries never decrease along the unigram table. */
  ghost predicate EntriesSorted(m: LanguageModel) {
    forall i, j :: 0 <= i <= j < |m.unigrams| ==> m.unigrams[i].firstBigramEntry <= m.unigrams[j].firstBigramEntry
  }

  /**
   * With sorted entries, no word has a negative number of followers, and a
   * word's followers end no later than the last word's first bigram entry.
   */
  lemma FollowersNonNegative(m: LanguageModel, wordId: int)
    requires 0 <= wordId < |m.unigrams| && EntriesSorted(m)
    ensures NumberBigramFollowers(m, wordId) >= 0
    ensures m.unigrams[wordId].firstBigramEntry + NumberBigramFollowers(m, wordId)
      <= m.unigrams[|m.unigrams| - 1].firstBigramEntry
  {
  }

  /** The total number of followers of the words below `n`. */
  function FollowersBelow(m: LanguageModel, n: nat): int
    requires n <= |m.unigrams|
  {
    if n == 0 then 0 else FollowersBelow(m, n - 1) + NumberBigramFollowers(m, n - 1)
  }

  /**
   * The follower ranges of consecutive words tile the bigram section: the
   * words before the last one own exactly the bigrams from the first word's
   * first entry up to the last word's first entry.
   */
  lemma {:induction false} FollowersTile(m: LanguageModel, n: nat)
    requires 1 <= n <= |m.unigrams|
    ensures FollowersBelow(m, n - 1) == m.unigrams[n - 1].firstBigramEntry - m.unigrams[0].firstBigramEntry
  {
    if n > 1 {
      FollowersTile(m, n - 1);
    }
  }

  // ---------------------------------------------------------------------
  // Reading records from the file
  // ---------------------------------------------------------------------

  /** A read of `size` bytes at byte `position` of the model file. */
  datatype ByteRange = ByteRange(position: int, size: int)

  /**
   * The records of a file section starting at byte `offset` with records of
   * `width` bytes that the range covers; None when the range leaves the
   * section (the loader's read fails).
   */
  function ReadRecords<R>(section: seq<R>, offset: int, width: int, range: ByteRange): (r: Option<seq<R>>)
    requires width > 0
    requires (range.position - offset) % width == 0 && range.size % width == 0
    ensures r.Some? ==> |r.value| * width == range.size
    ensures r.Some? ==> var first := (range.position - offset) / width;
      && 0 <= first && first + |r.value| <= |section|
      && forall i :: 0 <= i < |r.value| ==> r.value[i] == section[first + i]
  {
    var first := (range.position - offset) / width;
    var count := range.size / width;
    if 0 <= first && 0 <= count && first + count <= |section| then Some(section[first..first + count]) else None
  }

  /** `loadBigramBuffer`'s read: `numberFollowers + 1` records at the word's first bigram entry. */
  function BigramLoadRange(m: LanguageModel, wordId: int, numberFollowers: int): (r: ByteRange)
    requires 0 <= wordId < |m.unigrams|
    ensures (r.position - m.bigramOffset) % BytesPerBigram == 0
    ensures (r.position - m.bigramOffset) / BytesPerBigram == m.unigrams[wordId].firstBigramEntry
    ensures r.size % BytesPerBigram == 0 && r.size / BytesPerBigram == numberFollowers + 1
  {
    ByteRange(m.bigramOffset + m.unigrams[wordId].firstBigramEntry * BytesPerBigram,
              (numberFollowers + 1) * BytesPerBigram)
  }

  /**
   * The records `loadBigramBuffer` loads: the word's followers and, last, the
   * next word's first bigram (needed for the trigram count of the last follower).
   */
  function LoadBigramRecords(m: LanguageModel, wordId: int, numberFollowers: int): (r: Result<seq<BigramRecord>, LmError>)
    requires 0 <= wordId < |m.unigrams|
    ensures var first := m.unigrams[wordId].firstBigramEntry;
      r.Success? <==> 0 <= first && 0 <= numberFollowers + 1 && first + numberFollowers + 1 <= |m.bigramSection|
    ensures r.Success? ==> var first := m.unigrams[wordId].firstBigramEntry;
      r.value == m.bigramSection[first..first + numberFollowers + 1]
    ensures r.Failure? ==> r.error == BigramLoadFailed
  {
    var range := BigramLoadRange(m, wordId, numberFollowers);
    var first := m.unigrams[wordId].firstBigramEntry;
    assert range.position - m.bigramOffset == first * BytesPerBigram;
    assert (range.position - m.bigramOffset) / BytesPerBigram == first;
    assert range.size / BytesPerBigram == numberFollowers + 1;
    match ReadRecords(m.bigramSection, m.bigramOffset, BytesPerBigram, range)
    case None => Failure(BigramLoadFailed)
    case Some(records) => Success(records)
  }

  /** `loadTrigramBuffer`'s read: `count` records at trigram entry `first`. */
  function TrigramLoadRange(m: LanguageModel, first: int, count: int): (r: ByteRange)
    ensures (r.position - m.trigramOffset) % BytesPerTrigram == 0
    ensures (r.position - m.trigramOffset) / BytesPerTrigram == first
    ensures r.size % BytesPerTrigram == 0 && r.size / BytesPerTrigram == count
  {
    ByteRange(m.trigramOffset + first * BytesPerTrigram, count * BytesPerTrigram)
  }

  /** The trigram records `loadTrigramBuffer` loads: entries `first` up to `first + count`. */
  function LoadTrigramRecords(m: LanguageModel, first: int, count: int): (r: Result<seq<TrigramRecord>, LmError>)
    ensures r.Success? <==> 0 <= first && 0 <= count && first + count <= |m.trigramSection|
    ensures r.Success? ==> r.value == m.trigramSection[first..first + count]
    ensures r.Failure? ==> r.error == TrigramLoadFailed
  {
    var range := TrigramLoadRange(m, first, count);
    assert range.position - m.trigramOffset == first * BytesPerTrigram;
    assert (range.position - m.trigramOffset) / BytesPerTrigram == first;
    assert range.size / BytesPerTrigram == count;
    match ReadRecords(m.trigramSection, m.trigramOffset, BytesPerTrigram, range)
    case None => Failure(TrigramLoadFailed)
    case Some(records) => Success(records)
  }

  // ---------------------------------------------------------------------
  // Searching loaded buffers
  // ---------------------------------------------------------------------

  /** The bigram at position `i` of a loaded buffer (`BigramBuffer.getBigramProbability`). */
  function FollowerAt(records: seq<BigramRecord>, i: int): BigramProbability
    requires 0 <= i < |records|
  {
    BigramProbability(i, records[i].wordId, records[i].probId, records[i].backoffId, records[i].firstTrigramEntry)
  }

  /**
   * `BigramBuffer.findBigram`: the first follower with the given second word.
   * The last record of a buffer belongs to the next word and is never matched.
   */
  function FindFollower(records: seq<BigramRecord>, wordId: int): (r: Option<BigramProbability>)
    ensures r.Some? ==> (0 <= r.value.whichFollower < |records| - 1
      && records[r.value.whichFollower].wordId == wordId
      && r.value == FollowerAt(records, r.value.whichFollower))
    ensures r.None? <==> forall i :: 0 <= i < |records| - 1 ==> records[i].wordId != wordId
  {
    FindFollowerFrom(records, wordId, 0)
  }

  /** A search of the `n + 1` records loaded from entry `first` on is a search of the section's entries `first` up to `first + n`. */
  lemma SearchInSlice(section: seq<BigramRecord>, first: int, n: int, records: seq<BigramRecord>, wordId: int)
    requires 0 <= first && 0 <= n && first + n + 1 <= |section| && records == section[first..first + n + 1]
    ensures FindFollower(records, wordId).Some? ==> var b := FindFollower(records, wordId).value;
      && 0 <= b.whichFollower < n
      && section[first + b.whichFollower] == BigramRecord(b.wordId, b.probId, b.backoffId, b.firstTrigramEntry)
    ensures FindFollower(records, wordId).None? <==> forall i :: first <= i < first + n ==> section[i].wordId != wordId
  {
  }

  function FindFollowerFrom(records: seq<BigramRecord>, wordId: int, i: nat): (r: Option<BigramProbability>)
    decreases |records| - i
    ensures r.Some? ==> (i <= r.value.whichFollower < |records| - 1
      && records[r.value.whichFollower].wordId == wordId
      && r.value == FollowerAt(records, r.value.whichFollower))
    ensures r.None? <==> forall j :: i <= j < |records| - 1 ==> records[j].wordId != wordId
  {
    if i >= |records| - 1 then None
    else if records[i].wordId == wordId then Some(FollowerAt(records, i))
    else FindFollowerFrom(records, wordId, i + 1)
  }

  /** `TrigramBuffer.findProbabilityID`: the probability id of the third word, None for Java's -1. */
  function FindProbabilityId(records: seq<TrigramRecord>, wordId: int): (r: Option<int>)
    ensures r.Some? ==> exists i :: 0 <= i < |records| && records[i].wordId == wordId && records[i].probId == r.value
    ensures r.None? <==> forall i :: 0 <= i < |records| ==> records[i].wordId != wordId
  {
    FindProbabilityIdFrom(records, wordId, 0)
  }

  function FindProbabilityIdFrom(records: seq<TrigramRecord>, wordId: int, i: nat): (r: Option<int>)
    decreases |records| - i
    ensures r.Some? ==> exists j :: i <= j < |records| && records[j].wordId == wordId && records[j].probId == r.value
    ensures r.None? <==> forall j :: i <= j < |records| ==> records[j].wordId != wordId
  {
    if i >= |records| then None
    else if records[i].wordId == wordId then Some(records[i].probId)
    else FindProbabilityIdFrom(records, wordId, i + 1)
  }

  // ---------------------------------------------------------------------
  // Trigram segment arithmetic
  // ---------------------------------------------------------------------

  function Pow2(n: nat): (p: int)
    ensures p >= 1
  {
    if n == 0 then 1 else 2 * Pow2(n - 1)
  }

  /** Java's `x >> s` on an int: an arithmetic shift by `s & 31`, i.e. a floor division by a power of two. */
  function ShiftRight(x: int, s: int): (r: int)
    ensures r * Pow2(s % 32) <= x < (r + 1) * Pow2(s % 32)
  {
    x / Pow2(s % 32)
  }

  /**
   * `getFirstTrigramEntry`: trigram entries are stored per segment of
   * `2^logBigramSegmentSize` bigrams; the bigram's absolute index selects the
   * segment's base, to which the record's relative entry is added.
   */
  function FirstTrigramEntry(m: LanguageModel, bigram: BigramProbability, firstBigramEntry: int): (r: Result<int, LmError>)
    ensures var bigramIndex := firstBigramEntry + bigram.whichFollower;
      var segment := ShiftRight(bigramIndex, m.logBigramSegmentSize);
      && segment * Pow2(m.logBigramSegmentSize % 32) <= bigramIndex < (segment + 1) * Pow2(m.logBigramSegmentSize % 32)
      && (r.Success? <==> 0 <= segment < |m.trigramSegmentTable|)
      && (r.Success? ==> r.value - bigram.firstTrigramEntry == m.trigramSegmentTable[segment])
  {
    var segment := ShiftRight(firstBigramEntry + bigram.whichFollower, m.logBigramSegmentSize);
    var base :- At(m.trigramSegmentTable, segment);
    Success(base + bigram.firstTrigramEntry)
  }

  /**
   * The trigram records of the follower of word `firstWordId` whose second
   * word is `secondWordId`, given that word's loaded bigram records: None when
   * the bigram is not there, otherwise the trigrams between its first trigram
   * entry and the next follower's.
   */
  function TrigramRecordsOf(m: LanguageModel, firstWordId: int, records: seq<BigramRecord>, secondWordId: int)
    : (r: Result<Option<seq<TrigramRecord>>, LmError>)
    requires 0 <= firstWordId < |m.unigrams|
    ensures FindFollower(records, secondWordId).None? ==> r == Success(None)
    ensures r.Success? && r.value.Some? ==>
      var bigram := FindFollower(records, secondWordId).value;
      var fbe := m.unigrams[firstWordId].firstBigramEntry;
      var first := FirstTrigramEntry(m, bigram, fbe);
      var next := FirstTrigramEntry(m, FollowerAt(records, bigram.whichFollower + 1), fbe);
      && first.Success? && next.Success?
      && 0 <= first.value <= next.value <= |m.trigramSection|
      && r.value.value == m.trigramSection[first.value..next.value]
  {
    match FindFollower(records, secondWordId)
    case None => Success(None)
    case Some(bigram) =>
      var nextBigram := FollowerAt(records, bigram.whichFollower + 1);
      var firstBigramEntry := m.unigrams[firstWordId].firstBigramEntry;
      var firstTrigramEntry :- FirstTrigramEntry(m, bigram, firstBigramEntry);
      var nextTrigramEntry :- FirstTrigramEntry(m, nextBigram, firstBigramEntry);
      var trigrams :- LoadTrigramRecords(m, firstTrigramEntry, nextTrigramEntry - firstTrigramEntry);
      Success(Some(trigrams))
  }

  // ---------------------------------------------------------------------
  // The byte positions as written: a 32-bit product widened afterwards
  // ---------------------------------------------------------------------

  /** Java's 32-bit int arithmetic: `x` wrapped into [-2^31, 2^31). */
  function Wrap32(x: int): (r: int)
    ensures -0x8000_0000 <= r < 0x8000_0000
    ensures (x - r) % 0x1_0000_0000 == 0
    ensures -0x8000_0000 <= x < 0x8000_0000 ==> r == x
  {
    (x + 0x8000_0000) % 0x1_0000_0000 - 0x8000_0000
  }

  /**
   * The read `loadBigramBuffer` issues as written: `firstBigramEntry *
   * BYTES_PER_BIGRAM` is an int product, formed before the sum is cast to long.
   */
  function BigramLoadRangeAsWritten(m: LanguageModel, wordId: int, numberFollowers: int): (r: ByteRange)
    requires 0 <= wordId < |m.unigrams|
    ensures var intended := BigramLoadRange(m, wordId, numberFollowers);
      && -0x8000_0000 <= r.position - m.bigramOffset < 0x8000_0000
      && (r.position - intended.position) % 0x1_0000_0000 == 0
      && -0x8000_0000 <= r.size < 0x8000_0000
      && (r.size - intended.size) % 0x1_0000_0000 == 0
  {
    ByteRange(m.bigramOffset + Wrap32(m.unigrams[wordId].firstBigramEntry * BytesPerBigram),
              Wrap32((numberFollowers + 1) * BytesPerBigram))
  }

  /** Below 2^28 bigrams the 32-bit product does not wrap and the read is the intended one. */
  lemma BigramLoadRangeAsWrittenAgrees(m: LanguageModel, wordId: int, numberFollowers: int)
    requires 0 <= wordId < |m.unigrams|
    requires 0 <= m.unigrams[wordId].firstBigramEntry < 0x1000_0000
    requires 0 <= numberFollowers < 0x0FFF_FFFF
    ensures BigramLoadRangeAsWritten(m, wordId, numberFollowers) == BigramLoadRange(m, wordId, numberFollowers)
  {
  }

  /**
   * A word whose bigrams start at entry 2^28: the as-written position wraps
   * to 2^31 bytes BEFORE the bigram section, so the read fails although the
   * section holds the word's records.
   */
  lemma BigramLoadPositionOverflows(m: LanguageModel, wordId: int)
    requires 0 <= wordId < |m.unigrams|
    requires m.unigrams[wordId].firstBigramEntry == 0x1000_0000
    requires |m.bigramSection| >= 0x1000_0002
    ensures BigramLoadRangeAsWritten(m, wordId, 1).position == m.bigramOffset - 0x8000_0000
    ensures ReadRecords(m.bigramSection, m.bigramOffset, BytesPerBigram, BigramLoadRangeAsWritten(m, wordId, 1)).None?
    ensures LoadBigramRecords(m, wordId, 1).Success?
  {
    var range := BigramLoadRangeAsWritten(m, wordId, 1);
    assert Wrap32(0x1000_0000 * BytesPerBigram) == -0x8000_0000;
    assert (range.position - m.bigramOffset) / BytesPerBigram == -0x1000_0000;
  }

  /**
   * The read `loadTrigramBuffer` issues as written: `(long)(firstTrigramEntry *
   * BYTES_PER_TRIGRAM)` casts after the int product has been formed.
   */
  function TrigramLoadRangeAsWritten(m: LanguageModel, first: int, count: int): (r: ByteRange)
    ensures var intended := TrigramLoadRange(m, first, count);
      && -0x8000_0000 <= r.position - m.trigramOffset < 0x8000_0000
      && (r.position - intended.position) % 0x1_0000_0000 == 0
      && -0x8000_0000 <= r.size < 0x8000_0000
      && (r.size - intended.size) % 0x1_0000_0000 == 0
  {
    ByteRange(m.trigramOffset + Wrap32(first * BytesPerTrigram), Wrap32(count * BytesPerTrigram))
  }

  /** Below 2^29 trigrams the 32-bit product does not wrap and the read is the intended one. */
  lemma TrigramLoadRangeAsWrittenAgrees(m: LanguageModel, first: int, count: int)
    requires 0 <= first < 0x2000_0000 && 0 <= count < 0x2000_0000
    ensures TrigramLoadRangeAsWritten(m, first, count) == TrigramLoadRange(m, first, count)
  {
  }

  /** A bigram whose trigrams start at entry 2^29: the as-written read starts 2^31 bytes before the section. */
  lemma TrigramLoadPositionOverflows(m: LanguageModel)
    requires |m.trigramSection| >= 0x2000_0001
    ensures TrigramLoadRangeAsWritten(m, 0x2000_0000, 1).position == m.trigramOffset - 0x8000_0000
    ensures ReadRecords(m.trigramSection, m.trigramOffset, BytesPerTrigram, TrigramLoadRangeAsWritten(m, 0x2000_0000, 1)).None?
    ensures LoadTrigramRecords(m, 0x2000_0000, 1).Success?
  {
    var range := TrigramLoadRangeAsWritten(m, 0x2000_0000, 1);
    assert Wrap32(0x2000_0000 * BytesPerTrigram) == -0x8000_0000;
    assert (range.position - m.trigramOffset) / BytesPerTrigram == -0x2000_0000;
  }
}

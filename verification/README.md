# Large trigram language model and block CDCN normalization, in Dafny

This project models two parts of the CMU Sphinx speech recognizers.

**`LargeTrigramModel` (Sphinx-4).** This is the n-gram language model that reads a large binary model file on demand. It works as follows:

- `getProbability` sends a 1-, 2- or 3-word sequence to the unigram, bigram or trigram path.
- The bigram path looks up a word's bigram followers in a buffer that `getBigramBuffer` loads from the file. The byte range is computed by `loadBigramBuffer`. If the bigram is missing, the path backs off to the unigram back-off weight plus the unigram score, and counts a miss.
- The trigram path finds the trigram in a buffer that `loadTrigramBuffer` loads. Its range comes from the segment arithmetic of `getFirstTrigramEntry`. If the trigram is missing, the path backs off through `findBigram`. Hits and misses are counted.
- Results are memoised in two `LRUCache`s. Buffers are kept between queries. `clearCache` frees the buffers that went unused during an utterance.
- The smear terms (`getSmear`, `getSmearOld`, `putSmearTerm`, `getSmearTerm`) are modelled over a bigram smear map keyed by a packed Java `long`.

The model file's tables are an immutable `LanguageModel` value. The mutable part of the Java object (counters, caches, loaded buffers) is an explicit `LmState`, which the pure functions thread through. A Java exception becomes a `Failure` carrying an `LmError`.

The central result is **cache transparency**. Take any state satisfying the invariant `Inv` (which `allocate` establishes and `clearCache` preserves). From such a state, `getProbability` answers exactly what a cache-free reference (`Uncached`) answers: the same score, or the same error. It also leaves a state that again satisfies `Inv`. So caches and buffers never change an answer, and a repeated query repeats its first answer.

**`blk_cdcn_norm.c` (Sphinx-2).** This is the block normalizer of codeword-dependent cepstral normalization:

- The gate `block_cdcn_norm` passes the block through unless CDCN is on and initialized.
- `block_actual_cdcn_norm` replaces each frame by a mixture of the per-codeword clean-speech estimates. Each codeword's weight is its Gaussian score times its probability weight.

Cepstra are modelled as `real`s, and `exp` is a parameter. The loops of the C code are Dafny methods with loop invariants. Each is proved equal to the functional estimator (`Den`, `Num`, `CleanFrame`).

Modules:

| file | module | role |
|---|---|---|
| wrappers.dfy | `Wrappers` | `Option`, `Result` |
| lru_cache.dfy | `LruCache` | `LRUCache` (insertion-ordered LinkedHashMap) |
| ngram_tables.dfy | `NgramTables` | file tables, word ids, loads, buffer searches, segment arithmetic, 32-bit positions |
| uncached.dfy | `Uncached` | the query semantics with no cache and no buffer kept |
| trigram_model.dfy | `TrigramModel` | the stateful queries, `allocate`, `clearCache`, the invariant |
| cache_transparency.dfy | `CacheTransparency` | stateful answers equal the uncached answers |
| query_rules.dfy | `QueryRules` | counters, scores and repeated queries |
| smear.dfy | `Smear` | smear key and smear queries |
| cdcn.dfy | `Cdcn` | block CDCN normalization |

Below, `LargeTrigramModel.java` stands for `sphinx4/src/sphinx4/edu/cmu/sphinx/linguist/language/ngram/large/LargeTrigramModel.java`, as the table cells write it in full.

## Model

| member | source | states |
|---|---|---|
| LruCache.Empty | sphinx4/src/sphinx4/edu/cmu/sphinx/linguist/language/ngram/large/LargeTrigramModel.java:1079-1092 | a new cache holds no entry, is well formed and within its bound, and keeps the maximum size it was given |
| LruCache.Get | sphinx4/src/sphinx4/edu/cmu/sphinx/linguist/language/ngram/large/LargeTrigramModel.java:511-513 | a lookup finds a value exactly when the key is present, and that value is the stored one |
| LruCache.Put | sphinx4/src/sphinx4/edu/cmu/sphinx/linguist/language/ngram/large/LargeTrigramModel.java:1101-1103 | a put keeps every key once, in step with the mappings; keeps the maximum size; and never takes a cache within its bound beyond it |
| LruCache.PutEvictsEldest | sphinx4/src/sphinx4/edu/cmu/sphinx/linguist/language/ngram/large/LargeTrigramModel.java:1101-1103 | a new key is appended; if the cache then exceeds its size, exactly the eldest key leaves (first in, first out), otherwise nothing leaves |
| LruCache.GetAfterPut | sphinx4/src/sphinx4/edu/cmu/sphinx/linguist/language/ngram/large/LargeTrigramModel.java:1101-1103 | after a put the key maps to the new value when the size is at least one; with size zero or less, a new key put into an empty cache is evicted at once |
| LruCache.PutKeepsOthers | sphinx4/src/sphinx4/edu/cmu/sphinx/linguist/language/ngram/large/LargeTrigramModel.java:1101-1103 | a put leaves the value of every other key as it was, except that the eldest key may be evicted |
| LruCache.PutEntries | sphinx4/src/sphinx4/edu/cmu/sphinx/linguist/language/ngram/large/LargeTrigramModel.java:1101-1103 | every mapping after a put is the new one or one the cache held before |
| NgramTables.ClampMaxDepth | sphinx4/src/sphinx4/edu/cmu/sphinx/linguist/language/ngram/large/LargeTrigramModel.java:227-229 | the served depth never exceeds the file's and is at least 1 when the file's is; a positive configured depth within the file's is kept, any other becomes the file's |
| NgramTables.WordId | sphinx4/src/sphinx4/edu/cmu/sphinx/linguist/language/ngram/large/LargeTrigramModel.java:400-407 | a word has an id exactly when it has a unigram, and the id is the unigram's; otherwise the lookup fails with "No word ID" for that word |
| NgramTables.At | sphinx4/src/sphinx4/edu/cmu/sphinx/linguist/language/ngram/large/LargeTrigramModel.java:485 | a table read succeeds exactly for an index in range, yielding that entry, and otherwise fails with that index |
| NgramTables.NumberBigramFollowers | sphinx4/src/sphinx4/edu/cmu/sphinx/linguist/language/ngram/large/LargeTrigramModel.java:590-597 | the last word has no followers; any other word's followers run from its first bigram entry exactly up to the next word's first bigram entry |
| NgramTables.FollowersNonNegative | sphinx4/src/sphinx4/edu/cmu/sphinx/linguist/language/ngram/large/LargeTrigramModel.java:590-597 | with first-bigram entries sorted, a word's follower count is non-negative, and its followers end no later than the last word's first bigram entry |
| NgramTables.FollowersTile | sphinx4/src/sphinx4/edu/cmu/sphinx/linguist/language/ngram/large/LargeTrigramModel.java:590-597 | the follower counts of the words before word n-1 add up to the distance from the first word's first bigram to word n-1's |
| NgramTables.ReadRecords | sphinx4/src/sphinx4/edu/cmu/sphinx/linguist/language/ngram/large/LargeTrigramModel.java:572-574 | a successful read covers exactly `size` bytes of records, all inside the section, namely the records that start at the position's record index |
| NgramTables.BigramLoadRange | sphinx4/src/sphinx4/edu/cmu/sphinx/linguist/language/ngram/large/LargeTrigramModel.java:566-570 | the read starts on the record boundary of the word's first bigram entry in the bigram section and spans exactly numberFollowers+1 whole records |
| NgramTables.LoadBigramRecords | sphinx4/src/sphinx4/edu/cmu/sphinx/linguist/language/ngram/large/LargeTrigramModel.java:566-581 | loading succeeds exactly when the word's followers, plus one record, lie in the bigram section; it then yields those records; otherwise "Error loading bigram followers" |
| NgramTables.TrigramLoadRange | sphinx4/src/sphinx4/edu/cmu/sphinx/linguist/language/ngram/large/LargeTrigramModel.java:703-704 | the read starts on the record boundary of trigram entry `first` in the trigram section and spans exactly `count` whole records |
| NgramTables.LoadTrigramRecords | sphinx4/src/sphinx4/edu/cmu/sphinx/linguist/language/ngram/large/LargeTrigramModel.java:703-714 | loading succeeds exactly when the requested trigram entries lie in the trigram section; it then yields them; otherwise "Error loading trigrams" |
| NgramTables.FindFollower | sphinx4/src/sphinx4/edu/cmu/sphinx/linguist/language/ngram/large/LargeTrigramModel.java:525 | a found bigram is a follower (never the trailing record) with the searched second word, decoded at its position; none is found exactly when no follower has that word |
| NgramTables.FindProbabilityId | sphinx4/src/sphinx4/edu/cmu/sphinx/linguist/language/ngram/large/LargeTrigramModel.java:669 | a found probability id belongs to a trigram record with the searched third word; -1 (None) exactly when no record has it |
| NgramTables.ShiftRight | sphinx4/src/sphinx4/edu/cmu/sphinx/linguist/language/ngram/large/LargeTrigramModel.java:730-731 | Java's `>>` by s yields the r with r·2^(s mod 32) ≤ x < (r+1)·2^(s mod 32) |
| NgramTables.FirstTrigramEntry | sphinx4/src/sphinx4/edu/cmu/sphinx/linguist/language/ngram/large/LargeTrigramModel.java:728-734 | the bigram's absolute index lies in the selected segment; the lookup succeeds exactly when that segment is in the segment table; the result exceeds the record's relative entry by the segment's base |
| NgramTables.TrigramRecordsOf | sphinx4/src/sphinx4/edu/cmu/sphinx/linguist/language/ngram/large/LargeTrigramModel.java:686-717 | an absent bigram gives no buffer; a loaded buffer is exactly the trigram section from the bigram's first trigram entry up to the next follower's |
| NgramTables.Wrap32 | sphinx4/src/sphinx4/edu/cmu/sphinx/linguist/language/ngram/large/LargeTrigramModel.java:570 | 32-bit int arithmetic: the result is an int congruent to the input modulo 2^32, and equal to it when it already fits |
| NgramTables.BigramLoadRangeAsWritten | sphinx4/src/sphinx4/edu/cmu/sphinx/linguist/language/ngram/large/LargeTrigramModel.java:568-570 | as written, the position's distance from the section start and the size are 32-bit ints, each congruent modulo 2^32 to the intended one |
| NgramTables.BigramLoadRangeAsWrittenAgrees | sphinx4/src/sphinx4/edu/cmu/sphinx/linguist/language/ngram/large/LargeTrigramModel.java:568-570 | below 2^28 bigram entries, the position with the int product equals the intended one |
| NgramTables.BigramLoadPositionOverflows | sphinx4/src/sphinx4/edu/cmu/sphinx/linguist/language/ngram/large/LargeTrigramModel.java:570 | at first-bigram entry 2^28 the as-written position falls 2^31 bytes before the section and the read fails, though the intended read succeeds |
| NgramTables.TrigramLoadRangeAsWritten | sphinx4/src/sphinx4/edu/cmu/sphinx/linguist/language/ngram/large/LargeTrigramModel.java:703-704 | as written, the position's distance from the section start and the size are 32-bit ints, each congruent modulo 2^32 to the intended one |
| NgramTables.TrigramLoadRangeAsWrittenAgrees | sphinx4/src/sphinx4/edu/cmu/sphinx/linguist/language/ngram/large/LargeTrigramModel.java:703-704 | below 2^29 trigram entries, the position with the int product equals the intended one |
| NgramTables.TrigramLoadPositionOverflows | sphinx4/src/sphinx4/edu/cmu/sphinx/linguist/language/ngram/large/LargeTrigramModel.java:704 | at first-trigram entry 2^29 the as-written position falls 2^31 bytes before the section and the read fails, though the intended read succeeds |
| Uncached.GetUnigramProbability | sphinx4/src/sphinx4/edu/cmu/sphinx/linguist/language/ngram/large/LargeTrigramModel.java:362-369 | a unigram score exists exactly for a word in the model; it is the word's log probability; otherwise "Unigram not in LM" |
| Uncached.Followers | sphinx4/src/sphinx4/edu/cmu/sphinx/linguist/language/ngram/large/LargeTrigramModel.java:542-554 | a buffer is only ever produced for an id in range; a word with none gets no buffer; for a word with followers the load succeeds exactly when its followers plus the trailing record lie in the bigram section, and yields exactly that slice of it; a failure is an out-of-range id or a failed load |
| Uncached.FindBigram | sphinx4/src/sphinx4/edu/cmu/sphinx/linguist/language/ngram/large/LargeTrigramModel.java:509-533 | the search only succeeds for two known words; a found bigram is a follower record of the first word in the bigram section, with the second word's id; nothing is found exactly when the first word has no followers or none of its followers has the second word's id |
| Uncached.BackoffScore | sphinx4/src/sphinx4/edu/cmu/sphinx/linguist/language/ngram/large/LargeTrigramModel.java:487-498 | an unknown second word fails with "Bad word2"; a success is the first word's back-off weight plus the second word's log probability |
| Uncached.GetBigramProbability | sphinx4/src/sphinx4/edu/cmu/sphinx/linguist/language/ngram/large/LargeTrigramModel.java:475-500 | with no bigrams or an unknown first word, the second word's unigram score; any success needs a known second word, and past the early exit an unknown one fails with "No word ID"; a bigram in the file scores its probability-table entry; one not in the file scores the first word's back-off weight plus the second word's log probability, failing only for a second id outside the unigram table |
| Uncached.TrigramFollowers | sphinx4/src/sphinx4/edu/cmu/sphinx/linguist/language/ngram/large/LargeTrigramModel.java:683-718 | success needs the first id in range; a word without followers, or a pair that is not among its followers, gets no buffer; a buffer is exactly the trigram section from the bigram's first trigram entry up to the next follower's |
| Uncached.TrigramBuffer | sphinx4/src/sphinx4/edu/cmu/sphinx/linguist/language/ngram/large/LargeTrigramModel.java:651-665 | success needs two known words; a pair the bigram search does not find has no trigram buffer, and a buffer exists only for a pair it finds |
| Uncached.FindTrigram | sphinx4/src/sphinx4/edu/cmu/sphinx/linguist/language/ngram/large/LargeTrigramModel.java:647-673 | success needs two known oldest words; a trigram whose oldest pair is not a bigram is never found; a found probability id belongs to a record of the pair's buffer with the third word's id; when the pair has a buffer and nothing is found, no record has that id |
| Uncached.TrigramBackoff | sphinx4/src/sphinx4/edu/cmu/sphinx/linguist/language/ngram/large/LargeTrigramModel.java:625-631 | success needs three known words; with the oldest pair missing the score is the newest pair's bigram score; with it present, the score is its trigram back-off weight plus that bigram score, and exists exactly when both do |
| Uncached.TrigramScore | sphinx4/src/sphinx4/edu/cmu/sphinx/linguist/language/ngram/large/LargeTrigramModel.java:616-632 | success needs three known words; a trigram in the file scores its probability-table entry; a trigram not found, including one whose oldest pair is missing, scores its back-off |
| Uncached.GetTrigramProbability | sphinx4/src/sphinx4/edu/cmu/sphinx/linguist/language/ngram/large/LargeTrigramModel.java:606-638 | with no trigrams or an unknown first word, the bigram score of the newest pair; otherwise the trigram score; a success needs a known newest word |
| Uncached.GetProbability | sphinx4/src/sphinx4/edu/cmu/sphinx/linguist/language/ngram/large/LargeTrigramModel.java:338-353 | a sequence not of length 1 to maxDepth fails with "Unsupported N-gram"; lengths 1, 2 and 3 go to the unigram, bigram and trigram scores |
| TrigramModel.Allocate | sphinx4/src/sphinx4/edu/cmu/sphinx/linguist/language/ngram/large/LargeTrigramModel.java:213-225 | the fresh state has one empty buffer slot per unigram, no trigram buffer, valid empty caches with the configured maximum sizes, and zero counters |
| TrigramModel.GetBigramBuffer | sphinx4/src/sphinx4/edu/cmu/sphinx/linguist/language/ngram/large/LargeTrigramModel.java:542-554 | success implies an id in range; only that word's slot may change, and it then holds the returned buffer; counters, caches and trigram buffers are untouched |
| TrigramModel.FindBigram | sphinx4/src/sphinx4/edu/cmu/sphinx/linguist/language/ngram/large/LargeTrigramModel.java:509-533 | a cached bigram is returned with the state unchanged; no search moves a counter, the trigram cache or the trigram buffers |
| TrigramModel.GetBigramProbability | sphinx4/src/sphinx4/edu/cmu/sphinx/linguist/language/ngram/large/LargeTrigramModel.java:475-500 | the bigram path moves only the bigram-miss counter, by at most one, and leaves the trigram counters, cache and buffers alone |
| TrigramModel.LoadTrigramBuffer | sphinx4/src/sphinx4/edu/cmu/sphinx/linguist/language/ngram/large/LargeTrigramModel.java:683-718 | loading a trigram buffer changes neither counters nor caches nor the kept trigram buffers |
| TrigramModel.TrigramBufferOf | sphinx4/src/sphinx4/edu/cmu/sphinx/linguist/language/ngram/large/LargeTrigramModel.java:651-665 | finding or loading the oldest pair's buffer changes neither counters nor caches |
| TrigramModel.FindTrigram | sphinx4/src/sphinx4/edu/cmu/sphinx/linguist/language/ngram/large/LargeTrigramModel.java:647-673 | the trigram search changes neither counters nor caches |
| TrigramModel.TrigramBackoff | sphinx4/src/sphinx4/edu/cmu/sphinx/linguist/language/ngram/large/LargeTrigramModel.java:625-631 | the back-off score leaves the trigram counters and the trigram cache alone |
| TrigramModel.TrigramScore | sphinx4/src/sphinx4/edu/cmu/sphinx/linguist/language/ngram/large/LargeTrigramModel.java:616-632 | an uncached trigram query counts either one hit and no miss or one miss and no hit, and leaves the trigram cache alone |
| TrigramModel.GetTrigramProbability | sphinx4/src/sphinx4/edu/cmu/sphinx/linguist/language/ngram/large/LargeTrigramModel.java:606-638 | the trigram path keeps the state well formed |
| TrigramModel.GetProbability | sphinx4/src/sphinx4/edu/cmu/sphinx/linguist/language/ngram/large/LargeTrigramModel.java:338-353 | a length outside 1..maxDepth fails with "Unsupported N-gram"; a unigram query succeeds exactly for a known word, with its log probability and the state unchanged |
| TrigramModel.ClearBigramBuffers | sphinx4/src/sphinx4/edu/cmu/sphinx/linguist/language/ngram/large/LargeTrigramModel.java:308-317 | a slot stays loaded exactly when its buffer was used; it keeps its records and is marked unused |
| TrigramModel.ClearCache | sphinx4/src/sphinx4/edu/cmu/sphinx/linguist/language/ngram/large/LargeTrigramModel.java:307-329 | counters are unchanged; exactly the used bigram buffers survive, marked unused; trigram buffers are dropped; both caches are emptied exactly when clearing after each utterance is configured; the invariant is preserved |
| CacheTransparency.AllocateInv | sphinx4/src/sphinx4/edu/cmu/sphinx/linguist/language/ngram/large/LargeTrigramModel.java:213-225 | the state after `allocate` satisfies the invariant |
| CacheTransparency.InvIgnoresCounters | sphinx4/src/sphinx4/edu/cmu/sphinx/linguist/language/ngram/large/LargeTrigramModel.java:621-624 | changing only the statistics counters keeps the invariant |
| CacheTransparency.GetBigramBufferAgrees | sphinx4/src/sphinx4/edu/cmu/sphinx/linguist/language/ngram/large/LargeTrigramModel.java:542-554 | under the invariant, the (possibly kept) buffer is what a fresh load gives, the same error on failure, and the invariant holds after |
| CacheTransparency.MarkUsedInv | sphinx4/src/sphinx4/edu/cmu/sphinx/linguist/language/ngram/large/LargeTrigramModel.java:524 | marking a loaded buffer used keeps the invariant |
| CacheTransparency.PutBigramInv | sphinx4/src/sphinx4/edu/cmu/sphinx/linguist/language/ngram/large/LargeTrigramModel.java:526-528 | caching a bigram that the uncached search finds keeps the invariant |
| CacheTransparency.PutTrigramInv | sphinx4/src/sphinx4/edu/cmu/sphinx/linguist/language/ngram/large/LargeTrigramModel.java:633-634 | caching the uncached score of a trigram keeps the invariant |
| CacheTransparency.FindBigramAgrees | sphinx4/src/sphinx4/edu/cmu/sphinx/linguist/language/ngram/large/LargeTrigramModel.java:509-533 | under the invariant, `findBigram` answers what the uncached search answers, and keeps the invariant |
| CacheTransparency.BigramProbabilityAgrees | sphinx4/src/sphinx4/edu/cmu/sphinx/linguist/language/ngram/large/LargeTrigramModel.java:475-500 | under the invariant, `getBigramProbability` answers what the uncached model answers, and keeps the invariant |
| CacheTransparency.LoadTrigramBufferAgrees | sphinx4/src/sphinx4/edu/cmu/sphinx/linguist/language/ngram/large/LargeTrigramModel.java:683-718 | under the invariant, a trigram buffer load answers what a load from fresh bigram records answers, and keeps the invariant |
| CacheTransparency.StoreTrigramBufferInv | sphinx4/src/sphinx4/edu/cmu/sphinx/linguist/language/ngram/large/LargeTrigramModel.java:662-664 | keeping a trigram buffer a fresh load gives keeps the invariant |
| CacheTransparency.TrigramBufferOfAgrees | sphinx4/src/sphinx4/edu/cmu/sphinx/linguist/language/ngram/large/LargeTrigramModel.java:651-665 | under the invariant, a kept or loaded trigram buffer is what a fresh load gives, and the invariant holds after |
| CacheTransparency.FindTrigramAgrees | sphinx4/src/sphinx4/edu/cmu/sphinx/linguist/language/ngram/large/LargeTrigramModel.java:647-673 | under the invariant, `findTrigram` answers what the uncached search answers, and keeps the invariant |
| CacheTransparency.TrigramBackoffAgrees | sphinx4/src/sphinx4/edu/cmu/sphinx/linguist/language/ngram/large/LargeTrigramModel.java:625-631 | under the invariant, the trigram back-off answers what the uncached back-off answers, and keeps the invariant |
| CacheTransparency.TrigramScoreAgrees | sphinx4/src/sphinx4/edu/cmu/sphinx/linguist/language/ngram/large/LargeTrigramModel.java:616-632 | under the invariant, the uncached trigram branch answers what the uncached model answers, and keeps the invariant |
| CacheTransparency.TrigramProbabilityAgrees | sphinx4/src/sphinx4/edu/cmu/sphinx/linguist/language/ngram/large/LargeTrigramModel.java:606-638 | under the invariant, `getTrigramProbability` (cache hit or not) answers what the uncached model answers, and keeps the invariant |
| CacheTransparency.GetProbabilityAgrees | sphinx4/src/sphinx4/edu/cmu/sphinx/linguist/language/ngram/large/LargeTrigramModel.java:338-353 | under the invariant, `getProbability` answers exactly what the uncached model answers, score or error, and keeps the invariant |
| QueryRules.RepeatedQuery | sphinx4/src/sphinx4/edu/cmu/sphinx/linguist/language/ngram/large/LargeTrigramModel.java:338-353 | a query repeated on the state the first one left answers the first answer |
| QueryRules.CachedTrigram | sphinx4/src/sphinx4/edu/cmu/sphinx/linguist/language/ngram/large/LargeTrigramModel.java:613-637 | a cached trigram is answered from the cache with the state, counters included, unchanged, and the cached score is the uncached model's |
| QueryRules.SecondTrigramQueryIsCached | sphinx4/src/sphinx4/edu/cmu/sphinx/linguist/language/ngram/large/LargeTrigramModel.java:613-635 | with a trigram cache size of at least one, asking a trigram again returns the same score and state, so no counter moves |
| QueryRules.BigramMissCounted | sphinx4/src/sphinx4/edu/cmu/sphinx/linguist/language/ngram/large/LargeTrigramModel.java:482-499 | past the early exit, a bigram in the file scores its probability-table entry with the miss counter unchanged; a bigram not in the file scores back-off weight plus unigram score and counts one miss |
| QueryRules.TrigramHitCounted | sphinx4/src/sphinx4/edu/cmu/sphinx/linguist/language/ngram/large/LargeTrigramModel.java:618-632 | an uncached trigram in the file counts one hit and scores its probability-table entry; one not in the file counts one miss and scores the uncached back-off |
| QueryRules.BigramEarlyExit | sphinx4/src/sphinx4/edu/cmu/sphinx/linguist/language/ngram/large/LargeTrigramModel.java:477-480 | with no bigrams in the file or an unknown first word, a bigram query scores the newest word's unigram log probability and leaves the state alone, or fails with "Unigram not in LM" |
| QueryRules.TrigramEarlyExit | sphinx4/src/sphinx4/edu/cmu/sphinx/linguist/language/ngram/large/LargeTrigramModel.java:607-611 | with no trigrams in the file or an unknown first word, a trigram query answers the bigram query of its newest two words, and moves neither the trigram counters nor the trigram cache |
| QueryRules.UnknownSecondWord | sphinx4/src/sphinx4/edu/cmu/sphinx/linguist/language/ngram/large/LargeTrigramModel.java:487-491 | an unknown second word of a bigram fails with "No word ID" from `findBigram`, so the "Bad word2" error is never raised |
| Smear.SmearKey | sphinx4/src/sphinx4/edu/cmu/sphinx/linguist/language/ngram/large/LargeTrigramModel.java:1042-1045 | the key is a Java long; for a non-negative second id its high half is the first id and its low half the second; for a negative second id the key is that id |
| Smear.SmearKeyInjective | sphinx4/src/sphinx4/edu/cmu/sphinx/linguist/language/ngram/large/LargeTrigramModel.java:1042-1058 | for non-negative second ids, two pairs get equal keys if and only if they are the same pair |
| Smear.NegativeSecondIdIgnoresFirst | sphinx4/src/sphinx4/edu/cmu/sphinx/linguist/language/ngram/large/LargeTrigramModel.java:1043 | with a negative second id the key does not depend on the first id |
| Smear.PutSmearTerm | sphinx4/src/sphinx4/edu/cmu/sphinx/linguist/language/ngram/large/LargeTrigramModel.java:1042-1045 | a put adds exactly the pair's key to the map's keys |
| Smear.GetSmearTerm | sphinx4/src/sphinx4/edu/cmu/sphinx/linguist/language/ngram/large/LargeTrigramModel.java:1055-1058 | a term is found exactly when the pair's key is in the map, and it is the term stored under that key |
| Smear.GetAfterPutSmearTerm | sphinx4/src/sphinx4/edu/cmu/sphinx/linguist/language/ngram/large/LargeTrigramModel.java:1042-1058 | the term put for a pair is the term read back for it |
| Smear.PutSmearTermKeepsOthers | sphinx4/src/sphinx4/edu/cmu/sphinx/linguist/language/ngram/large/LargeTrigramModel.java:1042-1058 | putting one pair's term leaves every other pair's term, on non-negative second ids, as it was |
| Smear.SmearWordId | sphinx4/src/sphinx4/edu/cmu/sphinx/linguist/language/ngram/large/LargeTrigramModel.java:400-407 | a word has an int id exactly when it is in the model; otherwise the lookup fails with "No word ID" |
| Smear.GetSmear | sphinx4/src/sphinx4/edu/cmu/sphinx/linguist/language/ngram/large/LargeTrigramModel.java:436-466 | without full smearing, or for an empty history, the smear is 1.0; a single known word gets its unigram smear entry (by its 32-bit id); for two or more words, the second-last and then the last word must be known ("No word ID" otherwise), and the pair's bigram smear term is the answer when the map holds their key, the last word's unigram smear entry when it does not |
| Smear.GetSmearOld | sphinx4/src/sphinx4/edu/cmu/sphinx/linguist/language/ngram/large/LargeTrigramModel.java:416-429 | without full smearing, or for an empty history, the old smear is 0.0; otherwise it is the last word's unigram smear entry, or "No word ID" for an unknown last word |
| Smear.SmearReadsLastTwoWords | sphinx4/src/sphinx4/edu/cmu/sphinx/linguist/language/ngram/large/LargeTrigramModel.java:444-447 | the smear of a history of two or more words depends only on its last two words |
| Smear.SmearOldIsLastWordSmear | sphinx4/src/sphinx4/edu/cmu/sphinx/linguist/language/ngram/large/LargeTrigramModel.java:416-443 | with full smearing, the old smear of a non-empty history is the smear of its last word alone; without it the two are 0.0 and 1.0 |
| Smear.SmearOfPutPair | sphinx4/src/sphinx4/edu/cmu/sphinx/linguist/language/ngram/large/LargeTrigramModel.java:444-454 | with full smearing, a pair of known last words whose term was put gets that term back, whatever precedes it |
| Smear.SmearFallsBackToUnigram | sphinx4/src/sphinx4/edu/cmu/sphinx/linguist/language/ngram/large/LargeTrigramModel.java:448-451 | with full smearing, a known pair without a bigram term has the last word's unigram smear, which equals the old smear |
| Cdcn.NormalizeAsWritten | sphinx2/src/libsphinx2/blk_cdcn_norm.c:117-121 | with a non-zero den every output coefficient times den gives back x; with den zero the result is defined exactly when the leftover index lies inside the frame |
| Cdcn.Normalize | sphinx2/src/libsphinx2/blk_cdcn_norm.c:117-121 | with a non-zero den every output coefficient times den gives back x; with den zero every coefficient plus its tilt gives back the input |
| Cdcn.NormalizeAgreesWhenDenNonZero | sphinx2/src/libsphinx2/blk_cdcn_norm.c:117-119 | with a non-zero den the repaired step and the step as written give the same frame |
| Cdcn.Distance | sphinx2/src/libsphinx2/blk_cdcn_norm.c:87-93 | with positive variances the distance is non-negative; a frame that equals tilt plus the codeword's mean and correction is at distance zero |
| Cdcn.Weight | sphinx2/src/libsphinx2/blk_cdcn_norm.c:94 | a codeword whose probability weight is zero has weight zero, whatever its distance |
| Cdcn.Den | sphinx2/src/libsphinx2/blk_cdcn_norm.c:94-111 | with a non-negative exponential and non-negative probability weights, den is non-negative; with an exponential that is zero everywhere, den is zero |
| Cdcn.Num | sphinx2/src/libsphinx2/blk_cdcn_norm.c:98-111 | the numerator of coefficient j is the weighted estimate summed over all codewords less codeword 0's term |
| Cdcn.DistanceZeroAtCodeword | sphinx2/src/libsphinx2/blk_cdcn_norm.c:87-93 | a frame that equals tilt plus codeword k's mean and correction has every partial distance to codeword k zero |
| Cdcn.CleanFrame | sphinx2/src/libsphinx2/blk_cdcn_norm.c:81-126 | the cleaned frame has the frame's width; with a non-zero den each coefficient times den is the numerator over codewords 1 and up; with den zero it is the input less the tilt |
| Cdcn.CodewordDistance | sphinx2/src/libsphinx2/blk_cdcn_norm.c:87-93 | the two-part distance loop computes the variance-weighted squared distance over all coefficients and leaves its index at the frame width |
| Cdcn.CodewordWeight | sphinx2/src/libsphinx2/blk_cdcn_norm.c:87-95 | the weight `fk` of a codeword is its Gaussian score at the frame times its probability weight |
| Cdcn.AddCodeword | sphinx2/src/libsphinx2/blk_cdcn_norm.c:109-110 | the update loop adds codeword k's weighted estimate to every coefficient of x and leaves its index at the frame width |
| Cdcn.NextCodeword | sphinx2/src/libsphinx2/blk_cdcn_norm.c:98-111 | one pass of the codeword loop adds codeword k to both den and x, and codeword k only |
| Cdcn.ReestimateFrame | sphinx2/src/libsphinx2/blk_cdcn_norm.c:84-112 | the frame loops compute den over all codewords, x over codewords 1 and up, and leave the coefficient index at NUM_COEFF+1 |
| Cdcn.NormalizeFrameAsWritten | sphinx2/src/libsphinx2/blk_cdcn_norm.c:84-121 | as written, a frame with non-zero den is cleaned, and a frame with den zero has no defined result (write out of bounds) |
| Cdcn.NormalizeFrame | sphinx2/src/libsphinx2/blk_cdcn_norm.c:84-121 | the loops with the repaired last step compute the cleaned frame |
| Cdcn.BlockActualCdcnNorm | sphinx2/src/libsphinx2/blk_cdcn_norm.c:58-127 | every frame below num_frames is replaced by its cleaned frame, computed from that frame alone; every later frame is untouched; the block keeps its length |
| Cdcn.CleanBlock | sphinx2/src/libsphinx2/blk_cdcn_norm.c:81-126 | the block keeps its length; each frame below num_frames becomes its own cleaned frame and every later frame stays as it was |
| Cdcn.BlockCdcnNorm | sphinx2/src/libsphinx2/blk_cdcn_norm.c:9-47 | when CDCN is off or not yet initialized the block passes through unchanged; otherwise it is normalized |
| Cdcn.FramesIndependent | sphinx2/src/libsphinx2/blk_cdcn_norm.c:81-126 | with the repaired den-zero step, two blocks that agree on a frame agree on that frame after normalization; the C as written does not have this property, because its den-zero step writes the next frame's coefficient 0 |
| Cdcn.DistanceNonNegative | sphinx2/src/libsphinx2/blk_cdcn_norm.c:87-93 | with positive variances every partial distance is non-negative |
| Cdcn.DenNonNegative | sphinx2/src/libsphinx2/blk_cdcn_norm.c:94-111 | with a non-negative exponential and non-negative probability weights, den is non-negative |
| Cdcn.NumeratorSkipsFirstCodeword | sphinx2/src/libsphinx2/blk_cdcn_norm.c:94-111 | x is the numerator over all codewords less codeword 0's term, which den counts |
| Cdcn.SharedCorrectionNumerator | sphinx2/src/libsphinx2/blk_cdcn_norm.c:98-111 | when all codewords share one correction, x is the common estimate times den less codeword 0's weight |
| Cdcn.SingleCodewordGivesZeros | sphinx2/src/libsphinx2/blk_cdcn_norm.c:84-119 | with one codeword and a non-zero den, the cleaned frame is all zeros |
| Cdcn.DegenerateFrameWritesOutOfBounds | sphinx2/src/libsphinx2/blk_cdcn_norm.c:117-121 | when the exponential vanishes, den is zero and the step as written, at the index the loops leave, has no defined result |
| Cdcn.DenVanishes | sphinx2/src/libsphinx2/blk_cdcn_norm.c:94-111 | with an exponential that is zero everywhere, every partial den is zero |

## Left out

- File loading, the dictionary, `BinaryLoader`, `BigramBuffer` and `TrigramBuffer` are outside this model. Their effect appears as the immutable tables of `LanguageModel`: the unigram and probability tables, the bigram and trigram sections as record sequences, and the segment table. Buffer searches are modelled by their contracts (first match); the binary search inside `BigramBuffer` is not modelled.
- `buildUnigramIDMap` is not modelled. The word-to-unigram map it builds from the dictionary is an input of `LanguageModel`, and so are the word ids.
- The getters `getMaxDepth`, `getBigramMisses`, `getTrigramMisses`, `getTrigramHits`, `getName` and `getLogger` only read fields. They are not modelled separately: `MaxDepth` and the counters of `LmState` stand for them.
- A new `BigramBuffer` is taken to start unused. Its constructor is not part of this model.
- `WordSequence.getOldest` and `getNewest` are taken to be the first two and the last two words of a trigram.
- Configuration (`newProperties`), the query log file, logging, `TimerPool`, `start`/`stop` (apart from `clearCache`), `deallocate`, `getVocabulary`, `getBackoff` and `getBigramProb` are not modelled. They are I/O or bookkeeping outside the lookup logic.
- `buildSmearInfo`, `readSmearInfo`, `writeSmearInfo` and `dumpProbs` are not modelled. They are file I/O and floating-point table building. The smear tables are inputs instead.
- The smear statistics `smearCount` and `smearBigramHit` and their periodic printing are left out. They are diagnostics only.
- TrigramModel.GetProbability: scores are `real`, so float rounding and the `float`/`double` conversions are not modelled. Counters are unbounded `nat`s, so their 32-bit wrap-around is not modelled.
- TrigramModel.GetProbability: after a failure the model discards the state. The Java object would keep whatever it changed before throwing, and those errors are fatal (`Error`) for a recognizer.
- The `firstWordID < 0` diagnostic print in `findBigram` is left out.
- Smear.SmearWordId: unigram ids are unbounded in `LanguageModel`. The smear path reads them as the Java `int`s they are stored in, through a 32-bit wrap.
- Cdcn: cepstra are `real`s. C `float` rounding, `exp` overflow or underflow, and NaN or infinity from a zero variance are not modelled. The exponential is a parameter, and variances must be non-zero.
- Cdcn: NUM_COEFF comes from cdcn.h, which is not part of this model. The frame width is the length of the tilt vector.
- Cdcn: the noise estimate and the rest of the CDCN variables (lines 36-42) are carried but never read. The estimation of the codebook, which clears `firstcall`, is not part of this model.
- Cdcn.NormalizeFrameAsWritten: the out-of-bounds write is modelled as an undefined result. Where it lands in memory (with row-major storage, the first coefficient of the next frame) is not modelled.
- Cdcn.FramesIndependent: is proved for the repaired step (`CleanBlock`), not for the C as written. `z` is declared `float z[][NUM_COEFF+1]`, so the den-zero write to `z[i][NUM_COEFF+1]` lands on `z[i+1][0]`. That frame is read after the write, so a degenerate frame changes the next frame's input; for the last frame of the array the write lands past the block.

## Findings

| source | as written | input that shows it | evidently intended | confidence | as-written member | corrected member |
|---|---|---|---|---|---|---|
| sphinx4/src/sphinx4/edu/cmu/sphinx/linguist/language/ngram/large/LargeTrigramModel.java:570 | `firstBigramEntry * BYTES_PER_BIGRAM` is an `int` product; the cast to `long` comes after it | a word whose first bigram entry is 2^28 (a bigram section past 2 GiB): the position wraps to 2^31 bytes before the section | the byte position computed in `long` arithmetic | medium, not executed | NgramTables.BigramLoadPositionOverflows | NgramTables.LoadBigramRecords |
| sphinx4/src/sphinx4/edu/cmu/sphinx/linguist/language/ngram/large/LargeTrigramModel.java:704 | `(long) (firstTrigramEntry * BYTES_PER_TRIGRAM)` casts after the `int` product has wrapped | a bigram whose first trigram entry is 2^29 (a trigram section past 2 GiB): the position wraps to 2^31 bytes before the section | the byte position computed in `long` arithmetic | medium, not executed | NgramTables.TrigramLoadPositionOverflows | NgramTables.LoadTrigramRecords |
| sphinx2/src/libsphinx2/blk_cdcn_norm.c:120-121 | when `den == 0` the else branch has no loop: `z[i][j] -= tilt[j]` uses the `j` the loops left, NUM_COEFF+1: it reads past `tilt` and corrupts the next frame's coefficient 0, `z[i+1][0]` (past the block for the last frame) | any frame for which every codeword's weight is zero, e.g. `exp` underflowing for all codewords | subtract the tilt from every coefficient of the frame | high, not executed | Cdcn.DegenerateFrameWritesOutOfBounds | Cdcn.NormalizeFrame |

Where the code and its documentation part ways, the model follows the code:

- `LRUCache` extends an insertion-ordered `LinkedHashMap`, so eviction is first-in first-out, not least-recently-used.
- The "Bad word2" error of `getBigramProbability` cannot be raised: `findBigram` calls `getWordID` on the second word before any back-off, and that call fails first (`QueryRules.UnknownSecondWord`).
- In `block_actual_cdcn_norm` the numerator skips codeword 0 while `den` includes it. This is modelled as written (`Cdcn.NumeratorSkipsFirstCodeword`).

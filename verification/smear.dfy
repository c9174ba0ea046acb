/**
 * The smear terms of LargeTrigramModel.java: a per-unigram smear table and a
 * map of bigram smear terms keyed by a 64-bit packing of the two word ids,
 * and the two queries `getSmear` and `getSmearOld` over them.
 *
 * Building the smear terms from the model and reading or writing them from a
 * file are not part of this model; the two tables are inputs.
 */
module Smear {
  import opened Wrappers
  import opened NgramTables

  /** A Java `int`. */
  type JavaInt = x: int | -0x8000_0000 <= x < 0x8000_0000

  const TwoTo32: int := 0x1_0000_0000

  /**
   * The Java `long` `(((long) word1) << 32) | word2`. The shift puts the first
   * id in the high half; `word2` is sign-extended before the `|`, so a
   * non-negative second id fills the low half, and a negative one sets every
   * high bit, which leaves the second id alone.
   */
  function SmearKey(word1: JavaInt, word2: JavaInt): (key: int)
    ensures -0x8000_0000_0000_0000 <= key < 0x8000_0000_0000_0000
    ensures word2 >= 0 ==> key / TwoTo32 == word1 && key % TwoTo32 == word2
    ensures word2 < 0 ==> key == word2
  {
    if word2 >= 0 then word1 * TwoTo32 + word2 else word2
  }

  /** On non-negative ids, which are the ones the dictionary hands out, the key is a bijection. */
  lemma {:induction false} SmearKeyInjective(a1: JavaInt, a2: JavaInt, b1: JavaInt, b2: JavaInt)
    requires a2 >= 0 && b2 >= 0
    ensures SmearKey(a1, a2) == SmearKey(b1, b2) <==> a1 == b1 && a2 == b2
  {
    if SmearKey(a1, a2) == SmearKey(b1, b2) {
      assert a1 == SmearKey(a1, a2) / TwoTo32 == SmearKey(b1, b2) / TwoTo32 == b1;
    }
  }

  /** A negative second id makes the key forget the first id. */
  lemma NegativeSecondIdIgnoresFirst(a1: JavaInt, b1: JavaInt, word2: JavaInt)
    requires word2 < 0
    ensures SmearKey(a1, word2) == SmearKey(b1, word2)
  {
  }

  /** `putSmearTerm`. */
  function PutSmearTerm(smears: map<int, real>, word1: JavaInt, word2: JavaInt, smearTerm: real): (r: map<int, real>)
    ensures r.Keys == smears.Keys + {SmearKey(word1, word2)}
  {
    smears[SmearKey(word1, word2) := smearTerm]
  }

  /** `getSmearTerm`: None where Java's `get` returns null. */
  function GetSmearTerm(smears: map<int, real>, word1: JavaInt, word2: JavaInt): (r: Option<real>)
    ensures r.Some? <==> SmearKey(word1, word2) in smears
    ensures r.Some? ==> r.value == smears[SmearKey(word1, word2)]
  {
    var key := SmearKey(word1, word2);
    if key in smears then Some(smears[key]) else None
  }

  /** A smear term put for a word pair is the one read back for it. */
  lemma GetAfterPutSmearTerm(smears: map<int, real>, word1: JavaInt, word2: JavaInt, smearTerm: real)
    ensures GetSmearTerm(PutSmearTerm(smears, word1, word2, smearTerm), word1, word2) == Some(smearTerm)
  {
  }

  /** Putting the term of one pair of non-negative ids leaves every other such pair's term alone. */
  lemma {:induction false} PutSmearTermKeepsOthers(smears: map<int, real>, word1: JavaInt, word2: JavaInt, smearTerm: real,
                                                   other1: JavaInt, other2: JavaInt)
    requires word2 >= 0 && other2 >= 0 && (other1, other2) != (word1, word2)
    ensures GetSmearTerm(PutSmearTerm(smears, word1, word2, smearTerm), other1, other2)
      == GetSmearTerm(smears, other1, other2)
  {
    SmearKeyInjective(word1, word2, other1, other2);
  }

  /** The word id of a known word as the Java `int` it is stored in. */
  function SmearWordId(m: LanguageModel, w: Word): (r: Result<JavaInt, LmError>)
    ensures r.Success? <==> w in m.dictionary
    ensures r.Success? ==> r.value == Wrap32(m.dictionary[w].wordId)
    ensures r.Failure? ==> r.error == NoWordId(w)
  {
    var wordId :- WordId(m, w);
    Success(Wrap32(wordId))
  }

  /**
   * `getSmear`: 1.0 without full smearing or for the empty sequence; the
   * unigram smear of a single word; otherwise the bigram smear of the last
   * two words, or, when the pair has none, the unigram smear of the last word.
   */
  function GetSmear(m: LanguageModel, ws: seq<Word>): (r: Result<real, LmError>)
    ensures !m.fullSmear || |ws| == 0 ==> r == Success(1.0)
    ensures m.fullSmear && |ws| == 1 ==>
      && (ws[0] in m.dictionary ==> r == At(m.unigramSmearTerm, Wrap32(m.dictionary[ws[0]].wordId)))
      && (ws[0] !in m.dictionary ==> r == Failure(NoWordId(ws[0])))
    ensures m.fullSmear && |ws| >= 2 ==> var word1, word2 := ws[|ws| - 2], ws[|ws| - 1];
      && (word1 !in m.dictionary ==> r == Failure(NoWordId(word1)))
      && (word1 in m.dictionary && word2 !in m.dictionary ==> r == Failure(NoWordId(word2)))
      && (word1 in m.dictionary && word2 in m.dictionary ==>
            var wordId2 := Wrap32(m.dictionary[word2].wordId);
            var key := SmearKey(Wrap32(m.dictionary[word1].wordId), wordId2);
            && (key in m.bigramSmearMap ==> r == Success(m.bigramSmearMap[key]))
            && (key !in m.bigramSmearMap ==> r == At(m.unigramSmearTerm, wordId2)))
  {
    if !m.fullSmear then Success(1.0)
    else if |ws| == 1 then
      var wordId :- SmearWordId(m, ws[0]);
      At(m.unigramSmearTerm, wordId)
    else if |ws| >= 2 then
      var wordId1 :- SmearWordId(m, ws[|ws| - 2]);
      var wordId2 :- SmearWordId(m, ws[|ws| - 1]);
      match GetSmearTerm(m.bigramSmearMap, wordId1, wordId2)
      case None => At(m.unigramSmearTerm, wordId2)
      case Some(smearTerm) => Success(smearTerm)
    else Success(1.0)
  }

  /** `getSmearOld`: 0.0 without full smearing or for the empty sequence, else the unigram smear of the last word. */
  function GetSmearOld(m: LanguageModel, ws: seq<Word>): (r: Result<real, LmError>)
    ensures !m.fullSmear || |ws| == 0 ==> r == Success(0.0)
    ensures m.fullSmear && |ws| > 0 ==> var word := ws[|ws| - 1];
      && (word in m.dictionary ==> r == At(m.unigramSmearTerm, Wrap32(m.dictionary[word].wordId)))
      && (word !in m.dictionary ==> r == Failure(NoWordId(word)))
  {
    if m.fullSmear && |ws| > 0 then
      var wordId :- SmearWordId(m, ws[|ws| - 1]);
      At(m.unigramSmearTerm, wordId)
    else Success(0.0)
  }

  /** `getSmear` of a longer history reads only its last two words. */
  lemma {:induction false} SmearReadsLastTwoWords(m: LanguageModel, ws: seq<Word>)
    requires |ws| >= 2
    ensures GetSmear(m, ws) == GetSmear(m, ws[|ws| - 2..])
  {
    var tail := ws[|ws| - 2..];
    assert tail[0] == ws[|ws| - 2] && tail[1] == ws[|ws| - 1];
  }

  /**
   * With full smearing, `getSmearOld` of a non-empty history is `getSmear` of
   * its last word alone; without it, the two differ (0.0 against 1.0).
   */
  lemma {:induction false} SmearOldIsLastWordSmear(m: LanguageModel, ws: seq<Word>)
    requires |ws| > 0
    ensures m.fullSmear ==> GetSmearOld(m, ws) == GetSmear(m, [ws[|ws| - 1]])
    ensures !m.fullSmear ==> GetSmearOld(m, ws) == Success(0.0) && GetSmear(m, ws) == Success(1.0)
  {
    assert [ws[|ws| - 1]][0] == ws[|ws| - 1];
  }

  /**
   * With full smearing, a pair of known words whose bigram smear term is put
   * gets that term back from `getSmear`, whatever came before the pair.
   */
  lemma {:induction false} SmearOfPutPair(m: LanguageModel, ws: seq<Word>, smearTerm: real)
    requires m.fullSmear && |ws| >= 2
    requires ws[|ws| - 2] in m.dictionary && ws[|ws| - 1] in m.dictionary
    ensures var wordId1, wordId2 := Wrap32(m.dictionary[ws[|ws| - 2]].wordId), Wrap32(m.dictionary[ws[|ws| - 1]].wordId);
      GetSmear(m.(bigramSmearMap := PutSmearTerm(m.bigramSmearMap, wordId1, wordId2, smearTerm)), ws)
        == Success(smearTerm)
  {
    var wordId1, wordId2 := Wrap32(m.dictionary[ws[|ws| - 2]].wordId), Wrap32(m.dictionary[ws[|ws| - 1]].wordId);
    GetAfterPutSmearTerm(m.bigramSmearMap, wordId1, wordId2, smearTerm);
  }

  /**
   * With full smearing, a pair of known words without a bigram smear term
   * falls back to the unigram smear of the last word, which is what
   * `getSmearOld` answers.
   */
  lemma {:induction false} SmearFallsBackToUnigram(m: LanguageModel, ws: seq<Word>)
    requires m.fullSmear && |ws| >= 2
    requires ws[|ws| - 2] in m.dictionary && ws[|ws| - 1] in m.dictionary
    requires SmearKey(Wrap32(m.dictionary[ws[|ws| - 2]].wordId), Wrap32(m.dictionary[ws[|ws| - 1]].wordId))
      !in m.bigramSmearMap
    ensures GetSmear(m, ws) == GetSmearOld(m, ws)
  {
    var wordId1, wordId2 := Wrap32(m.dictionary[ws[|ws| - 2]].wordId), Wrap32(m.dictionary[ws[|ws| - 1]].wordId);
    assert GetSmearTerm(m.bigramSmearMap, wordId1, wordId2) == None;
  }
}

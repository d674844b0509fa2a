/** The processor that keeps bad words out of a generated sequence (overlay/vllm/logits_process.py). */
module BadWords {
  import opened Wrappers

  /** A float, as far as adding zero or minus infinity goes. */
  datatype Logit = NegInf | Fin(value: real) | PosInf | NaN

  const NEUTRAL_LOGIT := Fin(0.0)

  function Add(a: Logit, b: Logit): Logit {
    match (a, b)
    case (NaN, _) => NaN
    case (_, NaN) => NaN
    case (Fin(x), Fin(y)) => Fin(x + y)
    case (Fin(_), _) => b
    case (_, Fin(_)) => a
    case (_, _) => if a == b then a else NaN
  }

  datatype Error = ValueError | IndexError | RuntimeError

  // ---------------------------------------------------------------------------------------
  // What the processor is for
  // ---------------------------------------------------------------------------------------

  /** The token would complete this bad word after these tokens. */
  predicate CompletesWord(word: seq<int>, past: seq<int>, token: int) {
    0 < |word| <= |past| + 1 && word == past[|past| + 1 - |word|..] + [token]
  }

  predicate Completes(words: seq<seq<int>>, past: seq<int>, token: int) {
    exists w <- words :: CompletesWord(w, past, token)
  }

  function Processed(words: seq<seq<int>>, past: seq<int>, logits: seq<Logit>): (r: seq<Logit>) {
    seq(|logits|, t requires 0 <= t < |logits| =>
      if Completes(words, past, t) then Add(logits[t], NegInf) else logits[t])
  }

  /** The word is not empty, and if its last token gets a bias there is an entry for it. */
  predicate Indexed(word: seq<int>, past: seq<int>, vocabSize: nat) {
    word != [] && (1 < |word| <= |past| + 1 ==> word[|word| - 1] < vocabSize)
  }

  /** Tokens of the vocabulary, and no empty word. */
  predicate Acceptable(words: seq<seq<int>>, vocabSize: nat) {
    forall w <- words :: w != [] && InVocabulary(w, vocabSize)
  }

  predicate InVocabulary(word: seq<int>, vocabSize: nat) { forall t <- word :: 0 <= t < vocabSize }

  predicate AllInVocabulary(words: seq<seq<int>>, vocabSize: nat) { forall w <- words :: InVocabulary(w, vocabSize) }

  function WordBias(words: seq<seq<int>>, vocabSize: nat): seq<Logit> {
    seq(vocabSize, t => if [t] in words then NegInf else NEUTRAL_LOGIT)
  }

  /** The bias of the words of two or more tokens. */
  function LastTokenBias(words: seq<seq<int>>, past: seq<int>, vocabSize: nat): seq<Logit> {
    seq(vocabSize, t => if LongerCompletes(words, past, t) then NegInf else NEUTRAL_LOGIT)
  }

  predicate LongerCompletes(words: seq<seq<int>>, past: seq<int>, token: int) {
    exists w <- words :: |w| > 1 && CompletesWord(w, past, token)
  }

  lemma BiasesMakeProcessed(words: seq<seq<int>>, past: seq<int>, logits: seq<Logit>, t: nat)
    requires t < |logits|
    ensures Add(Add(logits[t], WordBias(words, |logits|)[t]), LastTokenBias(words, past, |logits|)[t]) ==
            Processed(words, past, logits)[t]
  {
    if [t] in words {
      assert CompletesWord([t], past, t) by { assert past[|past|..] + [t] == [t]; }
    }
    if Completes(words, past, t) && !LongerCompletes(words, past, t) {
      var w :| w in words && CompletesWord(w, past, t);
      assert |w| == 1;
      assert w == [t];
    }
  }

  /** What adding the bias of a match does to a bias. */
  lemma AddBias(bias: Logit, isMatch: bool)
    requires bias == NegInf || bias == NEUTRAL_LOGIT
    ensures Add(bias, if isMatch then NegInf else NEUTRAL_LOGIT) == if isMatch then NegInf else bias
  {
  }

  class NoBadWordsLogitsProcessor {
    const badWordsIds: seq<seq<int>>
    var wordBias: array?<Logit>

    ghost predicate Valid()
      reads this, wordBias
    {
      wordBias != null ==>
        && AllInVocabulary(badWordsIds, wordBias.Length)
        && wordBias[..] == WordBias(badWordsIds, wordBias.Length)
    }

    constructor (badWordsIds: seq<seq<int>>)
      ensures Valid() && this.badWordsIds == badWordsIds && wordBias == null
    {
      this.badWordsIds, wordBias := badWordsIds, null;
    }

    /** `__call__`: the same with a cached bias as with a fresh one. */
    method Call(pastTokensIds: seq<int>, logits: seq<Logit>) returns (r: Result<seq<Logit>, Error>)
      requires Valid()
      modifies this`wordBias
      ensures Valid() && (old(wordBias) != null ==> wordBias == old(wordBias))
      ensures r.Ok? <==>
                Acceptable(badWordsIds, |logits|) && (old(wordBias) == null || old(wordBias.Length) == |logits|)
      ensures r.Ok? <==>
                && (forall w <- badWordsIds :: w != [] && forall t <- w :: 0 <= t < |logits|)
                && (old(wordBias) == null || old(wordBias.Length) == |logits|)
      ensures r == Err(ValueError) <==>
                old(wordBias) == null && !(forall w <- badWordsIds, t <- w :: 0 <= t < |logits|)
      ensures r == Err(IndexError) <==>
                && (old(wordBias) == null ==> forall w <- badWordsIds, t <- w :: 0 <= t < |logits|)
                && !(forall w <- badWordsIds :: Indexed(w, pastTokensIds, |logits|))
      ensures r.Ok? ==> r.value == Processed(badWordsIds, pastTokensIds, logits)
    {
      if wordBias == null {
        var ok := InitWordBias(|logits|);
        if !ok {
          return Err(ValueError);
        }
      }
      var bias := BuildLastTokenBias(pastTokensIds, |logits|);
      if bias.Err? {
        assert forall w <- badWordsIds :: w != [] ==> w[|w| - 1] in w;
        return Err(bias.error);
      }
      if wordBias.Length != |logits| {
        return Err(RuntimeError);
      }
      var word := wordBias;
      forall t | 0 <= t < |logits|
        ensures Add(Add(logits[t], word[t]), bias.value[t]) == Processed(badWordsIds, pastTokensIds, logits)[t]
      {
        assert word[t] == word[..][t];
        BiasesMakeProcessed(badWordsIds, pastTokensIds, logits, t);
      }
      r := Ok(seq(|logits|, t requires 0 <= t < |logits| reads word => Add(Add(logits[t], word[t]), bias.value[t])));
    }

    /** The loop of `__call__` over the bad words. */
    method BuildLastTokenBias(past: seq<int>, vocabSize: nat) returns (r: Result<seq<Logit>, Error>)
      requires forall w <- badWordsIds, t <- w :: 0 <= t
      ensures r.Ok? ==> r.value == LastTokenBias(badWordsIds, past, vocabSize)
      ensures if forall w <- badWordsIds :: Indexed(w, past, vocabSize) then r.Ok? else r == Err(IndexError)
    {
      var lastTokenBias := new Logit[vocabSize](_ => NEUTRAL_LOGIT);
      hide LongerCompletes, CompletesWord, Indexed;
      NoWordCompletes(past);
      for i := 0 to |badWordsIds|
        invariant forall w <- badWordsIds[..i] :: Indexed(w, past, vocabSize)
        invariant forall t | 0 <= t < vocabSize ::
                    lastTokenBias[t] == if LongerCompletes(badWordsIds[..i], past, t) then NegInf else NEUTRAL_LOGIT
      {
        var word := badWordsIds[i];
        assert word in badWordsIds && badWordsIds[..i + 1] == badWordsIds[..i] + [word];
        OneMoreWord(badWordsIds, i, past);
        var ok := BiasLastToken(lastTokenBias, word, past);
        if !ok {
          return Err(IndexError);
        }
      }
      assert badWordsIds[..|badWordsIds|] == badWordsIds;
      r := Ok(lastTokenBias[..]);
    }

    /** A step of that loop; false is an index out of range. */
    static method BiasLastToken(lastTokenBias: array<Logit>, word: seq<int>, past: seq<int>) returns (ok: bool)
      requires forall t <- word :: 0 <= t
      requires forall t | 0 <= t < lastTokenBias.Length ::
                 lastTokenBias[t] == NegInf || lastTokenBias[t] == NEUTRAL_LOGIT
      modifies lastTokenBias
      ensures ok <==> Indexed(word, past, lastTokenBias.Length)
      ensures !ok ==> lastTokenBias[..] == old(lastTokenBias[..])
      ensures ok ==> forall t | 0 <= t < lastTokenBias.Length ::
                       lastTokenBias[t] == if 1 < |word| <= |past| + 1 && CompletesWord(word, past, t) then NegInf
                                           else old(lastTokenBias[t])
    {
      hide CompletesWord, Add;
      if |word| == 1 || |word| > |past| + 1 {
        return true;
      }
      if word == [] {
        return false;
      }
      var prefixLength := |word| - 1;
      var lastTokenId := word[prefixLength];
      assert lastTokenId in word;
      MatchCompletes(word, past);
      var isMatch := past[|past| - prefixLength..] == word[..prefixLength];
      if lastTokenId >= lastTokenBias.Length {
        return false;
      }
      var before := lastTokenBias[lastTokenId];
      AddBias(before, isMatch);
      lastTokenBias[lastTokenId] := Add(before, if isMatch then NegInf else NEUTRAL_LOGIT);
      ok := true;
    }

    /** `_init_word_bias`; false is the error for tokens out of the vocabulary. */
    method InitWordBias(vocabSize: nat) returns (ok: bool)
      requires wordBias == null
      modifies this`wordBias
      ensures Valid() && ok == AllInVocabulary(badWordsIds, vocabSize)
      ensures ok <==> forall w <- badWordsIds, t <- w :: 0 <= t < vocabSize
      ensures if ok then wordBias != null && wordBias.Length == vocabSize && fresh(wordBias) else wordBias == null
    {
      ok := CheckTokenIdsBounds(vocabSize);
      if !ok {
        return;
      }
      var bias := new Logit[vocabSize](_ => NEUTRAL_LOGIT);
      for i := 0 to |badWordsIds|
        invariant forall t | 0 <= t < vocabSize :: bias[t] == if [t] in badWordsIds[..i] then NegInf else NEUTRAL_LOGIT
      {
        var word := badWordsIds[i];
        assert word in badWordsIds && badWordsIds[..i + 1] == badWordsIds[..i] + [word];
        if |word| == 1 {
          assert word[0] in word && word == [word[0]];
          bias[word[0]] := NegInf;
        }
      }
      assert badWordsIds[..|badWordsIds|] == badWordsIds;
      wordBias := bias;
      assert wordBias[..] == WordBias(badWordsIds, vocabSize);
    }

    /** `_check_token_ids_bounds`: it collects every token out of bounds. */
    method CheckTokenIdsBounds(vocabSize: nat) returns (ok: bool)
      ensures ok == AllInVocabulary(badWordsIds, vocabSize)
      ensures ok <==> forall w <- badWordsIds, t <- w :: 0 <= t < vocabSize
    {
      var invalidTokenIds: seq<int> := [];
      for i := 0 to |badWordsIds|
        invariant invalidTokenIds == [] <==> AllInVocabulary(badWordsIds[..i], vocabSize)
      {
        var word := badWordsIds[i];
        ghost var before := invalidTokenIds;
        for j := 0 to |word|
          invariant invalidTokenIds == [] <==> before == [] && InVocabulary(word[..j], vocabSize)
        {
          OneMoreToken(word, j, vocabSize);
          if word[j] < 0 || word[j] >= vocabSize {
            invalidTokenIds := invalidTokenIds + [word[j]];
          }
        }
        assert word[..|word|] == word;
        assert badWordsIds[..i + 1] == badWordsIds[..i] + [word];
      }
      assert badWordsIds[..|badWordsIds|] == badWordsIds;
      ok := |invalidTokenIds| == 0;
    }
  }

  lemma OneMoreToken(word: seq<int>, j: nat, vocabSize: nat)
    requires j < |word|
    ensures InVocabulary(word[..j + 1], vocabSize) <==> InVocabulary(word[..j], vocabSize) && 0 <= word[j] < vocabSize
  {
    assert word[..j + 1] == word[..j] + [word[j]];
    assert word[j] in word[..j + 1];
    assert forall t <- word[..j] :: t in word[..j + 1];
  }

  lemma NoWordCompletes(past: seq<int>)
    ensures forall t: int :: !LongerCompletes([], past, t)
  {
  }

  lemma OneMoreWord(words: seq<seq<int>>, i: nat, past: seq<int>)
    requires i < |words|
    ensures forall t: int :: LongerCompletes(words[..i + 1], past, t) <==>
              LongerCompletes(words[..i], past, t) || (1 < |words[i]| <= |past| + 1 && CompletesWord(words[i], past, t))
  {
    assert words[..i + 1] == words[..i] + [words[i]];
    assert forall w <- words[..i] :: w in words[..i + 1];
    assert words[i] in words[..i + 1];
    forall t: int
      ensures LongerCompletes(words[..i + 1], past, t) <==>
              LongerCompletes(words[..i], past, t) || (1 < |words[i]| <= |past| + 1 && CompletesWord(words[i], past, t))
    {
    }
  }

  lemma MatchCompletes(word: seq<int>, past: seq<int>)
    requires 1 < |word| <= |past| + 1
    ensures
      var n := |word| - 1;
      && (past[|past| - n..] == word[..n] <==> CompletesWord(word, past, word[n]))
      && forall t: int | CompletesWord(word, past, t) :: t == word[n]
  {
    var n := |word| - 1;
    assert word == word[..n] + [word[n]];
    var prefix := past[|past| - n..];
    assert |past| + 1 - |word| == |past| - n;
    assert (prefix + [word[n]])[..n] == prefix;
    forall t: int | CompletesWord(word, past, t) ensures t == word[n] {
      assert (prefix + [t])[n] == t;
    }
  }

  // ---------------------------------------------------------------------------------------
  // Which logits change
  // ---------------------------------------------------------------------------------------

  /** A finite logit changes exactly when its token completes a bad word. The logit of such a token becomes
      minus infinity exactly when it was finite or minus infinity, and not a number otherwise; every logit of
      another token stays. */
  lemma ChangedWhenCompleting(words: seq<seq<int>>, past: seq<int>, logits: seq<Logit>, t: nat)
    requires t < |logits|
    ensures
      var r := Processed(words, past, logits)[t];
      && (logits[t].Fin? ==> (r != logits[t] <==> Completes(words, past, t)))
      && (Completes(words, past, t) ==> (r == NegInf <==> logits[t].Fin? || logits[t] == NegInf))
      && (Completes(words, past, t) ==> (r == NaN <==> logits[t] == PosInf || logits[t] == NaN))
      && (!Completes(words, past, t) ==> r == logits[t])
  {
  }

  /** The processor means to set the logit of a forbidden token to minus infinity. That it does so for a row of
      logits says exactly that no token that completes a bad word has an infinite or undefined logit. */
  lemma ForbidsExactly(words: seq<seq<int>>, past: seq<int>, logits: seq<Logit>)
    ensures Processed(words, past, logits) ==
            seq(|logits|, t requires 0 <= t < |logits| => if Completes(words, past, t) then NegInf else logits[t])
            <==> forall t | 0 <= t < |logits| && Completes(words, past, t) :: logits[t] != PosInf && logits[t] != NaN
  {
    var wanted := seq(|logits|, t requires 0 <= t < |logits| =>
      if Completes(words, past, t) then NegInf else logits[t]);
    var r := Processed(words, past, logits);
    hide Completes;
    if forall t | 0 <= t < |logits| && Completes(words, past, t) :: logits[t] != PosInf && logits[t] != NaN {
      assert r == wanted;
    }
    if r == wanted {
      forall t | 0 <= t < |logits| && Completes(words, past, t) ensures logits[t] != PosInf && logits[t] != NaN {
        assert r[t] == wanted[t];
      }
    }
  }

  /** An infinite logit shows the difference. */
  lemma InfiniteLogitIsNotForbidden()
    ensures Processed([[0]], [], [PosInf]) == [NaN]
  {
    SingleWordCompletes([0], [], 0);
    hide Completes, CompletesWord;
    ChangedWhenCompleting([[0]], [], [PosInf], 0);
  }

  lemma SingleWordCompletes(word: seq<int>, past: seq<int>, token: int)
    requires word == [token]
    ensures Completes([word], past, token)
  {
    assert past[|past|..] == [];
    assert CompletesWord(word, past, token);
    assert [word][0] in [word];
  }

  // ---------------------------------------------------------------------------------------
  // Runs
  // ---------------------------------------------------------------------------------------

  /** A run of the generation: at step i the logits steps[i] come in and the token out[i] is picked, whose logit is
      then neither minus infinity nor undefined. */
  ghost predicate IsRun(words: seq<seq<int>>, steps: seq<seq<Logit>>, out: seq<int>) {
    |steps| == |out| && forall i | 0 <= i < |out| :: IsStep(words, steps[i], out[..i], out[i])
  }

  predicate IsStep(words: seq<seq<int>>, logits: seq<Logit>, past: seq<int>, token: int) {
    && 0 <= token < |logits|
    && Processed(words, past, logits)[token] != NegInf && Processed(words, past, logits)[token] != NaN
  }

  predicate OccursAt(word: seq<int>, out: seq<int>, i: nat) { i + |word| <= |out| && out[i..i + |word|] == word }

  ghost predicate Contains(out: seq<int>, words: seq<seq<int>>) {
    exists w, i: nat :: w in words && w != [] && OccursAt(w, out, i)
  }

  /** An occurrence of a word ends with a token that completes it. */
  lemma OccurrenceCompletes(word: seq<int>, out: seq<int>, i: nat)
    requires word != [] && OccursAt(word, out, i)
    ensures
      var k := i + |word| - 1;
      CompletesWord(word, out[..k], out[k])
  {
    var k := i + |word| - 1;
    assert out[i..k + 1] == out[..k][i..] + [out[k]];
  }

  lemma CompletionOccurs(word: seq<int>, out: seq<int>, k: nat)
    requires k < |out| && CompletesWord(word, out[..k], out[k])
    ensures OccursAt(word, out, k + 1 - |word|)
  {
    var i := k + 1 - |word|;
    assert out[i..k + 1] == out[..k][i..] + [out[k]];
  }

  /** No run holds a bad word. */
  lemma RunsAvoidBadWords(words: seq<seq<int>>, steps: seq<seq<Logit>>, out: seq<int>)
    requires IsRun(words, steps, out)
    ensures !Contains(out, words)
  {
    forall w, i: nat | w in words && w != []
      ensures !OccursAt(w, out, i)
    {
      if OccursAt(w, out, i) {
        NotPicked(words, steps, out, w, i);
      }
    }
  }

  lemma NotPicked(words: seq<seq<int>>, steps: seq<seq<Logit>>, out: seq<int>, w: seq<int>, i: nat)
    requires |steps| == |out| && w in words && w != [] && OccursAt(w, out, i)
    ensures !IsRun(words, steps, out)
  {
    var k := i + |w| - 1;
    OccurrenceCompletes(w, out, i);
    assert Completes(words, out[..k], out[k]);
    assert !IsStep(words, steps[k], out[..k], out[k]);
  }

  /** And nothing else is kept out: a sequence is a run exactly when it holds no bad word and every token had a
      logit to be picked by. */
  lemma RunsAreTheRest(words: seq<seq<int>>, steps: seq<seq<Logit>>, out: seq<int>)
    requires |steps| == |out|
    ensures IsRun(words, steps, out) <==>
            !Contains(out, words) && forall i | 0 <= i < |out| :: Offered(steps[i], out[i])
  {
    if IsRun(words, steps, out) {
      RunsAvoidBadWords(words, steps, out);
      forall i | 0 <= i < |out|
        ensures Offered(steps[i], out[i])
      {
        assert IsStep(words, steps[i], out[..i], out[i]);
        ChangedWhenCompleting(words, out[..i], steps[i], out[i]);
      }
    }
    if !Contains(out, words) && forall i | 0 <= i < |out| :: Offered(steps[i], out[i]) {
      forall k | 0 <= k < |out|
        ensures IsStep(words, steps[k], out[..k], out[k])
      {
        assert Offered(steps[k], out[k]);
        forall w | w in words
          ensures !CompletesWord(w, out[..k], out[k])
        {
          if CompletesWord(w, out[..k], out[k]) { CompletionOccurs(w, out, k); }
        }
        assert !Completes(words, out[..k], out[k]);
      }
    }
  }

  /** The token is in the vocabulary, and could be picked before the processor ran. */
  predicate Offered(logits: seq<Logit>, token: int) {
    0 <= token < |logits| && logits[token] != NegInf && logits[token] != NaN
  }
}

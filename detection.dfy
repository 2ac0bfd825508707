/**
 * Wordlist language detection (`detect_language` in src/main.rs) and the
 * choice of the effective language in `main`.
 */
module Detection {
  import opened Wrappers
  import opened Text
  import opened Languages

  /** The 2048-word list of each language; the lists themselves live in the bip39 crate. */
  type Wordlists = Language -> seq<string>

  /** Whether some entry of `list` equals `word` up to ASCII case. */
  predicate Known(list: seq<string>, word: string) {
    exists w :: w in list && EqIgnoreAsciiCase(w, word)
  }

  /** How many of `words` (counted with repetition) are found in `list`. */
  function Score(list: seq<string>, words: seq<string>): (n: nat)
    ensures n <= |words|
  {
    if |words| == 0 then 0
    else Score(list, words[..|words| - 1]) + (if Known(list, words[|words| - 1]) then 1 else 0)
  }

  /** A list scores the full word count exactly when it holds every word. */
  lemma {:induction false} FullScore(list: seq<string>, words: seq<string>)
    ensures Score(list, words) == |words| <==> forall k :: 0 <= k < |words| ==> Known(list, words[k])
  {
    if |words| > 0 {
      var init := words[..|words| - 1];
      FullScore(list, init);
      assert forall k :: 0 <= k < |init| ==> init[k] == words[k];
    }
  }

  /** The score of the `i`-th language in detection order. */
  function ScoreAt(wl: Wordlists, words: seq<string>, i: nat): nat
    requires i < |DetectionOrder|
  {
    Score(wl(DetectionOrder[i]), words)
  }

  /** Language `i` has the highest score, and every language before it a lower one. */
  predicate EarliestBest(wl: Wordlists, words: seq<string>, i: nat)
    requires i < |DetectionOrder|
  {
    && (forall j :: 0 <= j < |DetectionOrder| ==> ScoreAt(wl, words, j) <= ScoreAt(wl, words, i))
    && (forall j :: 0 <= j < i ==> ScoreAt(wl, words, j) < ScoreAt(wl, words, i))
  }

  /** The earliest language with the highest score among the first `k`. */
  function Best(wl: Wordlists, words: seq<string>, k: nat): (b: nat)
    requires 1 <= k <= |DetectionOrder|
    ensures b < k
    ensures forall j :: 0 <= j < k ==> ScoreAt(wl, words, j) <= ScoreAt(wl, words, b)
    ensures forall j :: 0 <= j < b ==> ScoreAt(wl, words, j) < ScoreAt(wl, words, b)
  {
    if k == 1 then 0
    else
      var b := Best(wl, words, k - 1);
      if ScoreAt(wl, words, k - 1) > ScoreAt(wl, words, b) then k - 1 else b
  }

  /** Extending the range by one language: it takes over only with a strictly higher score. */
  lemma BestStep(wl: Wordlists, words: seq<string>, i: nat)
    requires i < |DetectionOrder|
    ensures Best(wl, words, i + 1) ==
      if i == 0 || ScoreAt(wl, words, i) > ScoreAt(wl, words, Best(wl, words, i)) then i else Best(wl, words, i)
  {
  }

  /**
   * What detection decides, stated without its loop: the earliest best-scoring
   * language, provided it matches every word, or at least half of them
   * (rounded down) and at least one.
   */
  function Detected(words: seq<string>, wl: Wordlists): Option<Language> {
    var b := Best(wl, words, |DetectionOrder|);
    var m := ScoreAt(wl, words, b);
    if m == |words| || (0 < m && m >= |words| / 2) then Some(DetectionOrder[b]) else None
  }

  /** The inner loop of `detect_language`: how many of `words` one list holds. */
  method CountKnown(list: seq<string>, words: seq<string>) returns (validCount: nat)
    ensures validCount == Score(list, words)
  {
    validCount := 0;
    for k := 0 to |words|
      invariant validCount == Score(list, words[..k])
    {
      assert words[..k + 1][..k] == words[..k];
      if Known(list, words[k]) {
        validCount := validCount + 1;
      }
    }
    assert words[..|words|] == words;
  }

  /**
   * `detect_language`: counts, language by language, the words found in its
   * list; returns at once on a list that holds them all, else keeps the first
   * strictly best list and returns it if it holds at least half the words.
   */
  method DetectLanguage(words: seq<string>, wl: Wordlists) returns (r: Option<Language>)
    ensures r == Detected(words, wl)
  {
    var bestLanguage: Option<Language> := None;
    var bestCount := 0;
    ghost var best := 0;  // position of bestLanguage in detection order, once there is one
    for i := 0 to |DetectionOrder|
      invariant forall j :: 0 <= j < i ==> ScoreAt(wl, words, j) < |words|
      invariant best < |DetectionOrder|
      invariant i == 0 ==> bestCount == 0 && best == 0
      invariant i > 0 ==> best == Best(wl, words, i) && bestCount == ScoreAt(wl, words, best)
      invariant bestLanguage == if bestCount == 0 then None else Some(DetectionOrder[best])
    {
      var lang := DetectionOrder[i];
      var validCount := CountKnown(wl(lang), words);
      BestStep(wl, words, i);
      if validCount > bestCount {
        bestCount := validCount;
        bestLanguage := Some(lang);
        best := i;
      }
      if validCount == |words| {
        FullScoreDecides(words, wl, i);
        return Some(lang);
      }
    }
    if bestCount >= |words| / 2 {
      return bestLanguage;
    }
    return None;
  }

  /** When some list holds every word, the first such list in detection order is returned. */
  lemma FirstFullMatchWins(words: seq<string>, wl: Wordlists, i: nat)
    requires i < |DetectionOrder|
    requires forall k :: 0 <= k < |words| ==> Known(wl(DetectionOrder[i]), words[k])
    requires forall j :: 0 <= j < i ==>
      exists k :: 0 <= k < |words| && !Known(wl(DetectionOrder[j]), words[k])
    ensures Detected(words, wl) == Some(DetectionOrder[i])
  {
    forall j | 0 <= j < i
      ensures ScoreAt(wl, words, j) < |words|
    {
      var k :| 0 <= k < |words| && !Known(wl(DetectionOrder[j]), words[k]);
      FullScore(wl(DetectionOrder[j]), words);
    }
    FullScore(wl(DetectionOrder[i]), words);
    FullScoreDecides(words, wl, i);
  }

  /** The first language whose score is the word count is the one detected. */
  lemma FullScoreDecides(words: seq<string>, wl: Wordlists, i: nat)
    requires i < |DetectionOrder|
    requires ScoreAt(wl, words, i) == |words|
    requires forall j :: 0 <= j < i ==> ScoreAt(wl, words, j) < |words|
    ensures Detected(words, wl) == Some(DetectionOrder[i])
  {
    var b := Best(wl, words, |DetectionOrder|);
    assert ScoreAt(wl, words, b) == |words|;
  }

  /**
   * Detection returns a language only if it is the earliest best-scoring one,
   * and returns one exactly when a list holds every word, or when the best
   * score is positive and at least half the word count.
   */
  lemma {:induction false} DetectedIsEarliestBest(words: seq<string>, wl: Wordlists)
    ensures Detected(words, wl).Some? ==>
      exists i :: 0 <= i < |DetectionOrder| && Detected(words, wl).value == DetectionOrder[i]
        && EarliestBest(wl, words, i)
    ensures Detected(words, wl).Some? <==>
      exists i :: 0 <= i < |DetectionOrder| &&
        (ScoreAt(wl, words, i) == |words| ||
         (0 < ScoreAt(wl, words, i) && ScoreAt(wl, words, i) >= |words| / 2))
  {
    var b := Best(wl, words, |DetectionOrder|);
    assert EarliestBest(wl, words, b);
    if exists i :: 0 <= i < |DetectionOrder| &&
        (ScoreAt(wl, words, i) == |words| ||
         (0 < ScoreAt(wl, words, i) && ScoreAt(wl, words, i) >= |words| / 2)) {
      var i :| 0 <= i < |DetectionOrder| &&
        (ScoreAt(wl, words, i) == |words| ||
         (0 < ScoreAt(wl, words, i) && ScoreAt(wl, words, i) >= |words| / 2));
      assert ScoreAt(wl, words, i) <= ScoreAt(wl, words, b);
    }
  }

  /** Fewer than half the words found in every list (and not all): detection gives up. */
  lemma BelowHalfIsInconclusive(words: seq<string>, wl: Wordlists)
    requires forall j :: 0 <= j < |DetectionOrder| ==> ScoreAt(wl, words, j) < |words| / 2
    ensures Detected(words, wl) == None
  {
  }

  /** A returned language always recognised at least one word, unless there were none. */
  lemma DetectedRecognisesAWord(words: seq<string>, wl: Wordlists)
    requires |words| > 0
    requires Detected(words, wl).Some?
    ensures Score(wl(Detected(words, wl).value), words) > 0
  {
  }

  /** A list that alone holds every word is detected, whatever the other lists hold. */
  lemma {:induction false} OnlyFullMatchIsDetected(words: seq<string>, wl: Wordlists, l: Language)
    requires forall k :: 0 <= k < |words| ==> Known(wl(l), words[k])
    requires forall m: Language :: m != l ==>
      exists k :: 0 <= k < |words| && !Known(wl(m), words[k])
    ensures Detected(words, wl) == Some(l)
  {
    DetectionOrderComplete(l);
    var i :| 0 <= i < |DetectionOrder| && DetectionOrder[i] == l;
    forall j | 0 <= j < i
      ensures ScoreAt(wl, words, j) < |words|
    {
      var m := DetectionOrder[j];
      assert DetectionOrder[j] != DetectionOrder[i];
      assert exists k :: 0 <= k < |words| && !Known(wl(m), words[k]);
      var k :| 0 <= k < |words| && !Known(wl(m), words[k]);
      FullScore(wl(m), words);
    }
    FullScore(wl(l), words);
    FullScoreDecides(words, wl, i);
  }

  /**
   * The language the run uses: only the exact tag "english" (the flag's
   * default) triggers detection, falling back to English when it is
   * inconclusive; any other tag is parsed, without detection.
   */
  function EffectiveLanguage(tag: string, words: seq<string>, wl: Wordlists)
    : (r: Result<Language, LanguageError>)
    ensures tag == "english" ==> r.Ok?
    ensures tag == "english" && Detected(words, wl).None? ==> r == Ok(English)
    ensures tag == "english" && Detected(words, wl).Some? ==> r == Ok(Detected(words, wl).value)
  {
    if tag == "english" then Ok(Detected(words, wl).GetOr(English)) else Parse(tag)
  }

  /** Any tag but "english" selects the same language whatever the words are. */
  lemma ExplicitTagSkipsDetection(tag: string, words: seq<string>, wl: Wordlists, l: Language)
    requires tag != "english"
    ensures EffectiveLanguage(tag, words, wl) == Ok(l) <==> Lowercase(tag) == Name(l)
  {
    ParseExactly(tag, l);
  }

  /**
   * "English" is not the default tag: it selects English outright, whereas the
   * default "english" may detect another language from the same words.
   */
  lemma CapitalisedEnglishSelectsEnglish(words: seq<string>, wl: Wordlists)
    ensures EffectiveLanguage("English", words, wl) == Ok(English)
  {
    assert Lowercase("English") == "english";
  }
}

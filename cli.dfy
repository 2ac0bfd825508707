/**
 * The program's entry point (`main` in src/main.rs) once the command line
 * has been read: the word-count gate, the target address, the choice of
 * scheme, the choice of language, and the search, in that order; the first
 * step that fails ends the run with its error.
 */
module Cli {
  import opened Wrappers
  import opened Text
  import opened Languages
  import opened Schemes
  import opened Detection
  import opened Permutations
  import opened Search

  /** The command-line arguments after parsing. */
  datatype Args = Args(
    targetAddress: string,
    words: seq<string>,
    maxPermutations: nat,
    language: string,
    derivation: U32,
    bip44: bool,
    bip49: bool,
    bip84: bool)

  const DefaultMaxPermutations: nat := 1_000_000

  /**
   * What reading the target address gave: an address text the address
   * parser rejects, a valid address of another network, or a mainnet address.
   */
  datatype TargetAddress<A> = Unparseable | OtherNetwork | Mainnet(address: A)

  datatype RunError =
    | WrongWordCount(count: nat)
    | InvalidAddress
    | NotMainnet
    | SchemeNotDetected
    | BadLanguage(tag: string)
    | SearchFailed(error: SearchError)

  predicate ValidWordCount(n: nat) {
    n == 12 || n == 24
  }

  /** The job handed to the search once every earlier step has succeeded. */
  function JobOf<A>(args: Args, target: A, scheme: AddressType, language: Language): Job<A> {
    Job(args.words, target, args.maxPermutations, language, scheme, args.derivation)
  }

  /** What a run decides, step by step in the order `main` takes them. */
  function Run<A(==)>(args: Args, target: TargetAddress<A>, wl: Wordlists, derive: Pipeline<A>)
    : Result<Outcome, RunError>
  {
    if !ValidWordCount(|args.words|) then Err(WrongWordCount(|args.words|))
    else match target
      case Unparseable => Err(InvalidAddress)
      case OtherNetwork => Err(NotMainnet)
      case Mainnet(address) =>
        match SelectScheme(args.bip44, args.bip49, args.bip84, args.targetAddress)
        case Err(_) => Err(SchemeNotDetected)
        case Ok(scheme) =>
          match EffectiveLanguage(args.language, args.words, wl)
          case Err(_) => Err(BadLanguage(args.language))
          case Ok(language) =>
            match SearchResult(JobOf(args, address, scheme, language), derive)
            case Err(e) => Err(SearchFailed(e))
            case Ok(outcome) => Ok(outcome)
  }

  /**
   * `main`: checks the word count, takes the target address, picks the
   * scheme, picks the language (detecting it when the tag is "english"),
   * then searches.
   */
  method Execute<A(==)>(args: Args, target: TargetAddress<A>, wl: Wordlists, derive: Pipeline<A>)
    returns (r: Result<Outcome, RunError>)
    ensures r == Run(args, target, wl, derive)
  {
    if |args.words| != 12 && |args.words| != 24 {
      return Err(WrongWordCount(|args.words|));
    }
    if target.Unparseable? {
      return Err(InvalidAddress);
    }
    if target.OtherNetwork? {
      return Err(NotMainnet);
    }
    var scheme := SelectScheme(args.bip44, args.bip49, args.bip84, args.targetAddress);
    if scheme.Err? {
      return Err(SchemeNotDetected);
    }
    var language: Language;
    if args.language == "english" {
      var detected := DetectLanguage(args.words, wl);
      language := detected.GetOr(English);
    } else {
      var parsed := Parse(args.language);
      if parsed.Err? {
        return Err(BadLanguage(args.language));
      }
      language := parsed.value;
    }
    var found, _ := SearchPermutations(JobOf(args, target.address, scheme.value, language), derive);
    if found.Err? {
      return Err(SearchFailed(found.error));
    }
    return Ok(found.value);
  }

  // ---------------------------------------------------------------------------
  // What a run guarantees

  /**
   * A run reaches the search exactly when the word count is 12 or 24, the
   * address is a mainnet address, a scheme is chosen and the language tag is
   * accepted; it succeeds exactly when the search then does.
   */
  lemma RunSucceeds<A>(args: Args, target: TargetAddress<A>, wl: Wordlists, derive: Pipeline<A>)
    ensures Run(args, target, wl, derive).Ok? <==>
      && ValidWordCount(|args.words|)
      && target.Mainnet?
      && SelectScheme(args.bip44, args.bip49, args.bip84, args.targetAddress).Ok?
      && EffectiveLanguage(args.language, args.words, wl).Ok?
      && SearchResult(JobOf(args, target.address,
           SelectScheme(args.bip44, args.bip49, args.bip84, args.targetAddress).value,
           EffectiveLanguage(args.language, args.words, wl).value), derive).Ok?
  {
  }

  /**
   * A wrong word count is reported before anything else is looked at: the
   * address, the flags, the language tag and the wordlists play no part.
   */
  lemma WordCountComesFirst<A>(args: Args, target: TargetAddress<A>, wl: Wordlists, derive: Pipeline<A>)
    requires !ValidWordCount(|args.words|)
    ensures Run(args, target, wl, derive) == Err(WrongWordCount(|args.words|))
  {
  }

  /**
   * An unknown language tag is reported only for input that passed the
   * earlier steps, and never for the tag "english", which detection handles.
   */
  lemma LanguageErrorsComeAfterScheme<A>(args: Args, target: TargetAddress<A>, wl: Wordlists, derive: Pipeline<A>)
    requires Run(args, target, wl, derive) == Err(BadLanguage(args.language))
    ensures ValidWordCount(|args.words|) && target.Mainnet?
    ensures SelectScheme(args.bip44, args.bip49, args.bip84, args.targetAddress).Ok?
    ensures args.language != "english"
    ensures forall l :: Lowercase(args.language) != Languages.Name(l)
  {
    ParseExactly(args.language, English);
  }

  /**
   * A reported match is an arrangement of exactly the given words, found
   * within the cap, whose phrase leads to the target address under the chosen
   * scheme at the derivation index.
   */
  lemma RunReportsArrangement<A>(args: Args, target: TargetAddress<A>, wl: Wordlists, derive: Pipeline<A>,
    k: nat, phrase: string)
    requires Run(args, target, wl, derive) == Ok(Found(k, phrase))
    ensures target.Mainnet?
    ensures k < args.maxPermutations && k < Factorial(|args.words|)
    ensures multiset(Ordering(|args.words|, k)) == multiset(Positions(|args.words|))
    ensures phrase == Join(Arrange(args.words, Ordering(|args.words|, k)), " ")
    ensures args.derivation < HardenedOffset
    ensures
      var scheme := SelectScheme(args.bip44, args.bip49, args.bip84, args.targetAddress).value;
      var language := EffectiveLanguage(args.language, args.words, wl).value;
      derive(language, scheme, TemplateLevels(scheme, args.derivation), phrase) == Derived(target.address)
  {
    var scheme := SelectScheme(args.bip44, args.bip49, args.bip84, args.targetAddress).value;
    var language := EffectiveLanguage(args.language, args.words, wl).value;
    var job := JobOf(args, target.address, scheme, language);
    assert SearchResult(job, derive) == Ok(Found(k, phrase));
    SearchFindsFirstMatch(job, derive, k, phrase);
    UnrankPermutes(Positions(|args.words|), k);
  }

  /**
   * With the tag "english" and words no list recognises well enough, the
   * search runs in English.
   */
  lemma UndetectedLanguageSearchesEnglish<A>(args: Args, address: A, wl: Wordlists, derive: Pipeline<A>)
    requires ValidWordCount(|args.words|)
    requires args.language == "english" && Detected(args.words, wl).None?
    requires SelectScheme(args.bip44, args.bip49, args.bip84, args.targetAddress).Ok?
    ensures
      var scheme := SelectScheme(args.bip44, args.bip49, args.bip84, args.targetAddress).value;
      var search := SearchResult(JobOf(args, address, scheme, English), derive);
      Run(args, Mainnet(address), wl, derive) ==
        if search.Ok? then Ok(search.value) else Err(SearchFailed(search.error))
  {
  }

  /**
   * Rather than enumerating every ordering, the default cap stops well
   * short: twelve words have 479,001,600 orderings and twenty-four far more.
   */
  lemma DefaultCapIsPartial<A>(job: Job<A>)
    requires ValidWordCount(|job.words|)
    requires job.maxPermutations == DefaultMaxPermutations
    ensures Examined(job) == DefaultMaxPermutations < Factorial(|job.words|)
  {
    assert Factorial(12) == 479001600;
    FactorialGrows(12, |job.words|);
  }

  lemma {:induction false} FactorialGrows(m: nat, n: nat)
    requires m <= n
    ensures Factorial(m) <= Factorial(n)
    decreases n - m
  {
    if m < n {
      FactorialGrows(m, n - 1);
      MulAtLeast(n, 1, Factorial(n - 1));
    }
  }
}

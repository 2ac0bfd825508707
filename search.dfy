/**
 * The permutation search (`search_permutations` in src/main.rs). The
 * mnemonic-to-address pipeline (BIP-39 checksum and seed, BIP-32 key
 * derivation, public key, address encoding) is a parameter: for a phrase it
 * either rejects the phrase, fails, or yields an address.
 */
module Search {
  import opened Wrappers
  import opened Text
  import opened Languages
  import opened Schemes
  import opened Permutations

  /** What the pipeline makes of one candidate phrase. */
  datatype Trial<A> =
    | Invalid                   // not a valid mnemonic in the language: skipped
    | Failed(reason: string)    // master-key, child-key or compressed-key error: aborts the search
    | Derived(address: A)       // the address the phrase leads to under the scheme and path

  type Pipeline<A> = (Language, AddressType, seq<ChildNumber>, string) -> Trial<A>

  /** The parameters `main` hands to the search. */
  datatype Job<A> = Job(
    words: seq<string>,
    target: A,
    maxPermutations: nat,
    language: Language,
    scheme: AddressType,
    index: U32)

  datatype SearchError = BadPath(path: PathError) | DerivationFailed(reason: string)

  /** A match reports its position in the enumeration and its phrase. */
  datatype Outcome = Found(index: nat, phrase: string) | NotFound

  /** The words in the order `ordering` gives their positions. */
  function Arrange(words: seq<string>, ordering: seq<nat>): (r: seq<string>)
    requires forall k :: 0 <= k < |ordering| ==> ordering[k] < |words|
    ensures |r| == |ordering|
    ensures forall k :: 0 <= k < |ordering| ==> r[k] == words[ordering[k]]
  {
    seq(|ordering|, k requires 0 <= k < |ordering| => words[ordering[k]])
  }

  /** How many orderings `permutations(n).take(max)` yields: the cap, or all `n!` if fewer. */
  function Examined<A>(job: Job<A>): (e: nat)
    ensures e <= job.maxPermutations && e <= Factorial(|job.words|)
    ensures e == job.maxPermutations || e == Factorial(|job.words|)
  {
    var total := Factorial(|job.words|);
    if job.maxPermutations < total then job.maxPermutations else total
  }

  /** The phrase of the `i`-th ordering: its words joined by single spaces. */
  function PhraseAt<A>(job: Job<A>, i: nat): string
    requires i < Factorial(|job.words|)
  {
    Join(Arrange(job.words, Ordering(|job.words|, i)), " ")
  }

  /** What the pipeline makes of the `i`-th ordering. */
  function TrialAt<A>(job: Job<A>, derive: Pipeline<A>, path: seq<ChildNumber>, i: nat): Trial<A>
    requires i < Factorial(|job.words|)
  {
    derive(job.language, job.scheme, path, PhraseAt(job, i))
  }

  /** The `i`-th ordering lets the search go on: it is skipped, or its address is not the target. */
  predicate Passes<A(==)>(job: Job<A>, derive: Pipeline<A>, path: seq<ChildNumber>, i: nat)
    requires i < Factorial(|job.words|)
  {
    match TrialAt(job, derive, path, i)
    case Invalid => true
    case Failed(_) => false
    case Derived(a) => a != job.target
  }

  /** The `i`-th ordering derives the target address. */
  predicate Hits<A(==)>(job: Job<A>, derive: Pipeline<A>, path: seq<ChildNumber>, i: nat)
    requires i < Factorial(|job.words|)
  {
    TrialAt(job, derive, path, i) == Derived(job.target)
  }

  /** The search from the `i`-th ordering on: the first ordering that does not pass decides. */
  function Scan<A(==)>(job: Job<A>, derive: Pipeline<A>, path: seq<ChildNumber>, i: nat)
    : Result<Outcome, SearchError>
    requires i <= Examined(job)
    decreases Examined(job) - i
  {
    if i == Examined(job) then Ok(NotFound)
    else match TrialAt(job, derive, path, i)
      case Invalid => Scan(job, derive, path, i + 1)
      case Failed(e) => Err(DerivationFailed(e))
      case Derived(a) =>
        if a == job.target then Ok(Found(i, PhraseAt(job, i))) else Scan(job, derive, path, i + 1)
  }

  /** The whole search: the path is read first, then the orderings are scanned. */
  function SearchResult<A(==)>(job: Job<A>, derive: Pipeline<A>): Result<Outcome, SearchError> {
    match ParsePath(DerivationPath(job.scheme, job.index))
    case Err(e) => Err(BadPath(e))
    case Ok(path) => Scan(job, derive, path, 0)
  }

  /**
   * `search_permutations`: formats and reads the derivation path, then walks
   * the capped sequence of orderings, skipping phrases that are not valid
   * mnemonics, aborting on a key-derivation failure and stopping at the first
   * phrase whose address is the target. `tried` counts the orderings it generated.
   */
  method SearchPermutations<A(==)>(job: Job<A>, derive: Pipeline<A>)
    returns (r: Result<Outcome, SearchError>, ghost tried: nat)
    ensures r == SearchResult(job, derive)
    ensures tried <= Examined(job)
    ensures r.Ok? && r.value.Found? ==> tried == r.value.index + 1
    ensures r == Ok(NotFound) ==> tried == Examined(job)
  {
    tried := 0;
    var pathText := DerivationPath(job.scheme, job.index);
    var parsed := ParsePath(pathText);
    if parsed.Err? {
      return Err(BadPath(parsed.error)), tried;
    }
    var path := parsed.value;
    var n := |job.words|;
    var total := Factorial(n);
    var i := 0;
    while i < job.maxPermutations && i < total
      invariant i <= Examined(job)
      invariant Scan(job, derive, path, i) == Scan(job, derive, path, 0)
      invariant tried == i
      decreases total - i
    {
      var ordering := Ordering(n, i);
      tried := tried + 1;
      var phrase := Join(Arrange(job.words, ordering), " ");
      var trial := derive(job.language, job.scheme, path, phrase);
      if trial.Invalid? {
        i := i + 1;
        continue;
      }
      if trial.Failed? {
        return Err(DerivationFailed(trial.reason)), tried;
      }
      if trial.address == job.target {
        return Ok(Found(i, phrase)), tried;
      }
      i := i + 1;
    }
    return Ok(NotFound), tried;
  }

  // ---------------------------------------------------------------------------
  // What the search decides

  /** One step of the scan: an ordering that does not pass decides it, one that passes hands on. */
  lemma ScanStep<A>(job: Job<A>, derive: Pipeline<A>, path: seq<ChildNumber>, i: nat)
    requires i < Examined(job)
    ensures !Passes(job, derive, path, i) && Hits(job, derive, path, i) ==>
      Scan(job, derive, path, i) == Ok(Found(i, PhraseAt(job, i)))
    ensures !Passes(job, derive, path, i) && !Hits(job, derive, path, i) ==>
      Scan(job, derive, path, i) == Err(DerivationFailed(TrialAt(job, derive, path, i).reason))
    ensures Passes(job, derive, path, i) ==> Scan(job, derive, path, i) == Scan(job, derive, path, i + 1)
  {
  }

  /** The scan finds nothing exactly when every remaining examined ordering passes. */
  lemma {:induction false} ScanNotFound<A>(job: Job<A>, derive: Pipeline<A>, path: seq<ChildNumber>, i: nat)
    requires i <= Examined(job)
    ensures Scan(job, derive, path, i) == Ok(NotFound) <==>
      forall j :: i <= j < Examined(job) ==> Passes(job, derive, path, j)
    decreases Examined(job) - i
  {
    if i < Examined(job) {
      ScanStep(job, derive, path, i);
      ScanNotFound(job, derive, path, i + 1);
    }
  }

  /**
   * The scan reports ordering `k` exactly when `k` derives the target and every
   * examined ordering before it (from `i` on) passes; the phrase is `k`'s.
   */
  lemma {:induction false} ScanFound<A>(
    job: Job<A>, derive: Pipeline<A>, path: seq<ChildNumber>, i: nat, k: nat, phrase: string)
    requires i <= Examined(job)
    ensures Scan(job, derive, path, i) == Ok(Found(k, phrase)) <==>
      && i <= k < Examined(job)
      && Hits(job, derive, path, k)
      && phrase == PhraseAt(job, k)
      && forall j :: i <= j < k ==> Passes(job, derive, path, j)
    decreases Examined(job) - i
  {
    if i < Examined(job) {
      ScanStep(job, derive, path, i);
      ScanFound(job, derive, path, i + 1, k, phrase);
    }
  }

  /**
   * The scan aborts with the pipeline's failure at ordering `k` exactly when
   * every examined ordering before it (from `i` on) passes.
   */
  lemma {:induction false} ScanAborts<A>(
    job: Job<A>, derive: Pipeline<A>, path: seq<ChildNumber>, i: nat, k: nat)
    requires i <= k < Examined(job)
    requires TrialAt(job, derive, path, k).Failed?
    requires forall j :: i <= j < k ==> Passes(job, derive, path, j)
    ensures Scan(job, derive, path, i) == Err(DerivationFailed(TrialAt(job, derive, path, k).reason))
    decreases k - i
  {
    ScanStep(job, derive, path, i);
    if i < k {
      ScanAborts(job, derive, path, i + 1, k);
    }
  }

  /**
   * A failed scan failed at a definite ordering: the first examined one (from
   * `i` on) that does not pass, whose pipeline reported the failure. So the
   * scan never reports a path error; that is checked once, before it.
   */
  lemma {:induction false} ScanFailureCause<A>(job: Job<A>, derive: Pipeline<A>, path: seq<ChildNumber>, i: nat)
    returns (k: nat)
    requires i <= Examined(job)
    requires Scan(job, derive, path, i).Err?
    ensures i <= k < Examined(job)
    ensures TrialAt(job, derive, path, k).Failed?
    ensures Scan(job, derive, path, i) == Err(DerivationFailed(TrialAt(job, derive, path, k).reason))
    ensures forall j :: i <= j < k ==> Passes(job, derive, path, j)
    decreases Examined(job) - i
  {
    ScanStep(job, derive, path, i);
    if Passes(job, derive, path, i) {
      k := ScanFailureCause(job, derive, path, i + 1);
    } else {
      k := i;
    }
  }

  /** Only a pipeline failure aborts the scan. */
  lemma {:induction false} ScanWithoutFailures<A>(job: Job<A>, derive: Pipeline<A>, path: seq<ChildNumber>, i: nat)
    requires i <= Examined(job)
    requires forall j :: i <= j < Examined(job) ==> !TrialAt(job, derive, path, j).Failed?
    ensures Scan(job, derive, path, i).Ok?
    decreases Examined(job) - i
  {
    if i < Examined(job) {
      ScanStep(job, derive, path, i);
      ScanWithoutFailures(job, derive, path, i + 1);
    }
  }

  /** With an index below 2^31 the path is read back as the template's levels, and the scan decides. */
  lemma SearchScansTemplate<A>(job: Job<A>, derive: Pipeline<A>)
    requires job.index < HardenedOffset
    ensures SearchResult(job, derive) == Scan(job, derive, TemplateLevels(job.scheme, job.index), 0)
  {
    DerivationPathParses(job.scheme, job.index);
  }

  /** The search fails on its path exactly when the derivation index is 2^31 or more. */
  lemma SearchRefusesHardenedIndex<A>(job: Job<A>, derive: Pipeline<A>)
    ensures (SearchResult(job, derive).Err? && SearchResult(job, derive).error.BadPath?)
      <==> job.index >= HardenedOffset
    ensures job.index >= HardenedOffset ==>
      SearchResult(job, derive) == Err(BadPath(InvalidChildNumber(job.index)))
  {
    DerivationPathParses(job.scheme, job.index);
    if job.index < HardenedOffset && SearchResult(job, derive).Err? {
      var _ := ScanFailureCause(job, derive, TemplateLevels(job.scheme, job.index), 0);
    }
  }

  /**
   * The reported ordering is the first examined one that derives the target:
   * it lies within the cap, and every ordering before it was skipped or
   * derived another address.
   */
  lemma SearchFindsFirstMatch<A>(job: Job<A>, derive: Pipeline<A>, k: nat, phrase: string)
    ensures SearchResult(job, derive) == Ok(Found(k, phrase)) <==>
      && job.index < HardenedOffset
      && k < Examined(job)
      && Hits(job, derive, TemplateLevels(job.scheme, job.index), k)
      && phrase == PhraseAt(job, k)
      && forall j :: 0 <= j < k ==> Passes(job, derive, TemplateLevels(job.scheme, job.index), j)
  {
    DerivationPathParses(job.scheme, job.index);
    ScanFound(job, derive, TemplateLevels(job.scheme, job.index), 0, k, phrase);
  }

  /** The search reports no match exactly when every examined ordering passes. */
  lemma SearchFindsNothing<A>(job: Job<A>, derive: Pipeline<A>)
    ensures SearchResult(job, derive) == Ok(NotFound) <==>
      && job.index < HardenedOffset
      && forall j :: 0 <= j < Examined(job) ==> Passes(job, derive, TemplateLevels(job.scheme, job.index), j)
  {
    DerivationPathParses(job.scheme, job.index);
    ScanNotFound(job, derive, TemplateLevels(job.scheme, job.index), 0);
  }

  /** A cap of zero examines nothing: no match, unless the path is refused first. */
  lemma ZeroCapFindsNothing<A>(job: Job<A>, derive: Pipeline<A>)
    requires job.maxPermutations == 0
    ensures SearchResult(job, derive) ==
      if job.index < HardenedOffset then Ok(NotFound) else Err(BadPath(InvalidChildNumber(job.index)))
  {
    DerivationPathParses(job.scheme, job.index);
  }

  /**
   * Orderings that are not valid mnemonics are skipped but still count toward
   * the cap: if all of the first `cap` are invalid, nothing is found, whatever
   * the later orderings would derive.
   */
  lemma InvalidOrderingsUseTheCap<A>(job: Job<A>, derive: Pipeline<A>)
    requires job.index < HardenedOffset
    requires forall j :: 0 <= j < Examined(job) ==>
      TrialAt(job, derive, TemplateLevels(job.scheme, job.index), j) == Invalid
    ensures SearchResult(job, derive) == Ok(NotFound)
  {
    SearchFindsNothing(job, derive);
  }

  /** The cap decides only how far the scan goes, not what each ordering yields. */
  lemma TrialIgnoresCap<A>(job: Job<A>, derive: Pipeline<A>, path: seq<ChildNumber>, cap: nat, j: nat)
    requires j < Factorial(|job.words|)
    ensures PhraseAt(job.(maxPermutations := cap), j) == PhraseAt(job, j)
    ensures Passes(job.(maxPermutations := cap), derive, path, j) == Passes(job, derive, path, j)
    ensures Hits(job.(maxPermutations := cap), derive, path, j) == Hits(job, derive, path, j)
  {
  }

  /**
   * Raising the cap never changes a reported match, and a cap at or below the
   * position of the first match reports none: the enumeration order is fixed,
   * so the position of a match does not depend on the cap.
   */
  lemma CapOnlyTruncates<A>(job: Job<A>, derive: Pipeline<A>, k: nat, phrase: string, cap: nat)
    requires SearchResult(job, derive) == Ok(Found(k, phrase))
    ensures cap > k ==> SearchResult(job.(maxPermutations := cap), derive) == Ok(Found(k, phrase))
    ensures cap <= k ==> SearchResult(job.(maxPermutations := cap), derive) == Ok(NotFound)
  {
    var other := job.(maxPermutations := cap);
    var path := TemplateLevels(job.scheme, job.index);
    SearchFindsFirstMatch(job, derive, k, phrase);
    TrialIgnoresCap(job, derive, path, cap, k);
    forall j | 0 <= j < k
      ensures Passes(other, derive, path, j)
    {
      TrialIgnoresCap(job, derive, path, cap, j);
    }
    if cap > k {
      SearchFindsFirstMatch(other, derive, k, phrase);
    } else {
      SearchFindsNothing(other, derive);
    }
  }

  /** An arrangement of the words that leads to the target is an ordering that stops the scan. */
  lemma ArrangementHits<A>(job: Job<A>, derive: Pipeline<A>, path: seq<ChildNumber>, p: seq<nat>)
    returns (k: nat)
    requires multiset(p) == multiset(Positions(|job.words|))
    requires forall j :: 0 <= j < |p| ==> p[j] < |job.words|
    requires derive(job.language, job.scheme, path, Join(Arrange(job.words, p), " ")) == Derived(job.target)
    ensures k < Factorial(|job.words|)
    ensures Hits(job, derive, path, k) && !Passes(job, derive, path, k)
  {
    EveryOrderingVisited(|job.words|, p);
    k :| 0 <= k < Factorial(|job.words|) && Ordering(|job.words|, k) == p;
    assert PhraseAt(job, k) == Join(Arrange(job.words, p), " ");
  }

  /**
   * Given enough room, the search is complete: when some arrangement of the
   * words leads to the target and no phrase makes the pipeline fail, a match
   * is reported (the first one in enumeration order, by SearchFindsFirstMatch).
   */
  lemma UncappedSearchFindsArrangement<A>(job: Job<A>, derive: Pipeline<A>, p: seq<nat>)
    requires job.index < HardenedOffset
    requires job.maxPermutations >= Factorial(|job.words|)
    requires multiset(p) == multiset(Positions(|job.words|))
    requires forall k :: 0 <= k < |p| ==> p[k] < |job.words|
    requires derive(job.language, job.scheme, TemplateLevels(job.scheme, job.index), Join(Arrange(job.words, p), " "))
      == Derived(job.target)
    requires forall j :: 0 <= j < Factorial(|job.words|) ==>
      !TrialAt(job, derive, TemplateLevels(job.scheme, job.index), j).Failed?
    ensures SearchResult(job, derive).Ok? && SearchResult(job, derive).value.Found?
  {
    var k := ArrangementHits(job, derive, TemplateLevels(job.scheme, job.index), p);
    UncappedSearchFindsHit(job, derive, k);
  }

  /** Uncapped and free of pipeline failures, the search reports a match whenever some ordering hits. */
  lemma UncappedSearchFindsHit<A>(job: Job<A>, derive: Pipeline<A>, k: nat)
    requires job.index < HardenedOffset
    requires job.maxPermutations >= Factorial(|job.words|)
    requires k < Factorial(|job.words|) && !Passes(job, derive, TemplateLevels(job.scheme, job.index), k)
    requires forall j :: 0 <= j < Factorial(|job.words|) ==>
      !TrialAt(job, derive, TemplateLevels(job.scheme, job.index), j).Failed?
    ensures SearchResult(job, derive).Ok? && SearchResult(job, derive).value.Found?
  {
    var path := TemplateLevels(job.scheme, job.index);
    SearchScansTemplate(job, derive);
    assert k < Examined(job);
    ScanNotFound(job, derive, path, 0);
    ScanWithoutFailures(job, derive, path, 0);
    var outcome := Scan(job, derive, path, 0).value;
    assert outcome != NotFound;
    assert outcome.Found?;
  }
}

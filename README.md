# BIP-39 word-order recovery, modelled in Dafny

The program recovers a Bitcoin mnemonic whose 12 or 24 words are known but
whose order is not. It takes a target address and the words. It picks an
address scheme:

- BIP-44 for legacy `1…` addresses;
- BIP-49 for P2SH-wrapped SegWit `3…` addresses;
- BIP-84 for native SegWit `bc1…` addresses.

It also picks a BIP-39 wordlist language, which it detects from the words when
the `--language` tag is left at its default `english`. It then enumerates
orderings of the words in the permutation iterator's lexicographic order, up to
a cap (`--max-permutations`, default 1,000,000). For each ordering it:

1. joins the words with single spaces;
2. skips phrases that are not valid mnemonics;
3. derives the key at `m/P'/0'/0'/0/i`, where P is the scheme's purpose and i
   is `--derivation`;
4. encodes the address and compares it with the target.

The first ordering that matches is reported. A key-derivation failure aborts
the search.

## Modules

- **`Wrappers`**: the `Option` and `Result` types.
- **`Text`**: ASCII case handling, decimal rendering and reading, and the
  join and split used on phrases and paths.
- **`Languages`**: the ten wordlist languages, in detection order, and the
  language tag codec (`parse_language` and `language_name`).
- **`Schemes`**:
  - the address type, its derivation-path template and its label;
  - the BIP-32 path notation reader;
  - the scheme-selection block of `main`.
- **`Detection`**: `detect_language`.
  - The method `DetectLanguage` keeps the source's two nested loops.
  - It is proved equal to the closed-form specification `Detected`: the
    earliest best-scoring language, kept only on a full match or on a positive
    score of at least half the word count (rounded down).
  - `EffectiveLanguage` is the language choice of `main`.
- **`Permutations`**: the order in which `permutations(n)` yields orderings.
  - The k-th ordering is computed from k by the factorial number system
    (`Unrank`).
  - The orderings are proved to be rearrangements of the positions, strictly
    increasing in lexicographic order, and to cover every rearrangement within
    the first n! ranks.
- **`Search`**: `search_permutations`.
  - The mnemonic-to-address pipeline is a function parameter. It returns one of:
    - `Invalid`: the phrase is not a valid mnemonic, and it is skipped;
    - `Failed`: a master-key, child-key or compressed-key error, which aborts
      the search;
    - `Derived(address)`: the address the phrase leads to.
  - The method `SearchPermutations` is the source's loop. It is proved equal
    to the recursive specification `Scan`.
  - Lemmas characterise what `Scan` reports.
- **`Cli`**: `main` after argument parsing, in its order of steps:
  1. the word-count gate;
  2. the target address, as given by the address parser and the network
     check;
  3. the scheme;
  4. the language;
  5. the search.

Several properties are proved:

- parsing a language name gives back its language, and case is ignored;
- the path template reads back as its five levels, unless the index is
  2^31 or more;
- the first matching ordering is the one reported;
- raising the cap never changes a reported match;
- orderings that are not valid mnemonics still count toward the cap;
- an uncapped search without pipeline failures finds any arrangement that
  leads to the target.

Scheme detection by prefix is case-sensitive. An upper-case Bech32 address
(`BC1…`) is therefore refused unless `--bip84` is given
(`Schemes.UppercaseBech32NeedsFlag`).

Language detection runs only when the tag is exactly `english`, the flag's
default. Any other spelling, including `English`, is parsed, and the words are
not consulted. So a phrase made only of words of one other wordlist is detected
as that language only under the default tag (`Detection.OnlyFullMatchIsDetected`
with `Detection.ExplicitTagSkipsDetection`). The model follows this code
behaviour. A reading in which a unique full match wins whatever tag was
declared is not what the code does.

## Model

| member | source | states |
|---|---|---|
| Text.DecimalRoundTrip | src/main.rs:53-59 | the decimal rendering of the derivation index reads back as the same number |
| Languages.Parse | src/main.rs:177-194 | an accepted tag lower-cases to the name of the language it selects, and a refused tag yields the unknown-language error carrying the tag; ParseName, ParseExactly and ParseCaseInsensitive state the rest |
| Languages.Name | src/main.rs:196-209 | no ensures of its own; ParseName, NameInjective and ParseIgnoresCase state what it does |
| Languages.ParseName | src/main.rs:177-209 | parsing the name of any language gives back that language |
| Languages.ParseExactly | src/main.rs:177-194 | a tag selects language l exactly when its lower-case form is l's name; it is an unknown-language error exactly when no name matches, and the error carries the tag |
| Languages.ParseIgnoresCase | src/main.rs:178-188 | the upper-case spelling of every language name selects that language |
| Languages.ParseCaseInsensitive | src/main.rs:178 | two tags that agree up to case are both accepted or both refused, and select the same language |
| Languages.NameInjective | src/main.rs:196-209 | distinct languages have distinct names |
| Languages.DetectionOrderComplete | src/main.rs:213-224 | detection tries ten languages, each supported language once |
| Schemes.DerivationPath | src/main.rs:53-59 | no ensures of its own; DerivationPathTemplate and DerivationPathParses state what it does |
| Schemes.Name | src/main.rs:61-67 | no ensures of its own; NameStatesPurpose states what it does |
| Schemes.DerivationPathTemplate | src/main.rs:53-59 | every scheme's path is `m/` purpose `'/0'/0'/0/` index, with purpose 44, 49 or 84 |
| Schemes.NameStatesPurpose | src/main.rs:61-67 | each label starts with `BIP` and the scheme's purpose number, and labels tell schemes apart |
| Schemes.DerivationPathParses | src/main.rs:271-273 | the path string parses to hardened purpose, hardened 0, hardened 0, normal 0, normal index when the index is below 2^31, and is refused with an invalid-child-number error otherwise |
| Schemes.SelectScheme | src/main.rs:92-114 | `--bip84` wins over `--bip49`, which wins over `--bip44`; failure happens only without any flag |
| Schemes.SchemeFromPrefix | src/main.rs:99-113 | without a flag, scheme t is chosen exactly when the target starts with t's prefix (`1`, `3`, `bc1`), and selection fails exactly when none of them does |
| Schemes.UppercaseBech32NeedsFlag | src/main.rs:99-113 | an address starting with `BC1` is not auto-detected, and `--bip84` selects BIP-84 for it |
| Detection.FullScore | src/main.rs:231-242 | a language scores the full word count exactly when every word is found in its list up to ASCII case |
| Detection.CountKnown | src/main.rs:231-242 | the inner loop counts the words found in one list, as `Score` defines it |
| Detection.Detected | src/main.rs:211-261 | no ensures of its own; DetectLanguage is proved equal to it, and DetectedIsEarliestBest, FirstFullMatchWins, OnlyFullMatchIsDetected, BelowHalfIsInconclusive and DetectedRecognisesAWord state what it decides |
| Detection.DetectLanguage | src/main.rs:211-261 | the loop returns exactly the closed-form detection result: the earliest best-scoring language, if it matches all words, or at least one and at least half of them |
| Detection.FirstFullMatchWins | src/main.rs:249-253 | when a list holds every word and no earlier list does, that list's language is detected |
| Detection.OnlyFullMatchIsDetected | src/main.rs:249-253 | a language whose list alone holds every word is detected, whatever the other lists hold |
| Detection.DetectedIsEarliestBest | src/main.rs:243-260 | a detected language has the highest score, and strictly higher than every earlier language; some language is detected exactly when some score is full, or positive and at least half the word count |
| Detection.BelowHalfIsInconclusive | src/main.rs:255-260 | when every score is below half the word count, nothing is detected |
| Detection.DetectedRecognisesAWord | src/main.rs:243-260 | for a non-empty word list, a detected language recognises at least one word |
| Detection.EffectiveLanguage | src/main.rs:122-138 | the tag `english` always gives a language: the detected one, or English when detection is inconclusive |
| Detection.ExplicitTagSkipsDetection | src/main.rs:134-137 | any other tag selects l exactly when its lower-case form is l's name, independently of the words |
| Detection.CapitalisedEnglishSelectsEnglish | src/main.rs:122-137 | the tag `English` selects English outright, without detection |
| Permutations.Ordering | src/main.rs:279-283 | the k-th ordering has n entries, each an input position below n |
| Permutations.UnrankPermutes | src/main.rs:279-283 | every ordering is a rearrangement of its pool |
| Permutations.OrderingsDistinct | src/main.rs:279-283 | orderings are rearrangements of the positions, come in strictly increasing lexicographic order, and are pairwise distinct |
| Permutations.EveryOrderingVisited | src/main.rs:279-283 | every rearrangement of the positions is the k-th ordering for some k below n! |
| Search.Examined | src/main.rs:279-284 | the number of orderings the capped iterator yields is at most the cap and at most n!, and equal to one of them |
| Search.Scan | src/main.rs:279-343 | no ensures of its own; ScanNotFound, ScanFound, ScanAborts, ScanFailureCause and ScanWithoutFailures state what it decides |
| Search.SearchResult | src/main.rs:263-344 | no ensures of its own; SearchPermutations is proved equal to it, and SearchRefusesHardenedIndex, SearchFindsFirstMatch, SearchFindsNothing and CapOnlyTruncates state what it decides |
| Search.SearchPermutations | src/main.rs:263-344 | the loop returns the result of the specification `SearchResult`; it generates one more ordering than the reported index, or all examined orderings when nothing is found |
| Search.ScanNotFound | src/main.rs:279-343 | the scan finds nothing exactly when every examined ordering is skipped or leads to another address |
| Search.ScanFound | src/main.rs:327-340 | the scan reports ordering k with its phrase exactly when k leads to the target and every earlier examined ordering is skipped or leads elsewhere |
| Search.ScanAborts | src/main.rs:299-323 | a pipeline failure at ordering k, after orderings that all pass, aborts the scan with that failure |
| Search.ScanFailureCause | src/main.rs:299-323 | a failed scan failed at the first non-passing ordering, whose pipeline reported the failure, so a scan never reports a path error |
| Search.ScanWithoutFailures | src/main.rs:292-323 | only a pipeline failure makes the scan fail |
| Search.SearchRefusesHardenedIndex | src/main.rs:271-273 | the search fails on its path exactly when the derivation index is 2^31 or more |
| Search.SearchFindsFirstMatch | src/main.rs:279-340 | the search reports ordering k exactly when the index is below 2^31, k is within the cap and n!, k leads to the target, and every earlier ordering passes |
| Search.SearchFindsNothing | src/main.rs:279-343 | the search reports no match exactly when the index is below 2^31 and every examined ordering passes |
| Search.ZeroCapFindsNothing | src/main.rs:283 | a cap of zero reports no match, or the path error when the index is 2^31 or more |
| Search.InvalidOrderingsUseTheCap | src/main.rs:283-295 | when every ordering within the cap is an invalid mnemonic, nothing is found, whatever later orderings would give |
| Search.CapOnlyTruncates | src/main.rs:279-285 | for a search that found ordering k, any cap above k reports the same match, and any cap at or below k reports none |
| Search.ArrangementHits | src/main.rs:279-290 | an arrangement of the words whose phrase leads to the target is some ordering that stops the scan |
| Search.UncappedSearchFindsHit | src/main.rs:279-340 | with a cap of at least n! and no pipeline failure, a hitting ordering makes the search report a match |
| Search.UncappedSearchFindsArrangement | src/main.rs:279-340 | with a cap of at least n! and no pipeline failure, any arrangement of the words that leads to the target makes the search report a match |
| Cli.Execute | src/main.rs:70-163 | the entry point returns exactly what the stepwise specification `Run` decides |
| Cli.Run | src/main.rs:70-163 | no ensures of its own; Execute is proved equal to it, and RunSucceeds, WordCountComesFirst, LanguageErrorsComeAfterScheme and RunReportsArrangement state what it decides |
| Cli.RunSucceeds | src/main.rs:74-148 | a run succeeds exactly when there are 12 or 24 words, the address is a mainnet address, a scheme and a language are chosen, and the search succeeds |
| Cli.WordCountComesFirst | src/main.rs:74-79 | a word count other than 12 or 24 is reported before anything else is looked at |
| Cli.LanguageErrorsComeAfterScheme | src/main.rs:122-138 | an unknown-language error comes only after the word count, address and scheme steps pass, never for the tag `english`, and only for a tag that names no language |
| Cli.RunReportsArrangement | src/main.rs:140-147 | a reported match is a rearrangement of exactly the given words, within the cap, whose phrase leads to the target under the chosen scheme and language at the derivation index, which is below 2^31 |
| Cli.UndetectedLanguageSearchesEnglish | src/main.rs:122-133 | with the tag `english` and inconclusive detection, the search runs in English |
| Cli.DefaultCapIsPartial | src/main.rs:20-22 | with the default cap, the capped iterator yields 1,000,000 orderings, fewer than n! for 12 or 24 words; a search that finds nothing examines all of them |

## Left out

- **Command-line parsing.** Argument parsing by clap is not modelled, including
  its mutual exclusion of the three scheme flags. The model takes the parsed
  values and gives the precedence `main` applies when several flags are set.
- **Output.** Printing, the progress line every 100,000 orderings and the
  elapsed-time measurement are output only.
- **`format_number`.** It formats with floating point and affects only output.
- **The key and address pipeline.** BIP-39 checksum validation and seed
  derivation, BIP-32 master and child key derivation, secp256k1 public keys,
  compressed-key construction and the three address encoders are
  cryptographic code from external crates. Together they are one function
  parameter returning `Invalid`, `Failed` or `Derived(address)`. Addresses are
  compared by equality only.
- **Reading the target address.** The address parser and the mainnet check are
  external. They are a parameter with three outcomes: unparseable, another
  network, or a mainnet address.
- **The wordlists.** The 2048-word lists of the bip39 crate are a parameter.
  Word lookup is ASCII-case-insensitive equality with some entry, as in the
  source.
- **`Languages.Parse`.** Rust's Unicode `to_lowercase` is modelled by ASCII
  lowering plus the Kelvin sign U+212A, which lowers to `k`. These are the only
  characters whose lower-case form can be ASCII, so which tags are accepted is
  modelled exactly. Other non-ASCII characters are left unchanged.
- **The path reader.** The rust-bitcoin path parser is not part of this model.
  `Schemes.ParsePath` is a reader of the same BIP-32 notation: `m`, then
  `/`-separated decimal levels, with `'` for hardened levels below 2^31. It is
  applied only to the strings `derivation_path` produces.
- **The permutation iterator.** The iterator's internal state is not modelled.
  The k-th ordering is computed from k directly, and the proved order
  (lexicographic by position, every rearrangement once) is the order the
  iterator yields.
- **Machine integers.** The `usize` cap and index are unbounded naturals. The
  `u32` derivation index is a subset type below 2^32. Counters that cannot
  overflow in practice are not bounded.
- **`Search.SearchPermutations`.** Its ghost count of generated orderings
  states the count, not the orderings themselves. Which orderings are generated
  is stated through `Scan` and `Ordering`.

/**
 * The ten BIP-39 wordlist languages and their command-line tags
 * (`parse_language` and `language_name` in src/main.rs).
 */
module Languages {
  import opened Wrappers
  import opened Text

  datatype Language =
    | English | Portuguese | Spanish | French | Italian
    | Czech | Korean | Japanese | SimplifiedChinese | TraditionalChinese

  /** The order in which language detection tries the wordlists. */
  const DetectionOrder: seq<Language> := [
    English, Portuguese, Spanish, French, Italian,
    Czech, Korean, Japanese, SimplifiedChinese, TraditionalChinese
  ]

  /** `language_name`: the tag printed for, and accepted as, each language. */
  function Name(l: Language): string {
    match l
    case English => "english"
    case Portuguese => "portuguese"
    case Spanish => "spanish"
    case French => "french"
    case Italian => "italian"
    case Czech => "czech"
    case Korean => "korean"
    case Japanese => "japanese"
    case SimplifiedChinese => "chinese-simplified"
    case TraditionalChinese => "chinese-traditional"
  }

  /**
   * Rust's `char::to_lowercase` as far as it can produce an ASCII character:
   * ASCII capitals, and KELVIN SIGN (U+212A), which lower-cases to `k`. Every
   * other character is left as it is, which keeps a non-ASCII character
   * non-ASCII, as the real mapping does.
   */
  function LowerChar(c: char): char {
    if c == '\U{212A}' then 'k' else AsciiLower(c)
  }

  /** `str::to_lowercase` as far as it can produce ASCII; other characters are left unchanged. */
  function Lowercase(s: string): (r: string)
    ensures |r| == |s|
    ensures forall i :: 0 <= i < |s| ==> r[i] == LowerChar(s[i])
  {
    seq(|s|, i requires 0 <= i < |s| => LowerChar(s[i]))
  }

  datatype LanguageError = UnknownLanguage(tag: string)

  /** `parse_language`: lower-cases the tag, then matches it against the ten names. */
  function Parse(tag: string): (r: Result<Language, LanguageError>)
    ensures r.Ok? ==> Name(r.value) == Lowercase(tag)
    ensures r.Err? ==> r.error == UnknownLanguage(tag)
  {
    var t := Lowercase(tag);
    if t == "english" then Ok(English)
    else if t == "portuguese" then Ok(Portuguese)
    else if t == "spanish" then Ok(Spanish)
    else if t == "french" then Ok(French)
    else if t == "italian" then Ok(Italian)
    else if t == "czech" then Ok(Czech)
    else if t == "korean" then Ok(Korean)
    else if t == "japanese" then Ok(Japanese)
    else if t == "chinese-simplified" then Ok(SimplifiedChinese)
    else if t == "chinese-traditional" then Ok(TraditionalChinese)
    else Err(UnknownLanguage(tag))
  }

  /** The characters the ten tags are made of. */
  predicate TagChar(c: char) {
    'a' <= c <= 'z' || c == '-'
  }

  lemma NameChars(l: Language)
    ensures forall i :: 0 <= i < |Name(l)| ==> TagChar(Name(l)[i])
  {
  }

  /** Lower-casing leaves a tag as it is, even after upper-casing it. */
  lemma {:induction false} LowercaseOfTag(s: string)
    requires forall i :: 0 <= i < |s| ==> TagChar(s[i])
    ensures Lowercase(s) == s
    ensures Lowercase(AsciiUppercase(s)) == s
  {
    var u := AsciiUppercase(s);
    forall i | 0 <= i < |s|
      ensures Lowercase(s)[i] == s[i] && Lowercase(u)[i] == s[i]
    {
      assert TagChar(s[i]);
    }
  }

  /** Every language's own name parses back to it. */
  lemma {:induction false} ParseName(l: Language)
    ensures Parse(Name(l)) == Ok(l)
  {
    NameChars(l);
    LowercaseOfTag(Name(l));
  }

  /** Names are distinct, so a tag names at most one language. */
  lemma NameInjective(a: Language, b: Language)
    ensures Name(a) == Name(b) ==> a == b
  {
  }

  /** A tag parses to `l` exactly when its lower-case form is `l`'s name; any other tag is an error. */
  lemma ParseExactly(tag: string, l: Language)
    ensures Parse(tag) == Ok(l) <==> Lowercase(tag) == Name(l)
    ensures Parse(tag).Err? <==> forall m: Language :: Lowercase(tag) != Name(m)
    ensures Parse(tag).Err? ==> Parse(tag).error == UnknownLanguage(tag)
  {
    forall m: Language | Lowercase(tag) == Name(m)
      ensures Parse(tag).Ok?
    {
      match m
      case English =>
      case Portuguese =>
      case Spanish =>
      case French =>
      case Italian =>
      case Czech =>
      case Korean =>
      case Japanese =>
      case SimplifiedChinese =>
      case TraditionalChinese =>
    }
    if Parse(tag).Ok? {
      assert Lowercase(tag) == Name(Parse(tag).value);
    }
  }

  /** Parsing ignores case: the upper-case spelling of every name selects its language. */
  lemma {:induction false} ParseIgnoresCase(l: Language)
    ensures Parse(AsciiUppercase(Name(l))) == Ok(l)
  {
    NameChars(l);
    LowercaseOfTag(Name(l));
  }

  /** Two tags that agree up to case parse alike. */
  lemma {:induction false} ParseCaseInsensitive(s: string, t: string)
    requires |s| == |t|
    requires forall i :: 0 <= i < |s| ==> LowerChar(s[i]) == LowerChar(t[i])
    ensures Parse(s).Ok? <==> Parse(t).Ok?
    ensures Parse(s).Ok? ==> Parse(s) == Parse(t)
  {
    assert Lowercase(s) == Lowercase(t);
  }

  /** The detection order lists every language exactly once. */
  lemma DetectionOrderComplete(l: Language)
    ensures |DetectionOrder| == 10
    ensures l in DetectionOrder
    ensures forall i, j :: 0 <= i < j < |DetectionOrder| ==> DetectionOrder[i] != DetectionOrder[j]
  {
  }
}

/**
 * Address schemes (`AddressType` in src/main.rs): how a scheme is chosen, the
 * derivation-path template of each, and the BIP-32 path notation that the
 * template is read back with before the search starts.
 */
module Schemes {
  import opened Wrappers
  import opened Text

  /** Rust's `u32`, the type of the derivation index. */
  type U32 = x: nat | x < 0x1_0000_0000

  /** Indices at or above 2^31 denote hardened children in BIP-32. */
  const HardenedOffset: nat := 0x8000_0000

  datatype AddressType =
    | Bip44  // legacy P2PKH
    | Bip49  // P2SH-wrapped SegWit
    | Bip84  // native SegWit P2WPKH

  /** The purpose level of the path: BIP-44, BIP-49 and BIP-84 each fix their own. */
  function Purpose(t: AddressType): nat {
    match t
    case Bip44 => 44
    case Bip49 => 49
    case Bip84 => 84
  }

  /** What mainnet addresses of each scheme start with. */
  function AddressPrefix(t: AddressType): string {
    match t
    case Bip44 => "1"
    case Bip49 => "3"
    case Bip84 => "bc1"
  }

  /** `AddressType::derivation_path`. */
  function DerivationPath(t: AddressType, index: U32): string {
    match t
    case Bip44 => "m/44'/0'/0'/0/" + Decimal(index)
    case Bip49 => "m/49'/0'/0'/0/" + Decimal(index)
    case Bip84 => "m/84'/0'/0'/0/" + Decimal(index)
  }

  /** `AddressType::name`: the label shown to the operator. */
  function Name(t: AddressType): string {
    match t
    case Bip44 => "BIP44 (Legacy P2PKH)"
    case Bip49 => "BIP49 (P2SH-wrapped SegWit)"
    case Bip84 => "BIP84 (Native SegWit)"
  }

  /**
   * Every path is `m/P'/0'/0'/0/i`: purpose P hardened, coin type 0 (bitcoin)
   * hardened, account 0 hardened, the external chain 0, and the address index.
   */
  lemma DerivationPathTemplate(t: AddressType, index: U32)
    ensures DerivationPath(t, index) ==
      "m/" + Decimal(Purpose(t)) + "'/0'/0'/0/" + Decimal(index)
  {
    var written := match t
      case Bip44 => "m/44'/0'/0'/0/"
      case Bip49 => "m/49'/0'/0'/0/"
      case Bip84 => "m/84'/0'/0'/0/";
    assert "m/" + Decimal(Purpose(t)) + "'/0'/0'/0/" == written by {
      PurposeDecimal(t);
    }
    assert DerivationPath(t, index) == written + Decimal(index);
  }

  /** The purpose rendered in decimal: the two digits of the BIP number. */
  lemma PurposeDecimal(t: AddressType)
    ensures Decimal(Purpose(t)) == [DigitChar(Purpose(t) / 10), DigitChar(Purpose(t) % 10)]
  {
  }

  /** Each label names its scheme's BIP number, so labels tell schemes apart. */
  lemma NameStatesPurpose(t: AddressType)
    ensures "BIP" + Decimal(Purpose(t)) <= Name(t)
    ensures forall u: AddressType :: Name(u) == Name(t) ==> u == t
  {
    PurposeDecimal(t);
  }

  // ---------------------------------------------------------------------------
  // BIP-32 path notation

  datatype ChildNumber = Normal(index: nat) | Hardened(index: nat)

  datatype PathError =
    | InvalidFormat                 // the path does not start with `m`
    | InvalidChildNumberFormat      // a level is not a decimal u32
    | InvalidChildNumber(n: nat)    // a level's index is 2^31 or more

  /** A decimal `u32`, as Rust's `str::parse::<u32>` reads one. */
  function ParseU32(d: string): (r: Option<nat>)
    ensures r.Some? ==> r.value < 0x1_0000_0000
  {
    if |d| > 0 && AllDigits(d) && DigitsValue(d) < 0x1_0000_0000 then Some(DigitsValue(d))
    else None
  }

  /** One level: a decimal index, hardened when followed by an apostrophe. */
  function ParseChild(c: string): (r: Result<ChildNumber, PathError>)
    ensures r.Ok? ==> r.value.index < HardenedOffset
  {
    var hardened := |c| > 0 && c[|c| - 1] == '\'';
    var digits := if hardened then c[..|c| - 1] else c;
    match ParseU32(digits)
    case None => Err(InvalidChildNumberFormat)
    case Some(v) =>
      if v >= HardenedOffset then Err(InvalidChildNumber(v))
      else if hardened then Ok(Hardened(v))
      else Ok(Normal(v))
  }

  /** The levels in order; the first level that fails decides the error. */
  function ParseChildren(parts: seq<string>): (r: Result<seq<ChildNumber>, PathError>)
    ensures r.Ok? ==> |r.value| == |parts|
  {
    if |parts| == 0 then Ok([])
    else match ParseChild(parts[0])
      case Err(e) => Err(e)
      case Ok(c) =>
        match ParseChildren(parts[1..])
        case Err(e) => Err(e)
        case Ok(cs) => Ok([c] + cs)
  }

  /** `DerivationPath::from_str` on the notation `m/level/level/...`. */
  function ParsePath(s: string): Result<seq<ChildNumber>, PathError> {
    if s == "m" then Ok([])
    else if "m/" <= s then ParseChildren(Split(s[2..], '/'))
    else Err(InvalidFormat)
  }

  /** The levels the template of `t` stands for, before the index is checked. */
  function TemplateLevels(t: AddressType, index: U32): seq<ChildNumber> {
    [Hardened(Purpose(t)), Hardened(0), Hardened(0), Normal(0), Normal(index)]
  }

  /** A rendered decimal read as a level: normal, or hardened with an apostrophe. */
  lemma DecimalChild(n: U32)
    ensures ParseChild(Decimal(n)) ==
      if n < HardenedOffset then Ok(Normal(n)) else Err(InvalidChildNumber(n))
    ensures ParseChild(Decimal(n) + "'") ==
      if n < HardenedOffset then Ok(Hardened(n)) else Err(InvalidChildNumber(n))
  {
    var d := Decimal(n);
    DecimalRoundTrip(n);
    assert IsDigit(d[|d| - 1]);
    assert ParseU32(d) == Some(n);
    assert (d + "'")[..|d|] == d;
  }

  /** The tail of a template after `m/` splits into its five level strings. */
  lemma SplitLevels(a: string, d: string)
    requires '/' !in a && '/' !in d
    ensures Split(a + "/0'/0'/0/" + d, '/') == [a, "0'", "0'", "0", d]
  {
    var r3 := "0" + "/" + d;
    var r2 := "0'" + "/" + r3;
    var r1 := "0'" + "/" + r2;
    assert a + "/0'/0'/0/" + d == a + "/" + r1;
    SplitAtFirstSeparator(a, '/', r1);
    SplitAtFirstSeparator("0'", '/', r2);
    SplitAtFirstSeparator("0'", '/', r3);
    SplitAtFirstSeparator("0", '/', d);
    SplitWithoutSeparator(d, '/');
  }

  lemma PurposeLevel(t: AddressType, index: U32)
    ensures DerivationPath(t, index) == "m/" + (Decimal(Purpose(t)) + "'" + "/0'/0'/0/" + Decimal(index))
    ensures '/' !in Decimal(Purpose(t)) + "'"
  {
    DerivationPathTemplate(t, index);
    var p := Decimal(Purpose(t));
    assert p[0] != '/' && p[|p| - 1] != '/';
    PurposeDecimal(t);
    assert |p| == 2;
  }

  /** The path string splits into the five level strings of the template. */
  lemma TemplateSplits(t: AddressType, index: U32)
    ensures ParsePath(DerivationPath(t, index)) ==
      ParseChildren([Decimal(Purpose(t)) + "'", "0'", "0'", "0", Decimal(index)])
  {
    var d := Decimal(index);
    assert forall k :: 0 <= k < |d| ==> IsDigit(d[k]);
    var p := Decimal(Purpose(t)) + "'";
    PurposeLevel(t, index);
    var s := DerivationPath(t, index);
    SplitLevels(p, d);
    assert s[2..] == p + "/0'/0'/0/" + d;
  }

  /** The levels after the purpose parse one by one; only the index can fail. */
  lemma TailLevelsParse(index: U32)
    ensures ParseChildren(["0'", "0'", "0", Decimal(index)]) ==
      if index < HardenedOffset then Ok([Hardened(0), Hardened(0), Normal(0), Normal(index)])
      else Err(InvalidChildNumber(index))
  {
    var parts := ["0'", "0'", "0", Decimal(index)];
    DecimalChild(0);
    DecimalChild(index);
    assert Decimal(0) == "0" && "0" + "'" == "0'";
    assert ParseChild("0'") == Ok(Hardened(0));
    assert parts[3..] == [Decimal(index)] && parts[3..][1..] == [];
    assert parts[2..][1..] == parts[3..] && parts[1..][1..] == parts[2..];
    assert ParseChildren([]) == Ok([]);
    if index < HardenedOffset {
      assert [Normal(index)] + [] == [Normal(index)];
      assert ParseChildren(parts[3..]) == Ok([Normal(index)]);
      assert [Normal(0)] + [Normal(index)] == [Normal(0), Normal(index)];
      assert ParseChildren(parts[2..]) == Ok([Normal(0), Normal(index)]);
      assert [Hardened(0)] + [Normal(0), Normal(index)] == [Hardened(0), Normal(0), Normal(index)];
      assert ParseChildren(parts[1..]) == Ok([Hardened(0), Normal(0), Normal(index)]);
      assert [Hardened(0)] + [Hardened(0), Normal(0), Normal(index)]
        == [Hardened(0), Hardened(0), Normal(0), Normal(index)];
    } else {
      assert ParseChildren(parts[3..]) == Err(InvalidChildNumber(index));
      assert ParseChildren(parts[2..]) == Err(InvalidChildNumber(index));
      assert ParseChildren(parts[1..]) == Err(InvalidChildNumber(index));
    }
  }

  /** The five levels of the template parse one by one; only the index can fail. */
  lemma TemplateLevelsParse(t: AddressType, index: U32)
    ensures ParseChildren([Decimal(Purpose(t)) + "'", "0'", "0'", "0", Decimal(index)]) ==
      if index < HardenedOffset then Ok(TemplateLevels(t, index))
      else Err(InvalidChildNumber(index))
  {
    var parts := [Decimal(Purpose(t)) + "'", "0'", "0'", "0", Decimal(index)];
    DecimalChild(Purpose(t));
    TailLevelsParse(index);
    assert parts[1..] == ["0'", "0'", "0", Decimal(index)];
    assert [Hardened(Purpose(t))] + [Hardened(0), Hardened(0), Normal(0), Normal(index)]
      == TemplateLevels(t, index);
  }

  /**
   * The path string of every scheme reads back as its five levels, unless the
   * index is 2^31 or more: it is then not a normal child number and the path
   * is refused, which stops the search before its first trial.
   */
  lemma DerivationPathParses(t: AddressType, index: U32)
    ensures ParsePath(DerivationPath(t, index)) ==
      if index < HardenedOffset then Ok(TemplateLevels(t, index))
      else Err(InvalidChildNumber(index))
  {
    TemplateSplits(t, index);
    TemplateLevelsParse(t, index);
  }

  // ---------------------------------------------------------------------------
  // Scheme selection

  datatype SchemeError = UndetectableScheme

  /**
   * The scheme-selection block of `main`: an explicit flag wins (`--bip84`
   * before `--bip49` before `--bip44`); without one the literal prefix of the
   * target address decides, and an unknown prefix is an error.
   */
  function SelectScheme(bip44: bool, bip49: bool, bip84: bool, target: string)
    : (r: Result<AddressType, SchemeError>)
    ensures bip84 ==> r == Ok(Bip84)
    ensures !bip84 && bip49 ==> r == Ok(Bip49)
    ensures !bip84 && !bip49 && bip44 ==> r == Ok(Bip44)
    ensures r.Err? ==> !bip44 && !bip49 && !bip84
  {
    if bip84 then Ok(Bip84)
    else if bip49 then Ok(Bip49)
    else if bip44 then Ok(Bip44)
    else if "bc1" <= target then Ok(Bip84)
    else if "3" <= target then Ok(Bip49)
    else if "1" <= target then Ok(Bip44)
    else Err(UndetectableScheme)
  }

  lemma PrefixHead(p: string, s: string)
    requires |p| > 0 && p <= s
    ensures |s| > 0 && s[0] == p[0]
  {
    assert s[..|p|] == p;
  }

  /**
   * Without a flag the scheme is the one whose address prefix the target has;
   * the three prefixes exclude each other, and a target with none of them is
   * refused rather than given a default scheme.
   */
  lemma SchemeFromPrefix(target: string, t: AddressType)
    ensures SelectScheme(false, false, false, target) == Ok(t) <==> AddressPrefix(t) <= target
    ensures SelectScheme(false, false, false, target).Err? <==>
      forall u: AddressType :: !(AddressPrefix(u) <= target)
  {
    forall u: AddressType | AddressPrefix(u) <= target
      ensures SelectScheme(false, false, false, target) == Ok(u)
    {
      PrefixHead(AddressPrefix(u), target);
    }
    if SelectScheme(false, false, false, target).Ok? {
      var v := SelectScheme(false, false, false, target).value;
      assert AddressPrefix(v) <= target;
    }
  }

  /**
   * Prefix detection is case-sensitive: an upper-case Bech32 address (legal
   * under BIP-173) is not recognised and needs an explicit flag.
   */
  lemma UppercaseBech32NeedsFlag(target: string)
    requires "BC1" <= target
    ensures SelectScheme(false, false, false, target).Err?
    ensures SelectScheme(false, false, true, target) == Ok(Bip84)
  {
    PrefixHead("BC1", target);
    SchemeFromPrefix(target, Bip44);
  }
}

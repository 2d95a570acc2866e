/** The public keys a chip scan returns, and the key cards the mint page
    renders from them (pages/mint.tsx, type `ChipKeys` and the card list). */
module Chip {
  import opened Wrappers

  /** One scan result. Primary and secondary pairs are always strings; the
      tertiary pair may be `null`, modelled as `None`. */
  datatype ChipKeys = ChipKeys(
    primaryPublicKeyHash: string,
    primaryPublicKeyRaw: string,
    secondaryPublicKeyHash: string,
    secondaryPublicKeyRaw: string,
    tertiaryPublicKeyHash: Option<string>,
    tertiaryPublicKeyRaw: Option<string>)

  datatype Tier = Primary | Secondary | Tertiary

  /** Position of a tier's card in the rendered row. */
  function Rank(t: Tier): (r: nat) {
    match t
    case Primary => 0
    case Secondary => 1
    case Tertiary => 2
  }

  /** The card's `type` caption. */
  function Label(t: Tier): (r: string) {
    match t
    case Primary => "Primary"
    case Secondary => "Secondary"
    case Tertiary => "Tertiary"
  }

  function TierHash(k: ChipKeys, t: Tier): (r: Option<string>) {
    match t
    case Primary => Some(k.primaryPublicKeyHash)
    case Secondary => Some(k.secondaryPublicKeyHash)
    case Tertiary => k.tertiaryPublicKeyHash
  }

  function TierRaw(k: ChipKeys, t: Tier): (r: Option<string>) {
    match t
    case Primary => Some(k.primaryPublicKeyRaw)
    case Secondary => Some(k.secondaryPublicKeyRaw)
    case Tertiary => k.tertiaryPublicKeyRaw
  }

  /** JavaScript truthiness of a string that may be null: present and non-empty. */
  predicate Truthy(v: Option<string>) {
    v.Some? && v.value != ""
  }

  /** How JavaScript's `+` renders a string that may be null. */
  function JsText(v: Option<string>): (r: string) {
    match v
    case Some(x) => x
    case None => "null"
  }

  /** The text handed to the address derivation for a tier: `"0x" + raw`,
      which is `"0xnull"` for a null raw key. */
  function KeyText(k: ChipKeys, t: Tier): (r: string) {
    "0x" + JsText(TierRaw(k, t))
  }

  /** The guard `keys?.<tier>PublicKeyHash && …`: the keys are present and
      that tier's hash is non-null and non-empty. */
  predicate Renders(keys: Option<ChipKeys>, t: Tier) {
    keys.Some? && Truthy(TierHash(keys.value, t))
  }

  /** What one rendered card shows: its caption, the tier's key hash, and the
      address derived from the tier's raw key. */
  datatype Card = Card(tier: Tier, caption: string, publicKey: string, address: string)

  /** `computeAddress` is the library's public-key-to-address derivation,
      taken as a parameter; `None` means it throws, which aborts the render. */
  function CardFor(k: ChipKeys, t: Tier, computeAddress: string -> Option<string>): (r: Option<Card>) {
    match computeAddress(KeyText(k, t))
    case None => None
    case Some(a) => Some(Card(t, Label(t), JsText(TierHash(k, t)), a))
  }

  function CardIf(keys: Option<ChipKeys>, t: Tier, computeAddress: string -> Option<string>): (r: Option<seq<Card>>) {
    if !Renders(keys, t) then Some([])
    else
      match CardFor(keys.value, t, computeAddress)
      case None => None
      case Some(c) => Some([c])
  }

  /** The cards in the order the page lays them out; `None` when rendering
      throws because a derivation failed. */
  function Cards(keys: Option<ChipKeys>, computeAddress: string -> Option<string>): (r: Option<seq<Card>>) {
    var a := CardIf(keys, Primary, computeAddress);
    var b := CardIf(keys, Secondary, computeAddress);
    var c := CardIf(keys, Tertiary, computeAddress);
    if a.Some? && b.Some? && c.Some? then Some(a.value + b.value + c.value) else None
  }

  /** The render throws exactly when some tier passes its guard and the
      address derivation rejects that tier's key text. */
  lemma CardsThrowIff(keys: Option<ChipKeys>, computeAddress: string -> Option<string>)
    ensures Cards(keys, computeAddress).None?
            <==> exists t :: Renders(keys, t) && computeAddress(KeyText(keys.value, t)).None?
  {
  }

  /** Every card belongs to a tier whose guard holds, and shows that tier's
      caption, hash and derived address. */
  lemma CardsShowRenderedTiers(keys: Option<ChipKeys>, computeAddress: string -> Option<string>)
    ensures Cards(keys, computeAddress).Some? ==>
      var cs := Cards(keys, computeAddress).value;
      forall i :: 0 <= i < |cs| ==>
        && Renders(keys, cs[i].tier)
        && cs[i].caption == Label(cs[i].tier)
        && Some(cs[i].publicKey) == TierHash(keys.value, cs[i].tier)
        && computeAddress(KeyText(keys.value, cs[i].tier)) == Some(cs[i].address)
  {
  }

  /** When the render succeeds, each tier whose guard holds has a card. */
  lemma CardsCoverRenderedTiers(keys: Option<ChipKeys>, computeAddress: string -> Option<string>)
    ensures Cards(keys, computeAddress).Some? ==>
      var cs := Cards(keys, computeAddress).value;
      forall t :: Renders(keys, t) ==> exists i :: 0 <= i < |cs| && cs[i].tier == t
  {
    if Cards(keys, computeAddress).Some? {
      var a := CardIf(keys, Primary, computeAddress).value;
      var b := CardIf(keys, Secondary, computeAddress).value;
      var cs := Cards(keys, computeAddress).value;
      forall t | Renders(keys, t)
        ensures exists i :: 0 <= i < |cs| && cs[i].tier == t
      {
        match t
        case Primary => assert cs[0].tier == t;
        case Secondary => assert cs[|a|].tier == t;
        case Tertiary => assert cs[|a| + |b|].tier == t;
      }
    }
  }

  /** Cards run Primary, Secondary, Tertiary, at most one per tier. */
  lemma CardsOrderedByTier(keys: Option<ChipKeys>, computeAddress: string -> Option<string>)
    ensures Cards(keys, computeAddress).Some? ==>
      var cs := Cards(keys, computeAddress).value;
      |cs| <= 3 && forall i, j :: 0 <= i < j < |cs| ==> Rank(cs[i].tier) < Rank(cs[j].tier)
  {
  }

  /** A scan without a tertiary pair never shows a tertiary card; with both
      other hashes non-empty and derivable it shows exactly those two cards. */
  lemma NoTertiaryCard(k: ChipKeys, computeAddress: string -> Option<string>)
    requires k.tertiaryPublicKeyHash.None?
    ensures Cards(Some(k), computeAddress).Some? ==>
      forall i :: 0 <= i < |Cards(Some(k), computeAddress).value| ==>
        Cards(Some(k), computeAddress).value[i].tier != Tertiary
    ensures k.primaryPublicKeyHash != "" && k.secondaryPublicKeyHash != ""
            && computeAddress(KeyText(k, Primary)).Some? && computeAddress(KeyText(k, Secondary)).Some?
            ==> Cards(Some(k), computeAddress)
                == Some([Card(Primary, "Primary", k.primaryPublicKeyHash, computeAddress(KeyText(k, Primary)).value),
                         Card(Secondary, "Secondary", k.secondaryPublicKeyHash, computeAddress(KeyText(k, Secondary)).value)])
  {
    assert CardIf(Some(k), Tertiary, computeAddress) == Some([]);
    if k.primaryPublicKeyHash != "" && k.secondaryPublicKeyHash != ""
       && computeAddress(KeyText(k, Primary)).Some? && computeAddress(KeyText(k, Secondary)).Some?
    {
      assert CardIf(Some(k), Primary, computeAddress)
          == Some([Card(Primary, "Primary", k.primaryPublicKeyHash, computeAddress(KeyText(k, Primary)).value)]);
      assert CardIf(Some(k), Secondary, computeAddress)
          == Some([Card(Secondary, "Secondary", k.secondaryPublicKeyHash, computeAddress(KeyText(k, Secondary)).value)]);
      assert [Card(Primary, "Primary", k.primaryPublicKeyHash, computeAddress(KeyText(k, Primary)).value)]
             + [Card(Secondary, "Secondary", k.secondaryPublicKeyHash, computeAddress(KeyText(k, Secondary)).value)]
             + []
          == [Card(Primary, "Primary", k.primaryPublicKeyHash, computeAddress(KeyText(k, Primary)).value),
              Card(Secondary, "Secondary", k.secondaryPublicKeyHash, computeAddress(KeyText(k, Secondary)).value)];
    }
  }
}

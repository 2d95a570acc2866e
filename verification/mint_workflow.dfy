/** The mint page's workflow state and its two handlers (pages/mint.tsx).
    Both handlers write part of the state before their first `await`; each is
    modelled as that prefix update followed by the awaited results. An await
    that rejects stops the handler with whatever it had already written; one
    that resolves has its value stored, even when that value is `undefined`. */
module MintWorkflow {
  import opened Wrappers
  import opened Chip

  type Address = string
  type BlockHash = string
  type Signature = string

  /** The signature is taken over the block this many blocks below the head. */
  const BlockLag := 10

  /** `keys`, `signature` and `blockNumber` React state; `None` is `undefined`. */
  datatype MintState = MintState(keys: Option<ChipKeys>, signature: Option<Signature>, blockNumber: int)

  const Initial := MintState(None, None, 0)

  /** The argument object handed to the chip signer. `keys?.primaryPublicKeyRaw`
      and the account `address` may be undefined when the handler runs. */
  datatype SignRequest = SignRequest(chipPublicKey: Option<string>, address: Option<Address>, hash: BlockHash)

  function PrimaryRaw(keys: Option<ChipKeys>): (r: Option<string>) {
    match keys
    case Some(k) => Some(k.primaryPublicKeyRaw)
    case None => None
  }

  /** `scanChip`: writes made before the scan is awaited. */
  function ScanPrefix(s: MintState): (r: MintState) {
    s.(signature := None, blockNumber := 0)
  }

  /** `scanChip`, given how the physical scan settled. */
  function ScanChip(s: MintState, scan: Settled<Option<ChipKeys>>): (r: MintState)
    ensures r.signature.None? && r.blockNumber == 0
    ensures scan.Resolved? ==> r.keys == scan.value
    ensures scan.Rejected? ==> r.keys == s.keys
  {
    var p := ScanPrefix(s);
    match scan
    case Resolved(keys) => p.(keys := keys)
    case Rejected => p
  }

  /** The block `signChip` samples for a chain head `head`; negative when the
      head is below `BlockLag`, which the page does not guard against. */
  function AnchorBlock(head: int): (r: int) {
    head - BlockLag
  }

  /** The state's signature is exactly what the chip answered for the current
      primary key, the given account and the hash of the recorded block. */
  predicate SignedFor(s: MintState, wallet: Option<Address>,
                      getBlock: int -> Settled<BlockHash>,
                      sign: SignRequest -> Settled<Option<Signature>>)
  {
    && getBlock(s.blockNumber).Resolved?
    && sign(SignRequest(PrimaryRaw(s.keys), wallet, getBlock(s.blockNumber).value)) == Resolved(s.signature)
  }

  /** A signature is held and it belongs to the recorded block. */
  predicate Paired(s: MintState, wallet: Option<Address>,
                   getBlock: int -> Settled<BlockHash>,
                   sign: SignRequest -> Settled<Option<Signature>>)
  {
    s.signature.Some? && SignedFor(s, wallet, getBlock, sign)
  }

  /** `signChip`, given how the chain-head read settled, the block lookup and
      the chip signer. `blockNumber` is written as soon as the head is known,
      before the block hash is fetched; `signature` only once the chip answers. */
  function SignChip(s: MintState, wallet: Option<Address>, head: Settled<int>,
                    getBlock: int -> Settled<BlockHash>,
                    sign: SignRequest -> Settled<Option<Signature>>): (r: MintState)
    ensures r.keys == s.keys
    ensures head.Rejected? ==> r == s
    ensures head.Resolved? ==> r.blockNumber == AnchorBlock(head.value)
    ensures r.signature == s.signature || SignedFor(r, wallet, getBlock, sign)
    ensures head.Resolved? && getBlock(AnchorBlock(head.value)).Resolved?
            && sign(SignRequest(PrimaryRaw(s.keys), wallet, getBlock(AnchorBlock(head.value)).value)).Resolved?
            ==> SignedFor(r, wallet, getBlock, sign)
  {
    match head
    case Rejected => s
    case Resolved(h) =>
      var anchor := AnchorBlock(h);
      var p := s.(blockNumber := anchor);
      match getBlock(anchor)
      case Rejected => p
      case Resolved(hash) =>
        match sign(SignRequest(PrimaryRaw(s.keys), wallet, hash))
        case Rejected => p
        case Resolved(sig) => p.(signature := sig)
  }

  /** "Check Validity" is clickable exactly when a chip has been scanned. */
  predicate CheckValidityEnabled(s: MintState) {
    s.keys.Some?
  }

  /** "Mint" is clickable exactly when a signature is held. */
  predicate MintEnabled(s: MintState) {
    s.signature.Some?
  }

  /** What a click on "Check Validity" does. */
  datatype CheckClick = Disabled | OpenConnectModal | Signed(next: MintState)

  function CheckValidityClick(s: MintState, wallet: Option<Address>, head: Settled<int>,
                              getBlock: int -> Settled<BlockHash>,
                              sign: SignRequest -> Settled<Option<Signature>>): (r: CheckClick)
    ensures r.Disabled? <==> s.keys.None?
    ensures r.OpenConnectModal? <==> s.keys.Some? && wallet.None?
    ensures r.Signed? ==> wallet.Some? && r.next == SignChip(s, wallet, head, getBlock, sign)
  {
    if !CheckValidityEnabled(s) then Disabled
    else if wallet.None? then OpenConnectModal
    else Signed(SignChip(s, wallet, head, getBlock, sign))
  }

  /** The arguments of the contract's `mintChip` call, `[signature, blockNumber]`. */
  datatype MintCall = MintCall(signature: Option<Signature>, blockNumber: int)

  function MintArgs(s: MintState): (r: MintCall) {
    MintCall(s.signature, s.blockNumber)
  }

  /** What a click on "Mint" submits. `prepared` says whether the prepared
      contract write (`mint`) is defined; nothing is sent when the button is
      disabled or the write is undefined. */
  function MintClick(s: MintState, prepared: bool): (r: Option<MintCall>)
    ensures r.Some? <==> s.signature.Some? && prepared
    ensures r.Some? ==> r.value.signature == s.signature && r.value.blockNumber == s.blockNumber
  {
    if MintEnabled(s) && prepared then Some(MintArgs(s)) else None
  }

  function ScanLabel(s: MintState): (r: string) {
    if s.keys.None? then "Scan Chip" else "Re-scan Chip"
  }

  function CheckValidityLabel(s: MintState): (r: string) {
    if s.signature.None? then "Check Validity" else "Re-check Validity"
  }

  /** The page's "No chip" placeholder. */
  predicate ShowsNoChip(s: MintState) {
    s.keys.None?
  }

  /** A scan, whatever its outcome, leaves Mint disabled and the validity
      button asking for a fresh check; a scan that yields keys offers a
      re-scan and a check, one that yields `undefined` shows "No chip". */
  lemma ScanInvalidatesSignature(s: MintState, scan: Settled<Option<ChipKeys>>)
    ensures !MintEnabled(ScanChip(s, scan))
    ensures CheckValidityLabel(ScanChip(s, scan)) == "Check Validity"
    ensures scan.Resolved? && scan.value.Some? ==>
      && CheckValidityEnabled(ScanChip(s, scan))
      && !ShowsNoChip(ScanChip(s, scan))
      && ScanLabel(ScanChip(s, scan)) == "Re-scan Chip"
    ensures scan == Resolved(None) ==>
      ShowsNoChip(ScanChip(s, scan)) && ScanLabel(ScanChip(s, scan)) == "Scan Chip"
  {
  }

  /** An example of a failed re-check after the head has moved: a paired
      state at block 90, a head of 110 and a lookup that rejects block 100. */
  lemma SignFailureCanUnpairBlock()
    ensures var k := ChipKeys("h1", "r1", "h2", "r2", None, None);
      var getBlock := (b: int) => if b == 90 then Resolved("hash90") else Rejected;
      var sign := (req: SignRequest) => Resolved(Some(req.hash));
      var s := MintState(Some(k), Some("hash90"), 90);
      var r := SignChip(s, Some("me"), Resolved(110), getBlock, sign);
      && Binding(getBlock, sign)
      && Paired(s, Some("me"), getBlock, sign)
      && r.signature == s.signature
      && r.blockNumber == 100
      && !Paired(r, Some("me"), getBlock, sign)
  {
  }

  /** A re-check that read the head `h` and then failed: the block lookup
      rejected, or the lookup resolved and the chip rejected the request. */
  predicate FailsAfterHead(s: MintState, wallet: Option<Address>, h: int,
                           getBlock: int -> Settled<BlockHash>,
                           sign: SignRequest -> Settled<Option<Signature>>)
  {
    || getBlock(AnchorBlock(h)).Rejected?
    || (&& getBlock(AnchorBlock(h)).Resolved?
        && sign(SignRequest(PrimaryRaw(s.keys), wallet, getBlock(AnchorBlock(h)).value)).Rejected?)
  }

  /** The chain and the chip tie a signature to one block: distinct blocks
      have distinct hashes, and the chip never gives the same signature for
      requests over two different hashes. */
  ghost predicate Binding(getBlock: int -> Settled<BlockHash>,
                          sign: SignRequest -> Settled<Option<Signature>>)
  {
    && (forall b1, b2 :: b1 != b2 && getBlock(b1).Resolved? && getBlock(b2).Resolved?
                         ==> getBlock(b1).value != getBlock(b2).value)
    && (forall q1, q2 :: sign(q1) == sign(q2) && sign(q1).Resolved? && sign(q1).value.Some?
                         ==> q1.hash == q2.hash)
  }

  /** A failed re-check of a state whose signature was made, by an earlier
      click with `wallet0`, `getBlock0` and `sign0`, for its recorded block.
      The signature is kept and the block becomes head - 10. With an
      unchanged head nothing changes and the pair stays valid; after the
      head has moved the old signature sits next to a block it was not made
      for, whenever hashes and signatures are specific to one block. */
  lemma FailedRecheckKeepsOrBreaksPair(s: MintState, wallet0: Option<Address>,
                                       getBlock0: int -> Settled<BlockHash>,
                                       sign0: SignRequest -> Settled<Option<Signature>>,
                                       wallet: Option<Address>, h: int,
                                       getBlock: int -> Settled<BlockHash>,
                                       sign: SignRequest -> Settled<Option<Signature>>)
    requires Paired(s, wallet0, getBlock0, sign0)
    requires FailsAfterHead(s, wallet, h, getBlock, sign)
    ensures var r := SignChip(s, wallet, Resolved(h), getBlock, sign);
      && r.keys == s.keys
      && r.signature == s.signature
      && r.blockNumber == AnchorBlock(h)
      && (AnchorBlock(h) == s.blockNumber ==> r == s && Paired(r, wallet0, getBlock0, sign0))
      && (AnchorBlock(h) != s.blockNumber && Binding(getBlock0, sign0)
          ==> !Paired(r, wallet0, getBlock0, sign0))
  {
  }

  /** Scan, then Check Validity with a connected wallet, all calls resolving
      with values: Mint becomes enabled and submits the chip's signature
      together with the block ten below the head, and that signature is over
      that block's hash and the scanned primary key. */
  lemma ScanThenSignEnablesMint(s: MintState, k: ChipKeys, a: Address, h: int,
                                getBlock: int -> Settled<BlockHash>,
                                sign: SignRequest -> Settled<Option<Signature>>)
    requires getBlock(h - BlockLag).Resolved?
    requires sign(SignRequest(Some(k.primaryPublicKeyRaw), Some(a), getBlock(h - BlockLag).value)).Resolved?
    requires sign(SignRequest(Some(k.primaryPublicKeyRaw), Some(a), getBlock(h - BlockLag).value)).value.Some?
    ensures var scanned := ScanChip(s, Resolved(Some(k)));
      var click := CheckValidityClick(scanned, Some(a), Resolved(h), getBlock, sign);
      && click.Signed?
      && MintEnabled(click.next)
      && MintClick(click.next, true)
         == Some(MintCall(sign(SignRequest(Some(k.primaryPublicKeyRaw), Some(a), getBlock(h - BlockLag).value)).value,
                          h - BlockLag))
      && CheckValidityLabel(click.next) == "Re-check Validity"
  {
  }

  /** A user action on the mint page, carrying how its awaits settle. */
  datatype MintEvent =
    | ScanClicked(scan: Settled<Option<ChipKeys>>)
    | CheckValidityClicked(wallet: Option<Address>, head: Settled<int>,
                           getBlock: int -> Settled<BlockHash>,
                           sign: SignRequest -> Settled<Option<Signature>>)

  /** A scan that resolved with `undefined`: the only event that clears keys. */
  predicate ClearsKeys(e: MintEvent) {
    e.ScanClicked? && e.scan == Resolved(None)
  }

  function Step(s: MintState, e: MintEvent): (r: MintState) {
    match e
    case ScanClicked(scan) => ScanChip(s, scan)
    case CheckValidityClicked(wallet, head, getBlock, sign) =>
      match CheckValidityClick(s, wallet, head, getBlock, sign)
      case Signed(next) => next
      case _ => s
  }

  /** Handlers run one after another, each to completion. */
  function Run(s: MintState, es: seq<MintEvent>): (r: MintState)
    decreases |es|
  {
    if es == [] then s else Run(Step(s, es[0]), es[1..])
  }

  /** A held signature implies scanned keys. */
  predicate SignatureHasKeys(s: MintState) {
    s.signature.Some? ==> s.keys.Some?
  }

  lemma StepKeepsSignatureHasKeys(s: MintState, e: MintEvent)
    requires SignatureHasKeys(s)
    ensures SignatureHasKeys(Step(s, e))
    ensures s.keys.Some? && Step(s, e).keys.None? ==> ClearsKeys(e)
  {
  }

  /** Along any sequence of clicks a held signature implies scanned keys, and
      scanned keys are lost only through a scan that resolved with `undefined`. */
  lemma {:induction false} RunKeepsSignatureHasKeys(s: MintState, es: seq<MintEvent>)
    requires SignatureHasKeys(s)
    ensures SignatureHasKeys(Run(s, es))
    ensures s.keys.Some? && Run(s, es).keys.None? ==> exists i :: 0 <= i < |es| && ClearsKeys(es[i])
    decreases |es|
  {
    if es != [] {
      StepKeepsSignatureHasKeys(s, es[0]);
      RunKeepsSignatureHasKeys(Step(s, es[0]), es[1..]);
      if s.keys.Some? && Run(s, es).keys.None? && !ClearsKeys(es[0]) {
        var i :| 0 <= i < |es[1..]| && ClearsKeys(es[1..][i]);
        assert es[i + 1] == es[1..][i];
      }
    }
  }

  /** From the page's initial state, whenever Mint is enabled a chip is held
      and Check Validity is enabled as well. */
  lemma MintEnabledOnlyAfterScan(es: seq<MintEvent>)
    ensures MintEnabled(Run(Initial, es)) ==> CheckValidityEnabled(Run(Initial, es))
  {
    RunKeepsSignatureHasKeys(Initial, es);
  }
}

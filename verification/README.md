# PBT web demo: mint workflow and seed form

A Dafny model of the two pieces of real logic in a web front-end for
physical-backed tokens (NFTs bound to a cryptographic NFC chip):

- the **mint page** (`pages/mint.tsx`): its state `keys`, `signature` and
  `blockNumber`; the `scanChip` and `signChip` handlers; the error-text
  classifier `parseErrorMessage`; which buttons are enabled; which chip key
  cards render; and the arguments of the `mintChip` contract call;
- the **seed page** (`pages/seed.tsx`): the list of chip-address fields,
  its add/remove icons, the Submit gate and the `seedChipAddresses` argument.

Modules:

| file | module | what |
|---|---|---|
| `wrappers.dfy` | `Wrappers` | `Option`, standing for `undefined`/`null`, and `Settled`, how an awaited promise settled |
| `strings.dfy` | `Strings` | `String.prototype.includes` (`Includes`) and a reference definition (`Occurs`) |
| `error_messages.dfy` | `ErrorMessages` | `parseErrorMessage` and its four rules |
| `chip.dfy` | `Chip` | `ChipKeys`, tiers, the card list |
| `mint_workflow.dfy` | `MintWorkflow` | mint page state, handlers, buttons, click sequences |
| `seed_form.dfy` | `SeedForm` | seed form, row events, Submit |

Collaborators the page calls but whose code is elsewhere are parameters:

- the chip scan is a `Settled<Option<ChipKeys>>` outcome;
- the chain head is a `Settled<int>` outcome;
- block lookup is `getBlock: int -> Settled<BlockHash>`;
- the chip signer is `sign: SignRequest -> Settled<Option<Signature>>`;
- `computeAddress` is `string -> Option<string>`, where `None` means it throws;
- `ethers.isAddress` is `isAddress: string -> bool`.

`Rejected` means the awaited promise rejected, and the handler stops with the
writes it had already made. `Resolved(v)` means it resolved with `v`, and the
page stores `v` even when it is `undefined` (`None`). The connected account is
a `wallet: Option<Address>`; `Some(a)` means connected with address `a`.

Each handler is a prefix update followed by the awaited steps. Behaviours of
the page that the model keeps:

- `scanChip` clears `signature` and sets `blockNumber` to 0 before the scan is
  awaited, so a failed scan still clears both.
- `signChip` stores `blockNumber := head - 10` before fetching that block's
  hash. The sampled block is negative when the head is below 10.
- If the hash lookup or the chip signature then fails, the old signature is
  kept and the block number is still head - 10. With an unchanged head
  nothing changes and the pair stays valid. After the head has moved, the old
  signature sits next to a block it was not made for
  (`FailedRecheckKeepsOrBreaksPair`).
- The trash icon is not rendered on a one-row form. `ApplySeedEvent` returns
  `None` for a click on a control that is not rendered.
- A card whose raw key cannot be turned into an address makes the page's
  render throw. That includes a tertiary hash whose raw key is `null`, which
  reaches the derivation as `"0xnull"`. `Cards` is then `None`.

## Model

| member | source | states |
|---|---|---|
| `Strings.IncludesIffOccurs` | pages/mint.tsx:85 | the left-to-right substring search used for `includes` succeeds exactly when the needle occurs at some index |
| `ErrorMessages.ParseErrorMessage` | pages/mint.tsx:84-94 | the classifier is total and only ever yields one of the three fixed user messages |
| `ErrorMessages.UnauthorizedWins` | pages/mint.tsx:85-87 | the result is "Seed the chip first" iff "UnauthorizedToMint" occurs, whatever other markers occur |
| `ErrorMessages.RejectionMeansCancelled` | pages/mint.tsx:88-90 | the result is "Operation cancelled" iff "User rejected the request" occurs and "UnauthorizedToMint" does not |
| `ErrorMessages.AlreadyMintedMessage` | pages/mint.tsx:91-93 | the result is "Chip has been minted" iff "ChipHasBeenMinted" occurs and neither earlier marker does |
| `ErrorMessages.UnknownErrorHasNoMessage` | pages/mint.tsx:84-94 | there is no specific message iff none of the three markers occurs |
| `ErrorMessages.WrappedMarkerIsRecognised` | pages/mint.tsx:91-93 | a revert text with "ChipHasBeenMinted" anywhere inside it, and no earlier marker, maps to "Chip has been minted" |
| `Chip.CardsShowRenderedTiers` | pages/mint.tsx:171-191 | when the render succeeds, every card belongs to a tier whose hash is present and non-empty, and shows that tier's caption ("Primary", "Secondary", "Tertiary"), its hash and the address derived from "0x" + that tier's raw key |
| `Chip.CardsCoverRenderedTiers` | pages/mint.tsx:171-191 | when the render succeeds, every tier whose hash is present and non-empty gets a card |
| `Chip.CardsOrderedByTier` | pages/mint.tsx:170-192 | when the render succeeds, at most three cards, in Primary, Secondary, Tertiary order, one per tier |
| `Chip.NoTertiaryCard` | pages/mint.tsx:171-191 | with a null tertiary hash no tertiary card appears; when both other hashes are non-empty and their addresses derive, the cards are exactly the primary and the secondary one |
| `Chip.CardsThrowIff` | pages/mint.tsx:171-191 | rendering the cards throws exactly when some tier passes its guard and the address derivation rejects that tier's "0x" + raw key text |
| `MintWorkflow.ScanChip` | pages/mint.tsx:63-68 | the signature is cleared and the block number zeroed whatever the scan's outcome; a resolved scan stores its value wholesale as the keys, `undefined` included; a rejected one leaves the keys |
| `MintWorkflow.SignChip` | pages/mint.tsx:70-82 | keys never change; a rejected head read changes nothing; otherwise the block number becomes head - 10 even if a later step fails; the signature either stays as it was or is exactly what the chip resolved with (possibly `undefined`) for the primary key, the account and the hash of the recorded block, and it is the latter whenever every await resolves |
| `MintWorkflow.FailedRecheckKeepsOrBreaksPair` | pages/mint.tsx:70-82 | for a state whose signature an earlier click made for its recorded block, a re-check that reads the head and then fails (lookup rejected, or chip rejected) keeps keys and signature and records block head - 10; with an unchanged head the state and its valid pair are untouched; with a moved head the old signature no longer belongs to the recorded block, whenever distinct blocks have distinct hashes and the chip never repeats a signature across hashes |
| `MintWorkflow.SignFailureCanUnpairBlock` | pages/mint.tsx:71-75 | one concrete case of a moved head: collaborators that tie signatures to single blocks, a state paired at block 90, head 110 and a rejected lookup of block 100 leave the old signature next to block 100, unpaired |
| `MintWorkflow.CheckValidityClick` | pages/mint.tsx:212-222 | "Check Validity" is disabled iff no keys are held; when enabled it opens the connect modal iff no wallet is connected, and otherwise yields exactly the state `signChip` produces with the connected address |
| `MintWorkflow.MintClick` | pages/mint.tsx:223-231 | "Mint" submits something iff a signature is held and the prepared write exists, and what it submits is exactly `[signature, blockNumber]` of the current state |
| `MintWorkflow.ScanInvalidatesSignature` | pages/mint.tsx:63-68 | after any scan Mint is disabled and the validity button reads "Check Validity"; after a scan yielding keys the validity button is enabled, "No chip" is gone and the scan button reads "Re-scan Chip"; after a scan yielding `undefined` "No chip" shows and the scan button reads "Scan Chip" |
| `MintWorkflow.ScanThenSignEnablesMint` | pages/mint.tsx:63-82 | a successful scan then a successful check with a connected wallet enables Mint with the chip's signature over block head - 10 and the scanned primary key |
| `MintWorkflow.StepKeepsSignatureHasKeys` | pages/mint.tsx:63-82 | one click keeps "a held signature implies held keys", and drops held keys only when it is a scan that resolved with `undefined` |
| `MintWorkflow.RunKeepsSignatureHasKeys` | pages/mint.tsx:63-82 | the same along any sequence of clicks: held keys are lost only if some scan in it resolved with `undefined` |
| `MintWorkflow.MintEnabledOnlyAfterScan` | pages/mint.tsx:212-224 | from the initial page state, whenever Mint is enabled a chip is held and Check Validity is enabled |
| `SeedForm.AppendEmpty` | pages/seed.tsx:86-91 | the add icon appends one empty row and keeps every earlier row in place |
| `SeedForm.RemoveAt` | pages/seed.tsx:96-102 | the trash icon on row i deletes exactly row i; rows before keep their index, rows after shift down by one, the multiset of rows loses just that row |
| `SeedForm.SetAddress` | pages/seed.tsx:106 | typing into row i changes that row's text only |
| `SeedForm.RemoveUndoesAppend` | pages/seed.tsx:86-102 | removing the row just added restores the form |
| `SeedForm.ApplySeedEvent` | pages/seed.tsx:84-106 | add works only on the last row, remove only when the form does not have exactly one row, typing on any existing row; each does the list operation above |
| `SeedForm.StepKeepsARow` | pages/seed.tsx:96-102 | no single event empties a non-empty form |
| `SeedForm.RunKeepsARow` | pages/seed.tsx:84-106 | no sequence of events empties a non-empty form |
| `SeedForm.ReachableFormsAreNonEmpty` | pages/seed.tsx:25-29 | every form reachable from the one-empty-row initial form has at least one row |
| `SeedForm.AddTwiceFromInitial` | pages/seed.tsx:25-91 | adding twice from the initial form gives three empty rows |
| `SeedForm.SubmitEnabledIffAllAddresses` | pages/seed.tsx:120-123 | Submit is enabled iff every row's text passes the address check |
| `SeedForm.ContractArgs` | pages/seed.tsx:39 | the contract argument has one string per row, each row's text, in row order |
| `SeedForm.SubmitClicked` | pages/seed.tsx:120-126 | the click does nothing iff some row fails the address check, a transaction is pending, or the wallet is connected but no prepared write exists; it opens the connect modal iff all rows pass, nothing is pending and no wallet is connected; when it seeds, it sends the rows' texts in order, all of them addresses |

## Left out

- `computeAddress` and `ethers.isAddress`: their key derivation and checksum rules are in the address library. Both are function parameters with no properties assumed, so which key texts make `computeAddress` throw, `"0xnull"` among them, is up to the parameter.
- The wagmi hooks that prepare, send and wait for contract writes (`usePrepareContractWrite`, `useContractWrite`, `useWaitForTransaction`). Their arguments are modelled (`MintArgs`, `ContractArgs`). Whether a prepared write exists and whether a transaction is pending are inputs to the clicks.
- The chip client calls (`getPublicKeysFromScan`, `getSignatureFromScan`) and the chain reads. They are outcome parameters. A block whose hash is `null` (a pending block) is not modelled.
- Notifications: the pending, success and error toasts and the explorer link (pages/mint.tsx:96-152, pages/seed.tsx:47-68). They are display side effects. `parseErrorMessage` itself is modelled.
- Concurrent handlers: two scans or signs in flight at once, where the last one to resolve wins. The model runs each handler to completion before the next starts.
- `connected()` (pages/mint.tsx:154-156) only logs.
- Styling, layout, colours and the scroll area height.
- pages/index.tsx: a prototype page whose `signChip` is never wired to a control.
- components/ChipInformation.tsx: the clipboard copy and its toast.
- pages/_app.tsx and pages/layout.tsx: provider wiring and the app shell.
- store/index.ts: an unused store. Its `ChipKeys` shape is the one in the mint page.
- The chain's `bigint` is Dafny's `int`. No width limit applies.
- `Strings.Includes` searches over Unicode code points, while JavaScript's `includes` works on UTF-16 code units. The three markers are ASCII, so the error classifier gives the same result either way.

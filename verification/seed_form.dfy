/** The seed page's form: a list of chip-address fields that grows and
    shrinks through per-row icons, and is submitted as one contract call
    (pages/seed.tsx). */
module SeedForm {
  import opened Wrappers

  /** One row of the form, `{ chipAddress }`. */
  datatype AddressField = AddressField(chipAddress: string)

  type Form = seq<AddressField>

  const EmptyField := AddressField("")

  /** The form starts with a single empty row. */
  const InitialForm: Form := [EmptyField]

  /** The "+" icon is rendered on row `row` only when it is the last row. */
  predicate ShowsAdd(f: Form, row: int) {
    |f| - row == 1
  }

  /** The trash icon is rendered on every row unless the form has exactly one. */
  predicate ShowsRemove(f: Form) {
    |f| != 1
  }

  /** `insertListItem` without an index: append an empty row at the end. */
  function AppendEmpty(f: Form): (r: Form)
    ensures |r| == |f| + 1 && r[|f|] == EmptyField
    ensures forall j :: 0 <= j < |f| ==> r[j] == f[j]
  {
    f + [EmptyField]
  }

  /** `removeListItem(index)`: drop exactly that row. */
  function RemoveAt(f: Form, i: int): (r: Form)
    requires 0 <= i < |f|
    ensures |r| == |f| - 1
    ensures forall j :: 0 <= j < i ==> r[j] == f[j]
    ensures forall j :: i <= j < |r| ==> r[j] == f[j + 1]
    ensures multiset(r) + multiset{f[i]} == multiset(f)
  {
    assert f == f[..i] + [f[i]] + f[i + 1..];
    f[..i] + f[i + 1..]
  }

  /** Typing into row `i` replaces that row's text and nothing else. */
  function SetAddress(f: Form, i: int, text: string): (r: Form)
    requires 0 <= i < |f|
    ensures |r| == |f| && r[i].chipAddress == text
    ensures forall j :: 0 <= j < |f| && j != i ==> r[j] == f[j]
  {
    f[i := AddressField(text)]
  }

  /** Removing the row just appended gives back the form before the append. */
  lemma RemoveUndoesAppend(f: Form)
    ensures RemoveAt(AppendEmpty(f), |f|) == f
  {
  }

  /** A click or keystroke on the seed form, by row. */
  datatype SeedEvent = AddClicked(row: int) | RemoveClicked(row: int) | Typed(row: int, text: string)

  /** The form after an event; `None` when the event's control is not
      rendered on that row (or there is no such row), so nothing happens. */
  function ApplySeedEvent(f: Form, e: SeedEvent): (r: Option<Form>)
    ensures e.AddClicked? ==> (r.Some? <==> 0 <= e.row < |f| && ShowsAdd(f, e.row))
    ensures e.RemoveClicked? ==> (r.Some? <==> 0 <= e.row < |f| && ShowsRemove(f))
    ensures e.Typed? ==> (r.Some? <==> 0 <= e.row < |f|)
    ensures r.Some? && e.AddClicked? ==> r.value == AppendEmpty(f)
    ensures r.Some? && e.RemoveClicked? ==> r.value == RemoveAt(f, e.row)
    ensures r.Some? && e.Typed? ==> r.value == SetAddress(f, e.row, e.text)
  {
    match e
    case AddClicked(row) =>
      if 0 <= row < |f| && ShowsAdd(f, row) then Some(AppendEmpty(f)) else None
    case RemoveClicked(row) =>
      if 0 <= row < |f| && ShowsRemove(f) then Some(RemoveAt(f, row)) else None
    case Typed(row, text) =>
      if 0 <= row < |f| then Some(SetAddress(f, row, text)) else None
  }

  function Step(f: Form, e: SeedEvent): (r: Form) {
    ApplySeedEvent(f, e).GetOr(f)
  }

  function Run(f: Form, es: seq<SeedEvent>): (r: Form)
    decreases |es|
  {
    if es == [] then f else Run(Step(f, es[0]), es[1..])
  }

  /** One event never empties a non-empty form: removal is offered only when
      at least two rows exist. */
  lemma StepKeepsARow(f: Form, e: SeedEvent)
    requires |f| >= 1
    ensures |Step(f, e)| >= 1
  {
  }

  /** Every form the page can reach from its initial value has a row. */
  lemma {:induction false} RunKeepsARow(f: Form, es: seq<SeedEvent>)
    requires |f| >= 1
    ensures |Run(f, es)| >= 1
    decreases |es|
  {
    if es != [] {
      StepKeepsARow(f, es[0]);
      RunKeepsARow(Step(f, es[0]), es[1..]);
    }
  }

  lemma ReachableFormsAreNonEmpty(es: seq<SeedEvent>)
    ensures |Run(InitialForm, es)| >= 1
  {
    RunKeepsARow(InitialForm, es);
  }

  /** Pressing "+" twice on the fresh form gives three empty rows. */
  lemma AddTwiceFromInitial()
    ensures Run(InitialForm, [AddClicked(0), AddClicked(1)]) == [EmptyField, EmptyField, EmptyField]
  {
    assert Step(InitialForm, AddClicked(0)) == [EmptyField, EmptyField];
  }

  /** Array `some`: does any row fail the predicate? */
  predicate SomeFails(f: Form, isAddress: string -> bool)
    decreases |f|
  {
    |f| > 0 && (!isAddress(f[0].chipAddress) || SomeFails(f[1..], isAddress))
  }

  /** The Submit button's `disabled` flag; `isAddress` is the address
      library's well-formedness check, taken as a parameter. */
  predicate SubmitDisabled(f: Form, isAddress: string -> bool) {
    SomeFails(f, isAddress)
  }

  /** Submit is enabled exactly when every row holds a well-formed address. */
  lemma {:induction false} SubmitEnabledIffAllAddresses(f: Form, isAddress: string -> bool)
    ensures !SubmitDisabled(f, isAddress)
            <==> forall j :: 0 <= j < |f| ==> isAddress(f[j].chipAddress)
    decreases |f|
  {
    if |f| > 0 {
      SubmitEnabledIffAllAddresses(f[1..], isAddress);
      assert forall j :: 1 <= j < |f| ==> f[j] == f[1..][j - 1];
    }
  }

  /** The argument of `seedChipAddresses`: the rows' texts, in row order. */
  function ContractArgs(f: Form): (r: seq<string>)
    ensures |r| == |f|
    ensures forall j :: 0 <= j < |f| ==> r[j] == f[j].chipAddress
    decreases |f|
  {
    if f == [] then [] else [f[0].chipAddress] + ContractArgs(f[1..])
  }

  /** What a click on Submit does. */
  datatype SubmitClick = Ignored | OpenConnectModal | Seed(addresses: seq<string>)

  /** `loading` is the pending-transaction flag shown on the button, which
      makes it unclickable; `prepared` says whether the prepared contract
      write (`seed`) is defined. */
  function SubmitClicked(f: Form, isAddress: string -> bool, isConnected: bool,
                         loading: bool, prepared: bool): (r: SubmitClick)
    ensures r.Ignored? <==>
      || (exists j :: 0 <= j < |f| && !isAddress(f[j].chipAddress))
      || loading
      || (isConnected && !prepared)
    ensures r.OpenConnectModal? <==>
      (forall j :: 0 <= j < |f| ==> isAddress(f[j].chipAddress)) && !loading && !isConnected
    ensures r.Seed? ==> isConnected && prepared && !loading && r.addresses == ContractArgs(f)
                        && forall j :: 0 <= j < |r.addresses| ==> isAddress(r.addresses[j])
  {
    SubmitEnabledIffAllAddresses(f, isAddress);
    if SubmitDisabled(f, isAddress) || loading then Ignored
    else if !isConnected then OpenConnectModal
    else if prepared then Seed(ContractArgs(f))
    else Ignored
  }
}

/** The mint page's translation of a contract or wallet error text into the
    message shown to the user (pages/mint.tsx, `parseErrorMessage`). The
    three markers are looked for in a fixed order and the first hit wins. */
module ErrorMessages {
  import opened Wrappers
  import opened Strings

  const UnauthorizedToMint := "UnauthorizedToMint"
  const UserRejected := "User rejected the request"
  const ChipHasBeenMinted := "ChipHasBeenMinted"

  const SeedTheChipFirst := "Seed the chip first"
  const OperationCancelled := "Operation cancelled"
  const ChipMinted := "Chip has been minted"

  /** The only messages the classifier can produce. */
  const KnownMessages: set<string> := {SeedTheChipFirst, OperationCancelled, ChipMinted}

  /** Maps an error text to a user message; `None` is the function falling
      off its end (`undefined`), which shows the generic error only. */
  function ParseErrorMessage(message: string): (r: Option<string>)
    ensures r.Some? ==> r.value in KnownMessages
  {
    if Includes(message, UnauthorizedToMint) then Some(SeedTheChipFirst)
    else if Includes(message, UserRejected) then Some(OperationCancelled)
    else if Includes(message, ChipHasBeenMinted) then Some(ChipMinted)
    else None
  }

  /** The three messages are distinct, so a result names exactly one rule. */
  lemma MessagesDistinct()
    ensures SeedTheChipFirst != OperationCancelled
    ensures SeedTheChipFirst != ChipMinted
    ensures OperationCancelled != ChipMinted
  {
  }

  /** "UnauthorizedToMint" anywhere in the text wins, whatever else occurs. */
  lemma UnauthorizedWins(message: string)
    ensures ParseErrorMessage(message) == Some(SeedTheChipFirst)
            <==> Occurs(message, UnauthorizedToMint)
  {
    IncludesIffOccurs(message, UnauthorizedToMint);
    MessagesDistinct();
  }

  /** A wallet rejection is reported as cancelled unless the first marker is present. */
  lemma RejectionMeansCancelled(message: string)
    ensures ParseErrorMessage(message) == Some(OperationCancelled)
            <==> !Occurs(message, UnauthorizedToMint) && Occurs(message, UserRejected)
  {
    IncludesIffOccurs(message, UnauthorizedToMint);
    IncludesIffOccurs(message, UserRejected);
    MessagesDistinct();
  }

  /** "ChipHasBeenMinted" is reported only when neither earlier marker occurs. */
  lemma AlreadyMintedMessage(message: string)
    ensures ParseErrorMessage(message) == Some(ChipMinted)
            <==> !Occurs(message, UnauthorizedToMint) && !Occurs(message, UserRejected)
                 && Occurs(message, ChipHasBeenMinted)
  {
    IncludesIffOccurs(message, UnauthorizedToMint);
    IncludesIffOccurs(message, UserRejected);
    IncludesIffOccurs(message, ChipHasBeenMinted);
    MessagesDistinct();
  }

  /** An error text carrying none of the markers gets no specific message. */
  lemma UnknownErrorHasNoMessage(message: string)
    ensures ParseErrorMessage(message).None?
            <==> !Occurs(message, UnauthorizedToMint) && !Occurs(message, UserRejected)
                 && !Occurs(message, ChipHasBeenMinted)
  {
    IncludesIffOccurs(message, UnauthorizedToMint);
    IncludesIffOccurs(message, UserRejected);
    IncludesIffOccurs(message, ChipHasBeenMinted);
  }

  /** A revert text is typically the marker wrapped in other words; such a text
      is classified by the marker alone when the other markers are absent. */
  lemma WrappedMarkerIsRecognised(prefix: string, suffix: string)
    requires !Occurs(prefix + ChipHasBeenMinted + suffix, UnauthorizedToMint)
    requires !Occurs(prefix + ChipHasBeenMinted + suffix, UserRejected)
    ensures ParseErrorMessage(prefix + ChipHasBeenMinted + suffix) == Some(ChipMinted)
  {
    var m := prefix + ChipHasBeenMinted + suffix;
    assert m[|prefix|..|prefix| + |ChipHasBeenMinted|] == ChipHasBeenMinted;
    assert OccursAt(m, ChipHasBeenMinted, |prefix|);
    AlreadyMintedMessage(m);
  }
}

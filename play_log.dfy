/** The parts of the engine's play-log entries that the overlay reads, as plain values. */
module PlayLog {
  import opened Common

  /**
   * A participant of an interaction: whether it is a pawn, its short label
   * (`LabelShortCap`, read only for pawns) and its label (`LabelCap`, possibly null).
   */
  datatype Thing = Thing(isPawn: bool, labelShortCap: string, labelCap: Option<string>)

  /** The interaction's def: its `defName` and its mod's `PackageId`, either possibly null. */
  datatype DefInfo = DefInfo(defName: Option<string>, packageId: Option<string>)

  /** A `PlayLogEntry_Interaction`: the initiator and recipient fields and the def, if one is found. */
  datatype Interaction = Interaction(initiator: Option<Thing>, recipient: Option<Thing>, def: Option<DefInfo>)

  /**
   * A log entry, with the name of the assembly that defines its runtime type (possibly null).
   * Only interaction entries reach the overlay.
   */
  datatype LogEntry =
    | InteractionEntry(inter: Interaction, asmName: Option<string>)
    | OtherEntry(asmName: Option<string>)
}

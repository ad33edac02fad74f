/**
 * The hook on `PlayLog.Add` (`Patch_PlayLog_Add`): an interaction entry that passes the
 * filter is formatted as "【name】body" and pushed to the chat buffer.
 */
module PlayLogPatch {
  import opened Common
  import opened PlayLog
  import opened AssemblyIndex
  import opened OverlaySettings
  import opened ChatFilter
  import opened ChatLog

  /** `initiator as Pawn ?? recipient as Pawn`. */
  function SubjectPawn(inter: Interaction): Option<Thing>
  {
    if inter.initiator.Some? && inter.initiator.value.isPawn then inter.initiator
    else if inter.recipient.Some? && inter.recipient.value.isPawn then inter.recipient
    else None
  }

  /** The point of view the entry is rendered from: the subject pawn, else the initiator, else the recipient. */
  function Pov(inter: Interaction): Option<Thing>
  {
    if SubjectPawn(inter).Some? then SubjectPawn(inter)
    else if inter.initiator.Some? then inter.initiator
    else inter.recipient
  }

  /** `GetSubjectName`, step by step as the code tests. */
  function GetSubjectName(subject: Option<Thing>, initiator: Option<Thing>, recipient: Option<Thing>): (name: string)
    ensures subject.Some? ==> name == subject.value.labelShortCap
    ensures name == "???" || (subject.Some? && name == subject.value.labelShortCap)
      || (initiator.Some? && (name == initiator.value.labelShortCap || initiator.value.labelCap == Some(name)))
      || (recipient.Some? && (name == recipient.value.labelShortCap || recipient.value.labelCap == Some(name)))
    ensures subject.None? && initiator.None? && recipient.None? ==> name == "???"
  {
    if subject.Some? then subject.value.labelShortCap
    else if initiator.Some? && initiator.value.isPawn then initiator.value.labelShortCap
    else if recipient.Some? && recipient.value.isPawn then recipient.value.labelShortCap
    else if initiator.Some? && initiator.value.labelCap.Some? then initiator.value.labelCap.value
    else if recipient.Some? && recipient.value.labelCap.Some? then recipient.value.labelCap.value
    else "???"
  }

  /**
   * The name chain without the code's redundant pawn tests: the short label of the
   * initiator if it is a pawn, else of the recipient if it is a pawn; else the
   * initiator's label; else the recipient's label; else "???".
   */
  ghost function NameChain(inter: Interaction): string
  {
    var i, r := inter.initiator, inter.recipient;
    if i.Some? && i.value.isPawn then i.value.labelShortCap
    else if r.Some? && r.value.isPawn then r.value.labelShortCap
    else if i.Some? && i.value.labelCap.Some? then i.value.labelCap.value
    else if r.Some? && r.value.labelCap.Some? then r.value.labelCap.value
    else "???"
  }

  /**
   * The subject name follows the chain; the code's separate tests for an initiator or
   * recipient pawn never decide anything, since a pawn is always the subject.
   */
  lemma {:induction false} SubjectNameFollowsChain(inter: Interaction)
    ensures GetSubjectName(SubjectPawn(inter), inter.initiator, inter.recipient) == NameChain(inter)
  {
    if SubjectPawn(inter).None? {
      assert !(inter.initiator.Some? && inter.initiator.value.isPawn);
      assert !(inter.recipient.Some? && inter.recipient.value.isPawn);
    }
  }

  /** The body of the line: the render from the point of view, else the render from no point of view. */
  function Body(inter: Interaction, render: Option<Thing> -> Option<string>): Option<string>
  {
    var pov := render(Pov(inter));
    if IsNullOrEmpty(pov) then render(None) else pov
  }

  /**
   * The line for an interaction, or None when both renders are null or empty. `render`
   * is the engine's `ToGameStringFromPOV` for this entry.
   */
  function FormatInteraction(inter: Interaction, render: Option<Thing> -> Option<string>): (text: Option<string>)
    ensures text.None? <==> IsNullOrEmpty(render(Pov(inter))) && IsNullOrEmpty(render(None))
    ensures text.Some? ==>
      text.value == "【" + NameChain(inter) + "】"
        + (if !IsNullOrEmpty(render(Pov(inter))) then render(Pov(inter)).value else render(None).value)
    ensures text.Some? ==> |text.value| > |NameChain(inter)| + 2
  {
    var body := Body(inter, render);
    if IsNullOrEmpty(body) then None
    else
      var name := GetSubjectName(SubjectPawn(inter), inter.initiator, inter.recipient);
      SubjectNameFollowsChain(inter);
      Some("【" + name + "】" + body.value)
  }

  /** The line an entry adds to the buffer, if any: an interaction that passes the filter and formats. */
  ghost function PushedLine(entry: LogEntry, cfg: FilterConfig, index: map<string, string>,
                            render: Option<Thing> -> Option<string>): Option<string>
  {
    if entry.InteractionEntry? && Decide(cfg, entry, index) then FormatInteraction(entry.inter, render) else None
  }

  /**
   * `Postfix` on `PlayLog.Add`: pushes the line of an interaction entry that the filter
   * lets through and that formats to non-empty text. Opening the overlay window is left out.
   */
  method Postfix(entry: Option<LogEntry>, settings: ChatOverlaySettings?, index: ModAssemblyIndex,
                 mods: seq<ModInfo>, chat: ChatState, now: int, render: Option<Thing> -> Option<string>)
    requires index.Valid() && chat.Valid()
    modifies index, chat
    ensures index.Valid() && chat.Valid()
    ensures entry.None? || !entry.value.InteractionEntry? ==> unchanged(index) && unchanged(chat)
    ensures entry.Some? ==>
      var line := PushedLine(entry.value, ConfigOf(settings), index.asmToPkg, render);
      chat.Model() == if line.Some? then PushModel(old(chat.Model()), line.value, now) else old(chat.Model())
    ensures entry.Some? && entry.value.InteractionEntry? && !NeedsIndex(ConfigOf(settings), entry.value) ==>
      unchanged(index)
    ensures entry.Some? && entry.value.InteractionEntry? && NeedsIndex(ConfigOf(settings), entry.value) ==>
      && index.built
      && (old(index.built) ==> index.asmToPkg == old(index.asmToPkg))
      && (!old(index.built) ==> index.asmToPkg == BuiltIndex(mods))
  {
    if entry.None? || !entry.value.InteractionEntry? {
      return;
    }
    var e := entry.value;
    var shown := ShouldInclude(settings, e, index, mods);
    if !shown {
      return;
    }
    var text := FormatInteraction(e.inter, render);
    if !IsNullOrEmpty(text) {
      chat.Push(text.value, now);
    }
  }
}

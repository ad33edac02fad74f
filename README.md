# Chat log overlay: filter, buffer and settings core, in Dafny

This project models the logic of the RimWorld "chat log overlay" mod that decides which
social-interaction log entries reach the overlay and how they are kept:

- `ChatLog` — the line buffer `ChatState`: a FIFO queue of formatted lines with a
  60-tick duplicate-suppression window keyed on the last pushed text and its tick,
  eviction of the oldest line, and a revision counter bumped on every real change.
- `AssemblyIndex` — `ModAssemblyIndex`: a build-once, first-writer-wins, case-insensitive
  map from assembly name to packageId, built from the running mods.
- `ChatFilter` — `ChatOverlayFilter.ShouldInclude`: filter mode Off, Whitelist or
  Blacklist over the packageId and defName sets, with the packageId inferred from the
  entry's assembly when the def does not carry one.
- `PlayLogPatch` — the `PlayLog.Add` postfix: subject-name fallback chain, the
  point-of-view render with its fallback, the `【name】body` line, and the push.
- `OverlaySettings` — the settings object's defaults, `GetGameFont`, and the conversion
  of the three case-insensitive sets to the saved string lists and back.
- `OverlayBoot` — saving the overlay rectangle: the "unchanged since last save" memo
  with its 0.5 tolerance, bypassed by `force`, and the 300-tick autosave gate.
- `CaseFold` and `Common` — `OrdinalIgnoreCase` comparison as a normalisation `Fold`,
  the case-insensitive string set `CiSet`, and nullable values as `Option`.
- `PlayLog` — the entry, interaction, def and participant values the engine supplies.

Engine state becomes explicit: the game tick is a `now` parameter, the running-mod list
is a `seq<ModInfo>` parameter, `ToGameStringFromPOV` is a `render` function parameter,
and the static singletons (`ChatState`, `ModAssemblyIndex`, the settings,
`ChatOverlay_Boot`) are objects passed to the operations.

Behaviour of the code that is easy to misread:

- The buffer keeps up to 201 lines, not 200: eviction tests `Count > 200` before the new
  line is enqueued (Patch_PlayLog_Add.cs:348-349).
- The whitelist shows an entry when its package OR its def is listed; there is no AND
  when both sets are configured, and with both sets empty it shows nothing
  (Patch_PlayLog_Add.cs:292-299).
- There is no speaker-name gate: `SpeakerNameSet` and `EnableSpeakerFilter` are only
  stored (ChatOverlay_Settings.cs:39,49).
- The line is always `【name】body`; `ShowSpeakerName` and `NameFormat` are not consulted
  (Patch_PlayLog_Add.cs:186-187).
- `Lines` copies the buffer on every call; there is no cached snapshot.
- The constants `MaxChatLines` and `DuplicateToleranceTicks` of ChatOverlay_Boot.cs:89-90
  are not used by `ChatState`, which has its own literal 200 and constant 60.

## Model

| member | source | states |
|---|---|---|
| `CaseFold.Fold` | Source/ChatLogOverlay/ChatOverlay_Settings.cs:37-39 | case folding keeps the length, so a string folds to empty exactly when it is empty |
| `CaseFold.FoldIdempotent` | Source/ChatLogOverlay/Patch_PlayLog_Add.cs:202 | folding a folded key changes nothing |
| `CaseFold.CiSet.Contains` | Source/ChatLogOverlay/Patch_PlayLog_Add.cs:294-296 | a set contains a string iff some member equals it ignoring case; every member, as spelled, is contained |
| `CaseFold.ContainsFolded` | Source/ChatLogOverlay/ChatOverlay_Settings.cs:37-39 | asking a case-insensitive set for the folded form of a string gives the same answer as asking for the string |
| `CaseFold.CiSet.Add` | Source/ChatLogOverlay/ChatOverlay_Settings.cs:160 | adding to a case-insensitive set adds exactly the folded key, makes the string a member, keeps no two members equal ignoring case |
| `OverlaySettings.SaveList` | Source/ChatLogOverlay/ChatOverlay_Settings.cs:133-138 | the saved list holds exactly the set's members, one entry per member |
| `OverlaySettings.FromEntriesContains` | Source/ChatLogOverlay/ChatOverlay_Settings.cs:156-175 | a restored set contains a string iff the list has a non-null, non-empty entry equal to it ignoring case |
| `OverlaySettings.FromEntriesNoCaseDuplicates` | Source/ChatLogOverlay/ChatOverlay_Settings.cs:156-175 | a restored set never holds two members equal ignoring case |
| `OverlaySettings.SaveThenRestoreMembers` | Source/ChatLogOverlay/ChatOverlay_Settings.cs:131-180 | save followed by restore gives the original set, compared ignoring case, minus the empty string |
| `OverlaySettings.SaveThenRestoreExact` | Source/ChatLogOverlay/ChatOverlay_Settings.cs:131-180 | for a set without case duplicates, save followed by restore gives back the same members with their spelling and order, minus the empty string |
| `OverlaySettings.Refill` | Source/ChatLogOverlay/ChatOverlay_Settings.cs:156-175 | one restore loop: the set built is the restore of the list (empty for a null list) and has no case duplicates |
| `OverlaySettings.ChatOverlaySettings.constructor` | Source/ChatLogOverlay/ChatOverlay_Settings.cs:36-59 | defaults: mode Off, all three sets empty, rect -1, Standard layer, speaker name shown, Japanese format, speaker filter off, font Small, no temp lists |
| `OverlaySettings.ChatOverlaySettings.GetGameFont` | Source/ChatLogOverlay/ChatOverlay_Settings.cs:75-88 | Tiny iff Tiny, Medium iff Medium, Small iff Small or a value outside the enum |
| `OverlaySettings.ChatOverlaySettings.ExposeHashSets` | Source/ChatLogOverlay/ChatOverlay_Settings.cs:131-148 | on saving each temp list becomes its set's member list; after loading the sets are restored from the lists; other phases and all other fields are left alone |
| `OverlaySettings.ChatOverlaySettings.RestoreHashSets` | Source/ChatLogOverlay/ChatOverlay_Settings.cs:150-180 | each set is replaced (not merged) by the restore of its temp list, and the three temp lists become null |
| `OverlaySettings.ChatOverlaySettings.SaveThenLoadKeepsSets` | Source/ChatLogOverlay/ChatOverlay_Settings.cs:131-180 | for settings whose sets have no case duplicates, each set saved to its temp list and restored comes back with the same members, spelling and order, less the empty string |
| `ChatLog.DuplicatePushIsNoOp` | Source/ChatLogOverlay/Patch_PlayLog_Add.cs:345-346 | a push of the last text within 60 ticks leaves lines, last text, last tick and revision unchanged |
| `ChatLog.FreshPushAppends` | Source/ChatLogOverlay/Patch_PlayLog_Add.cs:348-353 | any other push appends the text last, after the old lines less the oldest when over 200, records text and tick, and moves the revision on by one (wrapping at the int maximum) |
| `ChatLog.PushKeepsNewest` | Source/ChatLogOverlay/Patch_PlayLog_Add.cs:348-349 | the buffer never exceeds 201 lines, and after a push it holds the newest 201 of the old lines followed by the new one, in order |
| `ChatLog.ClearThenPush` | Source/ChatLogOverlay/Patch_PlayLog_Add.cs:357-366 | clear empties the buffer, nulls the last text, zeroes the last tick; the next push is never suppressed and leaves exactly that line |
| `ChatLog.RevisionNeverDecreases` | Source/ChatLogOverlay/Patch_PlayLog_Add.cs:339-366 | below the int maximum a push never lowers the revision and a clear always raises it |
| `ChatLog.RevisionTracksChange` | Source/ChatLogOverlay/Patch_PlayLog_Add.cs:339-355 | a push leaves the revision unchanged exactly when it leaves the whole state unchanged |
| `ChatLog.PushAllKeepsNewest` | Source/ChatLogOverlay/Patch_PlayLog_Add.cs:339-355 | after a run of pushes none repeating its predecessor, the buffer is the newest 201 of old lines plus the pushed texts, oldest first, and the revision has advanced by the run's length |
| `ChatLog.ChatState.constructor` | Source/ChatLogOverlay/Patch_PlayLog_Add.cs:330-335 | the buffer starts empty with no last text, tick 0 and revision 0 |
| `ChatLog.ChatState.Push` | Source/ChatLogOverlay/Patch_PlayLog_Add.cs:339-355 | the new state is the push of the text at the tick, and the buffer stays within 201 lines |
| `ChatLog.ChatState.Clear` | Source/ChatLogOverlay/Patch_PlayLog_Add.cs:357-366 | the new state is the cleared state with the revision moved on |
| `ChatLog.ChatState.Lines` | Source/ChatLogOverlay/Patch_PlayLog_Add.cs:368-377 | returns the lines oldest first and changes nothing |
| `ChatLog.ChatState.Revision` | Source/ChatLogOverlay/Patch_PlayLog_Add.cs:379-386 | returns the revision and changes nothing |
| `AssemblyIndex.AddAssembliesGet` | Source/ChatLogOverlay/Patch_PlayLog_Add.cs:229-237 | the inner build loop keeps every existing entry and maps a new name only to the current mod's packageId |
| `AssemblyIndex.AddModsGet` | Source/ChatLogOverlay/Patch_PlayLog_Add.cs:217-238 | a build keeps existing entries and maps a missing name to the first mod in load order that ships it |
| `AssemblyIndex.NeverOverwrites` | Source/ChatLogOverlay/Patch_PlayLog_Add.cs:234-235 | first writer wins: an existing mapping is never overwritten |
| `AssemblyIndex.Lookup` | Source/ChatLogOverlay/Patch_PlayLog_Add.cs:208-209 | a name gives a packageId iff it is not null or empty and its folded form is in the table, and that packageId is one the table holds |
| `AssemblyIndex.LookupFolded` | Source/ChatLogOverlay/Patch_PlayLog_Add.cs:202-209 | the table, keyed under the comparer, answers a name and its folded form alike |
| `AssemblyIndex.LookupIsFirstOwner` | Source/ChatLogOverlay/Patch_PlayLog_Add.cs:205-241 | the built table gives nothing for a null, empty or unknown name, and otherwise the first owner's packageId, ignoring case |
| `AssemblyIndex.ModAssemblyIndex.constructor` | Source/ChatLogOverlay/Patch_PlayLog_Add.cs:202-203 | the table starts empty and not built |
| `AssemblyIndex.ModAssemblyIndex.ResolvePackageIdFromAssembly` | Source/ChatLogOverlay/Patch_PlayLog_Add.cs:205-210 | the first call builds the table whatever the name, later calls never rebuild; the answer is the case-insensitive lookup, nothing for a null or empty name |
| `AssemblyIndex.ModAssemblyIndex.Build` | Source/ChatLogOverlay/Patch_PlayLog_Add.cs:212-241 | sets the built flag and adds every mod's assemblies in load order, first writer wins |
| `ChatFilter.ShouldInclude` | Source/ChatLogOverlay/Patch_PlayLog_Add.cs:249-311 | the answer is the filter decision for the settings (defaults when null); the table is consulted, and built if new, only when the mode is not Off and the def has no packageId |
| `ChatFilter.Hit` | Source/ChatLogOverlay/Patch_PlayLog_Add.cs:294-296 | a null or empty package and def never hit; with both sets empty nothing hits; with one set empty the hit is decided by the other criterion alone |
| `ChatFilter.Decide` | Source/ChatLogOverlay/Patch_PlayLog_Add.cs:292-310 | only the whitelist and blacklist modes ever hide an entry; an entry with neither package nor def name is hidden exactly by the whitelist |
| `ChatFilter.OffIncludesEverything` | Source/ChatLogOverlay/Patch_PlayLog_Add.cs:251-254 | mode Off, and null settings, show every entry |
| `ChatFilter.WhitelistIsDisjunction` | Source/ChatLogOverlay/Patch_PlayLog_Add.cs:292-299 | whitelist shows an entry iff its effective package is non-empty and listed or its def name is non-empty and listed |
| `ChatFilter.EmptyWhitelistShowsNothing` | Source/ChatLogOverlay/Patch_PlayLog_Add.cs:292-299 | a whitelist with both sets empty shows nothing |
| `ChatFilter.BlacklistNegatesWhitelist` | Source/ChatLogOverlay/Patch_PlayLog_Add.cs:292-308 | for the same sets and entry, blacklist decides exactly the negation of whitelist |
| `ChatFilter.EffectivePackageResolution` | Source/ChatLogOverlay/Patch_PlayLog_Add.cs:287-290 | the effective package is the def's packageId when non-empty, else the first running mod shipping the entry's assembly, else nothing |
| `PlayLogPatch.GetSubjectName` | Source/ChatLogOverlay/Patch_PlayLog_Add.cs:190-196 | the subject pawn's short label when there is a subject; otherwise always one of the participants' labels or "???", and "???" when there are no participants |
| `PlayLogPatch.SubjectNameFollowsChain` | Source/ChatLogOverlay/Patch_PlayLog_Add.cs:190-196 | the name is the initiator pawn's short label, else the recipient pawn's, else the initiator's label, else the recipient's, else "???" |
| `PlayLogPatch.FormatInteraction` | Source/ChatLogOverlay/Patch_PlayLog_Add.cs:172-188 | no line iff both the point-of-view and the null point-of-view renders are empty; otherwise "【" + name + "】" + the first non-empty render, never empty |
| `PlayLogPatch.Postfix` | Source/ChatLogOverlay/Patch_PlayLog_Add.cs:154-170 | only interaction entries that pass the filter and format to a line are pushed; anything else leaves the buffer unchanged; the table is left alone unless the filter needs it, and is then built, once |
| `OverlayBoot.ApproximatelyEqualSymmetric` | Source/ChatLogOverlay/ChatOverlay_Boot.cs:57-64 | approximate equality is symmetric and reflexive |
| `OverlayBoot.ToleranceIsStrict` | Source/ChatLogOverlay/ChatOverlay_Boot.cs:57-64 | a difference of exactly 0.5 in any one of the four components is not approximately equal |
| `OverlayBoot.ApproximatelyEqualNotTransitive` | Source/ChatLogOverlay/ChatOverlay_Boot.cs:42-46 | approximate equality is not transitive, so drift in small steps is saved once it reaches the tolerance from the last saved rect |
| `OverlayBoot.ApproximatelyEqual` | Source/ChatLogOverlay/ChatOverlay_Boot.cs:57-64 | two rects are approximately equal iff each component difference lies strictly between -0.5 and 0.5 |
| `OverlayBoot.ShouldSkipSave` | Source/ChatLogOverlay/ChatOverlay_Boot.cs:42-46 | never skips when nothing has been saved, always skips the rect last saved, and a skip means a rect has been saved and the new rect is approximately equal to it in all four components |
| `OverlayBoot.SaveRect` | Source/ChatLogOverlay/ChatOverlay_Boot.cs:48-55 | the four rect fields take the rect's values and the settings are written once |
| `OverlayBoot.ChatOverlayBoot.constructor` | Source/ChatLogOverlay/ChatOverlay_Boot.cs:11 | no rect has been saved yet |
| `OverlayBoot.ChatOverlayBoot.TrySaveOverlayRect` | Source/ChatLogOverlay/ChatOverlay_Boot.cs:31-40 | null settings: nothing changes; forced or not approximately the last saved rect: written and recorded; otherwise nothing written and the memo kept |
| `OverlayBoot.AutoSaveComponent.constructor` | Source/ChatLogOverlay/ChatOverlay_Boot.cs:68-72 | the last save tick starts at 0 |
| `OverlayBoot.AutoSaveComponent.GameComponentTick` | Source/ChatLogOverlay/ChatOverlay_Boot.cs:74-82 | before 300 ticks have passed nothing changes; otherwise the tick is recorded and one unforced save is tried; only the rect fields and the write count of the settings can change, by at most one write |
| `OverlayBoot.AutoSaveComponent.RunTicks` | Source/ChatLogOverlay/ChatOverlay_Boot.cs:74-82 | over a run of ticks the recorded tick ends as the last of the save attempts `AttemptTicks` names, and the settings are written at most once per attempt |
| `OverlayBoot.AttemptsAreSpaced` | Source/ChatLogOverlay/ChatOverlay_Boot.cs:74-82 | save attempts are at least 300 ticks after the recorded tick and after each other |
| `OverlayBoot.AttemptsIncrease` | Source/ChatLogOverlay/ChatOverlay_Boot.cs:74-82 | save attempts come at strictly increasing ticks, even if the ticks seen do not increase |

## Left out

- `ChatOverlayWindow` (Patch_PlayLog_Add.cs:9-144): immediate-mode rendering, scrolling, line-height layout and screen clamping are GUI work.
- The `lock` in `ChatState`: the buffer is modelled as a sequential object, so concurrent callers are not modelled.
- Reflection and Harmony: the `AccessTools.Field` lookups, the fallback scan of the interaction's fields, the `loadedAssemblies` field read and the patch attribute. The def found (defName and packageId, either possibly null), the participants, the entry's assembly name and each mod's assembly names are plain inputs; a mod whose assembly list cannot be read has `assemblies == None`.
- `AssemblyIndex.ModAssemblyIndex.Build`: the `try`/`catch` is left out; an exception thrown half-way through a build (which would leave a partial table) is not modelled.
- `EnsureOverlayExists` in `Postfix`: opening the overlay window is window-stack management.
- `Find.TickManager`, `ToGameStringFromPOV`, `LabelShortCap`, `LabelCap`, `LoadedModManager` and `ChatOverlayRenderer.GetCurrentRect` are engine calls; they are parameters or fields of the input values.
- `PlayLogPatch.GetSubjectName`: a pawn's `LabelShortCap` is taken to be non-null.
- `CaseFold.Fold`: folds only the ASCII letters; `OrdinalIgnoreCase` also folds the other Unicode letters.
- `CaseFold.CiSet`: a `HashSet` has no specified enumeration order; the model enumerates in insertion order, and no property proved depends on that order except the exact spelling-and-order round trip.
- Scribe persistence in `ExposeData` (ChatOverlay_Settings.cs:110-129) and the reading and writing of the temp lists: file I/O. `Settings.Write()` is modelled only as a count of writes.
- Float settings: `TextColor`, `BackgroundOpacity`, `HasValidOverlayRect` and `GetHashCode`.
- `OverlayBoot.Rect`: rect components are reals; float rounding is not modelled.
- `ChatLog.RevisionNeverDecreases`: holds only below the int maximum, because `revision++` wraps from 2147483647 to -2147483648; the wrap itself is modelled.
- `ChatLog.PushAllKeepsNewest`: requires that the revision does not reach the int maximum during the run.
- Tick arithmetic is on unbounded integers; with the non-negative 32-bit tick counts the engine supplies, the source's subtractions cannot overflow.
- ChatOverlay_Mod.cs: settings-screen UI, Harmony bootstrap and window management.
- The `Initialize` logging in ChatOverlay_Boot.cs.

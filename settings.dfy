/**
 * The mod's settings object: filter mode and the three case-insensitive filter sets,
 * display choices, the saved overlay rectangle, and the conversion of the sets to and
 * from the plain string lists the save file holds.
 */
module OverlaySettings {
  import opened Common
  import opened CaseFold

  /**
   * `ChatOverlayFilterMode`. UndeclaredMode stands for a value of the enum's
   * underlying int outside its three declared members.
   */
  datatype FilterMode = Off | Whitelist | Blacklist | UndeclaredMode

  /** `ChatOverlayDisplayLayer`. */
  datatype DisplayLayer = Standard | Background

  /** `SpeakerNameFormat`: the five decorations of a speaker name. */
  datatype SpeakerNameFormat = Japanese | Square | Parentheses | Angle | Colon

  /**
   * `ChatFontSize`. UndeclaredSize stands for a value of the enum's underlying
   * int outside its three declared members.
   */
  datatype ChatFontSize = Tiny | Small | Medium | UndeclaredSize

  /** The engine's `GameFont` sizes. */
  datatype GameFont = Tiny | Small | Medium

  /** The engine's save/load phases (`LoadSaveMode`). */
  datatype LoadSaveMode = Inactive | Saving | LoadingVars | ResolvingCrossRefs | PostLoadInit

  /** A `List<string>` field that may be null and whose entries may be null. */
  type NullableList = Option<seq<Option<string>>>

  /** One step of the restore loop: a null or empty entry is skipped. */
  function AddEntry(s: CiSet, e: Option<string>): CiSet
  {
    if IsNullOrEmpty(e) then s else s.Add(e.value)
  }

  /** The set obtained by adding the entries of a list, in order, to an empty set. */
  function FromEntries(xs: seq<Option<string>>): CiSet
  {
    if xs == [] then Empty else AddEntry(FromEntries(xs[..|xs| - 1]), xs[|xs| - 1])
  }

  /** The set a temp list is restored to: a null list gives the empty set. */
  function Restored(list: NullableList): CiSet
  {
    match list
    case None => Empty
    case Some(xs) => FromEntries(xs)
  }

  /** `new List<string>(set)`: the members in the set's enumeration order. */
  function SaveList(s: CiSet): (xs: seq<Option<string>>)
    ensures |xs| == |s.items|
    ensures forall i :: 0 <= i < |xs| ==> xs[i] == Some(s.items[i])
  {
    seq(|s.items|, i requires 0 <= i < |s.items| => Some(s.items[i]))
  }

  /** The list holds, at some position, a non-null, non-empty entry equal to k ignoring case. */
  ghost predicate Listed(xs: seq<Option<string>>, k: string)
  {
    exists i :: 0 <= i < |xs| && !IsNullOrEmpty(xs[i]) && Fold(xs[i].value) == Fold(k)
  }

  /** The members of a set that are not the empty string, in order. */
  function NonEmptyItems(items: seq<string>): (r: seq<string>)
    ensures forall x :: x in r ==> x in items && x != ""
  {
    if items == [] then []
    else
      var p := NonEmptyItems(items[..|items| - 1]);
      var last := items[|items| - 1];
      if last == "" then p else p + [last]
  }

  /**
   * A restored set contains exactly the non-null, non-empty entries of its list,
   * compared ignoring case.
   */
  lemma {:induction false} FromEntriesContains(xs: seq<Option<string>>, k: string)
    ensures FromEntries(xs).Contains(k) <==> Listed(xs, k)
  {
    if xs != [] {
      var p := xs[..|xs| - 1];
      FromEntriesContains(p, k);
      ListedSnoc(p, xs[|xs| - 1], k);
      assert p + [xs[|xs| - 1]] == xs;
    }
  }

  /** A key is listed by a list with one more entry when the shorter list lists it or the new entry matches it. */
  lemma ListedSnoc(p: seq<Option<string>>, e: Option<string>, k: string)
    ensures Listed(p + [e], k) <==> Listed(p, k) || (!IsNullOrEmpty(e) && Fold(e.value) == Fold(k))
  {
    var xs := p + [e];
    if Listed(xs, k) {
      var i :| 0 <= i < |xs| && !IsNullOrEmpty(xs[i]) && Fold(xs[i].value) == Fold(k);
      if i < |p| {
        assert p[i] == xs[i];
      }
    }
    if Listed(p, k) {
      var i :| 0 <= i < |p| && !IsNullOrEmpty(p[i]) && Fold(p[i].value) == Fold(k);
      assert xs[i] == p[i];
    }
    if !IsNullOrEmpty(e) && Fold(e.value) == Fold(k) {
      assert xs[|p|] == e;
    }
  }

  /** A restored set never holds two members that are equal ignoring case. */
  lemma {:induction false} FromEntriesNoCaseDuplicates(xs: seq<Option<string>>)
    ensures FromEntries(xs).NoCaseDuplicates()
  {
    if xs != [] {
      FromEntriesNoCaseDuplicates(xs[..|xs| - 1]);
    }
  }

  /** A member of a set that is not empty is listed by the set's saved list. */
  lemma SavedMemberListed(s: CiSet, k: string)
    requires k != "" && s.Contains(k)
    ensures Listed(SaveList(s), k)
  {
    var x :| x in s.items && Fold(x) == Fold(k);
    var i :| 0 <= i < |s.items| && s.items[i] == x;
    assert |x| == |Fold(x)| == |Fold(k)| == |k|;
    assert SaveList(s)[i] == Some(x);
  }

  /** What a set's saved list lists is a non-empty member of the set. */
  lemma ListedIsSavedMember(s: CiSet, k: string)
    requires Listed(SaveList(s), k)
    ensures k != "" && s.Contains(k)
  {
    var xs := SaveList(s);
    var i :| 0 <= i < |xs| && !IsNullOrEmpty(xs[i]) && Fold(xs[i].value) == Fold(k);
    var x := s.items[i];
    assert xs[i].value == x;
    assert x in s.items;
    assert Fold(x) in s.Keys();
    assert |x| == |Fold(x)| == |Fold(k)| == |k|;
  }

  /**
   * Saving a set and restoring it gives back its members, compared ignoring case,
   * except the empty string.
   */
  lemma SaveThenRestoreMembers(s: CiSet, k: string)
    ensures Restored(Some(SaveList(s))).Contains(k) <==> k != "" && s.Contains(k)
  {
    FromEntriesContains(SaveList(s), k);
    if k != "" && s.Contains(k) {
      SavedMemberListed(s, k);
    }
    if Listed(SaveList(s), k) {
      ListedIsSavedMember(s, k);
    }
  }

  /**
   * For a set without case duplicates, save followed by restore gives back the very same
   * members, with their spelling and order, minus the empty string.
   */
  lemma {:induction false} SaveThenRestoreExact(s: CiSet)
    requires s.NoCaseDuplicates()
    ensures Restored(Some(SaveList(s))) == CiSet(NonEmptyItems(s.items))
    decreases |s.items|
  {
    var items := s.items;
    if items != [] {
      var n := |items|;
      var p := CiSet(items[..n - 1]);
      var last := items[n - 1];
      assert SaveList(s)[..n - 1] == SaveList(p);
      SaveThenRestoreExact(p);
      assert FromEntries(SaveList(s)) == AddEntry(CiSet(NonEmptyItems(p.items)), Some(last));
    }
  }

  /** The settings object (`ChatOverlaySettings`), minus its colour and opacity fields. */
  class ChatOverlaySettings {
    var mode: FilterMode
    var packageIdSet: CiSet
    var defNameSet: CiSet
    /** Only stored: no filter consults it. */
    var speakerNameSet: CiSet

    var overlayX: real
    var overlayY: real
    var overlayW: real
    var overlayH: real
    var displayLayer: DisplayLayer
    var showSpeakerName: bool
    var nameFormat: SpeakerNameFormat
    /** Only stored: no filter consults it. */
    var enableSpeakerFilter: bool
    var fontSize: ChatFontSize

    /** The lists the save file reads and writes (`_pkgTmp`, `_defTmp`, `_speakerTmp`). */
    var pkgTmp: NullableList
    var defTmp: NullableList
    var speakerTmp: NullableList

    /** How many times the settings were written to disk (`Write()`). */
    var writes: nat

    /** The three sets have no case duplicates. */
    ghost predicate Valid()
      reads this
    {
      packageIdSet.NoCaseDuplicates() && defNameSet.NoCaseDuplicates() && speakerNameSet.NoCaseDuplicates()
    }

    /**
     * For valid settings, saving the sets to the temp lists and loading them back gives
     * each set again with its members' spelling and order, less the empty string.
     */
    lemma SaveThenLoadKeepsSets()
      requires Valid()
      ensures Restored(Some(SaveList(packageIdSet))) == CiSet(NonEmptyItems(packageIdSet.items))
      ensures Restored(Some(SaveList(defNameSet))) == CiSet(NonEmptyItems(defNameSet.items))
      ensures Restored(Some(SaveList(speakerNameSet))) == CiSet(NonEmptyItems(speakerNameSet.items))
    {
      SaveThenRestoreExact(packageIdSet);
      SaveThenRestoreExact(defNameSet);
      SaveThenRestoreExact(speakerNameSet);
    }

    /** The field initialisers. */
    constructor ()
      ensures Valid()
      ensures mode == Off && packageIdSet == Empty && defNameSet == Empty && speakerNameSet == Empty
      ensures overlayX == -1.0 && overlayY == -1.0 && overlayW == -1.0 && overlayH == -1.0
      ensures displayLayer == Standard && showSpeakerName && nameFormat == Japanese
      ensures !enableSpeakerFilter && fontSize == ChatFontSize.Small
      ensures pkgTmp == None && defTmp == None && speakerTmp == None
      ensures writes == 0
    {
      mode := Off;
      packageIdSet, defNameSet, speakerNameSet := Empty, Empty, Empty;
      overlayX, overlayY, overlayW, overlayH := -1.0, -1.0, -1.0, -1.0;
      displayLayer := Standard;
      showSpeakerName := true;
      nameFormat := Japanese;
      enableSpeakerFilter := false;
      fontSize := ChatFontSize.Small;
      pkgTmp, defTmp, speakerTmp := None, None, None;
      writes := 0;
    }

    /** The engine font for the chosen size; a size outside the enum falls back to Small. */
    function GetGameFont(): (f: GameFont)
      reads this
      ensures f == GameFont.Tiny <==> fontSize == ChatFontSize.Tiny
      ensures f == GameFont.Medium <==> fontSize == ChatFontSize.Medium
      ensures f == GameFont.Small <==> fontSize == ChatFontSize.Small || fontSize == UndeclaredSize
    {
      match fontSize
      case Tiny => GameFont.Tiny
      case Small => GameFont.Small
      case Medium => GameFont.Medium
      case UndeclaredSize => GameFont.Small
    }

    /**
     * The set part of `ExposeData`: on saving the sets are copied to the temp lists, after
     * loading they are rebuilt from them; the reading and writing of the lists themselves
     * is file I/O.
     */
    method ExposeHashSets(scribeMode: LoadSaveMode)
      modifies this
      ensures scribeMode == Saving ==>
        pkgTmp == Some(SaveList(packageIdSet)) && defTmp == Some(SaveList(defNameSet))
        && speakerTmp == Some(SaveList(speakerNameSet))
      ensures scribeMode == PostLoadInit ==>
        packageIdSet == Restored(old(pkgTmp)) && defNameSet == Restored(old(defTmp))
        && speakerNameSet == Restored(old(speakerTmp))
        && pkgTmp == None && defTmp == None && speakerTmp == None && Valid()
      ensures scribeMode != PostLoadInit ==>
        packageIdSet == old(packageIdSet) && defNameSet == old(defNameSet) && speakerNameSet == old(speakerNameSet)
      ensures scribeMode != Saving && scribeMode != PostLoadInit ==>
        pkgTmp == old(pkgTmp) && defTmp == old(defTmp) && speakerTmp == old(speakerTmp)
      ensures mode == old(mode) && fontSize == old(fontSize) && showSpeakerName == old(showSpeakerName)
      ensures enableSpeakerFilter == old(enableSpeakerFilter) && nameFormat == old(nameFormat)
      ensures displayLayer == old(displayLayer) && writes == old(writes)
      ensures overlayX == old(overlayX) && overlayY == old(overlayY)
      ensures overlayW == old(overlayW) && overlayH == old(overlayH)
    {
      if scribeMode == Saving {
        pkgTmp := Some(SaveList(packageIdSet));
        defTmp := Some(SaveList(defNameSet));
        speakerTmp := Some(SaveList(speakerNameSet));
      }
      if scribeMode == PostLoadInit {
        RestoreHashSets();
      }
    }

    /** Replaces the three sets by the contents of the temp lists, then drops the lists. */
    method RestoreHashSets()
      modifies this`packageIdSet, this`defNameSet, this`speakerNameSet
      modifies this`pkgTmp, this`defTmp, this`speakerTmp
      ensures Valid()
      ensures packageIdSet == Restored(old(pkgTmp))
      ensures defNameSet == Restored(old(defTmp))
      ensures speakerNameSet == Restored(old(speakerTmp))
      ensures pkgTmp == None && defTmp == None && speakerTmp == None
    {
      packageIdSet := Refill(pkgTmp);
      defNameSet := Refill(defTmp);
      speakerNameSet := Refill(speakerTmp);
      pkgTmp, defTmp, speakerTmp := None, None, None;
    }
  }

  /**
   * One of the three restore loops: clear the set, then add every non-null, non-empty
   * entry of the list, if there is a list.
   */
  method Refill(list: NullableList) returns (s: CiSet)
    ensures s == Restored(list)
    ensures s.NoCaseDuplicates()
  {
    s := Empty;
    if list.Some? {
      var xs := list.value;
      for i := 0 to |xs|
        invariant s == FromEntries(xs[..i])
      {
        assert xs[..i + 1][..i] == xs[..i];
        if !IsNullOrEmpty(xs[i]) {
          s := s.Add(xs[i].value);
        }
      }
      assert xs[..|xs|] == xs;
      FromEntriesNoCaseDuplicates(xs);
    }
  }
}

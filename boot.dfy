/**
 * Saving the overlay rectangle into the settings (`ChatOverlay_Boot`): a write is skipped
 * when the rectangle is within tolerance of the one last saved, unless forced; and the
 * autosave game component tries a save at most once per interval of ticks.
 */
module OverlayBoot {
  import opened Common
  import opened OverlaySettings

  /** Rectangles closer than this in every component count as unchanged. */
  const RectComparisonTolerance: real := 0.5
  /** The autosave component tries a save once this many ticks have passed since the last try. */
  const AutoSaveTickInterval: int := 300

  /** A window rectangle; float rounding is not modelled. */
  datatype Rect = Rect(x: real, y: real, width: real, height: real)

  function Abs(v: real): real
  {
    if v < 0.0 then -v else v
  }

  /** Every component differs by strictly less than the tolerance. */
  predicate ApproximatelyEqual(a: Rect, b: Rect): (close: bool)
    ensures close <==>
      && -RectComparisonTolerance < a.x - b.x < RectComparisonTolerance
      && -RectComparisonTolerance < a.y - b.y < RectComparisonTolerance
      && -RectComparisonTolerance < a.width - b.width < RectComparisonTolerance
      && -RectComparisonTolerance < a.height - b.height < RectComparisonTolerance
  {
    && Abs(a.x - b.x) < RectComparisonTolerance
    && Abs(a.y - b.y) < RectComparisonTolerance
    && Abs(a.width - b.width) < RectComparisonTolerance
    && Abs(a.height - b.height) < RectComparisonTolerance
  }

  /** A rectangle has been saved and the new one is approximately equal to it. */
  predicate ShouldSkipSave(lastSaved: Option<Rect>, rect: Rect): (skip: bool)
    ensures lastSaved.None? ==> !skip
    ensures lastSaved == Some(rect) ==> skip
    ensures skip ==> lastSaved.Some? && ApproximatelyEqual(rect, lastSaved.value)
  {
    lastSaved.Some? && ApproximatelyEqual(lastSaved.value, rect)
  }

  /** Approximate equality does not depend on the order of its arguments, and every rectangle is approximately itself. */
  lemma ApproximatelyEqualSymmetric(a: Rect, b: Rect)
    ensures ApproximatelyEqual(a, b) == ApproximatelyEqual(b, a)
    ensures ApproximatelyEqual(a, a)
  {
  }

  /** A difference of exactly the tolerance in any single component already counts as a change. */
  lemma ToleranceIsStrict(a: Rect)
    ensures !ApproximatelyEqual(a, a.(x := a.x + RectComparisonTolerance))
    ensures !ApproximatelyEqual(a, a.(y := a.y - RectComparisonTolerance))
    ensures !ApproximatelyEqual(a, a.(width := a.width + RectComparisonTolerance))
    ensures !ApproximatelyEqual(a, a.(height := a.height - RectComparisonTolerance))
  {
  }

  /**
   * Approximate equality is not transitive: a rectangle that drifts in steps smaller than
   * the tolerance ends up far enough from the last saved one to be saved again.
   */
  lemma ApproximatelyEqualNotTransitive()
    ensures var a, b, c := Rect(0.0, 0.0, 10.0, 10.0), Rect(0.3, 0.0, 10.0, 10.0), Rect(0.6, 0.0, 10.0, 10.0);
      ApproximatelyEqual(a, b) && ApproximatelyEqual(b, c) && !ApproximatelyEqual(a, c)
  {
  }

  /** Copies the rectangle into the settings and writes them (`SaveRect`). */
  method SaveRect(settings: ChatOverlaySettings, rect: Rect)
    modifies settings`overlayX, settings`overlayY, settings`overlayW, settings`overlayH, settings`writes
    ensures settings.overlayX == rect.x && settings.overlayY == rect.y
    ensures settings.overlayW == rect.width && settings.overlayH == rect.height
    ensures settings.writes == old(settings.writes) + 1
  {
    settings.overlayX := rect.x;
    settings.overlayY := rect.y;
    settings.overlayW := rect.width;
    settings.overlayH := rect.height;
    settings.writes := settings.writes + 1;
  }

  /** The static part of `ChatOverlay_Boot`: the rectangle last saved. */
  class ChatOverlayBoot {
    var lastSavedRect: Option<Rect>

    constructor ()
      ensures lastSavedRect == None
    {
      lastSavedRect := None;
    }

    /**
     * Saves the rectangle unless there are no settings, or the call is not forced and the
     * rectangle is approximately the one last saved.
     */
    method TrySaveOverlayRect(settings: ChatOverlaySettings?, rect: Rect, force: bool)
      modifies this, settings
      ensures settings == null ==> unchanged(this)
      ensures settings != null && (force || !ShouldSkipSave(old(lastSavedRect), rect)) ==>
        && lastSavedRect == Some(rect)
        && settings.overlayX == rect.x && settings.overlayY == rect.y
        && settings.overlayW == rect.width && settings.overlayH == rect.height
        && settings.writes == old(settings.writes) + 1
      ensures settings != null && !force && ShouldSkipSave(old(lastSavedRect), rect) ==>
        unchanged(this) && unchanged(settings)
      ensures settings != null ==>
        && settings.mode == old(settings.mode) && settings.packageIdSet == old(settings.packageIdSet)
        && settings.defNameSet == old(settings.defNameSet) && settings.speakerNameSet == old(settings.speakerNameSet)
        && settings.fontSize == old(settings.fontSize) && settings.showSpeakerName == old(settings.showSpeakerName)
        && settings.nameFormat == old(settings.nameFormat) && settings.displayLayer == old(settings.displayLayer)
        && settings.enableSpeakerFilter == old(settings.enableSpeakerFilter)
        && settings.pkgTmp == old(settings.pkgTmp) && settings.defTmp == old(settings.defTmp)
        && settings.speakerTmp == old(settings.speakerTmp)
      ensures settings != null ==> lastSavedRect.Some? && ApproximatelyEqual(lastSavedRect.value, rect)
    {
      if settings == null {
        return;
      }
      if !force && ShouldSkipSave(lastSavedRect, rect) {
        return;
      }
      SaveRect(settings, rect);
      lastSavedRect := Some(rect);
    }
  }

  /** The autosave game component (`ChatOverlay_AutoSaveComponent`). */
  class AutoSaveComponent {
    var lastSaveTick: int

    constructor ()
      ensures lastSaveTick == 0
    {
      lastSaveTick := 0;
    }

    /**
     * One game tick: before the interval has passed nothing happens; then the tick is
     * recorded and one unforced save of the overlay's current rectangle is tried.
     */
    method GameComponentTick(now: int, boot: ChatOverlayBoot, settings: ChatOverlaySettings?, currentRect: Rect)
      modifies this, boot, settings
      ensures now - old(lastSaveTick) < AutoSaveTickInterval ==>
        unchanged(this) && unchanged(boot) && (settings != null ==> unchanged(settings))
      ensures now - old(lastSaveTick) >= AutoSaveTickInterval ==> lastSaveTick == now
      ensures now - old(lastSaveTick) >= AutoSaveTickInterval && settings == null ==> unchanged(boot)
      ensures (now - old(lastSaveTick) >= AutoSaveTickInterval && settings != null
               && ShouldSkipSave(old(boot.lastSavedRect), currentRect)) ==> unchanged(boot) && unchanged(settings)
      ensures (now - old(lastSaveTick) >= AutoSaveTickInterval && settings != null
               && !ShouldSkipSave(old(boot.lastSavedRect), currentRect)) ==>
        && boot.lastSavedRect == Some(currentRect) && settings.writes == old(settings.writes) + 1
        && settings.overlayX == currentRect.x && settings.overlayY == currentRect.y
        && settings.overlayW == currentRect.width && settings.overlayH == currentRect.height
      ensures settings != null ==>
        && settings.mode == old(settings.mode) && settings.packageIdSet == old(settings.packageIdSet)
        && settings.defNameSet == old(settings.defNameSet) && settings.speakerNameSet == old(settings.speakerNameSet)
        && settings.fontSize == old(settings.fontSize) && settings.showSpeakerName == old(settings.showSpeakerName)
        && settings.nameFormat == old(settings.nameFormat) && settings.displayLayer == old(settings.displayLayer)
        && settings.enableSpeakerFilter == old(settings.enableSpeakerFilter)
        && settings.pkgTmp == old(settings.pkgTmp) && settings.defTmp == old(settings.defTmp)
        && settings.speakerTmp == old(settings.speakerTmp)
      ensures settings != null ==> old(settings.writes) <= settings.writes <= old(settings.writes) + 1
    {
      if now - lastSaveTick < AutoSaveTickInterval {
        return;
      }
      lastSaveTick := now;
      boot.TrySaveOverlayRect(settings, currentRect, false);
    }

    /**
     * A run of game ticks, the overlay at rects[i] on tick nows[i]: the recorded tick ends
     * as the last save attempt of the run (or stays put when there is none), and the
     * settings are written at most once per attempt.
     */
    method RunTicks(nows: seq<int>, rects: seq<Rect>, boot: ChatOverlayBoot, settings: ChatOverlaySettings?)
      requires |rects| == |nows|
      modifies this, boot, settings
      ensures lastSaveTick == LastAttempt(old(lastSaveTick), AttemptTicks(old(lastSaveTick), nows))
      ensures settings != null ==>
        settings.writes <= old(settings.writes) + |AttemptTicks(old(lastSaveTick), nows)|
    {
      ghost var attempts: seq<int> := [];
      for i := 0 to |nows|
        invariant attempts + AttemptTicks(lastSaveTick, nows[i..]) == AttemptTicks(old(lastSaveTick), nows)
        invariant lastSaveTick == LastAttempt(old(lastSaveTick), attempts)
        invariant settings != null ==> settings.writes <= old(settings.writes) + |attempts|
      {
        assert nows[i..][0] == nows[i] && nows[i..][1..] == nows[i + 1..];
        if nows[i] - lastSaveTick >= AutoSaveTickInterval {
          assert attempts + [nows[i]] + AttemptTicks(nows[i], nows[i + 1..]) == AttemptTicks(old(lastSaveTick), nows);
          attempts := attempts + [nows[i]];
        }
        GameComponentTick(nows[i], boot, settings, rects[i]);
      }
      assert nows[|nows|..] == [];
    }
  }

  /** The tick last recorded: the last attempt, or the starting tick when there was none. */
  function LastAttempt(lastSaveTick: int, attempts: seq<int>): int
  {
    if attempts == [] then lastSaveTick else attempts[|attempts| - 1]
  }

  /** The ticks, among the successive game ticks `nows`, at which the autosave component tries a save. */
  function AttemptTicks(lastSaveTick: int, nows: seq<int>): seq<int>
    decreases |nows|
  {
    if nows == [] then []
    else if nows[0] - lastSaveTick < AutoSaveTickInterval then AttemptTicks(lastSaveTick, nows[1..])
    else [nows[0]] + AttemptTicks(nows[0], nows[1..])
  }

  /**
   * Save attempts are spaced: the first comes at least an interval after the recorded
   * tick, and each later one at least an interval after the one before.
   */
  lemma {:induction false} AttemptsAreSpaced(lastSaveTick: int, nows: seq<int>)
    ensures var t := AttemptTicks(lastSaveTick, nows);
      && (|t| > 0 ==> t[0] - lastSaveTick >= AutoSaveTickInterval)
      && forall i :: 0 < i < |t| ==> t[i] - t[i - 1] >= AutoSaveTickInterval
    decreases |nows|
  {
    if nows != [] {
      if nows[0] - lastSaveTick < AutoSaveTickInterval {
        AttemptsAreSpaced(lastSaveTick, nows[1..]);
      } else {
        AttemptsAreSpaced(nows[0], nows[1..]);
        var rest := AttemptTicks(nows[0], nows[1..]);
        var t := [nows[0]] + rest;
        forall i | 0 < i < |t| ensures t[i] - t[i - 1] >= AutoSaveTickInterval {
          assert t[i] == rest[i - 1];
          if i > 1 { assert t[i - 1] == rest[i - 2]; }
        }
      }
    }
  }

  /**
   * Save attempts come in strictly increasing tick order, whether or not the ticks seen
   * are themselves non-decreasing.
   */
  lemma {:induction false} AttemptsIncrease(lastSaveTick: int, nows: seq<int>)
    ensures var t := AttemptTicks(lastSaveTick, nows);
      forall i, j :: 0 <= i < j < |t| ==> t[i] < t[j]
  {
    var t := AttemptTicks(lastSaveTick, nows);
    AttemptsAreSpaced(lastSaveTick, nows);
    forall i, j | 0 <= i < j < |t| ensures t[i] < t[j] {
      SpacedIncreases(t, i, j);
    }
  }

  /** Ticks spaced by at least an interval increase. */
  lemma {:induction false} SpacedIncreases(t: seq<int>, i: int, j: int)
    requires forall k :: 0 < k < |t| ==> t[k] - t[k - 1] >= AutoSaveTickInterval
    requires 0 <= i < j < |t|
    ensures t[i] < t[j]
    decreases j - i
  {
    if j > i + 1 {
      SpacedIncreases(t, i, j - 1);
    }
  }
}

/**
 * The overlay's line buffer (`ChatState`): a FIFO queue of formatted lines with
 * duplicate suppression keyed on the last pushed text and its tick, eviction of the
 * oldest line, and a revision counter bumped on every change.
 */
module ChatLog {
  import opened Common

  /** Push evicts the oldest line while the buffer holds more than this many lines. */
  const EvictionThreshold := 200
  /** The largest buffer Push can leave: eviction is tested before the new line goes in. */
  const PeakLines := EvictionThreshold + 1
  /** A repeat of the last text within this many ticks is dropped. */
  const DuplicateToleranceTicks := 60

  const Int32Min := -0x8000_0000
  const Int32Max := 0x7fff_ffff

  predicate IsInt32(x: int)
  {
    Int32Min <= x <= Int32Max
  }

  /** `revision++` on a C# int, which wraps around in an unchecked context. */
  function Increment(r: int): int
  {
    if r == Int32Max then Int32Min else r + 1
  }

  /** The state of the buffer: its lines oldest first, the last pushed text and tick, the revision. */
  datatype ChatModel = ChatModel(buf: seq<string>, lastText: Option<string>, lastTick: int, revision: int)
  {
    /** What Push and Clear maintain. */
    predicate Valid()
    {
      |buf| <= PeakLines && IsInt32(revision)
    }
  }

  /** The state of a freshly loaded game. */
  const Initial := ChatModel([], None, 0, 0)

  /** The test that makes Push a no-op: the same text as the last push, within the tolerance. */
  predicate IsDuplicate(m: ChatModel, s: string, now: int)
  {
    m.lastText.Some? && s == m.lastText.value && now - m.lastTick <= DuplicateToleranceTicks
  }

  /** The buffer after the eviction test of Push. */
  function Evicted(buf: seq<string>): seq<string>
  {
    if |buf| > EvictionThreshold then buf[1..] else buf
  }

  /** The state after `Push(s)` at tick `now`. */
  function PushModel(m: ChatModel, s: string, now: int): ChatModel
  {
    if IsDuplicate(m, s, now) then m
    else ChatModel(Evicted(m.buf) + [s], Some(s), now, Increment(m.revision))
  }

  /** The state after `Clear()`. */
  function ClearModel(m: ChatModel): ChatModel
  {
    ChatModel([], None, 0, Increment(m.revision))
  }

  /** The newest PeakLines lines of a history, oldest first. */
  function Newest(lines: seq<string>): (r: seq<string>)
    ensures |r| <= PeakLines
  {
    if |lines| > PeakLines then lines[|lines| - PeakLines..] else lines
  }

  /** A suppressed push changes nothing: not the lines, the last text, the last tick or the revision. */
  lemma DuplicatePushIsNoOp(m: ChatModel, s: string, now: int)
    requires IsDuplicate(m, s, now)
    ensures PushModel(m, s, now) == m
  {
  }

  /**
   * Any other push appends s as the newest line, records s and now as the last push and
   * moves the revision on by one; the lines before the new one are the old lines, less the
   * oldest when the buffer was over the threshold.
   */
  lemma FreshPushAppends(m: ChatModel, s: string, now: int)
    requires !IsDuplicate(m, s, now)
    ensures var r := PushModel(m, s, now);
      && |r.buf| > 0 && r.buf[|r.buf| - 1] == s
      && r.buf[..|r.buf| - 1] == (if |m.buf| > EvictionThreshold then m.buf[1..] else m.buf)
      && r.lastText == Some(s) && r.lastTick == now
      && r.revision == (if m.revision == Int32Max then Int32Min else m.revision + 1)
  {
    var r := PushModel(m, s, now);
    assert r.buf[..|r.buf| - 1] == Evicted(m.buf);
  }

  /**
   * Pushing keeps the buffer within PeakLines lines, and the lines kept are the newest
   * ones of the old lines followed by s, in their order: only the oldest line is dropped.
   */
  lemma PushKeepsNewest(m: ChatModel, s: string, now: int)
    requires m.Valid()
    ensures PushModel(m, s, now).Valid()
    ensures !IsDuplicate(m, s, now) ==> PushModel(m, s, now).buf == Newest(m.buf + [s])
  {
    if !IsDuplicate(m, s, now) && |m.buf| > EvictionThreshold {
      assert |m.buf + [s]| == PeakLines + 1;
      assert (m.buf + [s])[1..] == m.buf[1..] + [s];
    }
  }

  /** Clearing empties the buffer and forgets the last push, so the next push always goes in. */
  lemma ClearThenPush(m: ChatModel, s: string, now: int)
    ensures ClearModel(m).buf == [] && ClearModel(m).lastText == None && ClearModel(m).lastTick == 0
    ensures !IsDuplicate(ClearModel(m), s, now)
    ensures PushModel(ClearModel(m), s, now).buf == [s]
  {
  }

  /** Below the top of the int range the revision never goes down, and Clear always raises it. */
  lemma RevisionNeverDecreases(m: ChatModel, s: string, now: int)
    requires IsInt32(m.revision) && m.revision < Int32Max
    ensures PushModel(m, s, now).revision >= m.revision
    ensures ClearModel(m).revision > m.revision
  {
  }

  /** A push leaves the revision where it was exactly when it leaves the whole state where it was. */
  lemma RevisionTracksChange(m: ChatModel, s: string, now: int)
    ensures PushModel(m, s, now).revision == m.revision <==> PushModel(m, s, now) == m
  {
  }

  /** The state after a run of pushes, each a text and the tick it arrives at. */
  function PushAll(m: ChatModel, pushes: seq<(string, int)>): ChatModel
    decreases |pushes|
  {
    if pushes == [] then m else PushAll(PushModel(m, pushes[0].0, pushes[0].1), pushes[1..])
  }

  /** The texts of a run of pushes. */
  function Texts(pushes: seq<(string, int)>): seq<string>
    decreases |pushes|
  {
    if pushes == [] then [] else [pushes[0].0] + Texts(pushes[1..])
  }

  /** No push of the run repeats the text just before it, so none is suppressed. */
  predicate Distinct(m: ChatModel, pushes: seq<(string, int)>)
  {
    && (|pushes| > 0 ==> m.lastText != Some(pushes[0].0))
    && forall i :: 0 < i < |pushes| ==> pushes[i].0 != pushes[i - 1].0
  }

  lemma {:induction false} NewestOfNewest(a: seq<string>, b: seq<string>)
    ensures Newest(Newest(a) + b) == Newest(a + b)
  {
    if |a| > PeakLines {
      var c := a + b;
      var d := Newest(a) + b;
      assert d == c[|a| - PeakLines..];
    }
  }

  /**
   * After a run of pushes none of which is suppressed, the buffer holds the newest
   * PeakLines lines of the old lines followed by the pushed texts, oldest first, and the
   * revision has moved on by the length of the run.
   */
  lemma {:induction false} PushAllKeepsNewest(m: ChatModel, pushes: seq<(string, int)>)
    requires m.Valid() && m.revision + |pushes| <= Int32Max
    requires Distinct(m, pushes)
    ensures PushAll(m, pushes).buf == Newest(m.buf + Texts(pushes))
    ensures PushAll(m, pushes).revision == m.revision + |pushes|
    ensures PushAll(m, pushes).Valid()
    decreases |pushes|
  {
    if pushes == [] {
      assert m.buf + Texts(pushes) == m.buf;
    } else {
      var s, now := pushes[0].0, pushes[0].1;
      var rest := pushes[1..];
      var m1 := PushModel(m, s, now);
      PushAllFirst(m, pushes);
      PushKeepsNewest(m, s, now);
      DistinctTail(m, pushes, m1);
      PushAllKeepsNewest(m1, rest);
      assert Texts(pushes) == [s] + Texts(rest);
      NewestStep(m.buf, s, Texts(rest));
    }
  }

  /** Keeping the newest lines after one more line and again at the end keeps the newest lines of the whole. */
  lemma NewestStep(buf: seq<string>, first: string, rest: seq<string>)
    ensures Newest(Newest(buf + [first]) + rest) == Newest(buf + ([first] + rest))
  {
    assert buf + ([first] + rest) == (buf + [first]) + rest;
    NewestOfNewest(buf + [first], rest);
  }

  /** The first push of a distinct run goes in. */
  lemma PushAllFirst(m: ChatModel, pushes: seq<(string, int)>)
    requires |pushes| > 0 && Distinct(m, pushes) && IsInt32(m.revision) && m.revision < Int32Max
    ensures var m1 := PushModel(m, pushes[0].0, pushes[0].1);
      && PushAll(m, pushes) == PushAll(m1, pushes[1..])
      && m1.buf == Evicted(m.buf) + [pushes[0].0] && m1.lastText == Some(pushes[0].0) && m1.revision == m.revision + 1
  {
  }

  /** Once the first push of a distinct run is in, the rest of the run is distinct in turn. */
  lemma DistinctTail(m: ChatModel, pushes: seq<(string, int)>, next: ChatModel)
    requires |pushes| > 0 && Distinct(m, pushes)
    requires next.lastText == Some(pushes[0].0)
    ensures Distinct(next, pushes[1..])
  {
    var rest := pushes[1..];
    forall i | 0 < i < |rest| ensures rest[i].0 != rest[i - 1].0 {
      assert rest[i] == pushes[i + 1] && rest[i - 1] == pushes[i];
    }
    if |rest| > 0 { assert rest[0] == pushes[1]; }
  }

  /** The singleton buffer (`ChatState`), a sequential object; the tick is a parameter of Push. */
  class ChatState {
    var buf: seq<string>
    var lastText: Option<string>
    var lastTick: int
    var revision: int

    ghost function Model(): ChatModel
      reads this
    {
      ChatModel(buf, lastText, lastTick, revision)
    }

    ghost predicate Valid()
      reads this
    {
      Model().Valid()
    }

    constructor ()
      ensures Valid() && Model() == Initial
    {
      buf, lastText, lastTick, revision := [], None, 0, 0;
    }

    /** Adds a line, unless it repeats the last one within the tolerance. */
    method Push(s: string, now: int)
      requires Valid()
      modifies this
      ensures Valid()
      ensures Model() == PushModel(old(Model()), s, now)
    {
      if lastText.Some? && s == lastText.value && now - lastTick <= DuplicateToleranceTicks {
        return;
      }
      if |buf| > EvictionThreshold {
        buf := buf[1..];
      }
      buf := buf + [s];
      lastText := Some(s);
      lastTick := now;
      revision := Increment(revision);
    }

    /** Empties the buffer and forgets the last push; the revision moves on even when it was empty. */
    method Clear()
      requires Valid()
      modifies this
      ensures Valid()
      ensures Model() == ClearModel(old(Model()))
    {
      buf := [];
      lastText := None;
      lastTick := 0;
      revision := Increment(revision);
    }

    /** A copy of the lines, oldest first; nothing changes. */
    method Lines() returns (lines: seq<string>)
      ensures lines == buf
    {
      lines := buf;
    }

    /** The current revision; nothing changes. */
    method Revision() returns (r: int)
      ensures r == revision
    {
      r := revision;
    }
  }
}

/**
 * The editor's editing state (Editor/script.js): the trim window and its
 * handles, the click list, the selected click marker, play/stop against the
 * trim window, and the undo/redo history. User actions are recorded as
 * `Action` values instead of closures; undoing or redoing one applies its
 * inverse or itself to the state.
 */
module Editing {
  import opened Wrappers
  import opened Clicks

  // ---------------------------------------------------------------------------
  // Array.prototype.splice, as the click edits use it.

  /** `s.splice(i, 1)`: removes element `i`; past the end nothing is removed. */
  function RemoveAt<T>(s: seq<T>, i: nat): (r: seq<T>)
    ensures i < |s| ==> |r| == |s| - 1 && multiset(r) + multiset{s[i]} == multiset(s)
    ensures i >= |s| ==> r == s
    ensures forall j :: 0 <= j < |r| ==> r[j] == if j < i then s[j] else s[j + 1]
  {
    if i < |s| then
      assert s == s[..i] + [s[i]] + s[i + 1..];
      s[..i] + s[i + 1..]
    else s
  }

  /** `s.splice(i, 0, x)`: inserts `x` before element `i`; past the end it is appended. */
  function InsertAt<T>(s: seq<T>, i: nat, x: T): (r: seq<T>)
    ensures |r| == |s| + 1
    ensures multiset(r) == multiset(s) + multiset{x}
    ensures var k := if i < |s| then i else |s|;
      && r[k] == x
      && (forall j :: 0 <= j < k ==> r[j] == s[j])
      && (forall j :: k < j < |r| ==> r[j] == s[j - 1])
  {
    var k := if i < |s| then i else |s|;
    assert s == s[..k] + s[k..];
    s[..k] + [x] + s[k..]
  }

  /** Re-inserting a removed element where it was restores the list. */
  lemma InsertRemoved<T>(s: seq<T>, i: nat)
    requires i < |s|
    ensures InsertAt(RemoveAt(s, i), i, s[i]) == s
  {
    var r := InsertAt(RemoveAt(s, i), i, s[i]);
    assert |r| == |s|;
    forall j | 0 <= j < |s|
      ensures r[j] == s[j]
    {
    }
  }

  /** Removing an element where it was inserted restores the list. */
  lemma RemoveInserted<T>(s: seq<T>, i: nat, x: T)
    requires i <= |s|
    ensures RemoveAt(InsertAt(s, i, x), i) == s
  {
    var r := RemoveAt(InsertAt(s, i, x), i);
    assert |r| == |s|;
    forall j | 0 <= j < |s|
      ensures r[j] == s[j]
    {
    }
  }

  // ---------------------------------------------------------------------------
  // The trim window.

  datatype TrimRange = TrimRange(start: real, end: real)

  predicate Ordered(r: TrimRange)
  {
    r.start <= r.end
  }

  datatype Handle = Left | Right

  /** `mainVideo.duration || 1`: an unknown duration (0 here) counts as one second. */
  function DurationOrOne(duration: real): real
  {
    if duration == 0.0 then 1.0 else duration
  }

  /**
   * "Set start" at the playhead `now`: the start moves to `now`; if that is not
   * before the end, the end moves to one second after it, capped at the duration.
   */
  function SetStart(r: TrimRange, now: real, duration: real): (r': TrimRange)
    ensures r'.start == now
    ensures now < r.end ==> r'.end == r.end
    ensures now <= duration ==> Ordered(r')
    ensures r'.start < r'.end <==> now < r.end || now < duration
    ensures r.end <= now && now + 1.0 <= duration ==> r'.end - r'.start == 1.0
  {
    if now >= r.end then TrimRange(now, Min(duration, now + 1.0)) else TrimRange(now, r.end)
  }

  /**
   * "Set end" at the playhead `now`: the end moves to `now`; if that is not
   * after the start, the start moves to one second before it, but not below 0.
   */
  function SetEnd(r: TrimRange, now: real): (r': TrimRange)
    ensures r'.end == now
    ensures r.start < now ==> r'.start == r.start
    ensures 0.0 <= now ==> Ordered(r')
    ensures r'.start < r'.end <==> r.start < now || 0.0 < now
    ensures now <= r.start && 1.0 <= now ==> r'.end - r'.start == 1.0
  {
    if now <= r.start then TrimRange(Max(0.0, now - 1.0), now) else TrimRange(r.start, now)
  }

  /** The time under the pointer during a handle drag: the pointer's fraction of the timeline, clamped to [0, 1]. */
  function DragTime(ratio: real, duration: real): (t: real)
    ensures duration >= 0.0 ==> 0.0 <= t <= DurationOrOne(duration)
    ensures 0.0 <= ratio <= 1.0 ==> t == ratio * DurationOrOne(duration)
  {
    var p := Clamp(0.0, 1.0, ratio);
    assert 0.0 <= p <= 1.0;
    assert duration >= 0.0 ==> p * DurationOrOne(duration) <= DurationOrOne(duration) by {
      if duration >= 0.0 {
        assert (1.0 - p) * DurationOrOne(duration) >= 0.0;
      }
    }
    p * DurationOrOne(duration)
  }

  /**
   * Dragging a handle to time `t`: the left handle stops 0.1 s before the end,
   * the right handle 0.1 s after the start; the other bound stays put.
   */
  function DragHandle(r: TrimRange, target: Option<Handle>, t: real): (r': TrimRange)
    ensures target == Some(Left) ==> r'.end == r.end && r'.start <= r.end - 0.1
    ensures target == Some(Left) && t <= r.end - 0.1 ==> r'.start == t
    ensures target != Some(Left) ==> r'.start == r.start && r'.end >= r.start + 0.1
    ensures target != Some(Left) && r.start + 0.1 <= t ==> r'.end == t
    ensures r'.end - r'.start >= 0.1
  {
    if target == Some(Left) then TrimRange(Min(t, r.end - 0.1), r.end)
    else TrimRange(r.start, Max(t, r.start + 0.1))
  }

  /** A click on the timeline at fraction `ratio` seeks there, kept inside the trim window when trimming is on. */
  function TimelineSeekTime(r: TrimRange, enabled: bool, ratio: real, duration: real): (t: real)
    ensures !enabled ==> t == ratio * duration
    ensures enabled && Ordered(r) ==> r.start <= t <= r.end
    ensures enabled && r.start <= ratio * duration <= r.end ==> t == ratio * duration
  {
    var seek := ratio * duration;
    if enabled then Clamp(r.start, r.end, seek) else seek
  }

  /** With trimming on, a playhead before the trim start or at or after the trim end is outside the window. */
  predicate OutsideTrim(r: TrimRange, enabled: bool, now: real)
  {
    enabled && (now < r.start || now >= r.end)
  }

  // ---------------------------------------------------------------------------
  // Recorded actions and the editor state.

  /**
   * An undoable edit. `AddClick` is the test click, whose redo re-inserts the
   * same click; `AddVideoClick` is a click on the video, whose redo re-inserts
   * the click at the playhead time of the redo. `DeleteClick` records the
   * entry the delete read, which is `undefined` (`None`) when the selection no
   * longer named a click.
   */
  datatype Action =
    | AddClick(idx: nat, click: Click)
    | AddVideoClick(idx: nat, x: real, y: real)
    | DeleteClick(idx: nat, removed: Option<Click>)
    | SetTrim(before: TrimRange, after: TrimRange)

  /**
   * The editor's globals that the editing operations read and write. An entry
   * of `clicks` is `None` where the array holds `undefined`, as the undo of a
   * stale delete leaves it.
   */
  datatype EditorState = EditorState(
    duration: real,
    currentTime: real,
    playing: bool,
    clicks: seq<Option<Click>>,
    selected: Option<nat>,
    trimEnabled: bool,
    trim: TrimRange,
    dragging: bool,
    dragTarget: Option<Handle>,
    dragPrev: TrimRange,
    undoStack: seq<Action>,
    redoStack: seq<Action>)

  /** The state before any video is loaded. */
  const Initial: EditorState :=
    EditorState(0.0, 0.0, false, [], None, false, TrimRange(0.0, 0.0), false, None, TrimRange(0.0, 0.0), [], [])

  /** Setting `currentTime`: the media element clamps the position to [0, duration]. */
  function Seek(s: EditorState, t: real): EditorState
  {
    s.(currentTime := Clamp(0.0, s.duration, t))
  }

  /** `pushAction`: record an action and forget everything that could be redone. */
  function Push(s: EditorState, a: Action): EditorState
  {
    s.(undoStack := s.undoStack + [a], redoStack := [])
  }

  /** What undoing `a` does to the state, the history aside. */
  function UndoEffect(s: EditorState, a: Action): EditorState
  {
    match a
    case AddClick(idx, _) => s.(clicks := RemoveAt(s.clicks, idx))
    case AddVideoClick(idx, _, _) => s.(clicks := RemoveAt(s.clicks, idx))
    case DeleteClick(idx, removed) => s.(clicks := InsertAt(s.clicks, idx, removed))
    case SetTrim(before, _) => Seek(s.(trim := before), before.start)
  }

  /** What redoing `a` does to the state, the history aside. */
  function RedoEffect(s: EditorState, a: Action): EditorState
  {
    match a
    case AddClick(idx, c) => s.(clicks := InsertAt(s.clicks, idx, Some(c)))
    case AddVideoClick(idx, x, y) => s.(clicks := InsertAt(s.clicks, idx, Some(Click(s.currentTime, x, y, None))))
    case DeleteClick(idx, _) => s.(clicks := RemoveAt(s.clicks, idx))
    case SetTrim(_, after) => Seek(s.(trim := after), after.start)
  }

  /**
   * `renderClickMarkers` reads `c.time` of every entry in turn, so it throws at
   * the first `undefined` one; the markers render when there is none.
   */
  predicate MarkersRender(clicks: seq<Option<Click>>)
  {
    forall i :: 0 <= i < |clicks| ==> clicks[i].Some?
  }

  /**
   * A handler that renders the markers and then calls `pushAction`: when the
   * render throws, the changes made so far stand and nothing is recorded.
   */
  function RenderThenPush(s: EditorState, a: Action): EditorState
  {
    if MarkersRender(s.clicks) then Push(s, a) else s
  }

  /** `undo`: pop the last action, undo it and keep it for redo; nothing to undo is a no-op. */
  function Undo(s: EditorState): EditorState
  {
    if s.undoStack == [] then s
    else
      var a := s.undoStack[|s.undoStack| - 1];
      var popped := UndoEffect(s.(undoStack := s.undoStack[..|s.undoStack| - 1]), a);
      popped.(redoStack := popped.redoStack + [a])
  }

  /** `redo`: pop the last undone action, redo it and make it undoable again; nothing to redo is a no-op. */
  function Redo(s: EditorState): EditorState
  {
    if s.redoStack == [] then s
    else
      var a := s.redoStack[|s.redoStack| - 1];
      var popped := RedoEffect(s.(redoStack := s.redoStack[..|s.redoStack| - 1]), a);
      popped.(undoStack := popped.undoStack + [a])
  }

  /**
   * `onloadedmetadata`: a new video of the given duration, played from 0, with
   * the trim window reset; the reset is skipped when rendering the markers
   * first throws.
   */
  function LoadedMetadata(s: EditorState, duration: real): EditorState
  {
    var loaded := s.(duration := duration, currentTime := 0.0);
    if MarkersRender(s.clicks) then InitializeTrim(loaded) else loaded
  }

  /** `initializeTrim`: with a known duration, the whole video becomes the trim window and the player seeks to its start. */
  function InitializeTrim(s: EditorState): EditorState
  {
    if s.duration == 0.0 then s else Seek(s.(trim := TrimRange(0.0, s.duration)), 0.0)
  }

  function SetTrimStart(s: EditorState): EditorState
  {
    var after := SetStart(s.trim, s.currentTime, s.duration);
    Push(s.(trim := after), SetTrim(s.trim, after))
  }

  function SetTrimEnd(s: EditorState): EditorState
  {
    var after := SetEnd(s.trim, s.currentTime);
    Push(s.(trim := after), SetTrim(s.trim, after))
  }

  function ResetTrim(s: EditorState): EditorState
  {
    s.(trim := TrimRange(0.0, s.duration))
  }

  /** The trim toggle: switching trimming on re-initialises the window. */
  function ToggleTrim(s: EditorState): EditorState
  {
    var s' := s.(trimEnabled := !s.trimEnabled);
    if s'.trimEnabled then InitializeTrim(s') else s'
  }

  /** Pressing a trim handle (only while trimming) remembers the window for the undo record. */
  function StartTrimDrag(s: EditorState, h: Handle): EditorState
  {
    if !s.trimEnabled then s else s.(dragPrev := s.trim, dragging := true, dragTarget := Some(h))
  }

  /** Moving the pointer to fraction `ratio` of the timeline while a handle is held. */
  function TrimDrag(s: EditorState, ratio: real): EditorState
  {
    if !s.dragging || !s.trimEnabled then s
    else s.(trim := DragHandle(s.trim, s.dragTarget, DragTime(ratio, s.duration)))
  }

  /** Releasing the handle: seek to it, and record the change if the window moved. */
  function EndTrimDrag(s: EditorState): EditorState
  {
    var s' :=
      if s.dragging && s.trimEnabled then
        var sought :=
          if s.dragTarget == Some(Left) then Seek(s, s.trim.start)
          else if s.dragTarget == Some(Right) then Seek(s, s.trim.end)
          else s;
        if s.dragPrev != s.trim then Push(sought, SetTrim(s.dragPrev, s.trim)) else sought
      else s;
    s'.(dragging := false, dragTarget := None)
  }

  /** A click on the timeline at fraction `ratio`, ignored while a handle is held. */
  function TimelineClick(s: EditorState, ratio: real): EditorState
  {
    if s.dragging then s else Seek(s, TimelineSeekTime(s.trim, s.trimEnabled, ratio, s.duration))
  }

  /** The play button: pause when playing, otherwise play, from the trim start if the playhead is outside the window. */
  function PlayButton(s: EditorState): EditorState
  {
    if s.playing then s.(playing := false)
    else
      var s' := if OutsideTrim(s.trim, s.trimEnabled, s.currentTime) then Seek(s, s.trim.start) else s;
      s'.(playing := true)
  }

  /** The live loop's trim check: playback stops once the playhead reaches the trim end. */
  function FrameTrimCheck(s: EditorState): EditorState
  {
    if s.playing && s.trimEnabled && s.currentTime >= s.trim.end then s.(playing := false) else s
  }

  /** `onended`: stop, and with trimming on rewind to the trim start. */
  function Ended(s: EditorState): EditorState
  {
    var s' := s.(playing := false);
    if s.trimEnabled then Seek(s', s.trim.start) else s'
  }

  /** The test click: needs a video; at playhead 0 it takes the given (random) time. */
  function AddTestClick(s: EditorState, randomTime: real, x: real, y: real): EditorState
  {
    if s.duration == 0.0 then s
    else
      var c := Click(if s.currentTime != 0.0 then s.currentTime else randomTime, x, y, None);
      RenderThenPush(s.(clicks := s.clicks + [Some(c)]), AddClick(|s.clicks|, c))
  }

  /** A click on the video at `(x, y)`, at the playhead time. */
  function VideoClick(s: EditorState, x: real, y: real): EditorState
  {
    var c := Click(s.currentTime, x, y, None);
    RenderThenPush(s.(clicks := s.clicks + [Some(c)]), AddVideoClick(|s.clicks|, x, y))
  }

  /** "Clear clicks": empties the list; not undoable, and the selection is left as it was. */
  function ClearClicks(s: EditorState): EditorState
  {
    s.(clicks := [])
  }

  /** Selecting marker `index`: an index outside the list clears the selection. */
  function SelectClickMarker(s: EditorState, index: Option<int>): EditorState
  {
    if index.None? || index.value < 0 || index.value >= |s.clicks| then s.(selected := None)
    else s.(selected := Some(index.value as nat))
  }

  /** `clicks[idx]` as JavaScript reads it: the entry, or `undefined` past the end. */
  function EntryAt(clicks: seq<Option<Click>>, idx: nat): (e: Option<Click>)
    ensures idx < |clicks| ==> e == clicks[idx]
    ensures idx >= |clicks| ==> e.None?
  {
    if idx < |clicks| then clicks[idx] else None
  }

  /**
   * `deleteSelectedClick` as written: with any selection it removes the entry
   * at the selected index (nothing, past the end), drops the selection and
   * records what it read there, even when that is `undefined`. The record is
   * lost when the list left behind holds an `undefined` entry, since the
   * render before `pushAction` throws.
   */
  function DeleteSelectedClick(s: EditorState): EditorState
  {
    match s.selected
    case None => s
    case Some(idx) =>
      RenderThenPush(s.(clicks := RemoveAt(s.clicks, idx), selected := None), DeleteClick(idx, EntryAt(s.clicks, idx)))
  }

  /**
   * The delete as evidently intended: a selection that no longer names a click
   * (after an undo or "clear clicks") is dropped and nothing is recorded.
   */
  function DeleteSelectedClickCorrected(s: EditorState): EditorState
  {
    match s.selected
    case None => s
    case Some(idx) =>
      if idx >= |s.clicks| then s.(selected := None) else DeleteSelectedClick(s)
  }

  /**
   * A double click on marker `i` seeks to that click's time. An `undefined`
   * entry never gets a marker, since rendering stops at it.
   */
  function SeekToMarker(s: EditorState, i: nat): EditorState
  {
    if i < |s.clicks| && s.clicks[i].Some? then Seek(s, s.clicks[i].value.time) else s
  }

  // ---------------------------------------------------------------------------
  // Keyboard shortcuts.

  datatype KeyEvent = KeyEvent(key: string, ctrl: bool, meta: bool, shift: bool)

  datatype Command = DeleteCommand | UndoCommand | RedoCommand | NoCommand

  /** `key.toLowerCase() === [c]` for a lower-case ASCII letter `c`. */
  predicate IsLetterKey(key: string, c: char)
    requires 'a' <= c <= 'z'
  {
    key == [c] || key == [(c as int - 32) as char]
  }

  /**
   * The keydown handler: Delete or Backspace with a selected marker deletes it;
   * otherwise Ctrl/Cmd+Z undoes, Ctrl/Cmd+Shift+Z and Ctrl/Cmd+Y redo.
   */
  function KeyCommand(e: KeyEvent, hasSelection: bool): (c: Command)
    ensures hasSelection && (e.key == "Delete" || e.key == "Backspace") ==> c == DeleteCommand
    ensures c == DeleteCommand ==> hasSelection
    ensures !e.ctrl && !e.meta ==> c == NoCommand || c == DeleteCommand
    ensures c == UndoCommand ==> !e.shift && IsLetterKey(e.key, 'z')
    ensures (e.ctrl || e.meta) && IsLetterKey(e.key, 'y') ==> c == RedoCommand
    ensures (e.ctrl || e.meta) && IsLetterKey(e.key, 'z') ==> c == if e.shift then RedoCommand else UndoCommand
  {
    if (e.key == "Delete" || e.key == "Backspace") && hasSelection then DeleteCommand
    else if (e.ctrl || e.meta) && IsLetterKey(e.key, 'z') then (if e.shift then RedoCommand else UndoCommand)
    else if (e.ctrl || e.meta) && IsLetterKey(e.key, 'y') then RedoCommand
    else NoCommand
  }

  function KeyDown(s: EditorState, e: KeyEvent): EditorState
  {
    match KeyCommand(e, s.selected.Some?)
    case DeleteCommand => DeleteSelectedClick(s)
    case UndoCommand => Undo(s)
    case RedoCommand => Redo(s)
    case NoCommand => s
  }

  // ---------------------------------------------------------------------------
  // Every input the editing state reacts to.

  /**
   * `Playback(t)` is the media clock reaching `t` followed by the live loop's
   * trim check; the clock itself is outside the model.
   */
  datatype Event =
    | LoadVideo(videoDuration: real)
    | ToggleTrimming
    | SetStartHere
    | SetEndHere
    | ResetTrimming
    | PressHandle(handle: Handle)
    | MovePointer(ratio: real)
    | ReleaseHandle
    | ClickTimeline(timelineRatio: real)
    | PressPlay
    | Playback(t: real)
    | PlaybackEnded
    | TestClick(randomTime: real, tx: real, ty: real)
    | ClickVideo(vx: real, vy: real)
    | ClearAll
    | SelectMarker(index: Option<int>)
    | DoubleClickMarker(marker: nat)
    | Key(key: KeyEvent)
    | UndoButton
    | RedoButton

  function Step(s: EditorState, e: Event): EditorState
  {
    match e
    case LoadVideo(d) => LoadedMetadata(s, d)
    case ToggleTrimming => ToggleTrim(s)
    case SetStartHere => SetTrimStart(s)
    case SetEndHere => SetTrimEnd(s)
    case ResetTrimming => ResetTrim(s)
    case PressHandle(h) => StartTrimDrag(s, h)
    case MovePointer(ratio) => TrimDrag(s, ratio)
    case ReleaseHandle => EndTrimDrag(s)
    case ClickTimeline(ratio) => TimelineClick(s, ratio)
    case PressPlay => PlayButton(s)
    case Playback(t) => FrameTrimCheck(Seek(s, t))
    case PlaybackEnded => Ended(s)
    case TestClick(rt, x, y) => AddTestClick(s, rt, x, y)
    case ClickVideo(x, y) => VideoClick(s, x, y)
    case ClearAll => ClearClicks(s)
    case SelectMarker(i) => SelectClickMarker(s, i)
    case DoubleClickMarker(i) => SeekToMarker(s, i)
    case Key(k) => KeyDown(s, k)
    case UndoButton => Undo(s)
    case RedoButton => Redo(s)
  }

  // ---------------------------------------------------------------------------
  // The same operations on the editor's mutable state.

  /** The editor's globals as one object whose methods update them in place. */
  class Editor {
    var duration: real
    var currentTime: real
    var playing: bool
    var clicks: seq<Option<Click>>
    var selected: Option<nat>
    var trimEnabled: bool
    var trim: TrimRange
    var dragging: bool
    var dragTarget: Option<Handle>
    var dragPrev: TrimRange
    var undoStack: seq<Action>
    var redoStack: seq<Action>

    function State(): EditorState
      reads this
    {
      EditorState(duration, currentTime, playing, clicks, selected, trimEnabled, trim,
                  dragging, dragTarget, dragPrev, undoStack, redoStack)
    }

    constructor()
      ensures State() == Initial
    {
      duration, currentTime, playing := 0.0, 0.0, false;
      clicks, selected := [], None;
      trimEnabled, trim := false, TrimRange(0.0, 0.0);
      dragging, dragTarget, dragPrev := false, None, TrimRange(0.0, 0.0);
      undoStack, redoStack := [], [];
    }

    method SeekTo(t: real)
      modifies this
      ensures State() == Seek(old(State()), t)
    {
      currentTime := Clamp(0.0, duration, t);
    }

    method PushAction(a: Action)
      modifies this
      ensures State() == Push(old(State()), a)
    {
      undoStack := undoStack + [a];
      redoStack := [];
    }

    /** `renderClickMarkers`: walks the list and reports whether it reached the end without meeting `undefined`. */
    method RenderMarkers() returns (rendered: bool)
      ensures rendered <==> MarkersRender(clicks)
    {
      var i := 0;
      while i < |clicks|
        invariant 0 <= i <= |clicks|
        invariant forall k :: 0 <= k < i ==> clicks[k].Some?
      {
        if clicks[i].None? {
          return false;
        }
        i := i + 1;
      }
      return true;
    }

    /** Render the markers, then record `a` unless the render threw. */
    method RenderThenPushAction(a: Action)
      modifies this
      ensures State() == RenderThenPush(old(State()), a)
    {
      var rendered := RenderMarkers();
      if rendered {
        PushAction(a);
      }
    }

    method ApplyUndo(a: Action)
      modifies this
      ensures State() == UndoEffect(old(State()), a)
    {
      match a
      case AddClick(idx, _) => clicks := RemoveAt(clicks, idx);
      case AddVideoClick(idx, _, _) => clicks := RemoveAt(clicks, idx);
      case DeleteClick(idx, removed) => clicks := InsertAt(clicks, idx, removed);
      case SetTrim(before, _) =>
        trim := before;
        SeekTo(trim.start);
    }

    method ApplyRedo(a: Action)
      modifies this
      ensures State() == RedoEffect(old(State()), a)
    {
      match a
      case AddClick(idx, c) => clicks := InsertAt(clicks, idx, Some(c));
      case AddVideoClick(idx, x, y) => clicks := InsertAt(clicks, idx, Some(Click(currentTime, x, y, None)));
      case DeleteClick(idx, _) => clicks := RemoveAt(clicks, idx);
      case SetTrim(_, after) =>
        trim := after;
        SeekTo(trim.start);
    }

    method DoUndo()
      modifies this
      ensures State() == Undo(old(State()))
    {
      if |undoStack| == 0 {
        return;
      }
      var a := undoStack[|undoStack| - 1];
      undoStack := undoStack[..|undoStack| - 1];
      ApplyUndo(a);
      redoStack := redoStack + [a];
    }

    method DoRedo()
      modifies this
      ensures State() == Redo(old(State()))
    {
      if |redoStack| == 0 {
        return;
      }
      var a := redoStack[|redoStack| - 1];
      redoStack := redoStack[..|redoStack| - 1];
      ApplyRedo(a);
      undoStack := undoStack + [a];
    }

    method DoInitializeTrim()
      modifies this
      ensures State() == InitializeTrim(old(State()))
    {
      if duration == 0.0 {
        return;
      }
      trim := TrimRange(0.0, duration);
      SeekTo(trim.start);
    }

    method OnLoadedMetadata(d: real)
      modifies this
      ensures State() == LoadedMetadata(old(State()), d)
    {
      duration := d;
      currentTime := 0.0;
      var rendered := RenderMarkers();
      if rendered {
        DoInitializeTrim();
      }
    }

    method DoSetTrimStart()
      modifies this
      ensures State() == SetTrimStart(old(State()))
    {
      var before := trim;
      var start, end := currentTime, trim.end;
      if start >= end {
        end := Min(duration, start + 1.0);
      }
      trim := TrimRange(start, end);
      PushAction(SetTrim(before, trim));
    }

    method DoSetTrimEnd()
      modifies this
      ensures State() == SetTrimEnd(old(State()))
    {
      var before := trim;
      var start, end := trim.start, currentTime;
      if end <= start {
        start := Max(0.0, end - 1.0);
      }
      trim := TrimRange(start, end);
      PushAction(SetTrim(before, trim));
    }

    method DoResetTrim()
      modifies this
      ensures State() == ResetTrim(old(State()))
    {
      trim := TrimRange(0.0, duration);
    }

    method DoToggleTrim()
      modifies this
      ensures State() == ToggleTrim(old(State()))
    {
      trimEnabled := !trimEnabled;
      if trimEnabled {
        DoInitializeTrim();
      }
    }

    method DoStartTrimDrag(h: Handle)
      modifies this
      ensures State() == StartTrimDrag(old(State()), h)
    {
      if !trimEnabled {
        return;
      }
      dragPrev := trim;
      dragging := true;
      dragTarget := Some(h);
    }

    method DoTrimDrag(ratio: real)
      modifies this
      ensures State() == TrimDrag(old(State()), ratio)
    {
      if !dragging || !trimEnabled {
        return;
      }
      var time := DragTime(ratio, duration);
      if dragTarget == Some(Left) {
        trim := trim.(start := Min(time, trim.end - 0.1));
      } else {
        trim := trim.(end := Max(time, trim.start + 0.1));
      }
    }

    method DoEndTrimDrag()
      modifies this
      ensures State() == EndTrimDrag(old(State()))
    {
      if dragging && trimEnabled {
        var before, after := dragPrev, trim;
        if dragTarget == Some(Left) {
          SeekTo(trim.start);
        } else if dragTarget == Some(Right) {
          SeekTo(trim.end);
        }
        if before != after {
          PushAction(SetTrim(before, after));
        }
      }
      dragging := false;
      dragTarget := None;
    }

    method OnTimelineClick(ratio: real)
      modifies this
      ensures State() == TimelineClick(old(State()), ratio)
    {
      if dragging {
        return;
      }
      var seekTime := ratio * duration;
      if trimEnabled {
        seekTime := Max(trim.start, Min(trim.end, seekTime));
      }
      assert seekTime == TimelineSeekTime(trim, trimEnabled, ratio, duration);
      SeekTo(seekTime);
    }

    method OnPlayButton()
      modifies this
      ensures State() == PlayButton(old(State()))
    {
      if playing {
        playing := false;
      } else {
        if OutsideTrim(trim, trimEnabled, currentTime) {
          SeekTo(trim.start);
        }
        playing := true;
      }
    }

    method OnFrame()
      modifies this
      ensures State() == FrameTrimCheck(old(State()))
    {
      if !playing {
        return;
      }
      if trimEnabled && currentTime >= trim.end {
        playing := false;
      }
    }

    method OnEnded()
      modifies this
      ensures State() == Ended(old(State()))
    {
      playing := false;
      if trimEnabled {
        SeekTo(trim.start);
      }
    }

    method DoAddTestClick(randomTime: real, x: real, y: real)
      modifies this
      ensures State() == AddTestClick(old(State()), randomTime, x, y)
    {
      if duration == 0.0 {
        return;
      }
      var time := if currentTime != 0.0 then currentTime else randomTime;
      var idx := |clicks|;
      var c := Click(time, x, y, None);
      clicks := clicks + [Some(c)];
      RenderThenPushAction(AddClick(idx, c));
    }

    method OnVideoClick(x: real, y: real)
      modifies this
      ensures State() == VideoClick(old(State()), x, y)
    {
      var idx := |clicks|;
      clicks := clicks + [Some(Click(currentTime, x, y, None))];
      RenderThenPushAction(AddVideoClick(idx, x, y));
    }

    method DoClearClicks()
      modifies this
      ensures State() == ClearClicks(old(State()))
    {
      clicks := [];
    }

    method DoSelectClickMarker(index: Option<int>)
      modifies this
      ensures State() == SelectClickMarker(old(State()), index)
    {
      if index.None? || index.value < 0 || index.value >= |clicks| {
        selected := None;
      } else {
        selected := Some(index.value as nat);
      }
    }

    method DoDeleteSelectedClick()
      modifies this
      ensures State() == DeleteSelectedClick(old(State()))
    {
      if selected.None? {
        return;
      }
      var idx := selected.value;
      var removed: Option<Click> := None;
      if idx < |clicks| {
        removed := clicks[idx];
      }
      clicks := RemoveAt(clicks, idx);
      selected := None;
      RenderThenPushAction(DeleteClick(idx, removed));
    }

    method OnMarkerDoubleClick(i: nat)
      modifies this
      ensures State() == SeekToMarker(old(State()), i)
    {
      if i < |clicks| && clicks[i].Some? {
        SeekTo(clicks[i].value.time);
      }
    }

    method OnKeyDown(e: KeyEvent)
      modifies this
      ensures State() == KeyDown(old(State()), e)
    {
      var command := KeyCommand(e, selected.Some?);
      match command
      case DeleteCommand => DoDeleteSelectedClick();
      case UndoCommand => DoUndo();
      case RedoCommand => DoRedo();
      case NoCommand =>
    }
  }
}

/**
 * What the editing operations promise: an invariant every input keeps, the
 * undo/redo round trips of each recorded edit, the trim window's guarantees,
 * and the stale-selection defect of the delete handler as written.
 */
module EditingProperties {
  import opened Wrappers
  import opened Clicks
  import opened Editing

  // ---------------------------------------------------------------------------
  // The invariant.

  /** Every trim record in a history holds ordered windows. */
  predicate TrimRecordsOrdered(h: seq<Action>)
  {
    forall i :: 0 <= i < |h| && h[i].SetTrim? ==> Ordered(h[i].before) && Ordered(h[i].after)
  }

  /** The playhead is inside the video, and every trim window, current, remembered or recorded, is ordered. */
  predicate Valid(s: EditorState)
  {
    && 0.0 <= s.duration
    && 0.0 <= s.currentTime <= s.duration
    && Ordered(s.trim)
    && Ordered(s.dragPrev)
    && TrimRecordsOrdered(s.undoStack)
    && TrimRecordsOrdered(s.redoStack)
  }

  /** An input the model accepts: a loaded video never has a negative duration. */
  predicate Admissible(e: Event)
  {
    e.LoadVideo? ==> e.videoDuration >= 0.0
  }

  lemma InitialValid()
    ensures Valid(Initial)
  {
  }

  lemma SeekValid(s: EditorState, t: real)
    requires Valid(s)
    ensures Valid(Seek(s, t))
    ensures 0.0 <= t <= s.duration ==> Seek(s, t).currentTime == t
  {
  }

  lemma TrimRecordsAppend(h: seq<Action>, a: Action)
    requires TrimRecordsOrdered(h)
    requires a.SetTrim? ==> Ordered(a.before) && Ordered(a.after)
    ensures TrimRecordsOrdered(h + [a])
  {
    var h' := h + [a];
    forall i | 0 <= i < |h'| && h'[i].SetTrim?
      ensures Ordered(h'[i].before) && Ordered(h'[i].after)
    {
      if i < |h| {
        assert h'[i] == h[i];
      }
    }
  }

  lemma TrimRecordsPop(h: seq<Action>)
    requires TrimRecordsOrdered(h) && h != []
    ensures TrimRecordsOrdered(h[..|h| - 1])
    ensures h[|h| - 1].SetTrim? ==> Ordered(h[|h| - 1].before) && Ordered(h[|h| - 1].after)
  {
    var h' := h[..|h| - 1];
    forall i | 0 <= i < |h'| && h'[i].SetTrim?
      ensures Ordered(h'[i].before) && Ordered(h'[i].after)
    {
      assert h'[i] == h[i];
    }
  }

  lemma PushValid(s: EditorState, a: Action)
    requires Valid(s)
    requires a.SetTrim? ==> Ordered(a.before) && Ordered(a.after)
    ensures Valid(Push(s, a))
  {
    TrimRecordsAppend(s.undoStack, a);
  }

  lemma UndoValid(s: EditorState)
    requires Valid(s)
    ensures Valid(Undo(s))
  {
    if s.undoStack != [] {
      var a := s.undoStack[|s.undoStack| - 1];
      TrimRecordsPop(s.undoStack);
      TrimRecordsAppend(s.redoStack, a);
    }
  }

  lemma RedoValid(s: EditorState)
    requires Valid(s)
    ensures Valid(Redo(s))
  {
    if s.redoStack != [] {
      var a := s.redoStack[|s.redoStack| - 1];
      TrimRecordsPop(s.redoStack);
      TrimRecordsAppend(s.undoStack, a);
    }
  }

  lemma TrimEditsValid(s: EditorState)
    requires Valid(s)
    ensures Valid(SetTrimStart(s))
    ensures Valid(SetTrimEnd(s))
    ensures Valid(ResetTrim(s))
    ensures Valid(ToggleTrim(s))
  {
    PushValid(s.(trim := SetStart(s.trim, s.currentTime, s.duration)), SetTrim(s.trim, SetStart(s.trim, s.currentTime, s.duration)));
    PushValid(s.(trim := SetEnd(s.trim, s.currentTime)), SetTrim(s.trim, SetEnd(s.trim, s.currentTime)));
  }

  lemma DragValid(s: EditorState, h: Handle, ratio: real)
    requires Valid(s)
    ensures Valid(StartTrimDrag(s, h))
    ensures Valid(TrimDrag(s, ratio))
    ensures Valid(EndTrimDrag(s))
  {
    if s.dragging && s.trimEnabled {
      var sought :=
        if s.dragTarget == Some(Left) then Seek(s, s.trim.start)
        else if s.dragTarget == Some(Right) then Seek(s, s.trim.end)
        else s;
      assert Valid(sought);
      if s.dragPrev != s.trim {
        PushValid(sought, SetTrim(s.dragPrev, s.trim));
      }
    }
  }

  lemma ClickEditsValid(s: EditorState, rt: real, x: real, y: real)
    requires Valid(s)
    ensures Valid(AddTestClick(s, rt, x, y))
    ensures Valid(VideoClick(s, x, y))
    ensures Valid(DeleteSelectedClick(s))
  {
    TestClickValid(s, rt, x, y);
    VideoClickValid(s, x, y);
    DeleteSelectedValid(s);
  }

  lemma TestClickValid(s: EditorState, rt: real, x: real, y: real)
    requires Valid(s)
    ensures Valid(AddTestClick(s, rt, x, y))
  {
    if s.duration != 0.0 {
      var c := Click(if s.currentTime != 0.0 then s.currentTime else rt, x, y, None);
      if MarkersRender(s.clicks + [Some(c)]) {
        PushValid(s.(clicks := s.clicks + [Some(c)]), AddClick(|s.clicks|, c));
      }
    }
  }

  lemma VideoClickValid(s: EditorState, x: real, y: real)
    requires Valid(s)
    ensures Valid(VideoClick(s, x, y))
  {
    if MarkersRender(s.clicks + [Some(Click(s.currentTime, x, y, None))]) {
      PushValid(s.(clicks := s.clicks + [Some(Click(s.currentTime, x, y, None))]), AddVideoClick(|s.clicks|, x, y));
    }
  }

  lemma DeleteSelectedValid(s: EditorState)
    requires Valid(s)
    ensures Valid(DeleteSelectedClick(s))
  {
    if s.selected.Some? {
      var i := s.selected.value;
      if MarkersRender(RemoveAt(s.clicks, i)) {
        PushValid(s.(clicks := RemoveAt(s.clicks, i), selected := None), DeleteClick(i, EntryAt(s.clicks, i)));
      }
    }
  }

  lemma KeyDownValid(s: EditorState, k: KeyEvent)
    requires Valid(s)
    ensures Valid(KeyDown(s, k))
  {
    UndoValid(s);
    RedoValid(s);
    ClickEditsValid(s, 0.0, 0.0, 0.0);
  }

  /** Every admissible input keeps the invariant. */
  lemma StepValid(s: EditorState, e: Event)
    requires Valid(s) && Admissible(e)
    ensures Valid(Step(s, e))
  {
    if e.ToggleTrimming? || e.SetStartHere? || e.SetEndHere? || e.ResetTrimming?
      || e.PressHandle? || e.MovePointer? || e.ReleaseHandle? {
      TrimEventsValid(s, e);
    } else if e.LoadVideo? || e.ClickTimeline? || e.PressPlay? || e.Playback? || e.PlaybackEnded? {
      PlaybackEventsValid(s, e);
    } else if e.TestClick? || e.ClickVideo? || e.ClearAll? || e.SelectMarker? || e.DoubleClickMarker? {
      MarkerEventsValid(s, e);
    } else {
      HistoryEventsValid(s, e);
    }
  }

  /** The trim controls and the handle drag keep the invariant. */
  lemma TrimEventsValid(s: EditorState, e: Event)
    requires Valid(s)
    requires e.ToggleTrimming? || e.SetStartHere? || e.SetEndHere? || e.ResetTrimming?
      || e.PressHandle? || e.MovePointer? || e.ReleaseHandle?
    ensures Valid(Step(s, e))
  {
    match e
    case ToggleTrimming => TrimEditsValid(s);
    case SetStartHere => TrimEditsValid(s);
    case SetEndHere => TrimEditsValid(s);
    case ResetTrimming => TrimEditsValid(s);
    case PressHandle(h) => DragValid(s, h, 0.0);
    case MovePointer(ratio) => DragValid(s, Left, ratio);
    case ReleaseHandle => DragValid(s, Left, 0.0);
  }

  /** Loading, seeking, play/pause, playback and its end keep the invariant. */
  lemma PlaybackEventsValid(s: EditorState, e: Event)
    requires Valid(s) && Admissible(e)
    requires e.LoadVideo? || e.ClickTimeline? || e.PressPlay? || e.Playback? || e.PlaybackEnded?
    ensures Valid(Step(s, e))
  {
    if e.Playback? {
      SeekValid(s, e.t);
    }
  }

  /** Adding, clearing, selecting and jumping to clicks keep the invariant. */
  lemma MarkerEventsValid(s: EditorState, e: Event)
    requires Valid(s)
    requires e.TestClick? || e.ClickVideo? || e.ClearAll? || e.SelectMarker? || e.DoubleClickMarker?
    ensures Valid(Step(s, e))
  {
    match e
    case TestClick(rt, x, y) => ClickEditsValid(s, rt, x, y);
    case ClickVideo(x, y) => ClickEditsValid(s, 0.0, x, y);
    case ClearAll =>
    case SelectMarker(i) =>
    case DoubleClickMarker(i) =>
  }

  /** Keyboard shortcuts and the undo and redo buttons keep the invariant. */
  lemma HistoryEventsValid(s: EditorState, e: Event)
    requires Valid(s)
    requires e.Key? || e.UndoButton? || e.RedoButton?
    ensures Valid(Step(s, e))
  {
    match e
    case Key(k) => KeyDownValid(s, k);
    case UndoButton => UndoValid(s);
    case RedoButton => RedoValid(s);
  }

  /** Any run of admissible inputs from the initial state keeps the invariant. */
  function Run(s: EditorState, es: seq<Event>): EditorState
    decreases |es|
  {
    if es == [] then s else Run(Step(s, es[0]), es[1..])
  }

  lemma {:induction false} RunValid(s: EditorState, es: seq<Event>)
    requires Valid(s)
    requires forall i :: 0 <= i < |es| ==> Admissible(es[i])
    ensures Valid(Run(s, es))
    decreases |es|
  {
    if es != [] {
      StepValid(s, es[0]);
      RunValid(Step(s, es[0]), es[1..]);
    }
  }

  // ---------------------------------------------------------------------------
  // The history.

  /** Applying or reverting a record leaves both stacks alone. */
  lemma EffectsKeepHistory(s: EditorState, a: Action)
    ensures UndoEffect(s, a).undoStack == s.undoStack && UndoEffect(s, a).redoStack == s.redoStack
    ensures RedoEffect(s, a).undoStack == s.undoStack && RedoEffect(s, a).redoStack == s.redoStack
  {
  }

  /** Undo moves the newest record onto the redo stack; an empty history leaves the state as it is. */
  lemma UndoMovesTop(s: EditorState)
    ensures s.undoStack == [] ==> Undo(s) == s
    ensures s.undoStack != [] ==>
      && Undo(s).undoStack == s.undoStack[..|s.undoStack| - 1]
      && Undo(s).redoStack == s.redoStack + [s.undoStack[|s.undoStack| - 1]]
  {
    if s.undoStack != [] {
      EffectsKeepHistory(s.(undoStack := s.undoStack[..|s.undoStack| - 1]), s.undoStack[|s.undoStack| - 1]);
    }
  }

  /** Redo moves the newest undone record back onto the undo stack; nothing to redo leaves the state as it is. */
  lemma RedoMovesTop(s: EditorState)
    ensures s.redoStack == [] ==> Redo(s) == s
    ensures s.redoStack != [] ==>
      && Redo(s).redoStack == s.redoStack[..|s.redoStack| - 1]
      && Redo(s).undoStack == s.undoStack + [s.redoStack[|s.redoStack| - 1]]
  {
    if s.redoStack != [] {
      EffectsKeepHistory(s.(redoStack := s.redoStack[..|s.redoStack| - 1]), s.redoStack[|s.redoStack| - 1]);
    }
  }

  /** Undo then redo puts both stacks back. */
  lemma UndoRedoHistory(s: EditorState)
    requires s.undoStack != []
    ensures Redo(Undo(s)).undoStack == s.undoStack
    ensures Redo(Undo(s)).redoStack == s.redoStack
  {
    var n := |s.undoStack| - 1;
    UndoMovesTop(s);
    var u := Undo(s);
    RedoMovesTop(u);
    assert u.redoStack[..|u.redoStack| - 1] == s.redoStack;
    assert s.undoStack[..n] + [s.undoStack[n]] == s.undoStack;
  }

  /** Redo then undo puts both stacks back. */
  lemma RedoUndoHistory(s: EditorState)
    requires s.redoStack != []
    ensures Undo(Redo(s)).undoStack == s.undoStack
    ensures Undo(Redo(s)).redoStack == s.redoStack
  {
    var n := |s.redoStack| - 1;
    RedoMovesTop(s);
    var r := Redo(s);
    UndoMovesTop(r);
    assert r.undoStack[..|r.undoStack| - 1] == s.undoStack;
    assert s.redoStack[..n] + [s.redoStack[n]] == s.redoStack;
  }

  /** A new record makes everything undone unreachable, and is the first thing undone. */
  lemma PushThenUndo(s: EditorState, a: Action)
    ensures Redo(Push(s, a)) == Push(s, a)
    ensures Undo(Push(s, a)).undoStack == s.undoStack
    ensures Undo(Push(s, a)).redoStack == [a]
  {
    assert (s.undoStack + [a])[..|s.undoStack|] == s.undoStack;
  }

  /** Seeking twice is seeking to the second position. */
  lemma SeekSeek(s: EditorState, t: real, u: real)
    ensures Seek(Seek(s, t), u) == Seek(s, u)
  {
  }

  // ---------------------------------------------------------------------------
  // Round trips of the recorded edits.

  /** Undoing a trim record restores the window it replaced and seeks to that window's start. */
  lemma UndoTrimRecord(s: EditorState, before: TrimRange, after: TrimRange)
    requires s.undoStack != [] && s.undoStack[|s.undoStack| - 1] == SetTrim(before, after)
    ensures Undo(s).trim == before
    ensures Undo(s).clicks == s.clicks
    ensures Undo(s).currentTime == Clamp(0.0, s.duration, before.start)
    ensures Redo(Undo(s)).trim == after
    ensures Redo(Undo(s)).currentTime == Clamp(0.0, s.duration, after.start)
  {
  }

  /** "Set start" is undone exactly, and redone to the very state it produced. */
  lemma SetTrimStartRoundTrip(s: EditorState)
    requires Valid(s)
    ensures Undo(SetTrimStart(s)) == Seek(s, s.trim.start).(redoStack := [SetTrim(s.trim, SetTrimStart(s).trim)])
    ensures Redo(Undo(SetTrimStart(s))) == SetTrimStart(s)
  {
    PushThenUndo(s.(trim := SetTrimStart(s).trim), SetTrim(s.trim, SetTrimStart(s).trim));
  }

  /** "Set end" is undone exactly; redoing it restores the window and seeks to its start. */
  lemma SetTrimEndRoundTrip(s: EditorState)
    requires Valid(s)
    ensures Undo(SetTrimEnd(s)) == Seek(s, s.trim.start).(redoStack := [SetTrim(s.trim, SetTrimEnd(s).trim)])
    ensures Redo(Undo(SetTrimEnd(s))) == Seek(SetTrimEnd(s), SetTrimEnd(s).trim.start)
  {
    PushThenUndo(s.(trim := SetTrimEnd(s).trim), SetTrim(s.trim, SetTrimEnd(s).trim));
  }

  /** A handle drag that moved the window is undone back to the window at the press. */
  lemma DragRoundTrip(s: EditorState)
    requires s.dragging && s.trimEnabled && s.dragPrev != s.trim
    ensures Undo(EndTrimDrag(s)).trim == s.dragPrev
    ensures Undo(EndTrimDrag(s)).undoStack == s.undoStack
    ensures Redo(Undo(EndTrimDrag(s))).trim == s.trim
    ensures !EndTrimDrag(s).dragging
  {
    var t := EndTrimDrag(s);
    assert t.undoStack == s.undoStack + [SetTrim(s.dragPrev, s.trim)];
    assert t.undoStack[..|s.undoStack|] == s.undoStack;
  }

  /** A drag that left the window where it was records nothing. */
  lemma DragUnchangedRecordsNothing(s: EditorState)
    requires s.dragPrev == s.trim
    ensures EndTrimDrag(s).undoStack == s.undoStack
    ensures EndTrimDrag(s).trim == s.trim
  {
  }

  /** Appending a click keeps the markers rendering exactly when they rendered before. */
  lemma RenderAppend(clicks: seq<Option<Click>>, c: Click)
    ensures MarkersRender(clicks + [Some(c)]) <==> MarkersRender(clicks)
  {
    if MarkersRender(clicks + [Some(c)]) {
      forall i | 0 <= i < |clicks|
        ensures clicks[i].Some?
      {
        assert (clicks + [Some(c)])[i] == clicks[i];
      }
    }
  }

  /** Removing an entry from a list that renders leaves one that renders. */
  lemma RenderRemove(clicks: seq<Option<Click>>, i: nat)
    requires MarkersRender(clicks)
    ensures MarkersRender(RemoveAt(clicks, i))
  {
    if i < |clicks| {
      forall k | 0 <= k < |RemoveAt(clicks, i)|
        ensures RemoveAt(clicks, i)[k].Some?
      {
        if k < i {
          assert RemoveAt(clicks, i)[k] == clicks[k];
        } else {
          assert RemoveAt(clicks, i)[k] == clicks[k + 1];
        }
      }
    }
  }

  /** The test click appends one click; undo removes exactly it and redo puts it back. */
  lemma TestClickRoundTrip(s: EditorState, rt: real, x: real, y: real)
    requires s.duration != 0.0
    requires MarkersRender(s.clicks)
    ensures var c := Click(if s.currentTime != 0.0 then s.currentTime else rt, x, y, None);
      && AddTestClick(s, rt, x, y).clicks == s.clicks + [Some(c)]
      && Undo(AddTestClick(s, rt, x, y)) == s.(redoStack := [AddClick(|s.clicks|, c)])
      && Redo(Undo(AddTestClick(s, rt, x, y))) == AddTestClick(s, rt, x, y)
  {
    var c := Click(if s.currentTime != 0.0 then s.currentTime else rt, x, y, None);
    RenderAppend(s.clicks, c);
    assert AddTestClick(s, rt, x, y) == Push(s.(clicks := s.clicks + [Some(c)]), AddClick(|s.clicks|, c));
    AppendedClickRoundTrip(s, c);
  }

  lemma AppendedClickRoundTrip(s: EditorState, c: Click)
    ensures var a := AddClick(|s.clicks|, c);
      var pushed := Push(s.(clicks := s.clicks + [Some(c)]), a);
      && Undo(pushed) == s.(redoStack := [a])
      && Redo(Undo(pushed)) == pushed
  {
    var a := AddClick(|s.clicks|, c);
    var pushed := Push(s.(clicks := s.clicks + [Some(c)]), a);
    NoTrailing(s.clicks, Some(c));
    PushThenUndo(s.(clicks := s.clicks + [Some(c)]), a);
    var undone := Undo(pushed);
    assert undone == s.(redoStack := [a]);
  }

  /** Without a video the test click does nothing. */
  lemma TestClickNeedsVideo(s: EditorState, rt: real, x: real, y: real)
    requires s.duration == 0.0
    ensures AddTestClick(s, rt, x, y) == s
  {
  }

  lemma NoTrailing<T>(s: seq<T>, c: T)
    ensures RemoveAt(s + [c], |s|) == s
    ensures InsertAt(s, |s|, c) == s + [c]
  {
    assert (s + [c])[..|s|] == s;
  }

  /** A click on the video is undone exactly, and redone to the same click when the playhead has not moved. */
  lemma VideoClickRoundTrip(s: EditorState, x: real, y: real)
    requires MarkersRender(s.clicks)
    ensures VideoClick(s, x, y).clicks == s.clicks + [Some(Click(s.currentTime, x, y, None))]
    ensures Undo(VideoClick(s, x, y)) == s.(redoStack := [AddVideoClick(|s.clicks|, x, y)])
    ensures Redo(Undo(VideoClick(s, x, y))) == VideoClick(s, x, y)
  {
    RenderAppend(s.clicks, Click(s.currentTime, x, y, None));
    NoTrailing(s.clicks, Some(Click(s.currentTime, x, y, None)));
    PushThenUndo(s.(clicks := s.clicks + [Some(Click(s.currentTime, x, y, None))]), AddVideoClick(|s.clicks|, x, y));
  }

  /** Redoing a click on the video after seeking elsewhere re-inserts it at the new playhead time. */
  lemma VideoClickRedoTakesPlayhead(s: EditorState, x: real, y: real, t: real)
    requires Valid(s) && MarkersRender(s.clicks)
    ensures Redo(Seek(Undo(VideoClick(s, x, y)), t)).clicks == s.clicks + [Some(Click(Clamp(0.0, s.duration, t), x, y, None))]
  {
    VideoClickRoundTrip(s, x, y);
    NoTrailing(s.clicks, Some(Click(Clamp(0.0, s.duration, t), x, y, None)));
  }

  /**
   * Once the list holds `undefined`, a click on the video is still appended
   * but the render before `pushAction` throws, so it is not recorded.
   */
  lemma VideoClickAfterUndefined(s: EditorState, x: real, y: real)
    requires !MarkersRender(s.clicks)
    ensures VideoClick(s, x, y) == s.(clicks := s.clicks + [Some(Click(s.currentTime, x, y, None))])
  {
    RenderAppend(s.clicks, Click(s.currentTime, x, y, None));
  }

  /** The same holds for the test click. */
  lemma TestClickAfterUndefined(s: EditorState, rt: real, x: real, y: real)
    requires s.duration != 0.0 && !MarkersRender(s.clicks)
    ensures AddTestClick(s, rt, x, y).clicks == s.clicks + [Some(Click(if s.currentTime != 0.0 then s.currentTime else rt, x, y, None))]
    ensures AddTestClick(s, rt, x, y).undoStack == s.undoStack
    ensures AddTestClick(s, rt, x, y).redoStack == s.redoStack
  {
    RenderAppend(s.clicks, Click(if s.currentTime != 0.0 then s.currentTime else rt, x, y, None));
  }

  /** Loading a video while the list holds `undefined` sets the duration and playhead but leaves the trim window as it was. */
  lemma LoadAfterUndefined(s: EditorState, d: real)
    requires !MarkersRender(s.clicks)
    ensures LoadedMetadata(s, d) == s.(duration := d, currentTime := 0.0)
  {
  }

  // ---------------------------------------------------------------------------
  // The delete handler as written.

  /** Deleting the selected click removes exactly it; undo restores the list and redo removes it again. */
  lemma DeleteRoundTrip(s: EditorState)
    requires s.selected.Some? && s.selected.value < |s.clicks|
    requires MarkersRender(s.clicks)
    ensures var i := s.selected.value;
      && DeleteSelectedClick(s).clicks == RemoveAt(s.clicks, i)
      && DeleteSelectedClick(s).selected == None
      && Undo(DeleteSelectedClick(s)) == s.(selected := None, redoStack := [DeleteClick(i, s.clicks[i])])
      && Redo(Undo(DeleteSelectedClick(s))) == DeleteSelectedClick(s)
  {
    var i := s.selected.value;
    RenderRemove(s.clicks, i);
    InsertRemoved(s.clicks, i);
    PushThenUndo(s.(clicks := RemoveAt(s.clicks, i), selected := None), DeleteClick(i, s.clicks[i]));
  }

  /**
   * A selection that no longer names a click: the handler as written removes
   * nothing, yet records a deletion of `undefined` and so forgets everything
   * that could be redone; undoing that record appends `undefined` to the list.
   */
  lemma StaleDeleteRecordsUndefined(s: EditorState)
    requires s.selected.Some? && s.selected.value >= |s.clicks|
    requires MarkersRender(s.clicks)
    ensures DeleteSelectedClick(s) == Push(s.(selected := None), DeleteClick(s.selected.value, None))
    ensures DeleteSelectedClick(s).redoStack == []
    ensures Undo(DeleteSelectedClick(s)).clicks == s.clicks + [None]
  {
    PushThenUndo(s.(selected := None), DeleteClick(s.selected.value, None));
  }

  /** As written, delete then undo gives the list back exactly when the selection still names a click. */
  lemma AsWrittenRestoresIffInRange(s: EditorState)
    requires s.selected.Some? && MarkersRender(s.clicks)
    ensures Undo(DeleteSelectedClick(s)).clicks == s.clicks <==> s.selected.value < |s.clicks|
  {
    if s.selected.value < |s.clicks| {
      DeleteRoundTrip(s);
    } else {
      StaleDeleteRecordsUndefined(s);
      assert |Undo(DeleteSelectedClick(s)).clicks| == |s.clicks| + 1;
    }
  }

  /** The state of the defect's scenario: a video, one test click, its marker selected, then "clear clicks". */
  function StaleScenario(rt: real, x: real, y: real): EditorState
  {
    ClearClicks(SelectClickMarker(AddTestClick(LoadedMetadata(Initial, 10.0), rt, x, y), Some(0)))
  }

  lemma StaleScenarioState(rt: real, x: real, y: real)
    ensures var s := StaleScenario(rt, x, y);
      && s.selected == Some(0) && s.clicks == []
      && s.undoStack == [AddClick(0, Click(rt, x, y, None))] && s.redoStack == []
  {
  }

  /**
   * The defect: add a test click, select its marker, clear the clicks, press
   * Delete, undo. The delete records a deletion of `undefined`, and the undo
   * splices that `undefined` into the list instead of undoing the test click;
   * from then on the markers no longer render.
   */
  lemma StaleSelectionInsertsUndefined(rt: real, x: real, y: real)
    ensures var s := StaleScenario(rt, x, y);
      && s.selected == Some(0) && s.clicks == []
      && DeleteSelectedClick(s).undoStack == [AddClick(0, Click(rt, x, y, None)), DeleteClick(0, None)]
      && DeleteSelectedClick(s).redoStack == []
      && Undo(DeleteSelectedClick(s)).clicks == [None]
      && !MarkersRender(Undo(DeleteSelectedClick(s)).clicks)
  {
    var s := StaleScenario(rt, x, y);
    StaleScenarioState(rt, x, y);
    StaleDeleteRecordsUndefined(s);
  }

  // ---------------------------------------------------------------------------
  // The delete handler as evidently intended.

  /** The corrected handler drops a selection that no longer names a click, and nothing else changes. */
  lemma DeleteStaleSelection(s: EditorState)
    requires s.selected.Some? && s.selected.value >= |s.clicks|
    ensures DeleteSelectedClickCorrected(s) == s.(selected := None)
  {
  }

  /** Where the selection names a click, or there is none, the corrected handler is the handler as written. */
  lemma CorrectedAgreesInRange(s: EditorState)
    requires s.selected.None? || s.selected.value < |s.clicks|
    ensures DeleteSelectedClickCorrected(s) == DeleteSelectedClick(s)
  {
  }

  /**
   * Whatever the selection, the corrected delete either records nothing or
   * records a deletion whose undo gives back the list it started from.
   */
  lemma DeleteNeverLosesClicks(s: EditorState)
    ensures DeleteSelectedClickCorrected(s).undoStack == s.undoStack
         || Undo(DeleteSelectedClickCorrected(s)).clicks == s.clicks
  {
    if s.selected.Some? && s.selected.value < |s.clicks| {
      var i := s.selected.value;
      if MarkersRender(RemoveAt(s.clicks, i)) {
        InsertRemoved(s.clicks, i);
        PushThenUndo(s.(clicks := RemoveAt(s.clicks, i), selected := None), DeleteClick(i, s.clicks[i]));
      }
    }
  }

  /** The corrected handler keeps the invariant. */
  lemma CorrectedDeleteValid(s: EditorState)
    requires Valid(s)
    ensures Valid(DeleteSelectedClickCorrected(s))
  {
    DeleteSelectedValid(s);
  }

  /**
   * In the defect's scenario the corrected handler records nothing, so the
   * next undo takes back the test click and the list stays empty.
   */
  lemma StaleSelectionCorrected(rt: real, x: real, y: real)
    ensures var s := StaleScenario(rt, x, y);
      && DeleteSelectedClickCorrected(s) == s.(selected := None)
      && Undo(DeleteSelectedClickCorrected(s)).clicks == []
      && Undo(DeleteSelectedClickCorrected(s)).redoStack == [AddClick(0, Click(rt, x, y, None))]
  {
    StaleScenarioState(rt, x, y);
  }

  // ---------------------------------------------------------------------------
  // The trim window during playback and seeking.

  /** With trimming on, pressing play on an ordered window inside the video starts inside the window. */
  lemma PlayStartsInsideTrim(s: EditorState)
    requires Valid(s) && !s.playing && s.trimEnabled
    requires 0.0 <= s.trim.start < s.trim.end && s.trim.start <= s.duration
    ensures PlayButton(s).playing
    ensures s.trim.start <= PlayButton(s).currentTime < s.trim.end
    ensures s.trim.start <= s.currentTime < s.trim.end ==> PlayButton(s).currentTime == s.currentTime
  {
  }

  /** Pressing play while playing pauses and moves nothing. */
  lemma PlayButtonPauses(s: EditorState)
    requires s.playing
    ensures PlayButton(s) == s.(playing := false)
  {
  }

  /** After the live loop's check, playback with trimming on is always before the trim end. */
  lemma FrameStopsAtTrimEnd(s: EditorState)
    ensures FrameTrimCheck(s).playing && s.trimEnabled ==> s.currentTime < s.trim.end
    ensures s.playing && !(s.trimEnabled && s.currentTime >= s.trim.end) ==> FrameTrimCheck(s).playing
    ensures FrameTrimCheck(s).currentTime == s.currentTime
  {
  }

  /** When playback ends with trimming on, the playhead returns to the trim start. */
  lemma EndedRewinds(s: EditorState)
    requires Valid(s) && s.trimEnabled && 0.0 <= s.trim.start <= s.duration
    ensures !Ended(s).playing
    ensures Ended(s).currentTime == s.trim.start
  {
  }

  /** A timeline click with trimming on lands inside the window (when the window lies within the video). */
  lemma TimelineClickInsideTrim(s: EditorState, ratio: real)
    requires Valid(s) && !s.dragging && s.trimEnabled
    requires 0.0 <= s.trim.start && s.trim.end <= s.duration
    ensures s.trim.start <= TimelineClick(s, ratio).currentTime <= s.trim.end
  {
  }

  /** While a handle is held, the window never closes to less than 0.1 s. */
  lemma DragKeepsGap(s: EditorState, ratio: real)
    requires s.dragging && s.trimEnabled
    ensures TrimDrag(s, ratio).trim.end - TrimDrag(s, ratio).trim.start >= 0.1
    ensures s.dragTarget == Some(Left) ==> TrimDrag(s, ratio).trim.end == s.trim.end
    ensures s.dragTarget != Some(Left) ==> TrimDrag(s, ratio).trim.start == s.trim.start
  {
  }

  /** Switching trimming on with a loaded video selects the whole video and seeks to 0. */
  lemma ToggleOnSelectsAll(s: EditorState)
    requires Valid(s) && !s.trimEnabled && s.duration != 0.0
    ensures ToggleTrim(s).trimEnabled
    ensures ToggleTrim(s).trim == TrimRange(0.0, s.duration)
    ensures ToggleTrim(s).currentTime == 0.0
  {
  }

  // ---------------------------------------------------------------------------
  // The keyboard.

  /** With a marker selected, Delete deletes it even with modifiers held. */
  lemma DeleteKeyWins(s: EditorState, e: KeyEvent)
    requires s.selected.Some? && e.key == "Delete"
    ensures KeyDown(s, e) == DeleteSelectedClick(s)
  {
  }

  /** Ctrl+Z then Ctrl+Y, with no marker selected, leaves the history where it started. */
  lemma UndoRedoKeys(s: EditorState)
    requires s.selected.None? && s.undoStack != []
    ensures var z := KeyEvent("z", true, false, false);
      var y := KeyEvent("y", true, false, false);
      KeyDown(KeyDown(s, z), y).undoStack == s.undoStack && KeyDown(KeyDown(s, z), y).redoStack == s.redoStack
  {
    UndoRedoHistory(s);
    assert Undo(s).selected.None?;
  }
}

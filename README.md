# Screen recorder editor: zoom choreography, editing state and the local server

This project models the core of a screen recorder and its browser-based
editor. The recorder captures the screen and the mouse clicks. A small HTTP
server built into the recorder app serves the editor. The editor replays the
recording with an automatic camera: it zooms in on clusters of clicks, holds
on each click, pans between them and zooms out again. The editor also trims
the video, places a music track, edits the click list with undo and redo,
reads SubRip captions and exports the result.

The model covers:

- **Easing** (`easing.dfy`): the `ease` blend of the identity with a
  smoothstep curve, and the linear interpolation every camera move uses.
- **Clicks** (`clicks.dfy`): the click record, the duration filter, the
  stable sort by time, and clustering at a fixed gap of 2 seconds. Clustering
  is a function with a declarative description and a uniqueness proof,
  plus the editor's one-pass loop as a method proved equal to it.
- **Choreography** (`choreography.dfy`): the settings as one immutable
  record, and `calculateZoom` as the function `Evaluate`. The editor's loops
  (total time per cluster, the phase walk, the first matching cluster) are
  methods proved equal to their specification functions.
- **Zoom properties** (`zoom_properties.dfy`): when the camera is inactive,
  which window decides, what each phase produces, bounds on scale and
  origin, the fallback zoom-out, and worked timelines.
- **Editing** (`editing.dfy`, `editing_properties.dfy`): the editor's
  globals as a class whose methods update them in place, each proved against
  a state-transition function. Covered: trim window, drag handles, timeline
  seeks, play/pause, the trim stop, undo and redo stacks, the click list
  edited with `splice`, marker selection and keyboard shortcuts. Properties
  include an invariant every input preserves and undo/redo round trips.
- **Music** (`music.dfy`): the music clip's placement controls, its drag
  handles, and the per-frame sync decision as a pure function returning an
  action. A class carries the music state.
- **Text and captions** (`text.dfy`, `captions.dfy`): `fmt`,
  `formatFileName`, `split`/`join`/`trim`, `parseInt`/`parseFloat` on
  decimal text, `parseTimeString`, `parseSRT` and the caption lookup.
- **Export** (`export.dfy`): the exported range, letterbox geometry, the
  webcam crop and placement, webcam drift correction, the zoom transform,
  the caption box, progress, and the stop condition.
- **Http** (`http.dfy`): the recorder's editor server. Covered: the
  request-line check, target normalisation, `/video/` versus editor routing,
  the 404 answers, the MIME table, and the response header layout with its
  `Content-Length`.

Times, positions and sizes are mathematical reals. Bytes are a `byte`
subset of `int`.

Three behaviours of the code that a reader might expect otherwise:

- With zoom disabled, the camera is inactive (`Editor/script.js:874-876`).
  The fallback zoom-out applies only when clicks exist but none qualifies.
- A music clip is in range up to and including its last instant
  (`Editor/script.js:785` compares with `<=`).
- The cluster gap is the constant 2.0 (`Editor/script.js:896`), not a
  setting.

The editor's state machine (`Editing.Step`, `Editing.KeyDown` and the
`Editing.Editor` class) runs the delete handler as written
(`Editing.DeleteSelectedClick`), including its stale-selection defect and
the `undefined` entries it can leave in the click list. Since
`renderClickMarkers` throws at such an entry, the handlers that render
before `pushAction` then record nothing (`Editing.RenderThenPush`). The
corrected handler, `Editing.DeleteSelectedClickCorrected`, is defined
beside it with its own lemmas; see "## Findings".

## Model

| member | source | states |
|---|---|---|
| Easing.EaseZeroStrength | Editor/script.js:866-867 | Strength 0 returns the argument unchanged, for every argument. |
| Easing.EaseEndpoints | Editor/script.js:866-871 | 0 maps to 0 and 1 maps to 1, whatever the strength. |
| Easing.EaseBounds | Editor/script.js:866-871 | For an argument and a strength in [0, 1], the eased value lies in [0, 1]. |
| Easing.EaseMonotone | Editor/script.js:866-871 | For strengths in [0, 1], easing never decreases on [0, 1]. |
| Easing.SmoothBounds | Editor/script.js:869 | The smoothstep curve maps [0, 1] into [0, 1], below one half exactly on the first half. |
| Easing.SmoothMonotone | Editor/script.js:869 | The smoothstep curve never decreases on [0, 1], across the join at one half too. |
| Easing.Lerp | Editor/script.js:938-940 | Interpolation gives the start at 0 and the end at 1, and for a fraction it stays between the two ends in either order. |
| Easing.LerpBetween | Editor/script.js:974-975 | Moving a fraction of a signed distance stays between the start and the start plus the distance. |
| Clicks.Qualifying | Editor/script.js:879 | Every click kept qualifies, and each click occurs as often as in the input if it qualifies and not at all otherwise. |
| Clicks.QualifyingKeepsAll | Editor/script.js:879 | When every click qualifies, the filter returns the list unchanged. |
| Clicks.MissingDurationExcluded | Editor/script.js:879 | A click without a recorded duration counts as a 1 s press, so it never qualifies at a threshold below 1 s. |
| Clicks.Insert | Editor/script.js:880 | Inserting into a sorted run gives a sorted run one longer, holding the same clicks plus the new one. |
| Clicks.SortByTime | Editor/script.js:880 | The result is sorted by time and is a permutation of the input. |
| Clicks.SortStable | Editor/script.js:880 | The sort is stable: clicks with equal times keep their recorded order. |
| Clicks.AtTimeInsert | Editor/script.js:880 | Insertion puts the new click before the existing clicks of equal time, which keep their order. |
| Clicks.Clusters | Editor/script.js:896-908 | A non-empty run gives at least one cluster. |
| Clicks.ClustersCorrect | Editor/script.js:896-908 | The clusters are non-empty and flatten back to the run. Neighbours inside a cluster are less than 2 s apart; consecutive clusters are at least 2 s apart. |
| Clicks.ClusteringUnique | Editor/script.js:896-908 | Any grouping with those properties is exactly the editor's clustering, so the description determines the result. |
| Clicks.BuildClusters | Editor/script.js:896-908 | The editor's one-pass loop returns the clustering function's result, and so a clustering of its input. |
| Clicks.ClustersOfQualifying | Editor/script.js:878-908 | Flattening the clusters gives the qualifying clicks sorted by time, each as often as recorded. |
| Clicks.CloseClicksShareCluster | Editor/script.js:899-902 | Two clicks 0.5 s apart, less than the gap, form a single cluster. |
| Choreography.ClustersOf | Editor/script.js:878-908 | The evaluator's clusters are a clustering of the sorted qualifying clicks. |
| Choreography.ClusterTotalTime | Editor/script.js:914-930 | The accumulation loop returns the cluster's total time: zoom-in, a hold per click, a pan between neighbours, zoom-out. |
| Choreography.ClusterPhase | Editor/script.js:932-991 | The step-by-step walk through the phases returns the state the cluster specification gives at that time. |
| Choreography.FirstMatch | Editor/script.js:910-995 | The loop over clusters returns the evaluation over clusters: the first window that yields a state decides, otherwise no zoom. |
| Choreography.CalculateZoom | Editor/script.js:873-996 | The evaluator returns the zoom state that the specification function gives for the settings, the clicks and the time. |
| ZoomProperties.ClusterCovers | Editor/script.js:932-991 | Every time inside a cluster's window is answered by one of its phases, and the answer is active. |
| ZoomProperties.ActiveIffSomeWindow | Editor/script.js:910-995 | The evaluation over clusters is active exactly when some window contains the time; otherwise it is no zoom (factor 1, centred). |
| ZoomProperties.FirstWindowDecides | Editor/script.js:910-993 | The first window containing the time decides the result, whatever later windows give. |
| ZoomProperties.InactiveOutsideWindows | Editor/script.js:874-995 | Zoom disabled, no clicks, or a time outside every cluster window gives no zoom. |
| ZoomProperties.EvaluateActiveIff | Editor/script.js:873-995 | With qualifying clicks, the zoom is active exactly when some cluster window contains the time. |
| ZoomProperties.StepNonNegative | Editor/script.js:920-927 | With non-negative durations and speeds, each click's step lasts at least the hold duration. |
| ZoomProperties.HoldPanMonotone | Editor/script.js:920-927 | The time left from click i to the end of the holds shrinks as i grows. |
| ZoomProperties.ZoomInStartsUnzoomed | Editor/script.js:935-941 | At the window's start, the zoom-in is at factor 1 about the centre. |
| ZoomProperties.HoldAt | Editor/script.js:946-957 | During click j's hold the state is exactly full zoom on that click's position, in percent. |
| ZoomProperties.PanAt | Editor/script.js:960-979 | During the pan after click j the state is the pan from click j to click j + 1, at the elapsed fraction of the pan, and the factor is the full zoom level. |
| ZoomProperties.ZoomOutAt | Editor/script.js:984-991 | After the last hold, the zoom-out runs for its duration from the last click of the cluster. |
| ZoomProperties.ZoomOutBounded | Editor/script.js:984-991 | The zoom-out's factor is in [1, zoomLevel], and its origin is in the frame when it starts from a point in the frame. |
| ZoomProperties.EvaluateBounded | Editor/script.js:873-996 | With a zoom level of at least 1 and easing strengths in [0, 1], the factor stays in [1, zoomLevel], and with clicks inside the frame so does the origin. |
| ZoomProperties.FallbackBehaviour | Editor/script.js:882-893 | Clicks exist but none qualifies: inactive up to time 0, then a zoom-out from the last recorded click, finished from zoomOutSpeed on. A zero coordinate reads as the centre. |
| ZoomProperties.SingleClickSchedule | Editor/script.js:914-930 | With the default settings, one click at 2 s qualifies and forms one cluster, whose step is 1 s and whose window lasts 1.9 s. |
| ZoomProperties.SingleClickBefore | Editor/script.js:932 | That click's zoom has not started at 1 s. |
| ZoomProperties.SingleClickOpens | Editor/script.js:935-941 | At 1.5 s, 0.5 s before the click, the zoom-in starts at factor 1 about the centre. |
| ZoomProperties.SingleClickHolds | Editor/script.js:949-956 | At 1.9 s the zoom-in is complete: factor 2 on the click's position. |
| ZoomProperties.SingleClickCloses | Editor/script.js:930-932 | The window is half-open: at its end, 3.4 s, there is no zoom. |
| ZoomProperties.OverlapClusters | Editor/script.js:896-908 | Clicks at 0, 0.1 and 2.1 s form two clusters, since the last gap is exactly the cluster gap. |
| ZoomProperties.OverlappingWindows | Editor/script.js:910-993 | Clicks at 0, 0.1 and 2.1 s give two clusters whose windows overlap; at 1.6 s, inside both, the earlier cluster's hold on the second click decides. |
| Text.NatToString | Editor/script.js:754 | A number's spelling is one or more digits, one digit exactly below 10, with no leading zero. |
| Text.NatToStringRoundTrip | Editor/script.js:754 | Reading the decimal spelling back gives the number. |
| Text.IntToString | Editor/script.js:754 | A negative number is spelled as a minus sign followed by the digits of its magnitude. |
| Text.PadStart2 | Editor/script.js:754 | Shorter strings are left-padded with '0' to two characters; longer ones are kept. |
| Text.Rem60 | Editor/script.js:754 | JavaScript's remainder by 60 takes the sign of the dividend and is less than 60 in magnitude. |
| Text.FmtFields | Editor/script.js:754 | For a non-negative time, the minutes and the seconds field (0 to 59) make up the whole seconds. |
| Text.FmtRoundTrip | Editor/script.js:754 | The display of a non-negative time is minutes, a colon and two digits; reading them back gives its whole seconds. |
| Text.FmtExamples | Editor/script.js:754 | 0 shows as 0:00 and 75.5 as 1:15; -5 shows as -1:-5, the sign surviving in both fields. |
| Text.Split | Editor/script.js:1216 | Splitting always gives at least one piece. |
| Text.SplitJoin | Editor/script.js:1216-1218 | Joining pieces and splitting again gives the pieces back when the separator occurs in each piece followed by the separator only at the join (so no piece contains it, nor ends in a prefix of it that the separator completes). |
| Text.JoinSplit | Editor/script.js:1216-1218 | Splitting a text and joining the pieces again gives the text back, and no piece contains the separator. |
| Text.TrimStart | Editor/script.js:1218 | Trimming the start keeps a suffix that does not start with white space. |
| Text.TrimEnd | Editor/script.js:1218 | Trimming the end keeps a prefix that does not end with white space. |
| Text.Trim | Editor/script.js:1218 | The trimmed string starts and ends with something other than white space. |
| Text.TrimRemovesEnds | Editor/script.js:1218 | The trimmed string is a contiguous part of the input with only white space around it. |
| Text.TrimNoSpace | Editor/script.js:1218 | A string with white space at neither end is left as it is. |
| Text.ReplaceFirst | Editor/script.js:1236 | Replacing a character keeps the length, and a string without it is unchanged. |
| Text.ReplaceFirstAt | Editor/script.js:1236 | Only the first occurrence is replaced; the rest of the string is kept. |
| Text.ToUpperAscii | Editor/script.js:63 | Upper-casing leaves no lower-case ASCII letter and keeps whether the character is a word character. |
| Text.LastDot | Editor/script.js:61 | Finds the position of the last '.', or reports that there is none. |
| Text.StripExtension | Editor/script.js:61 | Stripping the extension keeps a prefix of the name. |
| Text.StripExtensionOf | Editor/script.js:61 | A final '.'-extension without '.' or '/' is dropped, and only it. |
| Text.StripExtensionNoDot | Editor/script.js:61 | A name without a '.' is kept whole. |
| Text.FormatFileName | Editor/script.js:59-65 | The display name is at most 25 characters long, and an empty file name gives an empty name. |
| Text.FormatFileNameShape | Editor/script.js:62-63 | The display name has no '_' or '-', and every word in its first 22 characters starts with a capital. |
| Text.FormatFileNameLength | Editor/script.js:64 | A short name keeps its length; a longer one is cut to exactly 25 characters ending in "...". |
| Text.FormatFileNameExample | Editor/script.js:59-65 | my_demo-1.mp4 is shown as My Demo 1. |
| Captions.LeadingDigits | Editor/script.js:1237 | The digits that parseInt reads are a prefix made only of digits. |
| Captions.LeadingDigitsLongest | Editor/script.js:1237 | That digit prefix is the longest: the next character, if any, is not a digit. |
| Captions.Fraction | Editor/script.js:1237 | The digits after a decimal point read as a fraction in [0, 1). |
| Captions.ParseIntDigits | Editor/script.js:1237 | parseInt reads plain digits as their decimal value. |
| Captions.ParseFloatDigits | Editor/script.js:1237 | parseFloat reads plain digits as their decimal value. |
| Captions.ParseDecimal | Editor/script.js:1237 | parseFloat reads w.f as the whole part plus the fraction. |
| Captions.ParseSrtTimeStamp | Editor/script.js:1235-1238 | A SubRip stamp HH:MM:SS,mmm reads as hours, minutes and seconds, with the milliseconds as a fraction. |
| Captions.ParseTimeOfParts | Editor/script.js:1235-1238 | A time text whose three colon-separated parts read as numbers gives hours times 3600 plus minutes times 60 plus seconds. |
| Captions.ParseTimeNaN | Editor/script.js:1235-1238 | Fewer than three parts, or a part that is not a number, gives NaN. |
| Captions.ParseBlock | Editor/script.js:1217-1231 | A block parses only when its trimmed text has at least three lines. |
| Captions.Present | Editor/script.js:1232 | Dropping the missing entries never lengthens the list. |
| Captions.PresentAll | Editor/script.js:1232 | When every entry is present, all of them are kept, in order. |
| Captions.PresentFrom | Editor/script.js:1232 | Every value kept comes from some entry of the list. |
| Captions.ParseSRT | Editor/script.js:1215-1233 | There are never more captions than blank-line separated blocks. |
| Captions.ParseSRTFrom | Editor/script.js:1215-1233 | Every caption returned is the parse of one of the content's blocks. |
| Captions.ParseSRTJoin | Editor/script.js:1215-1233 | Blocks that parse, contain no blank line (`\n\n`) and do not end in a line break, written with blank lines between them, read back as exactly their captions, in order. |
| Captions.ParseBlockOfLines | Editor/script.js:1218-1228 | A block of an index line, a time line start --> end and one text line parses to that caption, with both stamps trimmed and parsed. |
| Captions.ParseBlockOf | Editor/script.js:1217-1231 | An index line, a time line start --> end and a single text line, each without a line break, parse to that caption with both stamps trimmed and parsed, provided the index is non-empty and starts with a non-space, the text is non-empty and ends with a non-space, and the time line splits at " --> " into exactly start and end. |
| Captions.CaptionAt | Editor/script.js:852 | The lookup returns the first caption whose start and end (both numbers) include the time, or none exactly when no caption does. |
| Captions.UnparsedNeverShown | Editor/script.js:852 | A caption with a NaN time stamp is never shown. |
| Editing.RemoveAt | Editor/script.js:1163 | splice(i, 1) removes exactly element i, shifting the rest down; past the end nothing changes. |
| Editing.InsertAt | Editor/script.js:1164 | splice(i, 0, x) inserts x before element i, or appends it past the end; the rest keep their order. |
| Editing.InsertRemoved | Editor/script.js:1763-1771 | Re-inserting a removed element at its index restores the list. |
| Editing.RemoveInserted | Editor/script.js:1163-1164 | Removing an element where it was inserted restores the list. |
| Editing.EntryAt | Editor/script.js:1762 | Reading index `idx` gives that entry, or undefined past the end of the list. |
| Editing.SetStart | Editor/script.js:214-219 | Set start puts the start at the playhead and keeps the end if it is later. Otherwise the end moves to 1 s later, capped at the video's end, and the window still runs forwards. |
| Editing.SetEnd | Editor/script.js:229-234 | Set end puts the end at the playhead and keeps the start if it is earlier. Otherwise the start moves to 1 s earlier, but not before 0. |
| Editing.DragTime | Editor/script.js:271-272 | The drag time is the cursor's fraction of the timeline clamped to [0, 1], times the duration (1 s when unknown). |
| Editing.DragHandle | Editor/script.js:274-278 | The left handle sets start to min(time, end - 0.1), the right one sets end to max(time, start + 0.1); the window never closes below 0.1 s. |
| Editing.TimelineSeekTime | Editor/script.js:1028-1034 | A timeline click seeks to its fraction of the duration, clamped into the trim window when trimming is on. |
| Editing.KeyCommand | Editor/script.js:1778-1793 | Delete or Backspace with a selection deletes. Otherwise Ctrl/Cmd+Z undoes, and with Shift redoes, as does Ctrl/Cmd+Y. Without Ctrl/Cmd nothing else happens. |
| Editing.Editor.constructor | Editor/script.js:17-23 | The editor starts with no video, no clicks, no selection, trimming off and both stacks empty. |
| Editing.Editor.SeekTo | Editor/script.js:1036 | The new state is Seek of the old one: setting the playhead clamps it to the video. |
| Editing.Editor.PushAction | Editor/script.js:1683-1688 | The new state is Push of the old one: the action goes on top of the undo stack and the redo stack is emptied. |
| Editing.Editor.RenderMarkers | Editor/script.js:122-131 | The walk over the list reaches its end exactly when no entry is undefined, since reading `c.time` of an undefined entry throws. |
| Editing.Editor.RenderThenPushAction | Editor/script.js:1161-1162 | The new state is RenderThenPush of the old one: the action is recorded only when the markers render. |
| Editing.Editor.ApplyUndo | Editor/script.js:1693 | The new state is UndoEffect of the old one: undoing a record reverts its effect on the clicks or the trim window and leaves the stacks alone. |
| Editing.Editor.ApplyRedo | Editor/script.js:1701 | The new state is RedoEffect of the old one: redoing a record re-applies its effect and leaves the stacks alone. |
| Editing.Editor.DoUndo | Editor/script.js:1690-1696 | The new state is Undo of the old one: the top undo record is reverted and moved to the redo stack; an empty stack does nothing. |
| Editing.Editor.DoRedo | Editor/script.js:1698-1704 | The new state is Redo of the old one: the top redo record is re-applied and moved back to the undo stack; an empty stack does nothing. |
| Editing.Editor.DoInitializeTrim | Editor/script.js:165-172 | The new state is InitializeTrim of the old one: with a known duration, the whole video becomes the trim window and the playhead goes to 0. |
| Editing.Editor.OnLoadedMetadata | Editor/script.js:157-162 | The new state is LoadedMetadata of the old one: a newly loaded video plays from 0 with its whole length as the trim window; when rendering the markers throws on an undefined entry, the trim window is left as it was. |
| Editing.Editor.DoSetTrimStart | Editor/script.js:214-227 | The new state is SetTrimStart of the old one: the state after set start, with the change recorded for undo. |
| Editing.Editor.DoSetTrimEnd | Editor/script.js:229-242 | The new state is SetTrimEnd of the old one: the state after set end, with the change recorded for undo. |
| Editing.Editor.DoResetTrim | Editor/script.js:244-248 | The new state is ResetTrim of the old one: the trim window is reset to the whole video. |
| Editing.Editor.DoToggleTrim | Editor/script.js:317-338 | The new state is ToggleTrim of the old one: toggling flips trimming, and switching it on re-initialises the window. |
| Editing.Editor.DoStartTrimDrag | Editor/script.js:255-264 | The new state is StartTrimDrag of the old one: only while trimming, pressing a handle remembers the window and which handle is held. |
| Editing.Editor.DoTrimDrag | Editor/script.js:266-281 | The new state is TrimDrag of the old one: while a handle is held, the window follows the cursor as the handle rule says. |
| Editing.Editor.DoEndTrimDrag | Editor/script.js:283-304 | The new state is EndTrimDrag of the old one: releasing seeks to the handle and records the change only if the window moved; the drag ends. |
| Editing.Editor.OnTimelineClick | Editor/script.js:1024-1040 | The new state is TimelineClick of the old one: unless a handle is held, the playhead moves to the clamped seek time. |
| Editing.Editor.OnPlayButton | Editor/script.js:812-844 | The new state is PlayButton of the old one: play pauses when playing. Otherwise it plays, from the trim start if the playhead is outside the window. |
| Editing.Editor.OnFrame | Editor/script.js:766-778 | The new state is FrameTrimCheck of the old one: playback stops once the playhead reaches the trim end. |
| Editing.Editor.OnEnded | Editor/script.js:1008-1022 | The new state is Ended of the old one: at the end of the video playback stops, and with trimming on the playhead returns to the trim start. |
| Editing.Editor.DoAddTestClick | Editor/script.js:1148-1167 | The new state is AddTestClick of the old one: with a video, one click is appended (at the playhead, or at the given time at 0) and recorded for undo, unless rendering the markers throws on an undefined entry. |
| Editing.Editor.OnVideoClick | Editor/script.js:1240-1253 | The new state is VideoClick of the old one: a click at the playhead is appended and recorded for undo, unless rendering the markers throws on an undefined entry. |
| Editing.Editor.DoClearClicks | Editor/script.js:1169-1173 | The new state is ClearClicks of the old one: the click list is emptied, without an undo record and without touching the selection. |
| Editing.Editor.DoSelectClickMarker | Editor/script.js:1713-1719 | The new state is SelectClickMarker of the old one: A valid index becomes the selection; any other clears it. |
| Editing.Editor.DoDeleteSelectedClick | Editor/script.js:1759-1776 | The new state is DeleteSelectedClick of the old one: with any selection, the entry at the selected index is removed (nothing past the end), the selection is cleared, and a deletion of the entry read there (undefined past the end) is recorded, which empties the redo stack, unless rendering the markers throws. |
| Editing.Editor.OnMarkerDoubleClick | Editor/script.js:139-143 | The new state is SeekToMarker of the old one: a double click on the marker of a click seeks to that click's time; an index with no click there changes nothing. |
| Editing.Editor.OnKeyDown | Editor/script.js:1778-1793 | The new state is KeyDown of the old one: A key press runs the command the shortcut rules choose. |
| EditingProperties.InitialValid | Editor/script.js:17-23 | The initial state meets the invariant: the playhead is inside the video and every trim window is ordered. |
| EditingProperties.StepValid | Editor/script.js:157-1793 | Every input the editor reacts to keeps the invariant, given a non-negative duration for a newly loaded video. |
| EditingProperties.RunValid | Editor/script.js:157-1793 | Any sequence of inputs from a valid state keeps the invariant. |
| EditingProperties.PushValid | Editor/script.js:1683-1688 | Recording an ordered trim or a click edit keeps the invariant. |
| EditingProperties.UndoValid | Editor/script.js:1690-1696 | Undo keeps the invariant. |
| EditingProperties.RedoValid | Editor/script.js:1698-1704 | Redo keeps the invariant. |
| EditingProperties.TrimEditsValid | Editor/script.js:214-248 | Set start, set end, reset and the toggle keep the invariant. |
| EditingProperties.DragValid | Editor/script.js:255-304 | Pressing, dragging and releasing a handle keep the invariant. |
| EditingProperties.ClickEditsValid | Editor/script.js:1148-1253 | Test clicks, video clicks and deletions keep the invariant. |
| EditingProperties.EffectsKeepHistory | Editor/script.js:1693 | Applying or reverting a record leaves both stacks alone. |
| EditingProperties.UndoMovesTop | Editor/script.js:1690-1696 | Undo moves the newest record from the undo stack to the redo stack; with nothing to undo the state is unchanged. |
| EditingProperties.RedoMovesTop | Editor/script.js:1698-1704 | Redo moves the newest undone record back to the undo stack; with nothing to redo the state is unchanged. |
| EditingProperties.UndoRedoHistory | Editor/script.js:1690-1704 | Undo then redo puts both stacks back. |
| EditingProperties.RedoUndoHistory | Editor/script.js:1690-1704 | Redo then undo puts both stacks back. |
| EditingProperties.PushThenUndo | Editor/script.js:1683-1696 | After a new record there is nothing to redo, and an undo moves exactly that record to the redo stack. |
| EditingProperties.SeekSeek | Editor/script.js:1036 | Seeking twice is the same as seeking to the second position. |
| EditingProperties.UndoTrimRecord | Editor/script.js:223-224 | Undoing a trim record restores the earlier window and seeks to its start; redo re-applies the later window and seeks to its start. |
| EditingProperties.SetTrimStartRoundTrip | Editor/script.js:214-227 | Undoing set start gives the earlier state, sought to its trim start, with the record on the redo stack; redo gives exactly the state set start produced. |
| EditingProperties.SetTrimEndRoundTrip | Editor/script.js:229-242 | Undoing set end gives the earlier state, sought to its trim start, with the record on the redo stack; redo gives the state set end produced, sought to its new start. |
| EditingProperties.DragRoundTrip | Editor/script.js:283-304 | Undoing a drag that moved the window restores the window from the press and the undo stack; redo restores the dragged window; the drag has ended. |
| EditingProperties.DragUnchangedRecordsNothing | Editor/script.js:294-300 | A drag that left the window where it was records nothing. |
| EditingProperties.TestClickRoundTrip | Editor/script.js:1148-1167 | When the markers render, the test click appends one click; undo removes exactly it and redo puts back the same click. |
| EditingProperties.TestClickNeedsVideo | Editor/script.js:1149-1152 | Without a video the test click does nothing. |
| EditingProperties.RenderAppend | Editor/script.js:127-131 | Appending a click keeps the markers rendering exactly when they rendered before. |
| EditingProperties.RenderRemove | Editor/script.js:1763-1766 | Removing an entry from a list that renders leaves a list that renders. |
| EditingProperties.VideoClickRoundTrip | Editor/script.js:1240-1253 | When the markers render, a click on the video appends one click at the playhead; undo removes exactly it, and redo restores it when the playhead has not moved. |
| EditingProperties.VideoClickRedoTakesPlayhead | Editor/script.js:1250 | When the markers render, redoing a video click after a seek inserts the click at the new playhead time. |
| EditingProperties.VideoClickAfterUndefined | Editor/script.js:1244-1248 | With an undefined entry in the list, a click on the video is appended but not recorded, because the render before `pushAction` throws. |
| EditingProperties.TestClickAfterUndefined | Editor/script.js:1158-1162 | With an undefined entry in the list, the test click is appended but neither stack changes. |
| EditingProperties.LoadAfterUndefined | Editor/script.js:156-160 | With an undefined entry in the list, loading a video sets its duration and playhead 0 but skips the trim reset. |
| EditingProperties.DeleteRoundTrip | Editor/script.js:1759-1776 | When the markers render and the selection names a click, the delete removes exactly it. Undo restores the list and redo removes the same index again. |
| EditingProperties.StaleDeleteRecordsUndefined | Editor/script.js:1759-1776 | As written, a selection past the end of the list removes nothing, yet records a deletion of undefined and empties the redo stack; undoing it appends undefined to the list. |
| EditingProperties.DeleteStaleSelection | Editor/script.js:1759-1776 | The corrected handler drops a selection past the end of the list and changes nothing else. |
| EditingProperties.CorrectedAgreesInRange | Editor/script.js:1759-1776 | With no selection, or one that names a click, the corrected handler does what the handler as written does. |
| EditingProperties.DeleteNeverLosesClicks | Editor/script.js:1759-1776 | In the corrected handler, a delete either records nothing or records a deletion whose undo gives back the list it started from. |
| EditingProperties.CorrectedDeleteValid | Editor/script.js:1759-1776 | The corrected handler keeps the invariant. |
| EditingProperties.AsWrittenRestoresIffInRange | Editor/script.js:1759-1776 | As written, with the markers rendering, delete then undo gives the list back exactly when the selection still names a click. |
| EditingProperties.StaleSelectionInsertsUndefined | Editor/script.js:1759-1776 | As written: add a test click, select its marker, clear the list, delete, undo. The delete records a deletion of undefined on top of the click's record, the redo stack is empty, and the undo leaves one undefined entry, after which the markers no longer render. |
| EditingProperties.StaleSelectionCorrected | Editor/script.js:1759-1776 | The corrected handler in that situation only drops the selection, so the next undo takes back the test click and leaves the list empty. |
| EditingProperties.PlayStartsInsideTrim | Editor/script.js:823-826 | With trimming on, play starts inside the trim window, and a playhead already inside it does not move. |
| EditingProperties.PlayButtonPauses | Editor/script.js:813-821 | Pressing play while playing only pauses. |
| EditingProperties.FrameStopsAtTrimEnd | Editor/script.js:766-778 | After the frame check, playback with trimming on is before the trim end; earlier playback goes on, and the playhead does not move. |
| EditingProperties.EndedRewinds | Editor/script.js:1008-1022 | When the video ends with trimming on, playback stops and the playhead returns to the trim start. |
| EditingProperties.TimelineClickInsideTrim | Editor/script.js:1032-1034 | A timeline click with trimming on lands inside the trim window. |
| EditingProperties.DragKeepsGap | Editor/script.js:274-278 | While a handle is held the window never closes below 0.1 s, and the other end stays put. |
| EditingProperties.ToggleOnSelectsAll | Editor/script.js:317-330 | Switching trimming on with a loaded video selects the whole video and seeks to 0. |
| EditingProperties.DeleteKeyWins | Editor/script.js:1780-1784 | With a marker selected, the Delete key deletes it whatever modifiers are held. |
| EditingProperties.UndoRedoKeys | Editor/script.js:1786-1792 | With a record to undo and no marker selected, Ctrl+Z then Ctrl+Y leaves both stacks where they started. |
| Music.Load | Editor/script.js:508-531 | A loaded file is placed whole at video time 0 and switched on, its player paused at the remembered volume. |
| Music.Toggle | Editor/script.js:540-549 | The toggle flips the music; a loaded player is muted while it is off and at the set volume while on. |
| Music.SetVolume | Editor/script.js:552-559 | The volume becomes the slider's percentage as a fraction; the player follows only while the music is on. |
| Music.StartSlider | Editor/script.js:562-575 | With a file, the clip start moves to the slider's fraction of the file, pushing the end as set start does. Without a file nothing changes. |
| Music.EndSlider | Editor/script.js:578-591 | With a file, the clip end moves to the slider's fraction of the file, pulling the start as set end does. Without a file nothing changes. |
| Music.PositionSlider | Editor/script.js:594-602 | With a video, the clip is placed at the slider's fraction of the video, inside it; without a video nothing changes. |
| Music.PressTrack | Editor/script.js:640-666 | Pressing the track or a handle starts a drag of that part and moves nothing. |
| Music.MovedPosition | Editor/script.js:680-687 | Dragging the body places the clip at the cursor minus the grab offset when that fits, and never before 0. When the clip is no longer than the video it also ends within the video; a longer clip is placed at 0. |
| Music.Remove | Editor/script.js:717-734 | Removing drops the player, switches the music off and zeroes every placement value, keeping the volume. |
| Music.ClipTime | Editor/script.js:782-787 | The music time is the clip start plus the time since the clip's placement, and lies inside the clip when the video time does. |
| Music.Sync | Editor/script.js:781-804 | The clip is in range when 0 <= t - position <= length. In range, a paused player starts at the target and a playing one is re-seeked only beyond 0.5 s of drift. Out of range, a playing player pauses. Inactive music is left alone. |
| Music.SyncInClip | Editor/script.js:785-797 | After a frame in range, the music plays within 0.5 s of where it belongs. |
| Music.SyncOffClip | Editor/script.js:798-803 | After a frame out of range, the music is paused where it was. |
| Music.SyncTouchesOnlyPlayer | Editor/script.js:781-804 | Synchronising changes only the player: placement, switches and drag state stay as they were. |
| Music.SyncSettles | Editor/script.js:781-804 | A second decision at the same video time asks for nothing more. |
| Music.PlayAgreesWithFrame | Editor/script.js:830-836 | Pressing play starts a paused player exactly where the first frame would. |
| Music.MusicScenario | Editor/script.js:781-804 | A clip of 0-3 s placed at 5 s: at 6 s a paused player starts at 1 s. At 8 s, its last instant, a player left at 1 s is re-seeked to 3 s and one at 3 s is left alone. At 9 s it pauses. |
| Music.PlacementKeepsValid | Editor/script.js:497-734 | Loading, the three sliders, dragging and removing keep the clip ordered and the file length and position non-negative. |
| Music.StartSliderValid | Editor/script.js:562-575 | The start slider keeps the placement invariant. |
| Music.PointerMoveKeepsClip | Editor/script.js:692-707 | Dragging either handle keeps at least 0.1 s of music and leaves the other end alone; dragging the body keeps the clip. |
| Music.ToggleTwice | Editor/script.js:540-549 | Switching the music off and on again restores the player's volume. |
| Music.MusicTrack.constructor | Editor/script.js:45-55 | No music is loaded, it is switched off, and the volume is 1. |
| Music.MusicTrack.OnMusicLoaded | Editor/script.js:508-531 | The new state is Load of the old one: the file is placed whole at video time 0 and switched on. |
| Music.MusicTrack.OnToggle | Editor/script.js:540-549 | The new state is Toggle of the old one: the music is switched on or off, muting a loaded player while off. |
| Music.MusicTrack.OnVolume | Editor/script.js:552-559 | The new state is SetVolume of the old one: the volume becomes the slider percentage as a fraction. |
| Music.MusicTrack.OnStartSlider | Editor/script.js:562-575 | The new state is StartSlider of the old one: with a file, the clip start follows the slider. |
| Music.MusicTrack.OnEndSlider | Editor/script.js:578-591 | The new state is EndSlider of the old one: with a file, the clip end follows the slider. |
| Music.MusicTrack.OnPositionSlider | Editor/script.js:594-602 | The new state is PositionSlider of the old one: with a video, the clip is placed at the slider's fraction of it. |
| Music.MusicTrack.OnPress | Editor/script.js:640-666 | The new state is PressTrack of the old one: A drag of the pressed part begins; nothing moves. |
| Music.MusicTrack.OnPointerMove | Editor/script.js:672-710 | The new state is PointerMove of the old one: while dragging with a file and a video, the held part follows the cursor; otherwise nothing changes. |
| Music.MusicTrack.OnPointerUp | Editor/script.js:712-715 | The new state is PointerUp of the old one: releasing ends the drag. |
| Music.MusicTrack.OnRemove | Editor/script.js:717-734 | The new state is Remove of the old one: the player is dropped and the placement zeroed. |
| Music.MusicTrack.OnFrame | Editor/script.js:767-804 | The new state is Frame of the old one: stopped at the trim end, the music pauses; otherwise the sync decision is carried out on the player. |
| Music.MusicTrack.OnVideoPlay | Editor/script.js:829-836 | The new state is StartWithVideo of the old one: with play pressed, the music starts at the clip time only if the video time is in range. |
| Music.MusicTrack.OnVideoStop | Editor/script.js:814-815 | The new state is PauseAudio of the old one: stopping the video pauses the music. |
| Export.ExportRangeOrdered | Editor/script.js:1316-1325 | The export range is the trim window when trimming is on, otherwise the whole video, and it runs forwards. |
| Export.FitWithin | Editor/script.js:1393-1399 | When the bounds are wider than the video, the height fills them and the width fits inside; otherwise the width fills them and the height fits inside. |
| Export.LetterboxFits | Editor/script.js:1379-1401 | With a background, the card is inset 30 on every side. The frame keeps the video's aspect ratio, fills the inner box in one direction, stays inside it, and is centred in the card. |
| Export.LetterboxPlain | Editor/script.js:1402-1409 | Without a background the video fills the whole canvas. |
| Export.WebcamCropCentred | Editor/script.js:1579-1587 | The webcam crop is a square with the shorter side's length, centred in the image. |
| Export.WebcamBoxPlaced | Editor/script.js:1556-1568 | The webcam bubble is square. Without a preview it sits 30 from the frame's corner; with one it keeps its relative place, scaled. |
| Export.WebcamSeekSettles | Editor/script.js:1470-1477 | A playing webcam is seeked exactly when it has drifted more than 0.1 s, never past the recording or 0.1 s before its own end, and once seeked it is left alone. |
| Export.Along | Editor/script.js:1532-1533 | The zoom centre lies on the frame side for an origin between 0 % and 100 %. |
| Export.NoZoomIsIdentity | Editor/script.js:1531-1537 | The video is transformed exactly when the zoom is active and enlarges; otherwise every point stays put. |
| Export.ZoomCoversFrame | Editor/script.js:1531-1538 | With the origin in the frame, the zoom centre stays fixed and the zoomed video still covers the clipped frame. |
| Export.CaptionBoxCentred | Editor/script.js:1605-1616 | The caption box and its text are centred across the canvas, with the box 120 above the bottom and 50 high. |
| Export.ExportCaptionIsLookup | Editor/script.js:1601-1603 | A caption is drawn only when captions are on, and then it is exactly the one the editor's lookup finds. |
| Export.Progress | Editor/script.js:1622 | Progress is the clamped fraction of the range, in [0, 1]. |
| Export.ProgressPercent | Editor/script.js:1623 | The percentage shown is a whole number from 0 to 100. |
| Export.ProgressMonotone | Editor/script.js:1622-1623 | Progress and its percentage never decrease as the recording time advances. |
| Export.ProgressEnds | Editor/script.js:1622-1624 | The percentage is 0 at the start and 100 from the end on; the ring's offset goes from 201 to 0. |
| Export.FramesRendered | Editor/script.js:1640-1651 | No more frames are drawn than there are frame times. |
| Export.FramesStopAtEnd | Editor/script.js:1640-1651 | Every frame drawn before the last is short of the end; when frame times remain, the last frame drawn was within 1 ms of the end; at least one frame is drawn. |
| Http.Utf8Char | ScreenRecorder/Sources/main.swift:140 | A character encodes to 1 to 4 bytes, one byte exactly for ASCII, and that byte is its code. |
| Http.Utf8 | ScreenRecorder/Sources/main.swift:140 | The UTF-8 of a string is at least as long as it, and byte for byte the string when it is ASCII. |
| Http.Token | ScreenRecorder/Sources/main.swift:72 | A token is the longest prefix without a space. |
| Http.Words | ScreenRecorder/Sources/main.swift:72 | The request line's words are non-empty and contain no space. |
| Http.RequestLine | ScreenRecorder/Sources/main.swift:72-76 | A request is served by its second word exactly when it has at least two words and the first is GET; otherwise it gets 400. |
| Http.ExtraSpacesIgnored | ScreenRecorder/Sources/main.swift:72 | Runs of spaces between the words count as one. |
| Http.BadRequestIff | ScreenRecorder/Sources/main.swift:72-76 | Only a request the line check refuses is routed to 400. |
| Http.AbsolutePath | ScreenRecorder/Sources/main.swift:82-87 | An http:// or https:// target is replaced by its URL path, or / when that is empty; anything else is kept. |
| Http.StripQuery | ScreenRecorder/Sources/main.swift:90-92 | Stripping the query keeps the prefix before the first '?'. |
| Http.StripQueryAt | ScreenRecorder/Sources/main.swift:90-92 | A path followed by ?query reduces to the path. |
| Http.QueryIgnored | ScreenRecorder/Sources/main.swift:89-97 | A query string does not change the path an origin-form target is routed on. |
| Http.AbsoluteLikeOrigin | ScreenRecorder/Sources/main.swift:82-97 | An absolute-form target is routed exactly like the origin-form target its URL path names. |
| Http.NormaliseTarget | ScreenRecorder/Sources/main.swift:78-97 | Reassigning the path step by step gives the normalised path. |
| Http.VideoRoute | ScreenRecorder/Sources/main.swift:100-107 | /video/name is name joined to the video folder, or the missing-folder 404 when none is set. |
| Http.EditorRoute | ScreenRecorder/Sources/main.swift:108-113 | Every other path p, except /, is Editor followed by p, joined to the resources. |
| Http.IndexRoute | ScreenRecorder/Sources/main.swift:111-112 | / is the editor's index.html. |
| Http.LocalHttpServer.constructor | ScreenRecorder/Sources/main.swift:13-16 | The server keeps its resources path and starts without a video folder. |
| Http.LocalHttpServer.SetVideoFolder | ScreenRecorder/Sources/main.swift:18-20 | The video folder is set to the path. |
| Http.LocalHttpServer.HandleRequest | ScreenRecorder/Sources/main.swift:65-115 | The bytes sent are the framed answer to the request's route: 400, the missing-folder 404, or the file. |
| Http.LocalHttpServer.Dispatch | ScreenRecorder/Sources/main.swift:99-114 | Routing a path answers with exactly what its route specifies. |
| Http.FileReply | ScreenRecorder/Sources/main.swift:118-127 | A file that exists is served with status 200, its bytes and its content type. A missing file gets 404 in plain text, naming the path. |
| Http.ServeFile | ScreenRecorder/Sources/main.swift:118-127 | The bytes sent are the framed file reply. |
| Http.SendResponse | ScreenRecorder/Sources/main.swift:129-142 | The response is the header's UTF-8 followed by the body, unchanged at the end. |
| Http.ResponseFraming | ScreenRecorder/Sources/main.swift:129-141 | The header splits at CRLF into exactly its lines, ending with a blank line. Its Content-Length is the number of bytes after the header, and those bytes are the body. |
| Http.HeaderSplits | ScreenRecorder/Sources/main.swift:130-138 | With a status and content type free of carriage returns, the header splits at CRLF into exactly its seven lines. |
| Http.AfterLast | ScreenRecorder/Sources/main.swift:149 | What follows the last separator is a suffix without the separator, preceded by it when shorter than the string. |
| Http.LowerChar | ScreenRecorder/Sources/main.swift:149 | Lower-casing maps A to Z onto a to z and leaves every other character alone. |
| Http.ExtensionOf | ScreenRecorder/Sources/main.swift:149 | The extension of path.ext, for an ext without '.' or '/', is ext. |
| Http.MimeOfExtensionTable | ScreenRecorder/Sources/main.swift:150-161 | The switch gives each listed extension its fixed type and every other extension application/octet-stream. |
| Http.MimeTypeOf | ScreenRecorder/Sources/main.swift:148-162 | The content type of path.ext depends only on ext with its letters lower-cased. |
| Http.JpgIsJpeg | ScreenRecorder/Sources/main.swift:158 | A .jpg file is image/jpeg. |
| Http.UpperJpegIsJpeg | ScreenRecorder/Sources/main.swift:149-158 | A .JPEG file is image/jpeg too: case does not matter, and both spellings are JPEG. |
| Http.NoExtensionDefault | ScreenRecorder/Sources/main.swift:149-160 | A file name without a dot gets application/octet-stream. |

## Left out

- DOM and UI work is outside the model, and so are media elements and scheduling. Not modelled: rendering, button state, status texts, `requestAnimationFrame`, `MediaRecorder`, `AudioContext` and canvas drawing. The live loop is modelled only as frame times (`Playback(t)` and `Music.MusicTrack.OnFrame`), and the export as the frame times it sees.
- Arithmetic is over mathematical reals. IEEE-754 doubles, their rounding, NaN apart from a failed parse, and Infinity are not modelled. Where the editor divides by a zero pan or zoom-out speed, the model requires a non-zero speed. The exception is the fallback's zoom-out progress, where the model gives the 1 that the minimum makes of +Infinity.
- The media element's seek clamp to [0, duration] is modelled as a clamp. Its asynchronous completion is not.
- `parseInt` and `parseFloat` are modelled on decimal text. Not modelled: a hexadecimal `0x` prefix, exponents, `Infinity`, and the full JavaScript white-space set beyond the characters `trim` knows in the model.
- JavaScript strings are UTF-16. The model uses sequences of characters, so characters outside the Basic Multilingual Plane count once instead of twice for `formatFileName`'s 25-character cut. Swift's string comparison by grapheme and canonical equivalence is modelled as equality of character sequences.
- Http: the socket, `NWListener`, `NWConnection`, the port, dispatch queues and the asynchronous receive and send are not modelled. A request is a string, and a request that is not valid UTF-8 is dropped by the source without a reply; that path is not modelled.
- Http: `URL(string:).path`, `removingPercentEncoding` and `NSString.appendingPathComponent` are parameters of the model, as functions it does not interpret. `FileManager` is a map from paths to bytes. A file that exists but cannot be read is the same as a missing file, which is also the source's answer.
- Http: `pathExtension` is modelled as what follows the last '.' of the last path component. The Foundation rules for hidden files, trailing slashes and extensions with spaces are not modelled. `lowercased()` is modelled on the letters A to Z only.
- Undefined click entries: the model follows them through the click list, the undo records and the handlers that render markers before recording. The later failures they cause outside the editing state (the zoom computation and the preview reading `c.time`) are not modelled, and `Editing.Editor.DoSelectClickMarker` and `Editing.Editor.OnMarkerDoubleClick` (`Editing.SeekToMarker`) accept any index in range, including one past the first undefined entry, whose marker was never rendered.
- Undo of sliders and toggles is not modelled (`Editor/script.js:1796-1832`). It replays DOM event handlers. In the source every `.slider` change and `.toggle` click also calls `pushAction`, which empties the redo stack; the modelled stacks hold only the modelled edits, so `Editing.Editor.DoToggleTrim` and the `Music` slider and toggle operations leave them unchanged.
- Importing clicks as JSON and captions as JSON is not modelled, because those are browser parsers. File discovery is left out too.
- The music file's asynchronous load is modelled as one step with the file's duration as a parameter. A load error changes nothing in the model's state and is not represented.
- `Math.random` in the test click is a parameter: the time used when the playhead is at 0, and the coordinates.
- Export: `measureText` is a parameter (the text width). `Export.Letterbox` is defined for any canvas whose inner box has a non-zero height; its fit and centring properties (`Export.LetterboxFits`) are proved for canvases larger than the paddings, since smaller ones give negative sizes in the source. The gradient colours, rounded corners, shadows and the audio mix are not modelled.
- The music sync decision during export is not modelled, because the export does not mix music.
- Choreography: settings changes between frames are outside the model, because each evaluation takes the settings as one immutable record.

## Findings

| source | as written | input that shows it | evidently intended | confidence | as-written member | corrected member |
|---|---|---|---|---|---|---|
| Editor/script.js:1759-1776 | `deleteSelectedClick` checks only that some index is selected. It removes `clicks[idx]` and records that value, even when the index no longer names a click, for example after "clear clicks" or after undoing the click's addition. Undoing that deletion splices `undefined` into the click list. | Load a video, add one click, select its marker, press "clear clicks", press Delete, then undo: the list holds one `undefined` entry. | A selection that no longer names a click is dropped and nothing is recorded, so no undo can insert a missing click. | not executed | EditingProperties.StaleSelectionInsertsUndefined | EditingProperties.StaleSelectionCorrected |

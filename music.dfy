/**
 * The background-music track of the editor (Editor/script.js): a clip
 * `[start, end]` of the music file placed at `position` on the video timeline,
 * its sliders and drag handles, and the per-frame decision that keeps the
 * music player in step with the video.
 */
module Music {
  import opened Wrappers
  import opened Editing

  /** The music player's observable state: paused or not, its position and its volume. */
  datatype Audio = Audio(paused: bool, time: real, volume: real)

  datatype MusicDragTarget = Track | StartHandle | EndHandle

  /**
   * The music globals. `clip` is `(musicStart, musicEnd)` in music-file time;
   * `audio` is `None` while no music is loaded; `dragOffset` is where the
   * track was grabbed, as a fraction of the timeline width.
   */
  datatype MusicState = MusicState(
    enabled: bool,
    volume: real,
    clip: TrimRange,
    position: real,
    duration: real,
    audio: Option<Audio>,
    dragging: bool,
    dragTarget: Option<MusicDragTarget>,
    dragOffset: real)

  const NoMusic: MusicState :=
    MusicState(false, 1.0, TrimRange(0.0, 0.0), 0.0, 0.0, None, false, None, 0.0)

  // ---------------------------------------------------------------------------
  // Placement.

  /** A music file of the given duration has loaded: the whole file, at the start of the video, switched on. */
  function Load(m: MusicState, fileDuration: real): (m': MusicState)
    ensures m'.clip == TrimRange(0.0, fileDuration) && m'.position == 0.0
    ensures m'.enabled && m'.audio.Some? && m'.audio.value.paused
    ensures m'.audio.value.volume == m.volume
  {
    m.(duration := fileDuration, clip := TrimRange(0.0, fileDuration), position := 0.0,
       enabled := true, audio := Some(Audio(true, 0.0, m.volume)))
  }

  /** The music toggle: a loaded player is muted while the music is off. */
  function Toggle(m: MusicState): (m': MusicState)
    ensures m'.enabled == !m.enabled
    ensures m'.audio.Some? <==> m.audio.Some?
    ensures m'.audio.Some? ==> m'.audio.value.volume == if m'.enabled then m.volume else 0.0
  {
    var enabled := !m.enabled;
    m.(enabled := enabled,
       audio := if m.audio.Some? then Some(m.audio.value.(volume := if enabled then m.volume else 0.0)) else None)
  }

  /** The volume slider at `value` percent; the player follows only while the music is on. */
  function SetVolume(m: MusicState, value: real): (m': MusicState)
    ensures m'.volume == value / 100.0
    ensures 0.0 <= value <= 100.0 ==> 0.0 <= m'.volume <= 1.0
    ensures m.audio.Some? && m.enabled ==> m'.audio == Some(m.audio.value.(volume := value / 100.0))
    ensures !(m.audio.Some? && m.enabled) ==> m'.audio == m.audio
  {
    var v := value / 100.0;
    m.(volume := v, audio := if m.audio.Some? && m.enabled then Some(m.audio.value.(volume := v)) else m.audio)
  }

  /** The clip-start slider at `value` percent of the file; with no file it does nothing. */
  function StartSlider(m: MusicState, value: real): (m': MusicState)
    ensures m.duration == 0.0 ==> m' == m
    ensures m.duration != 0.0 ==> m' == m.(clip := SetStart(m.clip, value / 100.0 * m.duration, m.duration))
  {
    if m.duration == 0.0 then m
    else m.(clip := SetStart(m.clip, value / 100.0 * m.duration, m.duration))
  }

  /** The clip-end slider at `value` percent of the file; with no file it does nothing. */
  function EndSlider(m: MusicState, value: real): (m': MusicState)
    ensures m.duration == 0.0 ==> m' == m
    ensures m.duration != 0.0 ==> m' == m.(clip := SetEnd(m.clip, value / 100.0 * m.duration))
  {
    if m.duration == 0.0 then m
    else m.(clip := SetEnd(m.clip, value / 100.0 * m.duration))
  }

  /** The position slider at `value` percent of the video; with no video it does nothing. */
  function PositionSlider(m: MusicState, value: real, videoDuration: real): (m': MusicState)
    ensures videoDuration == 0.0 ==> m' == m
    ensures videoDuration != 0.0 ==> m'.position == value / 100.0 * videoDuration && m'.clip == m.clip
    ensures videoDuration > 0.0 && 0.0 <= value <= 100.0 ==> 0.0 <= m'.position <= videoDuration
  {
    if videoDuration == 0.0 then m
    else
      FractionOfDuration(value / 100.0, videoDuration);
      m.(position := value / 100.0 * videoDuration)
  }

  lemma FractionOfDuration(p: real, d: real)
    ensures 0.0 <= p <= 1.0 && 0.0 <= d ==> 0.0 <= p * d <= d
  {
    if 0.0 <= p <= 1.0 && 0.0 <= d {
      assert (1.0 - p) * d >= 0.0;
    }
  }

  /** Pressing on the track body (grabbed at `offset` of the timeline width) or on one of its handles. */
  function PressTrack(m: MusicState, target: MusicDragTarget, offset: real): (m': MusicState)
    ensures m'.dragging && m'.dragTarget == Some(target)
    ensures m'.clip == m.clip && m'.position == m.position
  {
    m.(dragging := true, dragTarget := Some(target), dragOffset := if target == Track then offset else m.dragOffset)
  }

  /**
   * Moving the track so that its grab point sits under the pointer, kept
   * inside the video: never before 0 and, when the clip fits, never past its end.
   */
  function MovedPosition(ratio: real, offset: real, clipLength: real, videoDuration: real): (p: real)
    ensures 0.0 <= p
    ensures clipLength <= videoDuration ==> p + clipLength <= videoDuration
    ensures clipLength > videoDuration ==> p == 0.0
    ensures 0.0 <= ratio * videoDuration - offset * videoDuration <= videoDuration - clipLength ==>
      p == ratio * videoDuration - offset * videoDuration
  {
    Clamp(0.0, videoDuration - clipLength, ratio * videoDuration - offset * videoDuration)
  }

  /** Moving the pointer to fraction `ratio` of the timeline while the track or a handle is held. */
  function PointerMove(m: MusicState, ratio: real, videoDuration: real): MusicState
  {
    if !m.dragging || m.duration == 0.0 || videoDuration == 0.0 then m
    else
      var percent := Clamp(0.0, 1.0, ratio);
      match m.dragTarget
      case Some(Track) =>
        m.(position := MovedPosition(percent, m.dragOffset, m.clip.end - m.clip.start, videoDuration))
      case Some(StartHandle) => m.(clip := DragHandle(m.clip, Some(Left), percent * m.duration))
      case Some(EndHandle) => m.(clip := DragHandle(m.clip, Some(Right), percent * m.duration))
      case None => m
  }

  function PointerUp(m: MusicState): MusicState
  {
    m.(dragging := false, dragTarget := None)
  }

  /** Removing the music: the player is dropped and every placement value returns to 0. */
  function Remove(m: MusicState): (m': MusicState)
    ensures m'.audio.None? && !m'.enabled
    ensures m'.clip == TrimRange(0.0, 0.0) && m'.position == 0.0 && m'.duration == 0.0
    ensures m'.volume == m.volume
  {
    m.(audio := None, enabled := false, duration := 0.0, clip := TrimRange(0.0, 0.0), position := 0.0)
  }

  // ---------------------------------------------------------------------------
  // Keeping the music in step with the video.

  /** Whether the music takes part at all: loaded, switched on and of known length. */
  predicate Active(m: MusicState)
  {
    m.audio.Some? && m.enabled && m.duration > 0.0
  }

  /** Video time `t` falls on the clip: at or after its placement and no later than its length past it. */
  predicate InClip(m: MusicState, t: real)
  {
    0.0 <= t - m.position <= m.clip.end - m.clip.start
  }

  /** The point of the music file that belongs to video time `t`. */
  function ClipTime(m: MusicState, t: real): (r: real)
    ensures InClip(m, t) ==> m.clip.start <= r <= m.clip.end
    ensures r - m.clip.start == t - m.position
  {
    m.clip.start + (t - m.position)
  }

  /** What the live loop asks of the music player. */
  datatype SyncAction = PlayAt(at: real) | SeekTo(to: real) | PauseMusic | NoChange

  /** Drift, in seconds, that the live loop tolerates before re-seeking the music. */
  const MaxDrift: real := 0.5


  /** The live loop's music decision at video time `t`. */
  function Sync(m: MusicState, t: real): (a: SyncAction)
    ensures !Active(m) ==> a == NoChange
    ensures a.PlayAt? ==> Active(m) && InClip(m, t) && m.audio.value.paused && a.at == ClipTime(m, t)
    ensures a.SeekTo? ==>
      Active(m) && InClip(m, t) && !m.audio.value.paused && a.to == ClipTime(m, t) && Abs(m.audio.value.time - a.to) > MaxDrift
    ensures a == PauseMusic <==> Active(m) && !InClip(m, t) && !m.audio.value.paused
    ensures Active(m) && InClip(m, t) && !m.audio.value.paused && Abs(m.audio.value.time - ClipTime(m, t)) <= MaxDrift
      ==> a == NoChange
  {
    if !Active(m) then NoChange
    else if InClip(m, t) then
      var target := ClipTime(m, t);
      if m.audio.value.paused then PlayAt(target)
      else if Abs(m.audio.value.time - target) > MaxDrift then SeekTo(target)
      else NoChange
    else if !m.audio.value.paused then PauseMusic
    else NoChange
  }

  /** Carrying out a decision on the player. */
  function Perform(m: MusicState, a: SyncAction): MusicState
  {
    if m.audio.None? then m
    else
      var p := m.audio.value;
      match a
      case PlayAt(x) => m.(audio := Some(p.(paused := false, time := x)))
      case SeekTo(x) => m.(audio := Some(p.(time := x)))
      case PauseMusic => m.(audio := Some(p.(paused := true)))
      case NoChange => m
  }

  /** Pausing the player, as every stop of the video does. */
  function PauseAudio(m: MusicState): MusicState
  {
    if m.audio.Some? then m.(audio := Some(m.audio.value.(paused := true))) else m
  }

  /**
   * One frame of the live loop, given whether the trim check has just stopped
   * playback: then the music is paused and not synchronised.
   */
  function Frame(m: MusicState, stoppedAtTrimEnd: bool, t: real): MusicState
  {
    if stoppedAtTrimEnd then PauseAudio(m) else Perform(m, Sync(m, t))
  }

  /** Pressing play with the video at `t`: the music starts only if `t` falls on the clip. */
  function StartWithVideo(m: MusicState, t: real): MusicState
  {
    if Active(m) && InClip(m, t) then
      m.(audio := Some(m.audio.value.(time := ClipTime(m, t), paused := false)))
    else m
  }

  // ---------------------------------------------------------------------------
  // Properties.

  /** After one frame on the clip the music plays, within the tolerated drift of where it belongs. */
  lemma SyncInClip(m: MusicState, t: real)
    requires Active(m) && InClip(m, t)
    ensures var a := Perform(m, Sync(m, t)).audio;
      a.Some? && !a.value.paused && Abs(a.value.time - ClipTime(m, t)) <= MaxDrift
  {
  }

  /** After one frame off the clip the music is paused where it was. */
  lemma SyncOffClip(m: MusicState, t: real)
    requires Active(m) && !InClip(m, t)
    ensures var a := Perform(m, Sync(m, t)).audio;
      a.Some? && a.value.paused && a.value.time == m.audio.value.time
  {
  }

  /** Synchronising touches the player only: placement, switches and drag state are left alone. */
  lemma SyncTouchesOnlyPlayer(m: MusicState, t: real)
    ensures Perform(m, Sync(m, t)).(audio := m.audio) == m
    ensures Perform(m, Sync(m, t)).audio.Some? <==> m.audio.Some?
  {
  }

  /** A second decision at the same video time asks for nothing more. */
  lemma SyncSettles(m: MusicState, t: real)
    ensures Sync(Perform(m, Sync(m, t)), t) == NoChange
  {
    SyncTouchesOnlyPlayer(m, t);
  }

  /** Pressing play starts the music exactly where the first frame would. */
  lemma PlayAgreesWithFrame(m: MusicState, t: real)
    requires m.audio.Some? && m.audio.value.paused
    ensures StartWithVideo(m, t) == Perform(m, Sync(m, t))
  {
  }

  /** A clip of 0 to 3 s placed at 5 s: at 6 s it plays from 1 s, at 8 s (its last instant) it keeps playing, at 9 s it pauses. */
  lemma MusicScenario(a: Audio)
    requires a.paused
    ensures var m := MusicState(true, 1.0, TrimRange(0.0, 3.0), 5.0, 10.0, Some(a), false, None, 0.0);
      && Sync(m, 6.0) == PlayAt(1.0)
      && var m6 := Perform(m, Sync(m, 6.0));
      && Sync(m6, 8.0) == SeekTo(3.0)
      && Sync(m6.(audio := Some(m6.audio.value.(time := 3.0))), 8.0) == NoChange
      && Sync(m6, 9.0) == PauseMusic
  {
  }

  /** The placement invariant: an ordered clip, a non-negative file length and a non-negative start in the video. */
  predicate MusicValid(m: MusicState)
  {
    Ordered(m.clip) && 0.0 <= m.duration && 0.0 <= m.position
  }

  /** Every placement operation keeps the invariant for slider values in [0, 100] and non-negative durations. */
  lemma PlacementKeepsValid(m: MusicState, value: real, ratio: real, videoDuration: real, fileDuration: real)
    requires MusicValid(m) && 0.0 <= value <= 100.0 && 0.0 <= videoDuration && 0.0 <= fileDuration
    ensures MusicValid(Load(m, fileDuration))
    ensures MusicValid(StartSlider(m, value))
    ensures MusicValid(EndSlider(m, value))
    ensures MusicValid(PositionSlider(m, value, videoDuration))
    ensures MusicValid(PointerMove(m, ratio, videoDuration))
    ensures MusicValid(Remove(m))
  {
    StartSliderValid(m, value);
  }

  lemma StartSliderValid(m: MusicState, value: real)
    requires MusicValid(m) && 0.0 <= value <= 100.0
    ensures MusicValid(StartSlider(m, value))
  {
    if m.duration != 0.0 {
      var now := value / 100.0 * m.duration;
      FractionOfDuration(value / 100.0, m.duration);
      assert now <= m.duration;
      assert Ordered(SetStart(m.clip, now, m.duration));
    }
  }

  /** Dragging either handle keeps at least 0.1 s of music; dragging the body keeps the clip's length. */
  lemma PointerMoveKeepsClip(m: MusicState, ratio: real, videoDuration: real)
    requires m.dragging && m.duration != 0.0 && videoDuration != 0.0
    ensures m.dragTarget == Some(Track) ==> PointerMove(m, ratio, videoDuration).clip == m.clip
    ensures m.dragTarget == Some(StartHandle) || m.dragTarget == Some(EndHandle) ==>
      PointerMove(m, ratio, videoDuration).clip.end - PointerMove(m, ratio, videoDuration).clip.start >= 0.1
    ensures m.dragTarget == Some(StartHandle) ==> PointerMove(m, ratio, videoDuration).clip.end == m.clip.end
    ensures m.dragTarget == Some(EndHandle) ==> PointerMove(m, ratio, videoDuration).clip.start == m.clip.start
  {
  }

  /** Switching the music off and on again restores the player's volume. */
  lemma ToggleTwice(m: MusicState)
    ensures Toggle(Toggle(m)).enabled == m.enabled
    ensures m.audio.Some? && m.enabled ==> Toggle(Toggle(m)).audio == Some(m.audio.value.(volume := m.volume))
  {
  }

  // ---------------------------------------------------------------------------
  // The music state updated in place.

  class MusicTrack {
    var enabled: bool
    var volume: real
    var clip: TrimRange
    var position: real
    var duration: real
    var audio: Option<Audio>
    var dragging: bool
    var dragTarget: Option<MusicDragTarget>
    var dragOffset: real

    function State(): MusicState
      reads this
    {
      MusicState(enabled, volume, clip, position, duration, audio, dragging, dragTarget, dragOffset)
    }

    constructor()
      ensures State() == NoMusic
    {
      enabled, volume, clip, position, duration := false, 1.0, TrimRange(0.0, 0.0), 0.0, 0.0;
      audio, dragging, dragTarget, dragOffset := None, false, None, 0.0;
    }

    method OnMusicLoaded(fileDuration: real)
      modifies this
      ensures State() == Load(old(State()), fileDuration)
    {
      audio := Some(Audio(true, 0.0, 1.0));
      duration := fileDuration;
      clip := TrimRange(0.0, duration);
      position := 0.0;
      enabled := true;
      audio := Some(audio.value.(volume := volume));
    }

    method OnToggle()
      modifies this
      ensures State() == Toggle(old(State()))
    {
      enabled := !enabled;
      if audio.Some? {
        audio := Some(audio.value.(volume := if enabled then volume else 0.0));
      }
    }

    method OnVolume(value: real)
      modifies this
      ensures State() == SetVolume(old(State()), value)
    {
      volume := value / 100.0;
      if audio.Some? && enabled {
        audio := Some(audio.value.(volume := volume));
      }
    }

    method OnStartSlider(value: real)
      modifies this
      ensures State() == StartSlider(old(State()), value)
    {
      if duration == 0.0 {
        return;
      }
      var start, end := value / 100.0 * duration, clip.end;
      if start >= end {
        end := Min(duration, start + 1.0);
      }
      clip := TrimRange(start, end);
    }

    method OnEndSlider(value: real)
      modifies this
      ensures State() == EndSlider(old(State()), value)
    {
      if duration == 0.0 {
        return;
      }
      var start, end := clip.start, value / 100.0 * duration;
      if end <= start {
        start := Max(0.0, end - 1.0);
      }
      clip := TrimRange(start, end);
    }

    method OnPositionSlider(value: real, videoDuration: real)
      modifies this
      ensures State() == PositionSlider(old(State()), value, videoDuration)
    {
      if videoDuration == 0.0 {
        return;
      }
      position := value / 100.0 * videoDuration;
    }

    method OnPress(target: MusicDragTarget, offset: real)
      modifies this
      ensures State() == PressTrack(old(State()), target, offset)
    {
      dragging := true;
      dragTarget := Some(target);
      if target == Track {
        dragOffset := offset;
      }
    }

    method OnPointerMove(ratio: real, videoDuration: real)
      modifies this
      ensures State() == PointerMove(old(State()), ratio, videoDuration)
    {
      if !dragging || duration == 0.0 || videoDuration == 0.0 {
        return;
      }
      var percent := Clamp(0.0, 1.0, ratio);
      match dragTarget
      case Some(Track) =>
        var p := MovedPosition(percent, dragOffset, clip.end - clip.start, videoDuration);
        position := p;
      case Some(StartHandle) =>
        clip := DragHandle(clip, Some(Left), percent * duration);
      case Some(EndHandle) =>
        clip := DragHandle(clip, Some(Right), percent * duration);
      case None =>
    }

    method OnPointerUp()
      modifies this
      ensures State() == PointerUp(old(State()))
    {
      dragging := false;
      dragTarget := None;
    }

    method OnRemove()
      modifies this
      ensures State() == Remove(old(State()))
    {
      audio := None;
      enabled := false;
      duration := 0.0;
      clip := TrimRange(0.0, 0.0);
      position := 0.0;
    }

    /** The music part of one frame of the live loop. */
    method OnFrame(stoppedAtTrimEnd: bool, t: real)
      modifies this
      ensures State() == Frame(old(State()), stoppedAtTrimEnd, t)
    {
      if stoppedAtTrimEnd {
        if audio.Some? {
          audio := Some(audio.value.(paused := true));
        }
        return;
      }
      if audio.Some? && enabled && duration > 0.0 {
        var clipLength := clip.end - clip.start;
        var clipPosition := t - position;
        if clipPosition >= 0.0 && clipPosition <= clipLength {
          var musicTime := clip.start + clipPosition;
          if audio.value.paused {
            audio := Some(audio.value.(time := musicTime, paused := false));
          } else if Abs(audio.value.time - musicTime) > MaxDrift {
            audio := Some(audio.value.(time := musicTime));
          }
        } else if !audio.value.paused {
          audio := Some(audio.value.(paused := true));
        }
      }
    }

    method OnVideoPlay(t: real)
      modifies this
      ensures State() == StartWithVideo(old(State()), t)
    {
      if audio.Some? && enabled && duration > 0.0 {
        var clipPosition := t - position;
        if clipPosition >= 0.0 && clipPosition <= clip.end - clip.start {
          audio := Some(audio.value.(time := clip.start + clipPosition, paused := false));
        }
      }
    }

    method OnVideoStop()
      modifies this
      ensures State() == PauseAudio(old(State()))
    {
      if audio.Some? {
        audio := Some(audio.value.(paused := true));
      }
    }
  }
}

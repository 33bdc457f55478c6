/**
 * The camera-choreography evaluator (Editor/script.js `calculateZoom`): a pure
 * function from a playback time to a zoom state. Each cluster of clicks owns a
 * time window made of a zoom-in, a hold per click with a pan between
 * consecutive clicks, and a zoom-out; the first window containing the time
 * decides the state.
 */
module Choreography {
  import opened Wrappers
  import opened Easing
  import opened Clicks

  /** The editor's zoom settings, read by the evaluator as one immutable record. */
  datatype Config = Config(
    enabled: bool,
    zoomLevel: real,
    zoomDuration: real,
    zoomAnticipate: real,
    zoomInSpeed: real,
    zoomOutSpeed: real,
    easingStrength: real,
    panSpeed: real,
    panEasing: real,
    clickThreshold: real)

  /** The settings the editor starts with. */
  const Defaults: Config := Config(true, 2.0, 1.0, 0.5, 0.4, 0.5, 0.5, 1.0, 0.5, 0.15)

  datatype Phase = Idle | ZoomIn | Hold | Pan | ZoomOut

  /** A zoom factor and a transform origin in percent of the frame. */
  datatype ZoomState = ZoomState(scale: real, originX: real, originY: real, active: bool, phase: Phase)

  /** No zoom: factor 1 about the centre. */
  const Inactive: ZoomState := ZoomState(1.0, 50.0, 50.0, false, Idle)

  /** Pan durations divide by the pan speed. */
  predicate Divisible(cfg: Config)
  {
    cfg.panSpeed != 0.0
  }

  /** Time spent panning from click `i` to click `i + 1`: at least 0.3 s of recorded gap, scaled by the pan speed. */
  function PanDuration(cfg: Config, c: seq<Click>, i: nat): real
    requires Divisible(cfg) && i + 1 < |c|
  {
    Max(0.3, c[i + 1].time - c[i].time) / cfg.panSpeed
  }

  /** The hold on click `i` followed, unless it is the last click, by the pan to the next one. */
  function StepTime(cfg: Config, c: seq<Click>, i: nat): real
    requires Divisible(cfg) && i < |c|
  {
    cfg.zoomDuration + (if i + 1 < |c| then PanDuration(cfg, c, i) else 0.0)
  }

  /** Time spent holding and panning from click `i` to the end of the cluster. */
  function HoldPanTime(cfg: Config, c: seq<Click>, i: nat): real
    requires Divisible(cfg) && i <= |c|
    decreases |c| - i
  {
    if i == |c| then 0.0 else StepTime(cfg, c, i) + HoldPanTime(cfg, c, i + 1)
  }

  /** The window opens `zoomAnticipate` seconds before the first click. */
  function WindowStart(cfg: Config, c: seq<Click>): real
    requires |c| > 0
  {
    c[0].time - cfg.zoomAnticipate
  }

  function TotalTime(cfg: Config, c: seq<Click>): real
    requires Divisible(cfg)
  {
    cfg.zoomInSpeed + HoldPanTime(cfg, c, 0) + cfg.zoomOutSpeed
  }

  /** The half-open window `[start, start + total)` of a cluster. */
  predicate InWindow(cfg: Config, c: seq<Click>, t: real)
    requires Divisible(cfg) && |c| > 0
  {
    WindowStart(cfg, c) <= t < WindowStart(cfg, c) + TotalTime(cfg, c)
  }

  /** Zooming in from the centre towards `first`, `e` seconds into the zoom-in. */
  function ZoomInState(cfg: Config, first: Click, e: real): ZoomState
    requires 0.0 <= e < cfg.zoomInSpeed
  {
    var eased := Ease(e / cfg.zoomInSpeed, cfg.easingStrength);
    ZoomState(Lerp(1.0, cfg.zoomLevel, eased), Lerp(50.0, first.x * 100.0, eased),
              Lerp(50.0, first.y * 100.0, eased), true, ZoomIn)
  }

  /** Fully zoomed in on one click. */
  function HoldState(cfg: Config, click: Click): ZoomState
  {
    ZoomState(cfg.zoomLevel, click.x * 100.0, click.y * 100.0, true, Hold)
  }

  /** Panning at full zoom from `from` to `to`, a fraction `p` of the way. */
  function PanState(cfg: Config, from: Click, to: Click, p: real): ZoomState
  {
    var eased := Ease(p, cfg.panEasing);
    ZoomState(cfg.zoomLevel, Lerp(from.x * 100.0, to.x * 100.0, eased),
              Lerp(from.y * 100.0, to.y * 100.0, eased), true, Pan)
  }

  /** Zooming out from the point `(px, py)` (fractions of the frame) back to the centre, a fraction `p` of the way. */
  function ZoomOutState(cfg: Config, px: real, py: real, p: real): ZoomState
  {
    var eased := Ease(p, cfg.easingStrength);
    ZoomState(Lerp(cfg.zoomLevel, 1.0, eased), Lerp(px * 100.0, 50.0, eased),
              Lerp(py * 100.0, 50.0, eased), true, ZoomOut)
  }

  /**
   * The phases from the hold on click `i` onwards, `e` seconds after that hold
   * began; past the last click comes the zoom-out, and past that nothing.
   */
  function PhaseFrom(cfg: Config, c: seq<Click>, i: nat, e: real): Option<ZoomState>
    requires Divisible(cfg) && 0 < |c| && i <= |c| && 0.0 <= e
    decreases |c| - i
  {
    if i == |c| then
      if e < cfg.zoomOutSpeed then Some(ZoomOutState(cfg, c[|c| - 1].x, c[|c| - 1].y, e / cfg.zoomOutSpeed))
      else None
    else if e < cfg.zoomDuration then Some(HoldState(cfg, c[i]))
    else if i + 1 < |c| && e - cfg.zoomDuration < PanDuration(cfg, c, i) then
      Some(PanState(cfg, c[i], c[i + 1], (e - cfg.zoomDuration) / PanDuration(cfg, c, i)))
    else if i + 1 < |c| then PhaseFrom(cfg, c, i + 1, e - cfg.zoomDuration - PanDuration(cfg, c, i))
    else PhaseFrom(cfg, c, i + 1, e - cfg.zoomDuration)
  }

  /** The state a cluster gives at a time its window has reached. */
  function ClusterState(cfg: Config, c: seq<Click>, t: real): Option<ZoomState>
    requires Divisible(cfg) && |c| > 0 && WindowStart(cfg, c) <= t
  {
    var e := t - WindowStart(cfg, c);
    if e < cfg.zoomInSpeed then Some(ZoomInState(cfg, c[0], e))
    else PhaseFrom(cfg, c, 0, e - cfg.zoomInSpeed)
  }

  /** The first cluster whose window contains `t` and that yields a state decides; otherwise no zoom. */
  function EvalClusters(cfg: Config, cs: seq<seq<Click>>, t: real): ZoomState
    requires Divisible(cfg) && NonEmpty(cs)
  {
    if cs == [] then Inactive
    else if InWindow(cfg, cs[0], t) && ClusterState(cfg, cs[0], t).Some? then ClusterState(cfg, cs[0], t).value
    else EvalClusters(cfg, cs[1..], t)
  }

  /** `x || 0.5`: a coordinate of exactly 0 is read as the centre. */
  function OrCentre(v: real): real
  {
    if v == 0.0 then 0.5 else v
  }

  /** `min(1, t / zoomOutSpeed)` for a positive time; a zero divisor gives +Infinity, which the minimum turns into 1. */
  function FallbackProgress(t: real, zoomOutSpeed: real): real
    requires t > 0.0
  {
    if zoomOutSpeed == 0.0 then 1.0 else Min(1.0, t / zoomOutSpeed)
  }

  /** When clicks exist but none qualifies: zoom out from the last recorded click, from time 0. */
  function Fallback(cfg: Config, last: Click, t: real): ZoomState
  {
    if t > 0.0 then ZoomOutState(cfg, OrCentre(last.x), OrCentre(last.y), FallbackProgress(t, cfg.zoomOutSpeed))
    else Inactive
  }

  /** The clusters the evaluator works through: qualifying clicks, sorted, then clustered. */
  function ClustersOf(cfg: Config, clicks: seq<Click>): (cs: seq<seq<Click>>)
    requires |Qualifying(clicks, cfg.clickThreshold)| > 0
    ensures IsClustering(cs, SortByTime(Qualifying(clicks, cfg.clickThreshold)))
  {
    var sorted := SortByTime(Qualifying(clicks, cfg.clickThreshold));
    ClustersCorrect(sorted);
    Clusters(sorted)
  }

  /** `calculateZoom(t)` as a function of the settings, the click list and the time. */
  function Evaluate(cfg: Config, clicks: seq<Click>, t: real): ZoomState
    requires Divisible(cfg)
  {
    if !cfg.enabled || clicks == [] then Inactive
    else if Qualifying(clicks, cfg.clickThreshold) == [] then Fallback(cfg, clicks[|clicks| - 1], t)
    else EvalClusters(cfg, ClustersOf(cfg, clicks), t)
  }

  /** The editor's accumulation of a cluster's total time, one click at a time. */
  method ClusterTotalTime(cfg: Config, cluster: seq<Click>) returns (totalTime: real)
    requires Divisible(cfg)
    ensures totalTime == TotalTime(cfg, cluster)
  {
    totalTime := cfg.zoomInSpeed;
    var i := 0;
    while i < |cluster|
      invariant 0 <= i <= |cluster|
      invariant totalTime + HoldPanTime(cfg, cluster, i) == cfg.zoomInSpeed + HoldPanTime(cfg, cluster, 0)
    {
      totalTime := totalTime + cfg.zoomDuration;
      if i < |cluster| - 1 {
        var basePanTime := Max(0.3, cluster[i + 1].time - cluster[i].time);
        totalTime := totalTime + basePanTime / cfg.panSpeed;
      }
      i := i + 1;
    }
    totalTime := totalTime + cfg.zoomOutSpeed;
  }

  /**
   * The editor's walk through one cluster's phases: subtract each phase's
   * length from the elapsed time until one of them contains it.
   */
  method ClusterPhase(cfg: Config, cluster: seq<Click>, t: real) returns (r: Option<ZoomState>)
    requires Divisible(cfg) && |cluster| > 0 && WindowStart(cfg, cluster) <= t
    ensures r == ClusterState(cfg, cluster, t)
  {
    var elapsed := t - (cluster[0].time - cfg.zoomAnticipate);
    if elapsed < cfg.zoomInSpeed {
      return Some(ZoomInState(cfg, cluster[0], elapsed));
    }
    elapsed := elapsed - cfg.zoomInSpeed;
    var i := 0;
    while i < |cluster|
      invariant 0 <= i <= |cluster| && 0.0 <= elapsed
      invariant PhaseFrom(cfg, cluster, i, elapsed) == ClusterState(cfg, cluster, t)
    {
      var click := cluster[i];
      if elapsed < cfg.zoomDuration {
        return Some(HoldState(cfg, click));
      }
      elapsed := elapsed - cfg.zoomDuration;
      if i < |cluster| - 1 {
        var next := cluster[i + 1];
        var panDuration := Max(0.3, next.time - click.time) / cfg.panSpeed;
        if elapsed < panDuration {
          return Some(PanState(cfg, click, next, elapsed / panDuration));
        }
        elapsed := elapsed - panDuration;
      }
      i := i + 1;
    }
    var last := cluster[|cluster| - 1];
    if elapsed < cfg.zoomOutSpeed {
      return Some(ZoomOutState(cfg, last.x, last.y, elapsed / cfg.zoomOutSpeed));
    }
    return None;
  }

  /** The editor's loop over the clusters: the first window that yields a state decides. */
  method FirstMatch(cfg: Config, clusters: seq<seq<Click>>, t: real) returns (st: ZoomState)
    requires Divisible(cfg) && NonEmpty(clusters)
    ensures st == EvalClusters(cfg, clusters, t)
  {
    var k := 0;
    while k < |clusters|
      invariant 0 <= k <= |clusters|
      invariant EvalClusters(cfg, clusters[k..], t) == EvalClusters(cfg, clusters, t)
    {
      assert clusters[k..][1..] == clusters[k + 1..];
      var cluster := clusters[k];
      var clusterStart := cluster[0].time - cfg.zoomAnticipate;
      var totalTime := ClusterTotalTime(cfg, cluster);
      if t >= clusterStart && t < clusterStart + totalTime {
        var r := ClusterPhase(cfg, cluster, t);
        if r.Some? {
          return r.value;
        }
      }
      k := k + 1;
    }
    return Inactive;
  }

  /** The editor's evaluator: filter, sort and cluster the clicks, then try each cluster's window in order. */
  method CalculateZoom(cfg: Config, clicks: seq<Click>, t: real) returns (st: ZoomState)
    requires Divisible(cfg)
    ensures st == Evaluate(cfg, clicks, t)
  {
    if !cfg.enabled || |clicks| == 0 {
      return Inactive;
    }
    var sortedClicks := SortByTime(Qualifying(clicks, cfg.clickThreshold));
    if |sortedClicks| == 0 {
      return Fallback(cfg, clicks[|clicks| - 1], t);
    }
    var clusters := BuildClusters(sortedClicks);
    st := FirstMatch(cfg, clusters, t);
  }
}

/**
 * What the choreography evaluator promises: every time inside a cluster's
 * window yields an active state, the first window containing the time
 * decides, each phase occupies exactly its slice of the window, and the zoom
 * factor and origin stay in range.
 */
module ZoomProperties {
  import opened Wrappers
  import opened Easing
  import opened Clicks
  import opened Choreography

  /** `e / d` is a fraction when `0 <= e < d`. */
  lemma Ratio(e: real, d: real)
    requires 0.0 <= e < d
    ensures 0.0 <= e / d < 1.0
  {
    assert e / d * d == e;
  }

  // ---------------------------------------------------------------------------
  // Coverage: inside a window some phase answers.

  lemma {:induction false} PhaseFromCovers(cfg: Config, c: seq<Click>, i: nat, e: real)
    requires Divisible(cfg) && 0 < |c| && i <= |c|
    requires 0.0 <= e < HoldPanTime(cfg, c, i) + cfg.zoomOutSpeed
    ensures PhaseFrom(cfg, c, i, e).Some? && PhaseFrom(cfg, c, i, e).value.active
    decreases |c| - i
  {
    if i < |c| && cfg.zoomDuration <= e {
      if i + 1 < |c| {
        if PanDuration(cfg, c, i) <= e - cfg.zoomDuration {
          PhaseFromCovers(cfg, c, i + 1, e - cfg.zoomDuration - PanDuration(cfg, c, i));
        }
      } else {
        PhaseFromCovers(cfg, c, i + 1, e - cfg.zoomDuration);
      }
    }
  }

  /** Every time inside a cluster's window is answered by one of its phases, with an active state. */
  lemma ClusterCovers(cfg: Config, c: seq<Click>, t: real)
    requires Divisible(cfg) && |c| > 0 && InWindow(cfg, c, t)
    ensures ClusterState(cfg, c, t).Some? && ClusterState(cfg, c, t).value.active
  {
    var e := t - WindowStart(cfg, c);
    if cfg.zoomInSpeed <= e {
      PhaseFromCovers(cfg, c, 0, e - cfg.zoomInSpeed);
    }
  }

  /** The evaluation over clusters is active exactly when some window contains the time, and otherwise is no zoom. */
  lemma {:induction false} ActiveIffSomeWindow(cfg: Config, cs: seq<seq<Click>>, t: real)
    requires Divisible(cfg) && NonEmpty(cs)
    ensures EvalClusters(cfg, cs, t).active <==> exists k :: 0 <= k < |cs| && InWindow(cfg, cs[k], t)
    ensures !EvalClusters(cfg, cs, t).active ==> EvalClusters(cfg, cs, t) == Inactive
  {
    if cs != [] {
      ActiveIffSomeWindow(cfg, cs[1..], t);
      if InWindow(cfg, cs[0], t) {
        ClusterCovers(cfg, cs[0], t);
      } else {
        if exists k :: 0 <= k < |cs| && InWindow(cfg, cs[k], t) {
          var k :| 0 <= k < |cs| && InWindow(cfg, cs[k], t);
          assert cs[1..][k - 1] == cs[k];
        }
        forall k | 0 <= k < |cs[1..]| && InWindow(cfg, cs[1..][k], t)
          ensures exists k' :: 0 <= k' < |cs| && InWindow(cfg, cs[k'], t)
        {
          assert cs[1..][k] == cs[k + 1];
        }
      }
    }
  }

  /** The first window that contains the time decides, whatever later windows say. */
  lemma {:induction false} FirstWindowDecides(cfg: Config, cs: seq<seq<Click>>, t: real, k: nat)
    requires Divisible(cfg) && NonEmpty(cs) && k < |cs| && InWindow(cfg, cs[k], t)
    requires forall j :: 0 <= j < k ==> !InWindow(cfg, cs[j], t)
    ensures ClusterState(cfg, cs[k], t).Some?
    ensures EvalClusters(cfg, cs, t) == ClusterState(cfg, cs[k], t).value
  {
    ClusterCovers(cfg, cs[k], t);
    if k > 0 {
      assert !InWindow(cfg, cs[0], t);
      assert cs[1..][k - 1] == cs[k];
      forall j | 0 <= j < k - 1
        ensures !InWindow(cfg, cs[1..][j], t)
      {
        assert cs[1..][j] == cs[j + 1];
      }
      FirstWindowDecides(cfg, cs[1..], t, k - 1);
    }
  }

  /** Zoom disabled, no clicks, or a time outside every cluster window: no zoom. */
  lemma InactiveOutsideWindows(cfg: Config, clicks: seq<Click>, t: real)
    requires Divisible(cfg)
    requires || !cfg.enabled
             || clicks == []
             || (Qualifying(clicks, cfg.clickThreshold) != [] &&
                 forall k :: 0 <= k < |ClustersOf(cfg, clicks)| ==> !InWindow(cfg, ClustersOf(cfg, clicks)[k], t))
    ensures Evaluate(cfg, clicks, t) == Inactive
  {
    if cfg.enabled && clicks != [] {
      ActiveIffSomeWindow(cfg, ClustersOf(cfg, clicks), t);
    }
  }

  /** With qualifying clicks, the result is active exactly when some cluster window contains the time. */
  lemma EvaluateActiveIff(cfg: Config, clicks: seq<Click>, t: real)
    requires Divisible(cfg) && cfg.enabled && Qualifying(clicks, cfg.clickThreshold) != []
    ensures Evaluate(cfg, clicks, t).active <==>
      exists k :: 0 <= k < |ClustersOf(cfg, clicks)| && InWindow(cfg, ClustersOf(cfg, clicks)[k], t)
  {
    assert clicks != [];
    ActiveIffSomeWindow(cfg, ClustersOf(cfg, clicks), t);
  }

  // ---------------------------------------------------------------------------
  // The timeline of one cluster.

  /** The phase lengths are non-negative: pans move forward and holds do not run backwards. */
  predicate Forward(cfg: Config)
  {
    cfg.panSpeed > 0.0 && cfg.zoomDuration >= 0.0 && cfg.zoomInSpeed >= 0.0
  }

  lemma StepNonNegative(cfg: Config, c: seq<Click>, i: nat)
    requires Forward(cfg) && i < |c|
    ensures StepTime(cfg, c, i) >= cfg.zoomDuration
  {
    if i + 1 < |c| {
      var b := Max(0.3, c[i + 1].time - c[i].time);
      assert b / cfg.panSpeed > 0.0;
    }
  }

  lemma {:induction false} HoldPanMonotone(cfg: Config, c: seq<Click>, i: nat, j: nat)
    requires Forward(cfg) && i <= j <= |c|
    ensures HoldPanTime(cfg, c, j) <= HoldPanTime(cfg, c, i)
    decreases j - i
  {
    if i < j {
      StepNonNegative(cfg, c, i);
      HoldPanMonotone(cfg, c, i + 1, j);
    }
  }

  /** Seconds from the start of the holds to the hold on click `j`. */
  function HoldOffset(cfg: Config, c: seq<Click>, j: nat): real
    requires Divisible(cfg) && j <= |c|
  {
    HoldPanTime(cfg, c, 0) - HoldPanTime(cfg, c, j)
  }

  /** Once the elapsed time has passed the steps before click `j`, the walk resumes at click `j`. */
  lemma {:induction false} PhaseFromSkip(cfg: Config, c: seq<Click>, i: nat, j: nat, e: real)
    requires Forward(cfg) && 0 < |c| && i <= j <= |c|
    requires HoldPanTime(cfg, c, i) - HoldPanTime(cfg, c, j) <= e
    ensures 0.0 <= e
    ensures PhaseFrom(cfg, c, i, e) == PhaseFrom(cfg, c, j, e - (HoldPanTime(cfg, c, i) - HoldPanTime(cfg, c, j)))
    decreases j - i
  {
    HoldPanMonotone(cfg, c, i, j);
    if i < j {
      StepNonNegative(cfg, c, i);
      HoldPanMonotone(cfg, c, i + 1, j);
      var e' := e - StepTime(cfg, c, i);
      PhaseFromSkip(cfg, c, i + 1, j, e');
      if i + 1 < |c| {
        assert PhaseFrom(cfg, c, i, e) == PhaseFrom(cfg, c, i + 1, e - cfg.zoomDuration - PanDuration(cfg, c, i));
      } else {
        assert PhaseFrom(cfg, c, i, e) == PhaseFrom(cfg, c, i + 1, e - cfg.zoomDuration);
      }
    }
  }

  /** The zoom-in starts unzoomed and centred, exactly at the window's start. */
  lemma ZoomInStartsUnzoomed(cfg: Config, c: seq<Click>)
    requires Divisible(cfg) && |c| > 0 && cfg.zoomInSpeed > 0.0
    ensures ClusterState(cfg, c, WindowStart(cfg, c)) == Some(ZoomState(1.0, 50.0, 50.0, true, ZoomIn))
  {
    EaseEndpoints(cfg.easingStrength);
  }

  /** Click `j`'s hold occupies `zoomDuration` seconds from its offset, at full zoom on that click. */
  lemma HoldAt(cfg: Config, c: seq<Click>, j: nat, t: real)
    requires Forward(cfg) && j < |c|
    requires var e := t - WindowStart(cfg, c) - cfg.zoomInSpeed - HoldOffset(cfg, c, j);
      0.0 <= e < cfg.zoomDuration
    ensures WindowStart(cfg, c) <= t
    ensures ClusterState(cfg, c, t) == Some(ZoomState(cfg.zoomLevel, c[j].x * 100.0, c[j].y * 100.0, true, Hold))
  {
    HoldPanMonotone(cfg, c, 0, j);
    PhaseFromSkip(cfg, c, 0, j, t - WindowStart(cfg, c) - cfg.zoomInSpeed);
  }

  /** After click `j`'s hold, the pan to click `j + 1` runs at full zoom from one click to the next. */
  lemma PanAt(cfg: Config, c: seq<Click>, j: nat, t: real)
    requires Forward(cfg) && j + 1 < |c|
    requires var e := t - WindowStart(cfg, c) - cfg.zoomInSpeed - HoldOffset(cfg, c, j);
      cfg.zoomDuration <= e < cfg.zoomDuration + PanDuration(cfg, c, j)
    ensures WindowStart(cfg, c) <= t
    ensures var e := t - WindowStart(cfg, c) - cfg.zoomInSpeed - HoldOffset(cfg, c, j);
      ClusterState(cfg, c, t) == Some(PanState(cfg, c[j], c[j + 1], (e - cfg.zoomDuration) / PanDuration(cfg, c, j)))
    ensures ClusterState(cfg, c, t).value.scale == cfg.zoomLevel
  {
    HoldPanMonotone(cfg, c, 0, j);
    PhaseFromSkip(cfg, c, 0, j, t - WindowStart(cfg, c) - cfg.zoomInSpeed);
  }

  /** After the last hold, the zoom-out runs for `zoomOutSpeed` seconds from the last click of the cluster. */
  lemma ZoomOutAt(cfg: Config, c: seq<Click>, t: real)
    requires Forward(cfg) && |c| > 0
    requires var e := t - WindowStart(cfg, c) - cfg.zoomInSpeed - HoldPanTime(cfg, c, 0);
      0.0 <= e < cfg.zoomOutSpeed
    ensures WindowStart(cfg, c) <= t
    ensures var e := t - WindowStart(cfg, c) - cfg.zoomInSpeed - HoldPanTime(cfg, c, 0);
      ClusterState(cfg, c, t) == Some(ZoomOutState(cfg, c[|c| - 1].x, c[|c| - 1].y, e / cfg.zoomOutSpeed))
  {
    HoldPanMonotone(cfg, c, 0, |c|);
    PhaseFromSkip(cfg, c, 0, |c|, t - WindowStart(cfg, c) - cfg.zoomInSpeed);
  }

  // ---------------------------------------------------------------------------
  // Ranges.

  /** Settings the sliders allow: a zoom of at least 1 and easing strengths in [0, 1]. */
  predicate Sane(cfg: Config)
  {
    && cfg.zoomLevel >= 1.0
    && 0.0 <= cfg.easingStrength <= 1.0
    && 0.0 <= cfg.panEasing <= 1.0
    && cfg.zoomOutSpeed >= 0.0
  }

  predicate InFrame(c: Click)
  {
    0.0 <= c.x <= 1.0 && 0.0 <= c.y <= 1.0
  }

  /** The zoom factor lies in [1, zoomLevel]. */
  predicate ScaleInRange(cfg: Config, st: ZoomState)
  {
    1.0 <= st.scale <= cfg.zoomLevel
  }

  /** The transform origin lies inside the frame. */
  predicate OriginInFrame(st: ZoomState)
  {
    0.0 <= st.originX <= 100.0 && 0.0 <= st.originY <= 100.0
  }

  lemma ZoomOutBounded(cfg: Config, px: real, py: real, p: real)
    requires Sane(cfg) && 0.0 <= p <= 1.0
    ensures ScaleInRange(cfg, ZoomOutState(cfg, px, py, p))
    ensures 0.0 <= px <= 1.0 && 0.0 <= py <= 1.0 ==> OriginInFrame(ZoomOutState(cfg, px, py, p))
  {
    EaseBounds(p, cfg.easingStrength);
  }

  lemma {:induction false} PhaseFromBounded(cfg: Config, c: seq<Click>, i: nat, e: real)
    requires Divisible(cfg) && Sane(cfg) && 0 < |c| && i <= |c| && 0.0 <= e
    requires PhaseFrom(cfg, c, i, e).Some?
    ensures ScaleInRange(cfg, PhaseFrom(cfg, c, i, e).value)
    ensures (forall x :: x in c ==> InFrame(x)) ==> OriginInFrame(PhaseFrom(cfg, c, i, e).value)
    decreases |c| - i
  {
    if i == |c| {
      Ratio(e, cfg.zoomOutSpeed);
      assert c[|c| - 1] in c;
      ZoomOutBounded(cfg, c[|c| - 1].x, c[|c| - 1].y, e / cfg.zoomOutSpeed);
    } else if e < cfg.zoomDuration {
      assert c[i] in c;
    } else if i + 1 < |c| && e - cfg.zoomDuration < PanDuration(cfg, c, i) {
      var p := (e - cfg.zoomDuration) / PanDuration(cfg, c, i);
      Ratio(e - cfg.zoomDuration, PanDuration(cfg, c, i));
      EaseBounds(p, cfg.panEasing);
      assert c[i] in c && c[i + 1] in c;
    } else if i + 1 < |c| {
      PhaseFromBounded(cfg, c, i + 1, e - cfg.zoomDuration - PanDuration(cfg, c, i));
    } else {
      PhaseFromBounded(cfg, c, i + 1, e - cfg.zoomDuration);
    }
  }

  lemma ClusterBounded(cfg: Config, c: seq<Click>, t: real)
    requires Divisible(cfg) && Sane(cfg) && |c| > 0 && WindowStart(cfg, c) <= t
    requires ClusterState(cfg, c, t).Some?
    ensures ScaleInRange(cfg, ClusterState(cfg, c, t).value)
    ensures (forall x :: x in c ==> InFrame(x)) ==> OriginInFrame(ClusterState(cfg, c, t).value)
  {
    var e := t - WindowStart(cfg, c);
    if e < cfg.zoomInSpeed {
      Ratio(e, cfg.zoomInSpeed);
      EaseBounds(e / cfg.zoomInSpeed, cfg.easingStrength);
      assert c[0] in c;
    } else {
      PhaseFromBounded(cfg, c, 0, e - cfg.zoomInSpeed);
    }
  }

  lemma {:induction false} EvalClustersBounded(cfg: Config, cs: seq<seq<Click>>, t: real)
    requires Divisible(cfg) && Sane(cfg) && NonEmpty(cs)
    ensures ScaleInRange(cfg, EvalClusters(cfg, cs, t))
    ensures (forall k, x :: 0 <= k < |cs| && x in cs[k] ==> InFrame(x)) ==> OriginInFrame(EvalClusters(cfg, cs, t))
  {
    if cs != [] {
      if InWindow(cfg, cs[0], t) && ClusterState(cfg, cs[0], t).Some? {
        ClusterBounded(cfg, cs[0], t);
      } else {
        EvalClustersBounded(cfg, cs[1..], t);
        if forall k, x :: 0 <= k < |cs| && x in cs[k] ==> InFrame(x) {
          forall k, x | 0 <= k < |cs[1..]| && x in cs[1..][k]
            ensures InFrame(x)
          {
            assert cs[1..][k] == cs[k + 1];
          }
        }
      }
    }
  }

  /** Every click of every cluster is one of the clustered run. */
  lemma {:induction false} InFlatten(cs: seq<seq<Click>>, k: nat, x: Click)
    requires k < |cs| && x in cs[k]
    ensures x in Flatten(cs)
    decreases |cs|
  {
    if k < |cs| - 1 {
      assert cs[..|cs| - 1][k] == cs[k];
      InFlatten(cs[..|cs| - 1], k, x);
    }
  }

  /** With sane settings the zoom factor stays in [1, zoomLevel]; with clicks inside the frame, so does the origin. */
  lemma EvaluateBounded(cfg: Config, clicks: seq<Click>, t: real)
    requires Divisible(cfg) && Sane(cfg)
    ensures ScaleInRange(cfg, Evaluate(cfg, clicks, t))
    ensures (forall x :: x in clicks ==> InFrame(x)) ==> OriginInFrame(Evaluate(cfg, clicks, t))
  {
    if cfg.enabled && clicks != [] {
      if Qualifying(clicks, cfg.clickThreshold) == [] {
        var last := clicks[|clicks| - 1];
        assert last in clicks;
        FallbackBounded(cfg, last, t);
      } else {
        var cs := ClustersOf(cfg, clicks);
        EvalClustersBounded(cfg, cs, t);
        ClusteredClicksRecorded(cfg, clicks);
      }
    }
  }

  lemma FallbackBounded(cfg: Config, last: Click, t: real)
    requires Sane(cfg)
    ensures ScaleInRange(cfg, Fallback(cfg, last, t))
    ensures InFrame(last) ==> OriginInFrame(Fallback(cfg, last, t))
  {
    if t > 0.0 {
      var p := FallbackProgress(t, cfg.zoomOutSpeed);
      if cfg.zoomOutSpeed != 0.0 {
        assert t / cfg.zoomOutSpeed > 0.0;
      }
      ZoomOutBounded(cfg, OrCentre(last.x), OrCentre(last.y), p);
    }
  }

  /** Every click in a cluster is one of the recorded clicks. */
  lemma ClusteredClicksRecorded(cfg: Config, clicks: seq<Click>)
    requires |Qualifying(clicks, cfg.clickThreshold)| > 0
    ensures var cs := ClustersOf(cfg, clicks);
      forall k, x :: 0 <= k < |cs| && x in cs[k] ==> x in clicks
  {
    var q := Qualifying(clicks, cfg.clickThreshold);
    var cs := ClustersOf(cfg, clicks);
    forall k, x | 0 <= k < |cs| && x in cs[k]
      ensures x in clicks
    {
      InFlatten(cs, k, x);
      assert x in multiset(SortByTime(q));
      assert x in multiset(q);
    }
  }

  // ---------------------------------------------------------------------------
  // The fallback when no click qualifies.

  /**
   * With clicks but none qualifying: no zoom up to time 0, a zoom-out from the
   * last recorded click after it, finished (factor 1, centred) once the time
   * reaches `zoomOutSpeed`; a zero coordinate of that click is read as the centre.
   */
  lemma FallbackBehaviour(cfg: Config, clicks: seq<Click>, t: real)
    requires Divisible(cfg) && cfg.enabled && clicks != [] && Qualifying(clicks, cfg.clickThreshold) == []
    ensures t <= 0.0 ==> Evaluate(cfg, clicks, t) == Inactive
    ensures t > 0.0 ==> Evaluate(cfg, clicks, t).active && Evaluate(cfg, clicks, t).phase == ZoomOut
    ensures t > 0.0 && (cfg.zoomOutSpeed == 0.0 || 0.0 < cfg.zoomOutSpeed <= t) ==>
      Evaluate(cfg, clicks, t) == ZoomState(1.0, 50.0, 50.0, true, ZoomOut)
    ensures t > 0.0 && clicks[|clicks| - 1].x == 0.0 ==> Evaluate(cfg, clicks, t).originX == 50.0
    ensures t > 0.0 && clicks[|clicks| - 1].y == 0.0 ==> Evaluate(cfg, clicks, t).originY == 50.0
  {
    if t > 0.0 && 0.0 < cfg.zoomOutSpeed <= t {
      RatioAtLeastOne(t, cfg.zoomOutSpeed);
    }
    EaseEndpoints(cfg.easingStrength);
  }

  lemma RatioAtLeastOne(a: real, b: real)
    requires 0.0 < b <= a
    ensures a / b >= 1.0
  {
    var inv := 1.0 / b;
    MulMonotone(b, a, inv);
    assert b * inv == 1.0 && a * inv == a / b;
  }

  // ---------------------------------------------------------------------------
  // Worked timelines under the default settings.

  /** The click of the worked single-click timeline. */
  const SingleClick := Click(2.0, 0.25, 0.75, Some(0.1))

  /** Its schedule under the default settings: one cluster, a hold of 1 s, 1.9 s in all. */
  lemma SingleClickSchedule()
    ensures Qualifying([SingleClick], 0.15) == [SingleClick]
    ensures ClustersOf(Defaults, [SingleClick]) == [[SingleClick]]
    ensures HoldPanTime(Defaults, [SingleClick], 1) == 0.0
    ensures StepTime(Defaults, [SingleClick], 0) == 1.0
    ensures TotalTime(Defaults, [SingleClick]) == 1.9
  {
    var c := SingleClick;
    assert Qualifying([c], 0.15) == [c];
    assert SortByTime([c]) == [c];
    assert ClustersOf(Defaults, [c]) == [[c]];
    assert HoldPanTime(Defaults, [c], 1) == 0.0;
    assert StepTime(Defaults, [c], 0) == 1.0;
  }

  /**
   * One click at 2 s: the window opens at 1.5 s unzoomed, reaches full zoom on
   * the click at 1.9 s, and closes (half-open) at 3.4 s. Before it, nothing:
   */
  lemma SingleClickBefore()
    ensures Evaluate(Defaults, [SingleClick], 1.0) == Inactive
  {
    SingleClickSchedule();
    var cs := ClustersOf(Defaults, [SingleClick]);
    assert Defaults.enabled && Defaults.clickThreshold == 0.15;
    assert Evaluate(Defaults, [SingleClick], 1.0) == EvalClusters(Defaults, cs, 1.0);
    assert WindowStart(Defaults, cs[0]) == 1.5;
    assert !InWindow(Defaults, cs[0], 1.0);
    assert cs[1..] == [];
  }

  /** At the window's start the zoom-in begins at factor 1, centred. */
  lemma SingleClickOpens()
    ensures Evaluate(Defaults, [SingleClick], 1.5) == ZoomState(1.0, 50.0, 50.0, true, ZoomIn)
  {
    SingleClickSchedule();
    EaseEndpoints(0.5);
  }

  /** 0.4 s later the zoom-in is complete: factor 2 on the click's position. */
  lemma SingleClickHolds()
    ensures Evaluate(Defaults, [SingleClick], 1.9) == ZoomState(2.0, 25.0, 75.0, true, Hold)
  {
    SingleClickSchedule();
    EaseEndpoints(0.5);
  }

  /** The window is half-open: at its end, 3.4 s, the zoom is over. */
  lemma SingleClickCloses()
    ensures Evaluate(Defaults, [SingleClick], 3.4) == Inactive
  {
    SingleClickSchedule();
    var cs := ClustersOf(Defaults, [SingleClick]);
    assert Defaults.enabled && Defaults.clickThreshold == 0.15;
    assert Evaluate(Defaults, [SingleClick], 3.4) == EvalClusters(Defaults, cs, 3.4);
    assert WindowStart(Defaults, cs[0]) == 1.5;
    assert !InWindow(Defaults, cs[0], 3.4);
    assert cs[1..] == [];
  }

  /** Clicks at 0, 0.1 and 2.1 s form two clusters: the last gap is exactly the cluster gap. */
  lemma OverlapClusters(a: Click, b: Click, d: Click)
    requires a == Click(0.0, 0.1, 0.1, Some(0.1)) && b == Click(0.1, 0.2, 0.2, Some(0.1)) && d == Click(2.1, 0.9, 0.9, Some(0.1))
    ensures ClustersOf(Defaults, [a, b, d]) == [[a, b], [d]]
  {
    OverlapSorted(a, b, d);
    TwoThenOne(a, b, d);
  }

  lemma TwoThenOne(a: Click, b: Click, d: Click)
    requires b.time - a.time < ClusterGap && d.time - b.time >= ClusterGap
    ensures Clusters([a, b, d]) == [[a, b], [d]]
  {
    var s := [a, b, d];
    assert s[..2] == [a, b] && [a, b][..1] == [a];
    assert Clusters([a, b]) == [[a, b]] by {
      assert Clusters([a, b]) == Extend([[a]], b);
      assert [[a]][..0] == [] && [a] + [b] == [a, b];
    }
  }

  lemma OverlapSorted(a: Click, b: Click, d: Click)
    requires a == Click(0.0, 0.1, 0.1, Some(0.1)) && b == Click(0.1, 0.2, 0.2, Some(0.1)) && d == Click(2.1, 0.9, 0.9, Some(0.1))
    ensures SortByTime(Qualifying([a, b, d], 0.15)) == [a, b, d]
  {
    OverlapQualifying(a, b, d);
    OverlapInOrder(a, b, d);
  }

  lemma OverlapQualifying(a: Click, b: Click, d: Click)
    requires a == Click(0.0, 0.1, 0.1, Some(0.1)) && b == Click(0.1, 0.2, 0.2, Some(0.1)) && d == Click(2.1, 0.9, 0.9, Some(0.1))
    ensures Qualifying([a, b, d], 0.15) == [a, b, d]
  {
    assert Qualifies(a, 0.15) && Qualifies(b, 0.15) && Qualifies(d, 0.15);
    QualifyingKeepsAll([a, b, d], 0.15);
  }

  lemma OverlapInOrder(a: Click, b: Click, d: Click)
    requires a == Click(0.0, 0.1, 0.1, Some(0.1)) && b == Click(0.1, 0.2, 0.2, Some(0.1)) && d == Click(2.1, 0.9, 0.9, Some(0.1))
    ensures SortByTime([a, b, d]) == [a, b, d]
  {
    assert [a, b, d][1..] == [b, d] && [b, d][1..] == [d];
    assert SortByTime([d]) == [d];
    assert Insert(b, [d]) == [b, d];
    assert SortByTime([b, d]) == [b, d];
    assert Insert(a, [b, d]) == [a, b, d];
  }

  /** The windows of the clusters [a, b] and [d] are [-0.5, 2.7) and [1.6, 3.5): both hold 1.6 s. */
  lemma OverlapWindowsShared(a: Click, b: Click, d: Click)
    requires a == Click(0.0, 0.1, 0.1, Some(0.1)) && b == Click(0.1, 0.2, 0.2, Some(0.1)) && d == Click(2.1, 0.9, 0.9, Some(0.1))
    ensures InWindow(Defaults, [a, b], 1.6) && InWindow(Defaults, [d], 1.6)
  {
    var c := [a, b];
    assert PanDuration(Defaults, c, 0) == 0.3;
    assert HoldPanTime(Defaults, c, 1) == 1.0;
    assert HoldPanTime(Defaults, c, 0) == 2.3;
    assert HoldPanTime(Defaults, [d], 0) == 1.0;
  }

  /** At 1.6 s the second cluster, taken alone, is just starting to zoom in. */
  lemma OverlapSecondStarts(d: Click)
    requires d == Click(2.1, 0.9, 0.9, Some(0.1))
    ensures ClusterState(Defaults, [d], 1.6) == Some(ZoomState(1.0, 50.0, 50.0, true, ZoomIn))
  {
    ZoomInStartsUnzoomed(Defaults, [d]);
  }

  /**
   * Windows may overlap: in the shared stretch [1.6, 2.7), at 1.6 s, the
   * first cluster's hold on its second click wins over the second
   * cluster's zoom-in.
   */
  lemma OverlappingWindows(a: Click, b: Click, d: Click)
    requires a == Click(0.0, 0.1, 0.1, Some(0.1)) && b == Click(0.1, 0.2, 0.2, Some(0.1)) && d == Click(2.1, 0.9, 0.9, Some(0.1))
    ensures Evaluate(Defaults, [a, b, d], 1.6) == ZoomState(2.0, 20.0, 20.0, true, Hold)
  {
    OverlapClusters(a, b, d);
    OverlapWindowsShared(a, b, d);
    var c := [a, b];
    assert PanDuration(Defaults, c, 0) == 0.3;
    HoldAt(Defaults, c, 1, 1.6);
  }
}

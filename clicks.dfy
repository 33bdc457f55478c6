/**
 * Recorded pointer clicks and the way the zoom evaluator groups them
 * (Editor/script.js, inside `calculateZoom`): drop long presses, sort by
 * time (a stable sort), then cut the sorted run wherever two neighbours are
 * at least `ClusterGap` seconds apart.
 */
module Clicks {
  import opened Wrappers

  /** One click: time in seconds, position as fractions of the frame, and the press duration if recorded. */
  datatype Click = Click(time: real, x: real, y: real, duration: Option<real>)

  /** Neighbouring clicks closer than this many seconds share a cluster. */
  const ClusterGap: real := 2.0

  /** A click without a numeric duration counts as a one-second press. */
  function EffectiveDuration(c: Click): real
  {
    match c.duration
    case Some(d) => d
    case None => 1.0
  }

  predicate Qualifies(c: Click, threshold: real)
  {
    EffectiveDuration(c) <= threshold
  }

  /** The clicks that count as clicks (not drags or long presses), in their recorded order. */
  function Qualifying(s: seq<Click>, threshold: real): (r: seq<Click>)
    ensures forall i :: 0 <= i < |r| ==> Qualifies(r[i], threshold)
    ensures forall c :: multiset(r)[c] == if Qualifies(c, threshold) then multiset(s)[c] else 0
  {
    if s == [] then []
    else
      var rest := Qualifying(s[1..], threshold);
      assert s == [s[0]] + s[1..];
      if Qualifies(s[0], threshold) then [s[0]] + rest else rest
  }

  /** When every click qualifies, none is filtered out. */
  lemma {:induction false} QualifyingKeepsAll(s: seq<Click>, threshold: real)
    requires forall i :: 0 <= i < |s| ==> Qualifies(s[i], threshold)
    ensures Qualifying(s, threshold) == s
  {
    if s != [] {
      QualifyingKeepsAll(s[1..], threshold);
      assert [s[0]] + s[1..] == s;
    }
  }

  /** A click added without a duration is never a qualifying click at a threshold below one second. */
  lemma MissingDurationExcluded(c: Click, threshold: real)
    requires c.duration.None? && threshold < 1.0
    ensures !Qualifies(c, threshold)
  {
  }

  predicate Sorted(s: seq<Click>)
  {
    forall i, j :: 0 <= i < j < |s| ==> s[i].time <= s[j].time
  }

  /** Places `c` before the first element that is not earlier than it. */
  function Insert(c: Click, s: seq<Click>): (r: seq<Click>)
    requires Sorted(s)
    ensures Sorted(r)
    ensures |r| == |s| + 1
    ensures r[0] == c || (s != [] && r[0] == s[0])
    ensures multiset(r) == multiset(s) + multiset{c}
  {
    if s == [] then [c]
    else if c.time <= s[0].time then
      ConsSorted(c, s);
      [c] + s
    else
      var rest := Insert(c, s[1..]);
      InsertLater(c, s, rest);
      [s[0]] + rest
  }

  /** The step of `Insert` past a head that is earlier than `c`. */
  lemma InsertLater(c: Click, s: seq<Click>, rest: seq<Click>)
    requires Sorted(s) && s != [] && s[0].time < c.time
    requires Sorted(rest) && |rest| == |s| && (rest[0] == c || (|s| > 1 && rest[0] == s[1]))
    requires multiset(rest) == multiset(s[1..]) + multiset{c}
    ensures Sorted([s[0]] + rest)
    ensures multiset([s[0]] + rest) == multiset(s) + multiset{c}
  {
    assert s == [s[0]] + s[1..];
    assert multiset(s) == multiset{s[0]} + multiset(s[1..]);
    assert multiset([s[0]] + rest) == multiset{s[0]} + multiset(rest);
    ConsSorted(s[0], rest);
  }

  /** A click no later than the head of a sorted run extends it to a sorted run. */
  lemma ConsSorted(x: Click, r: seq<Click>)
    requires Sorted(r) && (r == [] || x.time <= r[0].time)
    ensures Sorted([x] + r)
  {
    var xr := [x] + r;
    forall i, j | 0 <= i < j < |xr|
      ensures xr[i].time <= xr[j].time
    {
      if i == 0 {
        assert xr[j] == r[j - 1];
      } else {
        assert xr[i] == r[i - 1] && xr[j] == r[j - 1];
      }
    }
  }

  /** The stable sort `[...clicks].sort((a, b) => a.time - b.time)`, as an insertion sort. */
  function SortByTime(s: seq<Click>): (r: seq<Click>)
    ensures Sorted(r)
    ensures |r| == |s|
    ensures multiset(r) == multiset(s)
  {
    if s == [] then []
    else
      assert s == [s[0]] + s[1..];
      Insert(s[0], SortByTime(s[1..]))
  }

  /** The clicks of `s` recorded at exactly time `t`, in their order in `s`. */
  function AtTime(s: seq<Click>, t: real): seq<Click>
  {
    if s == [] then [] else (if s[0].time == t then [s[0]] else []) + AtTime(s[1..], t)
  }

  lemma AtTimeAppend(a: seq<Click>, b: seq<Click>, t: real)
    ensures AtTime(a + b, t) == AtTime(a, t) + AtTime(b, t)
  {
    if a != [] {
      var h := if a[0].time == t then [a[0]] else [];
      assert (a + b)[0] == a[0];
      assert (a + b)[1..] == a[1..] + b;
      AtTimeAppend(a[1..], b, t);
      calc {
        AtTime(a + b, t);
        h + AtTime(a[1..] + b, t);
        h + (AtTime(a[1..], t) + AtTime(b, t));
        (h + AtTime(a[1..], t)) + AtTime(b, t);
      }
    } else {
      assert a + b == b;
    }
  }

  lemma {:induction false} AtTimeInsert(c: Click, s: seq<Click>, t: real)
    requires Sorted(s)
    ensures AtTime(Insert(c, s), t) == if c.time == t then [c] + AtTime(s, t) else AtTime(s, t)
  {
    if s == [] {
    } else if c.time <= s[0].time {
      AtTimeCons(c, s, t);
    } else {
      var rest := Insert(c, s[1..]);
      assert Insert(c, s) == [s[0]] + rest;
      AtTimeInsert(c, s[1..], t);
      AtTimeCons(s[0], rest, t);
      AtTimeCons(s[0], s[1..], t);
      assert s == [s[0]] + s[1..];
      if c.time == t {
        // every element before `c` is strictly earlier, so none is at time `t`
        assert s[0].time != t;
      }
    }
  }

  lemma AtTimeCons(x: Click, r: seq<Click>, t: real)
    ensures AtTime([x] + r, t) == (if x.time == t then [x] else []) + AtTime(r, t)
  {
    assert ([x] + r)[0] == x;
    assert ([x] + r)[1..] == r;
  }

  /** The sort is stable: clicks with equal times keep their recorded order. */
  lemma {:induction false} SortStable(s: seq<Click>, t: real)
    ensures AtTime(SortByTime(s), t) == AtTime(s, t)
  {
    if s != [] {
      var sorted := SortByTime(s[1..]);
      assert SortByTime(s) == Insert(s[0], sorted);
      SortStable(s[1..], t);
      AtTimeInsert(s[0], sorted, t);
      if s[0].time != t {
        assert AtTime(s, t) == [] + AtTime(s[1..], t) == AtTime(s[1..], t);
      }
    }
  }

  function Last(s: seq<Click>): Click
    requires |s| > 0
  {
    s[|s| - 1]
  }

  /** The concatenation of the clusters, in order. */
  function Flatten(cs: seq<seq<Click>>): seq<Click>
  {
    if cs == [] then [] else Flatten(cs[..|cs| - 1]) + cs[|cs| - 1]
  }

  predicate NonEmpty(cs: seq<seq<Click>>)
  {
    forall k :: 0 <= k < |cs| ==> |cs[k]| > 0
  }

  /** Neighbours inside one cluster are closer than the gap. */
  predicate Close(cs: seq<seq<Click>>)
  {
    forall k, j :: 0 <= k < |cs| && 0 <= j < |cs[k]| - 1 ==> cs[k][j + 1].time - cs[k][j].time < ClusterGap
  }

  /** The last click of a cluster and the first click of the next are at least the gap apart. */
  predicate Apart(cs: seq<seq<Click>>)
  {
    forall k :: 0 <= k < |cs| - 1 && |cs[k]| > 0 && |cs[k + 1]| > 0 ==>
      cs[k + 1][0].time - Last(cs[k]).time >= ClusterGap
  }

  /**
   * `cs` is a clustering of `s`: concatenated it gives back `s`, no cluster is
   * empty, and the clusters are cut exactly where neighbours are the gap apart.
   */
  predicate IsClustering(cs: seq<seq<Click>>, s: seq<Click>)
  {
    Flatten(cs) == s && NonEmpty(cs) && Close(cs) && Apart(cs)
  }

  /** Appends `c` to the last cluster. */
  function Extend(p: seq<seq<Click>>, c: Click): seq<seq<Click>>
    requires |p| > 0
  {
    p[..|p| - 1] + [p[|p| - 1] + [c]]
  }

  /** Opens a new cluster holding only `c`. */
  function Open(p: seq<seq<Click>>, c: Click): seq<seq<Click>>
  {
    p + [[c]]
  }

  /** The clusters of a non-empty run, built up from the left as the editor's loop does. */
  function Clusters(s: seq<Click>): (cs: seq<seq<Click>>)
    requires |s| > 0
    ensures |cs| > 0
  {
    if |s| == 1 then [[s[0]]]
    else if s[|s| - 1].time - s[|s| - 2].time < ClusterGap then Extend(Clusters(s[..|s| - 1]), s[|s| - 1])
    else Open(Clusters(s[..|s| - 1]), s[|s| - 1])
  }

  lemma FlattenSnoc(cs: seq<seq<Click>>, c: seq<Click>)
    ensures Flatten(cs + [c]) == Flatten(cs) + c
  {
    assert (cs + [c])[..|cs|] == cs;
  }

  /** The last click of the last cluster is the last click of the run. */
  lemma LastOfFlatten(cs: seq<seq<Click>>)
    requires |cs| > 0 && |cs[|cs| - 1]| > 0
    ensures |Flatten(cs)| > 0 && Last(Flatten(cs)) == Last(cs[|cs| - 1])
  {
  }

  lemma ExtendFlatten(p: seq<seq<Click>>, c: Click)
    requires |p| > 0
    ensures Flatten(Extend(p, c)) == Flatten(p) + [c]
  {
    var q, l := p[..|p| - 1], p[|p| - 1];
    assert Flatten(p) == Flatten(q) + l;
    FlattenSnoc(q, l + [c]);
    assert Extend(p, c) == q + [l + [c]];
  }

  lemma ExtendKeeps(p: seq<seq<Click>>, c: Click)
    requires |p| > 0 && NonEmpty(p) && Close(p) && Apart(p)
    requires c.time - Last(p[|p| - 1]).time < ClusterGap
    ensures NonEmpty(Extend(p, c)) && Close(Extend(p, c)) && Apart(Extend(p, c))
  {
    var cs := Extend(p, c);
    var l := p[|p| - 1];
    assert forall k :: 0 <= k < |p| - 1 ==> cs[k] == p[k];
    assert cs[|p| - 1] == l + [c];
    forall k, j | 0 <= k < |cs| && 0 <= j < |cs[k]| - 1
      ensures cs[k][j + 1].time - cs[k][j].time < ClusterGap
    {
      if k == |p| - 1 && j == |l| - 1 {
        assert cs[k][j] == Last(l) && cs[k][j + 1] == c;
      } else if k == |p| - 1 {
        assert cs[k][j] == l[j] && cs[k][j + 1] == l[j + 1];
      }
    }
    forall k | 0 <= k < |cs| - 1 && |cs[k]| > 0 && |cs[k + 1]| > 0
      ensures cs[k + 1][0].time - Last(cs[k]).time >= ClusterGap
    {
      assert cs[k + 1][0] == p[k + 1][0];
    }
  }

  lemma OpenKeeps(p: seq<seq<Click>>, c: Click)
    requires |p| > 0 && NonEmpty(p) && Close(p) && Apart(p)
    requires c.time - Last(p[|p| - 1]).time >= ClusterGap
    ensures NonEmpty(Open(p, c)) && Close(Open(p, c)) && Apart(Open(p, c))
  {
    var cs := Open(p, c);
    assert forall k :: 0 <= k < |p| ==> cs[k] == p[k];
  }

  /** The clustering function meets the declarative description. */
  lemma {:induction false} ClustersCorrect(s: seq<Click>)
    requires |s| > 0
    ensures IsClustering(Clusters(s), s)
  {
    if |s| > 1 {
      var s' := s[..|s| - 1];
      var p := Clusters(s');
      var c := s[|s| - 1];
      ClustersCorrect(s');
      LastOfFlatten(p);
      assert Last(p[|p| - 1]) == s[|s| - 2];
      assert s == s' + [c];
      if c.time - s[|s| - 2].time < ClusterGap {
        ExtendFlatten(p, c);
        ExtendKeeps(p, c);
      } else {
        FlattenSnoc(p, [c]);
        OpenKeeps(p, c);
      }
    }
  }

  /** Without its last cluster, a clustering of `s` is one of `s` minus that cluster. */
  lemma DropLast(cs: seq<seq<Click>>)
    requires |cs| > 0 && NonEmpty(cs) && Close(cs) && Apart(cs)
    ensures NonEmpty(cs[..|cs| - 1]) && Close(cs[..|cs| - 1]) && Apart(cs[..|cs| - 1])
  {
    var q := cs[..|cs| - 1];
    assert forall k :: 0 <= k < |q| ==> q[k] == cs[k];
  }

  /** Without its last click, the last cluster of a clustering still gives a clustering. */
  lemma ShrinkLast(cs: seq<seq<Click>>)
    requires |cs| > 0 && NonEmpty(cs) && Close(cs) && Apart(cs) && |cs[|cs| - 1]| > 1
    ensures var l := cs[|cs| - 1];
      var q := cs[..|cs| - 1] + [l[..|l| - 1]];
      NonEmpty(q) && Close(q) && Apart(q)
  {
    var l := cs[|cs| - 1];
    var q := cs[..|cs| - 1] + [l[..|l| - 1]];
    assert forall k :: 0 <= k < |cs| - 1 ==> q[k] == cs[k];
    forall k, j | 0 <= k < |q| && 0 <= j < |q[k]| - 1
      ensures q[k][j + 1].time - q[k][j].time < ClusterGap
    {
      if k == |cs| - 1 {
        assert q[k][j] == l[j] && q[k][j + 1] == l[j + 1];
      }
    }
    forall k | 0 <= k < |q| - 1 && |q[k]| > 0 && |q[k + 1]| > 0
      ensures q[k + 1][0].time - Last(q[k]).time >= ClusterGap
    {
      assert q[k + 1][0] == cs[k + 1][0];
    }
  }

  /** The clustering of a run is unique, so any clustering is the one the editor builds. */
  lemma {:induction false} ClusteringUnique(cs: seq<seq<Click>>, s: seq<Click>)
    requires |s| > 0 && IsClustering(cs, s)
    ensures cs == Clusters(s)
    decreases |s|, 1
  {
    var n := |cs|;
    assert n > 0;
    var q, l := cs[..n - 1], cs[n - 1];
    assert cs == q + [l];
    FlattenSnoc(q, l);
    if |s| == 1 {
      if q != [] {
        LastOfFlatten(q);
      }
      assert l == [s[0]];
    } else if |l| == 1 {
      UniqueOpen(cs, s);
    } else {
      UniqueExtend(cs, s);
    }
  }

  /** The case where the last cluster is the last click alone. */
  lemma {:induction false} UniqueOpen(cs: seq<seq<Click>>, s: seq<Click>)
    requires |s| > 1 && IsClustering(cs, s) && |cs| > 0 && |cs[|cs| - 1]| == 1
    ensures cs == Clusters(s)
    decreases |s|, 0
  {
    var n := |cs|;
    var q, l := cs[..n - 1], cs[n - 1];
    var s', c := s[..|s| - 1], s[|s| - 1];
    assert cs == q + [l];
    FlattenSnoc(q, l);
    assert s == s' + [c];
    assert Flatten(q) == s';
    assert l == [c];
    DropLast(cs);
    assert |q| > 0;
    ClusteringUnique(q, s');
    LastOfFlatten(q);
    assert Last(q[|q| - 1]) == s[|s| - 2];
    assert cs[n - 2] == q[|q| - 1];
    assert c.time - s[|s| - 2].time >= ClusterGap;
    assert cs == Open(q, c);
  }

  /** The case where the last cluster holds more than the last click. */
  lemma {:induction false} UniqueExtend(cs: seq<seq<Click>>, s: seq<Click>)
    requires |s| > 1 && IsClustering(cs, s) && |cs| > 0 && |cs[|cs| - 1]| > 1
    ensures cs == Clusters(s)
    decreases |s|, 0
  {
    var n := |cs|;
    var q, l := cs[..n - 1], cs[n - 1];
    var s', c := s[..|s| - 1], s[|s| - 1];
    var l' := l[..|l| - 1];
    var q' := q + [l'];
    assert cs == q + [l];
    assert l == l' + [c];
    FlattenSnoc(q, l);
    FlattenSnoc(q, l');
    assert s == s' + [c];
    assert Flatten(q') == s';
    ShrinkLast(cs);
    ClusteringUnique(q', s');
    assert l[|l| - 2] == s[|s| - 2];
    assert c.time - s[|s| - 2].time < ClusterGap;
    assert q'[..|q'| - 1] == q;
    assert cs == Extend(q', c);
  }

  /** One more click either extends the last cluster or opens a new one. */
  lemma ClustersStep(s: seq<Click>, i: nat)
    requires 1 <= i < |s|
    ensures Clusters(s[..i + 1]) ==
      if s[i].time - s[i - 1].time < ClusterGap then Extend(Clusters(s[..i]), s[i]) else Open(Clusters(s[..i]), s[i])
  {
    assert s[..i + 1][..i] == s[..i];
  }

  lemma ExtendLast(p: seq<seq<Click>>, l: seq<Click>, c: Click)
    ensures Extend(p + [l], c) == p + [l + [c]]
  {
    assert (p + [l])[..|p|] == p;
  }

  /**
   * The editor's clustering loop: extends the current cluster while the next
   * click is closer than the gap to the previous one, otherwise closes it.
   */
  method BuildClusters(sorted: seq<Click>) returns (clusters: seq<seq<Click>>)
    requires |sorted| > 0
    ensures clusters == Clusters(sorted)
    ensures IsClustering(clusters, sorted)
  {
    clusters := [];
    var current := [sorted[0]];
    var i := 1;
    while i < |sorted|
      invariant 1 <= i <= |sorted|
      invariant |current| > 0 && Last(current) == sorted[i - 1]
      invariant clusters + [current] == Clusters(sorted[..i])
    {
      ClustersStep(sorted, i);
      var gap := sorted[i].time - Last(current).time;
      if gap < ClusterGap {
        ExtendLast(clusters, current, sorted[i]);
        current := current + [sorted[i]];
      } else {
        clusters := clusters + [current];
        current := [sorted[i]];
      }
      i := i + 1;
    }
    clusters := clusters + [current];
    assert sorted[..i] == sorted;
    ClustersCorrect(sorted);
  }

  /** Flattening the clusters of the qualifying clicks gives them back sorted by time. */
  lemma {:induction false} ClustersOfQualifying(clicks: seq<Click>, threshold: real)
    requires |Qualifying(clicks, threshold)| > 0
    ensures Sorted(Flatten(Clusters(SortByTime(Qualifying(clicks, threshold)))))
    ensures forall c :: multiset(Flatten(Clusters(SortByTime(Qualifying(clicks, threshold)))))[c]
                      == if Qualifies(c, threshold) then multiset(clicks)[c] else 0
  {
    var sorted := SortByTime(Qualifying(clicks, threshold));
    assert |sorted| == |multiset(sorted)| == |Qualifying(clicks, threshold)|;
    ClustersCorrect(sorted);
  }

  /** Two clicks half a second apart fall into one cluster. */
  lemma CloseClicksShareCluster(a: Click, b: Click)
    requires b.time == a.time + 0.5
    ensures Clusters([a, b]) == [[a, b]]
  {
    assert [a, b][..1] == [a];
    assert [[a]][..0] == [] && [a] + [b] == [a, b];
  }
}

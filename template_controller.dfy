/** The integer and index logic of the template GUI's controller
    (phy/apps/template/gui.py): the per-cluster template histogram and the
    dominant template, the spikes drawn in the feature views, the ranking of
    similar clusters, the spike times handed to the trace view, the data of
    the template feature view, and the two mutually exclusive display
    toggles of the waveform view. The recording itself (`TemplateModel`)
    enters as a value holding the arrays these functions read; the
    clustering enters as its `spikes_per_cluster` dictionary. */
module TemplateControl {
  import opened Common
  import opened ArrayOps

  /** `n_spikes_features`: how many background spikes the feature views aim for. */
  const NSpikesFeatures: nat := 2500
  /** The hard limit on the length of the similarity list. */
  const SimilarityLimit: nat := 100

  /** The arrays of the recording that the modelled code reads. */
  datatype Recording = Recording(
    nSpikes: nat,
    nTemplates: nat,
    spikeTemplates: seq<nat>,
    spikeTimes: seq<real>,
    featuresRows: Option<seq<int>>)

  /** `xs[ids]`, numpy fancy indexing: IndexError when an id is out of range. */
  function Gather<T>(xs: seq<T>, ids: seq<nat>): (r: Result<seq<T>>)
    ensures r.Err? <==> exists k :: 0 <= k < |ids| && ids[k] >= |xs|
    ensures r.Err? ==> r.error == IndexError
    ensures r.Ok? ==> |r.value| == |ids| && forall k :: 0 <= k < |ids| ==> r.value[k] == xs[ids[k]]
  {
    if forall k :: 0 <= k < |ids| ==> ids[k] < |xs| then
      Ok(seq(|ids|, k requires 0 <= k < |ids| => xs[ids[k]]))
    else Err(IndexError)
  }

  // ---------------------------------------------------------------------------
  // Templates of a cluster
  // ---------------------------------------------------------------------------

  /** `spike_templates[spikes_per_cluster[cluster_id]]`: the template of each
      spike of the cluster; KeyError for an unknown cluster. */
  function ClusterTemplates(rec: Recording, spc: map<int, seq<nat>>, clusterId: int): (r: Result<seq<nat>>)
    ensures clusterId !in spc ==> r == Err(KeyError)
    ensures clusterId in spc ==> r == Gather(rec.spikeTemplates, spc[clusterId])
  {
    if clusterId !in spc then Err(KeyError) else Gather(rec.spikeTemplates, spc[clusterId])
  }

  /** `get_template_counts`: entry t is the number of the cluster's spikes
      whose template is t, with an entry for every template below
      `n_templates`. */
  function TemplateCounts(rec: Recording, spc: map<int, seq<nat>>, clusterId: int): (r: Result<seq<nat>>)
    ensures r.Ok? <==> ClusterTemplates(rec, spc, clusterId).Ok?
    ensures r.Err? ==> r.error == ClusterTemplates(rec, spc, clusterId).error
    ensures r.Ok? ==> |r.value| >= rec.nTemplates
    ensures r.Ok? ==> forall t: nat :: t < |r.value| ==>
      r.value[t] == Count(ClusterTemplates(rec, spc, clusterId).value, t)
    ensures r.Ok? ==> forall t :: t in ClusterTemplates(rec, spc, clusterId).value ==> t < |r.value|
  {
    match ClusterTemplates(rec, spc, clusterId)
    case Err(e) => Err(e)
    case Ok(st) => Ok(BinCount(st, rec.nTemplates))
  }

  /** The histogram accounts for every spike of the cluster exactly once. */
  lemma TemplateCountsTotal(rec: Recording, spc: map<int, seq<nat>>, clusterId: int)
    requires TemplateCounts(rec, spc, clusterId).Ok?
    ensures clusterId in spc
    ensures Sum(TemplateCounts(rec, spc, clusterId).value) == |spc[clusterId]|
  {
    BinCountTotal(ClusterTemplates(rec, spc, clusterId).value, rec.nTemplates);
  }

  /** The distinct values of `st` in increasing order, their counts, and
      the value at the first largest count (`np.unique` then `np.argmax`). */
  function Dominant(st: seq<nat>): (t: nat)
    requires st != []
    ensures t in st
  {
    var ids := Unique(st);
    assert forall k :: 0 <= k < |ids| ==> ids[k] in ids && ids[k] in st;
    var counts := seq(|ids|, k requires 0 <= k < |ids| => Count<nat>(st, ids[k] as nat));
    ids[ArgMax(counts)] as nat
  }

  /** The dominant value occurs most often, and no smaller value occurs as
      often. */
  lemma DominantIsFirstMax(st: seq<nat>)
    requires st != []
    ensures Count<nat>(st, Dominant(st)) > 0
    ensures forall u: nat :: Count<nat>(st, u) <= Count<nat>(st, Dominant(st))
    ensures forall u: nat :: u < Dominant(st) ==> Count<nat>(st, u) < Count<nat>(st, Dominant(st))
  {
    var ids := Unique(st);
    assert forall k :: 0 <= k < |ids| ==> ids[k] in ids && ids[k] in st;
    var counts := seq(|ids|, k requires 0 <= k < |ids| => Count<nat>(st, ids[k] as nat));
    var ind := ArgMax(counts);
    var t: nat := ids[ind];
    assert t == Dominant(st);
    forall u: nat
      ensures Count<nat>(st, u) <= Count<nat>(st, t)
      ensures u < t ==> Count<nat>(st, u) < Count<nat>(st, t)
    {
      if u in st {
        assert u in ids;
        var j :| 0 <= j < |ids| && ids[j] == u;
        assert counts[j] == Count<nat>(st, u);
        if u < t {
          assert j < ind;
        }
      }
    }
  }

  /** `get_template_for_cluster`: the template with the largest number of
      the cluster's spikes. A cluster without spikes has no largest count
      (ValueError). */
  function TemplateForCluster(rec: Recording, spc: map<int, seq<nat>>, clusterId: int): (r: Result<nat>)
    ensures ClusterTemplates(rec, spc, clusterId).Err? ==> r == Err(ClusterTemplates(rec, spc, clusterId).error)
    ensures ClusterTemplates(rec, spc, clusterId) == Ok([]) ==> r == Err(ValueError)
    ensures r.Ok? ==> r.value in ClusterTemplates(rec, spc, clusterId).value
  {
    match ClusterTemplates(rec, spc, clusterId)
    case Err(e) => Err(e)
    case Ok(st) => if st == [] then Err(ValueError) else Ok(Dominant(st))
  }

  /** The dominant template has the largest count in the histogram of
      `get_template_counts`, and on a tie it is the smallest template id. */
  lemma DominantTemplate(rec: Recording, spc: map<int, seq<nat>>, clusterId: int)
    requires TemplateForCluster(rec, spc, clusterId).Ok?
    ensures var t, st := TemplateForCluster(rec, spc, clusterId).value, ClusterTemplates(rec, spc, clusterId).value;
      && Count<nat>(st, t) > 0
      && (forall u: nat :: Count<nat>(st, u) <= Count<nat>(st, t))
      && (forall u: nat :: u < t ==> Count<nat>(st, u) < Count<nat>(st, t))
    ensures var t, h := TemplateForCluster(rec, spc, clusterId).value, TemplateCounts(rec, spc, clusterId).value;
      && t < |h|
      && (forall u: nat :: u < |h| ==> h[u] <= h[t])
      && (forall u: nat :: u < t ==> h[u] < h[t])
  {
    var st := ClusterTemplates(rec, spc, clusterId).value;
    var h := TemplateCounts(rec, spc, clusterId).value;
    var t := TemplateForCluster(rec, spc, clusterId).value;
    DominantIsFirstMax(st);
    assert h[t] == Count<nat>(st, t);
    forall u: nat | u < |h|
      ensures h[u] <= h[t]
      ensures u < t ==> h[u] < h[t]
    {
      assert h[u] == Count<nat>(st, u);
    }
  }

  // ---------------------------------------------------------------------------
  // Spikes shown in the feature views
  // ---------------------------------------------------------------------------

  /** `max(1, n_spikes // n_spikes_features)`: the stride of the background spikes. */
  function BackgroundStep(nSpikes: nat): (s: nat)
    ensures s >= 1
    ensures nSpikes >= NSpikesFeatures ==> s * NSpikesFeatures <= nSpikes < (s + 1) * NSpikesFeatures
    ensures nSpikes < 2 * NSpikesFeatures ==> s == 1
  {
    if nSpikes / NSpikesFeatures > 1 then nSpikes / NSpikesFeatures else 1
  }

  /** `_get_spike_ids(cluster_id)`: with no cluster, every `step`-th spike of
      the recording; with a cluster, the spikes the selector picked for it
      (`selected`). Either way, when the recording has feature rows, only
      the spikes among them remain, sorted and without repetition. */
  function SpikeIds(rec: Recording, clusterId: Option<int>, selected: seq<int>): (r: seq<int>)
    ensures rec.featuresRows.Some? ==> StrictlyIncreasing(r)
    ensures rec.featuresRows.Some? ==> forall i :: i in r <==>
      && i in (if clusterId.None? then Arange(rec.nSpikes, BackgroundStep(rec.nSpikes)) else selected)
      && i in rec.featuresRows.value
    ensures rec.featuresRows.None? && clusterId.Some? ==> r == selected
  {
    var ids := if clusterId.None? then Arange(rec.nSpikes, BackgroundStep(rec.nSpikes)) else selected;
    if rec.featuresRows.Some? then Intersect1d(ids, rec.featuresRows.value) else ids
  }

  /** `np.arange(0, stop, step)` holds every multiple of `step` below `stop`. */
  lemma ArangeComplete(stop: int, step: nat, q: nat)
    requires step >= 1 && q * step < stop
    ensures q < |Arange(stop, step)| && Arange(stop, step)[q] == q * step
  {
    var r := Arange(stop, step);
    var last := |r| - 1;
    assert r[last] == last * step;
    assert q * step < (last + 1) * step;
  }

  /** With a stride of one, `np.arange` lists every value below `stop`. */
  lemma ArangeAll(stop: nat)
    ensures Arange(stop, 1) == seq(stop, i => i)
  {
    var r := Arange(stop, 1);
    if stop > 0 {
      ArangeComplete(stop, 1, stop - 1);
    }
    assert |r| == stop;
  }

  /** The background spikes: 0, step, 2 * step, ... below `n_spikes`, in
      increasing order and all of them; for a recording under 5000 spikes
      that is every spike. */
  lemma BackgroundSpikes(rec: Recording)
    requires rec.featuresRows.None?
    ensures var r, step := SpikeIds(rec, None, []), BackgroundStep(rec.nSpikes);
      && StrictlyIncreasing(r)
      && (forall k :: 0 <= k < |r| ==> r[k] == k * step && 0 <= r[k] < rec.nSpikes)
      && (forall q: nat :: q * step < rec.nSpikes ==> q * step in r)
      && (rec.nSpikes < 2 * NSpikesFeatures ==> r == seq(rec.nSpikes, i => i))
  {
    var step := BackgroundStep(rec.nSpikes);
    forall q: nat | q * step < rec.nSpikes
      ensures q * step in Arange(rec.nSpikes, step)
    {
      ArangeComplete(rec.nSpikes, step, q);
    }
    if rec.nSpikes < 2 * NSpikesFeatures {
      ArangeAll(rec.nSpikes);
    }
  }

  /** With feature rows, the background spikes are exactly the strided
      spikes that have a feature row. */
  lemma BackgroundWithFeatureRows(rec: Recording, rows: seq<int>)
    requires rec.featuresRows == Some(rows)
    ensures forall i :: i in SpikeIds(rec, None, []) <==>
      i in rows && i in Arange(rec.nSpikes, BackgroundStep(rec.nSpikes))
  {
  }

  /** `spikes_per_cluster.get(cluster_id, [0])`: the spikes the selector
      draws from; an unknown cluster falls back to spike 0. */
  function SelectorSpikes(spc: map<int, seq<nat>>, clusterId: int): (r: seq<nat>)
    ensures clusterId in spc ==> r == spc[clusterId]
    ensures clusterId !in spc ==> r == [0]
  {
    if clusterId in spc then spc[clusterId] else [0]
  }

  /** The selector always has a spike to draw from, unless the cluster is
      known and has none. */
  lemma SelectorNotEmpty(spc: map<int, seq<nat>>, clusterId: int)
    requires clusterId in spc ==> spc[clusterId] != []
    ensures SelectorSpikes(spc, clusterId) != []
    ensures 0 in SelectorSpikes(spc, clusterId) || clusterId in spc
  {
  }

  // ---------------------------------------------------------------------------
  // Similar clusters
  // ---------------------------------------------------------------------------

  /** Scores never increase down the list. */
  predicate NonIncreasing(xs: seq<(int, real)>)
  {
    forall i, j :: 0 <= i < j < |xs| ==> xs[i].1 >= xs[j].1
  }

  /** Inserts `x` before the first entry whose score is not larger;
      `InsertByScoreSpec` states what it gives. */
  function InsertByScore(x: (int, real), s: seq<(int, real)>): seq<(int, real)>
  {
    if s == [] || s[0].1 <= x.1 then [x] + s
    else [s[0]] + InsertByScore(x, s[1..])
  }

  /** Inserting adds exactly `x`, at the front or behind the old head. */
  lemma {:induction false} InsertByScorePerm(x: (int, real), s: seq<(int, real)>)
    ensures multiset(InsertByScore(x, s)) == multiset(s) + multiset{x}
    ensures |InsertByScore(x, s)| == |s| + 1
    ensures InsertByScore(x, s)[0] == x || (s != [] && InsertByScore(x, s)[0] == s[0])
  {
    if s != [] && s[0].1 > x.1 {
      InsertByScorePerm(x, s[1..]);
      assert s == [s[0]] + s[1..];
    }
  }

  /** Inserting into a ranked list keeps it ranked and adds exactly `x`. */
  lemma {:induction false} InsertByScoreSpec(x: (int, real), s: seq<(int, real)>)
    requires NonIncreasing(s)
    ensures NonIncreasing(InsertByScore(x, s))
    ensures multiset(InsertByScore(x, s)) == multiset(s) + multiset{x}
  {
    InsertByScorePerm(x, s);
    var r := InsertByScore(x, s);
    if s == [] || s[0].1 <= x.1 {
      forall i, j | 0 <= i < j < |r| ensures r[i].1 >= r[j].1 {
        assert r[j] == s[j - 1];
        if i > 0 {
          assert r[i] == s[i - 1];
        } else {
          assert s[0].1 >= s[j - 1].1;
        }
      }
    } else {
      var rest := InsertByScore(x, s[1..]);
      InsertByScoreSpec(x, s[1..]);
      InsertByScorePerm(x, s[1..]);
      assert r == [s[0]] + rest;
      assert s[0].1 >= rest[0].1;
      forall i, j | 0 <= i < j < |r| ensures r[i].1 >= r[j].1 {
        assert r[j] == rest[j - 1];
        if i > 0 {
          assert r[i] == rest[i - 1];
        } else {
          assert rest[0].1 >= rest[j - 1].1;
        }
      }
    }
  }

  /** `sorted(out, key=itemgetter(1), reverse=True)`. */
  function SortByScore(xs: seq<(int, real)>): (r: seq<(int, real)>)
    ensures NonIncreasing(r)
    ensures multiset(r) == multiset(xs)
  {
    if xs == [] then []
    else
      assert xs == [xs[0]] + xs[1..];
      InsertByScoreSpec(xs[0], SortByScore(xs[1..]));
      InsertByScore(xs[0], SortByScore(xs[1..]))
  }

  /** The list `out` of `similarity`: each current cluster paired with its
      score, in the clustering's order. */
  function Scored(clusterIds: seq<int>, score: int -> real): seq<(int, real)>
  {
    seq(|clusterIds|, k requires 0 <= k < |clusterIds| => (clusterIds[k], score(clusterIds[k])))
  }

  /** `similarity(cluster_id)`: every current cluster paired with its score,
      ranked from the most to the least similar, cut to the first 100. The
      score of a cluster is computed by the recording's template similarity
      matrix and enters as `score`. */
  function Similarity(clusterIds: seq<int>, score: int -> real): (r: seq<(int, real)>)
    ensures |r| == if |clusterIds| < SimilarityLimit then |clusterIds| else SimilarityLimit
    ensures NonIncreasing(r)
    ensures multiset(r) <= multiset(Scored(clusterIds, score))
    ensures forall p :: p in r ==> p.0 in clusterIds && p.1 == score(p.0)
  {
    var out := Scored(clusterIds, score);
    var sorted := SortByScore(out);
    assert |sorted| == |multiset(sorted)| == |out|;
    assert forall p :: p in sorted ==> p in multiset(out);
    if |sorted| <= SimilarityLimit then sorted
    else
      assert sorted == sorted[..SimilarityLimit] + sorted[SimilarityLimit..];
      sorted[..SimilarityLimit]
  }

  /** Cluster ids are distinct, so no cluster is listed twice. */
  lemma {:induction false} ScoredOnce(clusterIds: seq<int>, score: int -> real, p: (int, real))
    requires forall i, j :: 0 <= i < j < |clusterIds| ==> clusterIds[i] != clusterIds[j]
    ensures multiset(Scored(clusterIds, score))[p] <= 1
  {
    if clusterIds != [] {
      var rest := clusterIds[1..];
      assert Scored(clusterIds, score) == [(clusterIds[0], score(clusterIds[0]))] + Scored(rest, score);
      ScoredOnce(rest, score, p);
      if p == (clusterIds[0], score(clusterIds[0])) {
        assert p !in Scored(rest, score);
      }
    }
  }

  /** With distinct cluster ids, `similarity` names each cluster at most once. */
  lemma SimilarityDistinct(clusterIds: seq<int>, score: int -> real)
    requires forall i, j :: 0 <= i < j < |clusterIds| ==> clusterIds[i] != clusterIds[j]
    ensures var r := Similarity(clusterIds, score);
      forall i, j :: 0 <= i < j < |r| ==> r[i].0 != r[j].0
  {
    var r := Similarity(clusterIds, score);
    forall i, j | 0 <= i < j < |r|
      ensures r[i].0 != r[j].0
    {
      if r[i].0 == r[j].0 {
        var p := r[i];
        assert r[j] == p;
        assert r == r[..j] + r[j..];
        assert p in r[..j] && p in r[j..];
        assert multiset(r)[p] == multiset(r[..j])[p] + multiset(r[j..])[p];
        ScoredOnce(clusterIds, score, p);
        assert false;
      }
    }
  }

  /** Nothing better is cut: a cluster left out of a full list scores no
      more than the last cluster kept, and with fewer than 100 clusters
      every cluster is listed. */
  lemma SimilarityKeepsBest(clusterIds: seq<int>, score: int -> real, c: int)
    requires c in clusterIds
    ensures var r := Similarity(clusterIds, score);
      (c, score(c)) in r || (|r| == SimilarityLimit && score(c) <= r[|r| - 1].1)
  {
    var out := Scored(clusterIds, score);
    var sorted := SortByScore(out);
    var k :| 0 <= k < |clusterIds| && clusterIds[k] == c;
    assert out[k] == (c, score(c));
    assert (c, score(c)) in multiset(sorted);
    var j :| 0 <= j < |sorted| && sorted[j] == (c, score(c));
    assert |sorted| == |multiset(sorted)| == |out|;
    if |sorted| > SimilarityLimit && j >= SimilarityLimit {
      assert Similarity(clusterIds, score) == sorted[..SimilarityLimit];
      assert sorted[SimilarityLimit - 1].1 >= sorted[j].1;
    }
  }

  // ---------------------------------------------------------------------------
  // Trace view and template feature view
  // ---------------------------------------------------------------------------

  /** `_trace_spike_times`: nothing when no cluster is selected, else the
      times of every spike of the first selected cluster (KeyError for an
      unknown cluster, IndexError for a spike past the recording). */
  function TraceSpikeTimes(rec: Recording, spc: map<int, seq<nat>>, selected: seq<int>): (r: Result<Option<seq<real>>>)
    ensures r == Ok(None) <==> selected == []
    ensures selected != [] && selected[0] !in spc ==> r == Err(KeyError)
    ensures r.Ok? && r.value.Some? ==>
      && selected != [] && selected[0] in spc
      && |r.value.value| == |spc[selected[0]]|
      && (forall k :: 0 <= k < |spc[selected[0]]| ==>
            spc[selected[0]][k] < |rec.spikeTimes| && r.value.value[k] == rec.spikeTimes[spc[selected[0]][k]])
  {
    if selected == [] then Ok(None)
    else if selected[0] !in spc then Err(KeyError)
    else
      match Gather(rec.spikeTimes, spc[selected[0]])
      case Err(e) => Err(e)
      case Ok(ts) => Ok(Some(ts))
  }

  /** Spikes listed in increasing order, in a recording whose spike times
      do not decrease, give trace times that do not decrease. */
  lemma TraceTimesSorted(rec: Recording, spc: map<int, seq<nat>>, selected: seq<int>)
    requires TraceSpikeTimes(rec, spc, selected).Ok? && TraceSpikeTimes(rec, spc, selected).value.Some?
    requires forall i, j :: 0 <= i < j < |rec.spikeTimes| ==> rec.spikeTimes[i] <= rec.spikeTimes[j]
    requires forall i, j :: 0 <= i < j < |spc[selected[0]]| ==> spc[selected[0]][i] < spc[selected[0]][j]
    ensures var ts := TraceSpikeTimes(rec, spc, selected).value.value;
      forall i, j :: 0 <= i < j < |ts| ==> ts[i] <= ts[j]
  {
  }

  /** The projections `_get_template_features` computes: the spikes of the
      first cluster (x0, y0) and of the second (x1, y1) on the templates of
      the first (x) and of the second (y) cluster. */
  datatype Coords = Coords(x0: seq<real>, y0: seq<real>, x1: seq<real>, y1: seq<real>)

  /** One point per spike: each cluster's two projections have one entry
      per spike of that cluster. */
  predicate WellShaped(c: Coords)
  {
    |c.x0| == |c.y0| && |c.x1| == |c.y1|
  }

  /** `data_bounds`: (xmin, ymin, xmax, ymax). */
  datatype Box = Box(xmin: real, ymin: real, xmax: real, ymax: real)

  predicate Inside(b: Box, x: real, y: real)
  {
    b.xmin <= x <= b.xmax && b.ymin <= y <= b.ymax
  }

  /** Every point of both clusters lies in the box. */
  predicate Encloses(b: Box, c: Coords)
    requires WellShaped(c)
  {
    && (forall k :: 0 <= k < |c.x0| ==> Inside(b, c.x0[k], c.y0[k]))
    && (forall k :: 0 <= k < |c.x1| ==> Inside(b, c.x1[k], c.y1[k]))
  }

  /** `xs.min()` of a non-empty array. */
  function MinOf(xs: seq<real>): (m: real)
    requires xs != []
    ensures m in xs && forall x :: x in xs ==> m <= x
  {
    if |xs| == 1 then xs[0]
    else
      var m0 := MinOf(xs[1..]);
      assert forall x :: x in xs ==> x == xs[0] || x in xs[1..];
      if xs[0] < m0 then xs[0] else m0
  }

  /** `xs.max()` of a non-empty array. */
  function MaxOf(xs: seq<real>): (m: real)
    requires xs != []
    ensures m in xs && forall x :: x in xs ==> x <= m
  {
    if |xs| == 1 then xs[0]
    else
      var m0 := MaxOf(xs[1..]);
      assert forall x :: x in xs ==> x == xs[0] || x in xs[1..];
      if xs[0] > m0 then xs[0] else m0
  }

  function Min2(a: real, b: real): real { if a <= b then a else b }
  function Max2(a: real, b: real): real { if a >= b then a else b }

  predicate NonEmpty(c: Coords)
  {
    c.x0 != [] && c.y0 != [] && c.x1 != [] && c.y1 != []
  }

  /** The bounds as `_get_template_features` writes them: the third entry,
      the largest x, is computed from the y values. */
  function TemplateFeatureBoundsAsWritten(c: Coords): Box
    requires NonEmpty(c)
  {
    Box(Min2(MinOf(c.x0), MinOf(c.x1)), Min2(MinOf(c.y0), MinOf(c.y1)),
        Max2(MaxOf(c.y0), MaxOf(c.y1)), Max2(MaxOf(c.y0), MaxOf(c.y1)))
  }

  /** Two clusters whose projections lie right of every y value: the first
      spike's point (2, 0) falls outside the bounds as written. */
  lemma BoundsAsWrittenCutPoints()
    ensures var c := Coords([2.0], [0.0], [1.0], [0.0]);
      && WellShaped(c) && NonEmpty(c)
      && TemplateFeatureBoundsAsWritten(c).xmax == 0.0
      && !Encloses(TemplateFeatureBoundsAsWritten(c), c)
  {
    var c := Coords([2.0], [0.0], [1.0], [0.0]);
    assert !Inside(TemplateFeatureBoundsAsWritten(c), c.x0[0], c.y0[0]);
  }

  /** The bounds with the largest x taken from the x values, as the tuple's
      order (xmin, ymin, xmax, ymax) intends. */
  function TemplateFeatureBounds(c: Coords): (b: Box)
    requires NonEmpty(c)
    ensures b.xmin in c.x0 || b.xmin in c.x1
    ensures b.xmax in c.x0 || b.xmax in c.x1
    ensures b.ymin in c.y0 || b.ymin in c.y1
    ensures b.ymax in c.y0 || b.ymax in c.y1
  {
    Box(Min2(MinOf(c.x0), MinOf(c.x1)), Min2(MinOf(c.y0), MinOf(c.y1)),
        Max2(MaxOf(c.x0), MaxOf(c.x1)), Max2(MaxOf(c.y0), MaxOf(c.y1)))
  }

  /** Every point lies inside the corrected bounds; with the contract of
      `TemplateFeatureBounds` (each side is some point's coordinate), they
      are the smallest such box. */
  lemma BoundsEnclose(c: Coords)
    requires NonEmpty(c)
    ensures WellShaped(c) ==> Encloses(TemplateFeatureBounds(c), c)
  {
    if !WellShaped(c) {
      return;
    }
    var b := TemplateFeatureBounds(c);
    forall k | 0 <= k < |c.x0|
      ensures Inside(b, c.x0[k], c.y0[k])
    {
      assert c.x0[k] in c.x0 && c.y0[k] in c.y0;
    }
    forall k | 0 <= k < |c.x1|
      ensures Inside(b, c.x1[k], c.y1[k])
    {
      assert c.x1[k] in c.x1 && c.y1[k] in c.y1;
    }
  }

  /** The points of one cluster in the template feature view. */
  datatype Points = Points(x: seq<real>, y: seq<real>)

  /** `_get_template_features(cluster_ids)`: asserts that there are exactly
      two clusters; the weighted averages come from `project`, and the
      bounds of an empty projection do not exist (ValueError). */
  function TemplateFeatures(clusterIds: seq<int>, project: (int, int) -> Coords): (r: Result<(Coords, Box)>)
    ensures r.Err? && r.error == AssertionError <==> |clusterIds| != 2
    ensures r.Ok? ==> r.value.0 == project(clusterIds[0], clusterIds[1]) && NonEmpty(r.value.0)
    ensures r.Ok? && WellShaped(r.value.0) ==> Encloses(r.value.1, r.value.0)
    ensures r.Ok? ==> r.value.1 == TemplateFeatureBoundsAsWritten(r.value.0).(xmax := r.value.1.xmax)
  {
    if |clusterIds| != 2 then Err(AssertionError)
    else
      var c := project(clusterIds[0], clusterIds[1]);
      if !NonEmpty(c) then Err(ValueError)
      else
        BoundsEnclose(c);
        Ok((c, TemplateFeatureBounds(c)))
  }

  /** `TemplateFeatureView._get_data`: nothing unless exactly two clusters
      are selected, else one set of points per cluster. */
  function GetData(clusterIds: seq<int>, project: (int, int) -> Coords): (r: Result<seq<Points>>)
    ensures |clusterIds| != 2 ==> r == Ok([])
  {
    if |clusterIds| != 2 then Ok([])
    else
      match TemplateFeatures(clusterIds, project)
      case Err(e) => Err(e)
      case Ok((b, _)) => Ok([Points(b.x0, b.y0), Points(b.x1, b.y1)])
  }

  /** The view's guard keeps the assertion of `_get_template_features` from
      ever firing: `_get_data` never raises AssertionError, and with two
      clusters whose projections are not empty it returns the two sets of
      points. */
  lemma GetDataNeverAsserts(clusterIds: seq<int>, project: (int, int) -> Coords)
    ensures GetData(clusterIds, project) != Err(AssertionError)
    ensures |clusterIds| == 2 && NonEmpty(project(clusterIds[0], clusterIds[1])) ==>
      var b := project(clusterIds[0], clusterIds[1]);
      GetData(clusterIds, project) == Ok([Points(b.x0, b.y0), Points(b.x1, b.y1)])
    ensures GetData(clusterIds, project).Ok? ==>
      |GetData(clusterIds, project).value| == (if |clusterIds| == 2 then 2 else 0)
  {
  }

  // ---------------------------------------------------------------------------
  // Waveform view toggles
  // ---------------------------------------------------------------------------

  /** What the waveform view shows, and which data function it plots. */
  datatype ShowWhat = Waveforms | Templates | MeanWaveforms

  /** The part of a waveform view that the controller's two toggles drive. */
  class WaveformToggles {
    /** `model.traces is not None`. */
    const hasTraces: bool
    /** `show_what`, absent until the GUI state or the actions set it. */
    var showWhat: Option<ShowWhat>
    /** The data function in `v.waveforms`. */
    var waveforms: ShowWhat
    /** The checked state of the two checkable actions. */
    var templatesChecked: bool
    var meanChecked: bool
    var actionsCreated: bool
    /** How many times the view was asked to replot its selection. */
    var reselects: nat

    /** Once the actions exist, each checkbox is ticked exactly when its
        display is shown, so at most one of them is. */
    ghost predicate Valid()
      reads this
    {
      actionsCreated ==>
        && showWhat.Some?
        && (templatesChecked <==> showWhat.value == Templates)
        && (meanChecked <==> showWhat.value == MeanWaveforms)
    }

    /** `create_waveform_view`: the view plots the recorded waveforms when
        there are traces, else the templates; `saved` is the `show_what`
        the GUI state restored, if any. */
    constructor (hasTraces: bool, saved: Option<ShowWhat>)
      ensures Valid() && !actionsCreated
      ensures this.hasTraces == hasTraces && showWhat == saved && reselects == 0
      ensures waveforms == (if hasTraces then Waveforms else Templates)
    {
      this.hasTraces := hasTraces;
      showWhat := saved;
      waveforms := if hasTraces then Waveforms else Templates;
      templatesChecked, meanChecked, actionsCreated := false, false, false;
      reselects := 0;
    }

    /** `on_view_actions_created`: default to the waveforms, plot what is
        shown, and tick the checkbox of the shown display. */
    method OnViewActionsCreated()
      modifies this
      ensures Valid() && actionsCreated
      ensures showWhat == Some(if old(showWhat).Some? then old(showWhat).value else Waveforms)
      ensures waveforms == showWhat.value && reselects == old(reselects)
      ensures !(templatesChecked && meanChecked)
    {
      if showWhat.None? {
        showWhat := Some(Waveforms);
      }
      waveforms := showWhat.value;
      templatesChecked := showWhat.value == Templates;
      meanChecked := showWhat.value == MeanWaveforms;
      actionsCreated := true;
    }

    /** `toggle_templates(checked)`: checking it unticks the mean-waveforms
        box; show the templates or the waveforms; without traces, going back
        to the waveforms stops there, keeping the plotted function. */
    method ToggleTemplates(checked: bool)
      modifies this`meanChecked, this`showWhat, this`waveforms, this`reselects
      ensures meanChecked == (if checked then false else old(meanChecked))
      ensures showWhat == Some(if checked then Templates else Waveforms)
      ensures !checked && !hasTraces ==> waveforms == old(waveforms) && reselects == old(reselects)
      ensures checked || hasTraces ==> waveforms == showWhat.value && reselects == old(reselects) + 1
    {
      if checked {
        meanChecked := false;
      }
      showWhat := Some(if checked then Templates else Waveforms);
      if showWhat.value == Waveforms && !hasTraces {
        return;
      }
      waveforms := showWhat.value;
      reselects := reselects + 1;
    }

    /** `toggle_mean_waveforms(checked)`: checking it unticks the templates
        box; show the mean waveforms or the waveforms and replot. */
    method ToggleMeanWaveforms(checked: bool)
      modifies this`templatesChecked, this`showWhat, this`waveforms, this`reselects
      ensures templatesChecked == (if checked then false else old(templatesChecked))
      ensures showWhat == Some(if checked then MeanWaveforms else Waveforms)
      ensures waveforms == showWhat.value && reselects == old(reselects) + 1
    {
      if checked {
        templatesChecked := false;
      }
      showWhat := Some(if checked then MeanWaveforms else Waveforms);
      waveforms := showWhat.value;
      reselects := reselects + 1;
    }

    /** A click on the templates action: Qt flips its checked state and
        passes the new state to `toggle_templates`. The two boxes stay
        consistent with what is shown. */
    method ClickTemplates()
      requires Valid() && actionsCreated
      modifies this
      ensures Valid() && actionsCreated
      ensures templatesChecked == !old(templatesChecked)
      ensures showWhat == Some(if templatesChecked then Templates else Waveforms)
      ensures templatesChecked || hasTraces ==> waveforms == showWhat.value
    {
      templatesChecked := !templatesChecked;
      ToggleTemplates(templatesChecked);
    }

    /** A click on the mean-waveforms action. */
    method ClickMeanWaveforms()
      requires Valid() && actionsCreated
      modifies this
      ensures Valid() && actionsCreated
      ensures meanChecked == !old(meanChecked)
      ensures showWhat == Some(if meanChecked then MeanWaveforms else Waveforms)
      ensures waveforms == showWhat.value
    {
      meanChecked := !meanChecked;
      ToggleMeanWaveforms(meanChecked);
    }
  }

  /** Without traces: ticking the templates, then the mean waveforms, then
      unticking them leaves the waveforms shown with neither box ticked. */
  method ToggleScenario()
  {
    var v := new WaveformToggles(false, None);
    v.OnViewActionsCreated();
    assert v.showWhat == Some(Waveforms) && !v.templatesChecked && !v.meanChecked;
    v.ClickTemplates();
    assert v.waveforms == Templates && v.templatesChecked;
    v.ClickMeanWaveforms();
    assert v.waveforms == MeanWaveforms && !v.templatesChecked && v.meanChecked;
    v.ClickMeanWaveforms();
    assert v.showWhat == Some(Waveforms) && !v.templatesChecked && !v.meanChecked;
  }
}

/** The template view (phy/cluster/views/template.py): one box per
    (channel, cluster) in a grid, each cluster's template drawn in the boxes
    of its own channels. Modelled: the box index of every vertex, the grid
    shape, the checks made while plotting, and the parsing of a click.
    Sample values, colours and the canvas are not. */
module TemplateViews {
  import opened Common
  import opened ArrayOps

  /** The shape and channels of one cluster's template: `template` has
      `nSamples` rows and `nColumns` columns, one per local channel. */
  datatype TemplateBunch = TemplateBunch(nSamples: nat, nColumns: nat, channelIds: seq<int>)

  /** The box index `_plot_templates` builds for cluster number i: for each
      local channel in turn, its position among all channels, repeated once
      per sample, paired with i. */
  function BoxIndex(local: seq<int>, channelIds: seq<int>, nSamples: nat, i: int): (b: seq<(int, int)>)
    requires forall c :: c in local ==> c in channelIds
    ensures |b| == |local| * nSamples
    ensures forall r :: 0 <= r < |b| ==> b[r].1 == i
    ensures forall r :: 0 <= r < |b| ==> 0 <= b[r].0 < |channelIds|
    decreases local
  {
    if local == [] then []
    else
      var box := IndexOf(channelIds, local[0]);
      seq(nSamples, _ => (box, i)) + BoxIndex(local[1..], channelIds, nSamples, i)
  }

  /** The layout of the box index: sample s of local channel c sits at row
      c * nSamples + s, in the box of that channel's position among all
      channels. */
  lemma {:induction false} BoxIndexLayout(local: seq<int>, channelIds: seq<int>, nSamples: nat, i: int, c: nat, s: nat)
    requires forall ch :: ch in local ==> ch in channelIds
    requires c < |local| && s < nSamples
    ensures c * nSamples + s < |BoxIndex(local, channelIds, nSamples, i)|
    ensures BoxIndex(local, channelIds, nSamples, i)[c * nSamples + s] == (IndexOf(channelIds, local[c]), i)
    ensures channelIds[BoxIndex(local, channelIds, nSamples, i)[c * nSamples + s].0] == local[c]
    decreases c
  {
    if c > 0 {
      BoxIndexLayout(local[1..], channelIds, nSamples, i, c - 1, s);
      assert c * nSamples + s == nSamples + ((c - 1) * nSamples + s);
    }
  }

  /** The box index has two entries per template value. */
  lemma BoxIndexSize(t: TemplateBunch, channelIds: seq<int>, i: int)
    requires forall c :: c in t.channelIds ==> c in channelIds
    requires t.nColumns == |t.channelIds|
    ensures 2 * |BoxIndex(t.channelIds, channelIds, t.nSamples, i)| == 2 * (t.nSamples * t.nColumns)
  {
  }

  /** What stops `_plot_templates` at a cluster: no template (KeyError), or
      a template whose column count differs from its number of channels. */
  function Failure(bunchs: map<int, TemplateBunch>, clusterId: int): (e: Option<PyError>)
    ensures e == None <==> clusterId in bunchs && bunchs[clusterId].nColumns == |bunchs[clusterId].channelIds|
    ensures e == Some(KeyError) <==> clusterId !in bunchs
  {
    if clusterId !in bunchs then Some(KeyError)
    else if bunchs[clusterId].nColumns != |bunchs[clusterId].channelIds| then Some(AssertionError)
    else None
  }

  /** The parsed click: the cluster clicked, the digit key held (if any)
      and the mouse button. */
  datatype ClusterClick = ClusterClick(clusterId: int, key: Option<nat>, button: string)

  /** `'%d' % i` for a digit. */
  function DigitString(d: nat): string
    requires d < 10
  {
    [(d + '0' as int) as char]
  }

  /** The key part of `on_mouse_click`: None when the click is ignored
      (neither Control held nor a digit key), else the digit as an integer,
      or None inside when no digit is held. */
  function ClickKey(modifiers: set<string>, key: Option<string>): (r: Option<Option<nat>>)
    ensures r.None? <==> "Control" !in modifiers && !(key.Some? && IsDigitKey(key.value))
    ensures r.Some? && r.value.Some? ==> key.Some? && IsDigitKey(key.value) && r.value.value < 10
    ensures r.Some? && (key.None? || !IsDigitKey(key.value)) ==> r.value.None?
  {
    var digit := key.Some? && IsDigitKey(key.value);
    if "Control" !in modifiers && !digit then None
    else if digit then Some(Some(key.value[0] as int - '0' as int))
    else Some(None)
  }

  /** `key in nums`: one of "0", ..., "9". */
  predicate IsDigitKey(k: string)
  {
    |k| == 1 && '0' <= k[0] <= '9'
  }

  /** Holding digit d reports d, whatever the modifiers. */
  lemma ClickKeyDigit(modifiers: set<string>, d: nat)
    requires d < 10
    ensures IsDigitKey(DigitString(d))
    ensures ClickKey(modifiers, Some(DigitString(d))) == Some(Some(d))
  {
  }

  class TemplateView {
    const channelIds: seq<int>
    const nChannels: nat
    var clusterIds: seq<int>
    var gridShape: (nat, nat)
    /** The box index of each cluster drawn by the last plot, in order. */
    var batches: seq<seq<(int, int)>>

    /** `TemplateView(templates, channel_ids, cluster_ids)`. */
    constructor (channelIds: seq<int>, clusterIds: seq<int>)
      ensures this.channelIds == channelIds && nChannels == |channelIds|
      ensures this.clusterIds == clusterIds && batches == []
    {
      this.channelIds := channelIds;
      nChannels := |channelIds|;
      this.clusterIds := clusterIds;
      gridShape := (0, 0);
      batches := [];
    }

    /** `_plot_templates(bunchs)`: one batch per cluster, in order; stops at
        the first cluster that has no template or a template whose columns do
        not match its channels, with that cluster's error. */
    method PlotTemplates(bunchs: map<int, TemplateBunch>) returns (r: Result<seq<seq<(int, int)>>>)
      requires forall c :: c in bunchs ==> forall ch :: ch in bunchs[c].channelIds ==> ch in channelIds
      ensures r.Ok? <==> forall i :: 0 <= i < |clusterIds| ==> Failure(bunchs, clusterIds[i]).None?
      ensures r.Err? ==> exists i :: 0 <= i < |clusterIds| && Failure(bunchs, clusterIds[i]) == Some(r.error)
                                   && forall j :: 0 <= j < i ==> Failure(bunchs, clusterIds[j]).None?
      ensures r.Ok? ==> |r.value| == |clusterIds| && forall i :: 0 <= i < |clusterIds| ==>
        var t := bunchs[clusterIds[i]]; r.value[i] == BoxIndex(t.channelIds, channelIds, t.nSamples, i)
    {
      var out: seq<seq<(int, int)>> := [];
      for i := 0 to |clusterIds|
        invariant |out| == i
        invariant forall j :: 0 <= j < i ==> Failure(bunchs, clusterIds[j]).None?
        invariant forall j :: 0 <= j < i ==>
          var t := bunchs[clusterIds[j]]; out[j] == BoxIndex(t.channelIds, channelIds, t.nSamples, j)
      {
        var f := Failure(bunchs, clusterIds[i]);
        if f.Some? {
          return Err(f.value);
        }
        var t := bunchs[clusterIds[i]];
        out := out + [BoxIndex(t.channelIds, channelIds, t.nSamples, i)];
      }
      r := Ok(out);
    }

    /** `plot()`: the grid gets one row per channel and one column per
        template returned, the canvas is cleared, then the templates are
        drawn. A failing template leaves the canvas cleared. */
    method Plot(bunchs: map<int, TemplateBunch>) returns (r: Result<()>)
      requires forall c :: c in bunchs ==> forall ch :: ch in bunchs[c].channelIds ==> ch in channelIds
      modifies this`gridShape, this`batches
      ensures gridShape == (nChannels, |bunchs|)
      ensures r.Ok? <==> forall i :: 0 <= i < |clusterIds| ==> Failure(bunchs, clusterIds[i]).None?
      ensures r.Ok? ==> |batches| == |clusterIds| && forall i :: 0 <= i < |clusterIds| ==>
        var t := bunchs[clusterIds[i]]; batches[i] == BoxIndex(t.channelIds, channelIds, t.nSamples, i)
      ensures r.Err? ==> batches == []
    {
      gridShape := (nChannels, |bunchs|);
      batches := [];
      var drawn := PlotTemplates(bunchs);
      if drawn.Err? {
        return Err(drawn.error);
      }
      batches := drawn.value;
      r := Ok(());
    }

    /** `on_mouse_click`: with Control or a digit key held, report the
        cluster of the clicked grid column (IndexError past the cluster
        list) with the digit and button; otherwise nothing. */
    function OnMouseClick(modifiers: set<string>, key: Option<string>, column: nat, button: string)
      : (r: Result<Option<ClusterClick>>)
      reads this
      ensures ClickKey(modifiers, key).None? ==> r == Ok(None)
      ensures ClickKey(modifiers, key).Some? && column >= |clusterIds| ==> r == Err(IndexError)
      ensures ClickKey(modifiers, key).Some? && column < |clusterIds| ==>
        r == Ok(Some(ClusterClick(clusterIds[column], ClickKey(modifiers, key).value, button)))
    {
      var k := ClickKey(modifiers, key);
      if k.None? then Ok(None)
      else if column >= |clusterIds| then Err(IndexError)
      else Ok(Some(ClusterClick(clusterIds[column], k.value, button)))
    }
  }

  /** Holding "2" and clicking the column of cluster 4 reports (4, Left, 2). */
  method ClickScenario()
  {
    var v := new TemplateView([0, 1, 2, 3, 4, 5, 6, 7, 8, 9, 10, 11], [0, 1, 2, 3, 4, 5, 6, 7, 8, 9]);
    ClickKeyDigit({}, 2);
    assert v.OnMouseClick({}, Some("2"), 4, "Left") == Ok(Some(ClusterClick(4, Some(2), "Left")));
    assert v.OnMouseClick({}, None, 4, "Left") == Ok(None);
  }
}

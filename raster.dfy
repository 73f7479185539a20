/** The raster view (phy/cluster/views/raster.py): one row per shown
    cluster, one tick per spike of a shown cluster. Modelled: which spikes
    are shown, the row of each, and the top-to-bottom flip. Colours and
    drawing are not. */
module Raster {
  import opened Common
  import opened ArrayOps

  /** `data_bounds`: (x0, y0, x1, y1). */
  datatype Bounds = Bounds(x0: real, y0: real, x1: real, y1: real)

  class RasterView {
    const spikeTimes: seq<real>
    const duration: real
    var spikeClusters: seq<int>
    var dataBounds: Bounds
    /** The shown clusters, top to bottom. */
    var clusterIds: seq<int>
    var nClusters: nat
    /** `spike_ids`: the boolean mask of the spikes of shown clusters. */
    var spikeMask: seq<bool>

    /** The fields agree: one cluster and one mask entry per spike, and the
        mask selects exactly the spikes of shown clusters. `set_spike_clusters`
        alone can break the last part, since it keeps the old mask. */
    ghost predicate Valid()
      reads this
    {
      && |spikeClusters| == |spikeTimes| && |spikeMask| == |spikeTimes|
      && nClusters == |clusterIds|
      && forall i :: 0 <= i < |spikeMask| ==> (spikeMask[i] <==> spikeClusters[i] in clusterIds)
    }

    /** `RasterView(spike_times, spike_clusters)`: every non-negative cluster
        that has a spike is shown, in increasing order, so every spike is
        shown except the unclustered ones (negative ids). */
    constructor (spikeTimes: seq<real>, spikeClusters: seq<int>)
      requires |spikeTimes| >= 1 && |spikeClusters| == |spikeTimes|
      ensures Valid()
      ensures this.spikeTimes == spikeTimes && this.spikeClusters == spikeClusters
      ensures duration == spikeTimes[|spikeTimes| - 1] * 1.01
      ensures dataBounds == Bounds(0.0, 0.0, duration, (Max(spikeClusters) + 1) as real)
      ensures clusterIds == UniqueClusters(spikeClusters) && nClusters == |clusterIds|
      ensures StrictlyIncreasing(clusterIds)
      ensures forall c :: c in clusterIds <==> c in spikeClusters && c >= 0
      ensures forall i :: 0 <= i < |spikeMask| ==> (spikeMask[i] <==> spikeClusters[i] >= 0)
    {
      this.spikeTimes := spikeTimes;
      duration := spikeTimes[|spikeTimes| - 1] * 1.01;
      new;
      var ok := SetSpikeClusters(spikeClusters);
      SetClusterIds(UniqueClusters(spikeClusters));
    }

    /** `set_spike_clusters`: store the clusters and set the bounds to
        (0, 0, duration, max + 1), so every cluster's row fits below the
        upper bound. An empty array has no maximum (ValueError) and fails
        after it was stored. The mask is not recomputed. */
    method SetSpikeClusters(sc: seq<int>) returns (r: Result<()>)
      modifies this`spikeClusters, this`dataBounds
      ensures spikeClusters == sc
      ensures sc == [] ==> r == Err(ValueError) && dataBounds == old(dataBounds)
      ensures sc != [] ==> r == Ok(()) && dataBounds == Bounds(0.0, 0.0, duration, (Max(sc) + 1) as real)
      ensures sc != [] ==> forall c :: c in sc ==> c as real + 1.0 <= dataBounds.y1
    {
      spikeClusters := sc;
      if sc == [] {
        return Err(ValueError);
      }
      dataBounds := Bounds(0.0, 0.0, duration, (Max(sc) + 1) as real);
      r := Ok(());
    }

    /** `set_cluster_ids`: show exactly these clusters, in this order. */
    method SetClusterIds(ids: seq<int>)
      modifies this`clusterIds, this`nClusters, this`spikeMask
      ensures clusterIds == ids && nClusters == |ids|
      ensures spikeMask == In1d(spikeClusters, ids)
      ensures |spikeClusters| == |spikeTimes| ==> Valid()
    {
      clusterIds := ids;
      nClusters := |ids|;
      spikeMask := In1d(spikeClusters, ids);
    }

    /** `_get_x`: the times of the shown spikes, in their original order. */
    function GetX(): (x: seq<real>)
      reads this
      requires Valid()
      ensures |x| == |TrueIndices(spikeMask)|
      ensures forall k :: 0 <= k < |x| ==>
        var i := TrueIndices(spikeMask)[k]; x[k] == spikeTimes[i] && spikeClusters[i] in clusterIds
    {
      var idx := TrueIndices(spikeMask);
      assert forall k :: 0 <= k < |idx| ==> idx[k] in idx && spikeMask[idx[k]];
      Compress(spikeTimes, spikeMask)
    }

    /** `_get_y`: for each shown spike, the position of its cluster among
        the shown clusters. */
    function GetY(): (y: seq<int>)
      reads this
      requires Valid()
      ensures |y| == |GetX()|
      ensures forall k :: 0 <= k < |y| ==> 0 <= y[k] < nClusters
      ensures forall k :: 0 <= k < |y| ==> clusterIds[y[k]] == spikeClusters[TrueIndices(spikeMask)[k]]
    {
      var shown, ids, idx := Compress(spikeClusters, spikeMask), clusterIds, TrueIndices(spikeMask);
      assert forall k :: 0 <= k < |idx| ==> idx[k] in idx && spikeMask[idx[k]];
      seq(|shown|, k requires 0 <= k < |shown| => IndexOf(ids, shown[k]))
    }

    /** The rows `plot` draws at, `n - 1 - y`: the first shown cluster is the
        top row and the order of the rows is the reverse of `cluster_ids`. */
    function PlotRows(): (rows: seq<int>)
      reads this
      requires Valid()
      ensures |rows| == |GetY()|
      ensures forall k :: 0 <= k < |rows| ==> 0 <= rows[k] < nClusters
      ensures forall k :: 0 <= k < |rows| ==> (rows[k] == nClusters - 1 <==> GetY()[k] == 0)
      ensures forall k, l :: 0 <= k < |rows| && 0 <= l < |rows| ==> (GetY()[k] < GetY()[l] <==> rows[k] > rows[l])
    {
      var y, n := GetY(), nClusters;
      seq(|y|, k requires 0 <= k < |y| => n - 1 - y[k])
    }
  }

  /** After new spike clusters, setting the cluster ids again makes the view
      consistent; with clusters only, the old mask is kept as it was. */
  method ReclusterScenario(v: RasterView, sc: seq<int>, ids: seq<int>)
    requires v.Valid() && |sc| == |v.spikeTimes| && sc != []
    modifies v
  {
    var mask := v.spikeMask;
    var r := v.SetSpikeClusters(sc);
    assert v.spikeMask == mask && r.Ok?;
    v.SetClusterIds(ids);
    assert v.Valid();
  }
}

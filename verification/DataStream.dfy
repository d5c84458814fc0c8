/**
  The layout of a data stream.  The reader walks a cluster chain, merges clusters into runs, and hands
  out one extent and one stream segment per run, the segments clipped to the data size.
 */
module DataStream {
  import opened Arithmetic
  import opened Common
  import opened ClusterChain
  import B = BlockTree

  datatype Extent = Extent(offset: int, size: nat)
  datatype Segment = Segment(offset: int, size: nat)

  /** `count` clusters from `first` on. */
  datatype Run = Run(first: nat, count: nat)

  // ----- runs

  /** A run is cut when the next cluster lies behind its end; a cluster before its end extends it. */
  ghost function Runs(clusters: seq<nat>): (runs: seq<Run>)
    ensures clusters != [] ==> runs != []
  {
    if clusters == [] then []
    else
      NextRuns(Runs(clusters[..|clusters| - 1]), clusters[|clusters| - 1])
  }

  ghost function NextRuns(runs: seq<Run>, c: nat): (next: seq<Run>)
    ensures next != []
  {
    if runs == [] || Last(runs).first + Last(runs).count < c then runs + [Run(c, 1)]
    else Front(runs) + [Last(runs).(count := Last(runs).count + 1)]
  }

  ghost function Last(runs: seq<Run>): Run
    requires runs != []
  {
    runs[|runs| - 1]
  }

  ghost function Front(runs: seq<Run>): seq<Run>
    requires runs != []
  {
    runs[..|runs| - 1]
  }

  ghost function Blocks(runs: seq<Run>): nat {
    if runs == [] then 0 else Blocks(Front(runs)) + Last(runs).count
  }

  /** The clusters of the runs, in reading order. */
  ghost function Expand(runs: seq<Run>): seq<nat> {
    if runs == [] then [] else Expand(Front(runs)) + Numbers(Last(runs).first, Last(runs).count)
  }

  /** A number of clusters in a row. */
  ghost function Numbers(first: nat, count: nat): (numbers: seq<nat>)
    ensures |numbers| == count
    ensures forall i :: 0 <= i < count ==> numbers[i] == first + i
  {
    if count == 0 then [] else Numbers(first, count - 1) + [first + count - 1]
  }

  ghost predicate Ascending(s: seq<nat>) {
    forall i, j :: 0 <= i < j < |s| ==> s[i] < s[j]
  }

  lemma {:induction false} RunsCoverClusters(clusters: seq<nat>)
    ensures
      var runs := Runs(clusters);
      && Blocks(runs) == |Expand(runs)| == |clusters|
      && (forall r :: r in runs ==> 0 < r.count)
  {
    if clusters != [] {
      var front := clusters[..|clusters| - 1];
      RunsCoverClusters(front);
      var before, runs := Runs(front), Runs(clusters);
      if runs == before + [Run(clusters[|front|], 1)] {
        assert Front(runs) == before;
      } else {
        assert Front(runs) == Front(before);
      }
    }
  }

  /** Runs in ascending order with a gap between neighbours. */
  ghost predicate Gapped(runs: seq<Run>) {
    forall i, j {:trigger runs[i], runs[j]} :: 0 <= i && j == i + 1 && j < |runs| ==>
      runs[i].first + runs[i].count < runs[j].first
  }

  lemma {:induction false} RunsAscend(clusters: seq<nat>)
    ensures Gapped(Runs(clusters))
  {
    if clusters != [] {
      var front := clusters[..|clusters| - 1];
      RunsAscend(front);
      var before, runs := Runs(front), Runs(clusters);
      forall i, j | 0 <= i && j == i + 1 && j < |runs|
        ensures runs[i].first + runs[i].count < runs[j].first
      {
        assert runs[i] == before[i];
        assert j < |before| ==> runs[j].first == before[j].first;
      }
    }
  }

  lemma {:induction false} ExpandAscends(runs: seq<Run>)
    requires Gapped(runs)
    ensures Ascending(Expand(runs))
    ensures runs != [] ==> forall c :: c in Expand(runs) ==> c < Last(runs).first + Last(runs).count
  {
    if runs != [] {
      var front := Expand(Front(runs));
      ExpandAscends(Front(runs));
      var e := Expand(runs);
      if Front(runs) != [] {
        assert runs[|runs| - 2] == Last(Front(runs));
      }
      forall i, j | 0 <= i < j < |e|
        ensures e[i] < e[j]
      {
        if i < |front| {
          assert e[i] in front;
        }
      }
    }
  }

  /** What a longer walk reads begins with what a shorter walk reads. */
  lemma ExpandPrefix(clusters: seq<nat>, k: nat)
    requires k <= |clusters|
    ensures k <= |Expand(Runs(clusters))|
    ensures Expand(Runs(clusters))[..k] == Expand(Runs(clusters[..k]))
  {
    RunsCoverClusters(clusters[..k]);
    ExpandGrows(clusters, k);
  }

  lemma {:induction false} ExpandGrows(clusters: seq<nat>, k: nat)
    requires k <= |clusters|
    ensures Expand(Runs(clusters[..k])) <= Expand(Runs(clusters))
    decreases |clusters|
  {
    if k == |clusters| {
      assert clusters[..k] == clusters;
    } else {
      var front := clusters[..|clusters| - 1];
      ExpandGrows(front, k);
      assert front[..k] == clusters[..k];
      ExpandStep(clusters);
    }
  }

  lemma ExpandAppend(front: seq<Run>, r: Run)
    ensures Expand(front + [r]) == Expand(front) + Numbers(r.first, r.count)
  {
    assert Front(front + [r]) == front;
  }

  lemma ExpandNewRun(runs: seq<Run>, c: nat)
    ensures Expand(runs + [Run(c, 1)]) == Expand(runs) + [c]
  {
    ExpandAppend(runs, Run(c, 1));
    assert Numbers(c, 1) == [c];
  }

  lemma ExpandLongerRun(front: seq<Run>, r: Run)
    ensures Expand(front + [r.(count := r.count + 1)]) == Expand(front + [r]) + [r.first + r.count]
  {
    ExpandAppend(front, r);
    ExpandAppend(front, r.(count := r.count + 1));
    Reassociate(Expand(front), Numbers(r.first, r.count), [r.first + r.count]);
  }

  /** One more cluster adds one cluster to what is read. */
  lemma ExpandStep(clusters: seq<nat>)
    requires clusters != []
    ensures
      var front := clusters[..|clusters| - 1];
      var next := if front == [] || Last(Runs(front)).first + Last(Runs(front)).count < clusters[|front|]
                  then clusters[|front|] else Last(Runs(front)).first + Last(Runs(front)).count;
      Expand(Runs(clusters)) == Expand(Runs(front)) + [next]
  {
    var before := Runs(clusters[..|clusters| - 1]);
    ExpandNewRun(before, clusters[|clusters| - 1]);
    if before != [] {
      ExpandLongerRun(Front(before), Last(before));
      assert Front(before) + [Last(before)] == before;
    }
  }

  lemma {:induction false} ForwardRunsAreChain(clusters: seq<nat>)
    requires Ascending(clusters)
    ensures Expand(Runs(clusters)) == clusters
  {
    if clusters != [] {
      var n := |clusters| - 1;
      var front := clusters[..n];
      ForwardRunsAreChain(front);
      assert clusters == front + [clusters[n]];
      if front != [] {
        assert front[n - 1] == clusters[n - 1] < clusters[n];
      }
      ForwardNext(front, clusters[n]);
    }
  }

  /** A cluster above all before it is read next. */
  lemma ForwardNext(front: seq<nat>, c: nat)
    requires Expand(Runs(front)) == front
    requires front != [] ==> front[|front| - 1] < c
    ensures Expand(Runs(front + [c])) == front + [c]
  {
    assert (front + [c])[..|front|] == front;
    RunsCoverClusters(front);
    ExpandNextRuns(Runs(front), front, c);
  }

  lemma ExpandNextRuns(runs: seq<Run>, read: seq<nat>, c: nat)
    requires Expand(runs) == read && (runs != [] ==> 0 < Last(runs).count)
    requires read != [] ==> read[|read| - 1] < c
    ensures Expand(NextRuns(runs, c)) == read + [c]
  {
    if runs == [] || Last(runs).first + Last(runs).count < c {
      ExpandNewRun(runs, c);
    } else {
      LastOfExpand(runs, read);
      ExpandLongerRun(Front(runs), Last(runs));
      assert Front(runs) + [Last(runs)] == runs;
    }
  }

  lemma LastOfExpand(runs: seq<Run>, clusters: seq<nat>)
    requires runs != [] && 0 < Last(runs).count && Expand(runs) == clusters
    ensures clusters != [] && clusters[|clusters| - 1] == Last(runs).first + Last(runs).count - 1
  {
  }

  /** The first k clusters are read in chain order exactly when they ascend. */
  lemma ReadsChainIffForward(clusters: seq<nat>, k: nat)
    requires k <= |clusters|
    ensures k <= |Expand(Runs(clusters))|
    ensures Expand(Runs(clusters))[..k] == clusters[..k] <==> Ascending(clusters[..k])
  {
    ExpandPrefix(clusters, k);
    if Ascending(clusters[..k]) {
      ForwardRunsAreChain(clusters[..k]);
    }
    RunsAscend(clusters[..k]);
    ExpandAscends(Runs(clusters[..k]));
  }

  // ----- extents and segments

  ghost function RunSize(io: IoHandle, r: Run): nat {
    r.count * io.clusterBlockSize
  }

  ghost function Bytes(io: IoHandle, runs: seq<Run>): nat {
    Blocks(runs) * io.clusterBlockSize
  }

  ghost function ExtentsOf(io: IoHandle, runs: seq<Run>): seq<Extent> {
    seq(|runs|, i requires 0 <= i < |runs| => Extent(io.ClusterOffset(runs[i].first), RunSize(io, runs[i])))
  }

  /** One segment per run, until `size` bytes are laid out. */
  ghost function SegmentsOf(io: IoHandle, runs: seq<Run>, size: nat): seq<Segment> {
    if runs == [] then []
    else if size <= Bytes(io, Front(runs)) then SegmentsOf(io, Front(runs), size)
    else
      SegmentsOf(io, Front(runs), size)
      + [Segment(io.ClusterOffset(Last(runs).first), Min(RunSize(io, Last(runs)), size - Bytes(io, Front(runs))))]
  }

  /** The runs that are complete when the walk has been at these clusters. */
  ghost function Completed(clusters: seq<nat>): seq<Run> {
    if clusters == [] then [] else Front(Runs(clusters))
  }

  /** How many clusters are walked: the walk stops once the completed runs hold `size` bytes. */
  ghost function WalkedLength(io: IoHandle, clusters: seq<nat>, size: nat, i: nat): (k: nat)
    requires i <= |clusters|
    ensures i <= k <= |clusters|
    ensures k == |clusters| || size <= Bytes(io, Completed(clusters[..k]))
    decreases |clusters| - i
  {
    if i == |clusters| || size <= Bytes(io, Completed(clusters[..i])) then i
    else WalkedLength(io, clusters, size, i + 1)
  }

  ghost function Walked(io: IoHandle, table: seq<nat>, cluster: nat, size: nat): seq<nat>
    requires io.Valid()
  {
    var clusters := ChainFrom(io, table, cluster, {}).clusters;
    clusters[..WalkedLength(io, clusters, size, 0)]
  }

  /** Whether the walk reaches its end, or enough data, before a cluster that stops it. */
  ghost predicate StreamAvailable(io: IoHandle, table: seq<nat>, cluster: nat, size: nat)
    requires io.Valid()
  {
    var chain := ChainFrom(io, table, cluster, {});
    && 0 < io.volumeSize <= B.INT64_MAX && table != []
    && match chain.end
       case Complete => true
       case Refused(_) => size <= Bytes(io, Completed(Walked(io, table, cluster, size)))
       case NoEntry => |Walked(io, table, cluster, size)| < |chain.clusters|
  }

  lemma OffsetOrder(io: IoHandle, r: Run, c: nat)
    requires io.Valid()
    ensures io.ClusterOffset(r.first) + RunSize(io, r) == io.ClusterOffset(r.first + r.count)
    ensures io.ClusterOffset(r.first) + RunSize(io, r) < io.ClusterOffset(c) <==> r.first + r.count < c
  {
    var b, e := io.clusterBlockSize, r.first + r.count;
    assert (r.first - 2) * b + r.count * b == (e - 2) * b;
    if e < c {
      MulMonotonic(1, c - e, b);
    } else {
      MulMonotonic(0, e - c, b);
    }
    assert (c - e) * b == (c - 2) * b - (e - 2) * b;
  }

  /** The state of the layout loop after the walked clusters. */
  ghost predicate LaidOut(io: IoHandle, walked: seq<nat>, dataSize: nat, size: int,
                          segmentStart: int, segmentEnd: int,
                          extents0: seq<Extent>, extents: seq<Extent>, segments: seq<Segment>)
  {
    var done := Completed(walked);
    && segments == SegmentsOf(io, done, dataSize)
    && |segments| == |done|
    && extents == extents0 + ExtentsOf(io, done)
    && size == Max(0, dataSize - Bytes(io, done))
    && (walked == [] ==> segmentStart == segmentEnd == 0)
    && (walked != [] ==>
          var r := Last(Runs(walked));
          0 < segmentStart == io.ClusterOffset(r.first) && segmentEnd == segmentStart + RunSize(io, r))
  }

  /** A cluster that does not extend the current run completes it. */
  lemma RunCut(io: IoHandle, walked: seq<nat>, c: nat)
    requires walked != [] ==> Last(Runs(walked)).first + Last(Runs(walked)).count < c
    ensures Completed(walked + [c]) == Runs(walked)
    ensures Last(Runs(walked + [c])) == Run(c, 1) && RunSize(io, Run(c, 1)) == io.clusterBlockSize
  {
    var clusters := walked + [c];
    assert clusters[..|clusters| - 1] == walked;
    assert Runs(clusters) == Runs(walked) + [Run(c, 1)];
  }

  lemma RunExtended(io: IoHandle, walked: seq<nat>, c: nat)
    requires walked != [] && c <= Last(Runs(walked)).first + Last(Runs(walked)).count
    ensures Completed(walked + [c]) == Completed(walked)
    ensures var r := Last(Runs(walked));
      && Last(Runs(walked + [c])) == r.(count := r.count + 1)
      && RunSize(io, r.(count := r.count + 1)) == RunSize(io, r) + io.clusterBlockSize
  {
    var clusters := walked + [c];
    assert clusters[..|clusters| - 1] == walked;
    var r := Last(Runs(walked));
    assert Runs(clusters) == Front(Runs(walked)) + [r.(count := r.count + 1)];
    Distribute(r.count, 1, io.clusterBlockSize);
  }

  /** Writing out a run that still has data: the segments and extents of the runs including it. */
  lemma RunWritten(io: IoHandle, runs: seq<Run>, dataSize: nat)
    requires runs != [] && Bytes(io, Front(runs)) < dataSize
    ensures SegmentsOf(io, runs, dataSize)
         == SegmentsOf(io, Front(runs), dataSize)
            + [Segment(io.ClusterOffset(Last(runs).first),
                       Min(RunSize(io, Last(runs)), dataSize - Bytes(io, Front(runs))))]
    ensures ExtentsOf(io, runs)
         == ExtentsOf(io, Front(runs)) + [Extent(io.ClusterOffset(Last(runs).first), RunSize(io, Last(runs)))]
    ensures Bytes(io, runs) == Bytes(io, Front(runs)) + RunSize(io, Last(runs))
  {
    BytesStep(io, runs);
    ExtentsStep(io, runs);
  }

  lemma BytesStep(io: IoHandle, runs: seq<Run>)
    requires runs != []
    ensures Bytes(io, runs) == Bytes(io, Front(runs)) + RunSize(io, Last(runs))
  {
    Distribute(Blocks(Front(runs)), Last(runs).count, io.clusterBlockSize);
  }

  lemma ExtentsStep(io: IoHandle, runs: seq<Run>)
    requires runs != []
    ensures ExtentsOf(io, runs)
         == ExtentsOf(io, Front(runs)) + [Extent(io.ClusterOffset(Last(runs).first), RunSize(io, Last(runs)))]
  {
  }

  /** The walk has been at `walked`, still needs data, and goes on with `cluster`. */
  ghost predicate OnTheWay(io: IoHandle, table: seq<nat>, start: nat, dataSize: nat,
                           walked: seq<nat>, cluster: nat, seen: set<nat>)
    requires io.Valid()
  {
    var chain := ChainFrom(io, table, start, {});
    var rest := ChainFrom(io, table, cluster, seen);
    && chain.clusters == walked + rest.clusters && chain.end == rest.end
    && WalkedLength(io, chain.clusters, dataSize, 0) == WalkedLength(io, chain.clusters, dataSize, |walked|)
  }

  lemma WalkGoesOn(io: IoHandle, table: seq<nat>, start: nat, dataSize: nat,
                   walked: seq<nat>, cluster: nat, seen: set<nat>)
    requires io.Valid() && OnTheWay(io, table, start, dataSize, walked, cluster, seen)
    requires IsCluster(io, cluster) && Bytes(io, Completed(walked)) < dataSize
    requires cluster !in seen && HasSlot(io, cluster) && cluster < |table|
    ensures OnTheWay(io, table, start, dataSize, walked + [cluster], table[cluster], seen + {cluster})
    ensures Unseen(table, seen + {cluster}) < Unseen(table, seen)
  {
    UnseenShrinks(table, seen, cluster);
    var clusters := ChainFrom(io, table, start, {}).clusters;
    var rest := ChainFrom(io, table, table[cluster], seen + {cluster});
    ChainUnfolds(io, table, cluster, seen, rest);
    Reassociate(walked, [cluster], rest.clusters);
    assert clusters[..|walked|] == walked;
  }

  lemma WalkFails(io: IoHandle, table: seq<nat>, start: nat, dataSize: nat,
                  walked: seq<nat>, cluster: nat, seen: set<nat>)
    requires io.Valid() && OnTheWay(io, table, start, dataSize, walked, cluster, seen)
    requires IsCluster(io, cluster) && Bytes(io, Completed(walked)) < dataSize
    requires cluster in seen || !HasSlot(io, cluster) || |table| <= cluster
    ensures !StreamAvailable(io, table, start, dataSize)
  {
    var clusters := ChainFrom(io, table, start, {}).clusters;
    assert clusters[..|walked|] == walked;
  }

  lemma WalkEnds(io: IoHandle, table: seq<nat>, start: nat, dataSize: nat,
                 walked: seq<nat>, cluster: nat, seen: set<nat>)
    requires io.Valid() && OnTheWay(io, table, start, dataSize, walked, cluster, seen)
    requires table != [] && 0 < io.volumeSize <= B.INT64_MAX
    requires !IsCluster(io, cluster) || dataSize <= Bytes(io, Completed(walked))
    ensures StreamAvailable(io, table, start, dataSize)
    ensures Walked(io, table, start, dataSize) == walked
  {
    var clusters := ChainFrom(io, table, start, {}).clusters;
    assert clusters[..|walked|] == walked;
  }

  /** Appends the extent of a run, and its segment clipped to the data that is left. */
  method WriteRun(segmentStart: int, segmentEnd: int, size: nat, extents: seq<Extent>, segments: seq<Segment>)
    returns (extents': seq<Extent>, segments': seq<Segment>, size': nat)
    requires segmentStart <= segmentEnd
    ensures extents' == extents + [Extent(segmentStart, segmentEnd - segmentStart)]
    ensures segments' == segments + [Segment(segmentStart, Min(segmentEnd - segmentStart, size))]
    ensures size' == size - Min(segmentEnd - segmentStart, size)
  {
    var segmentSize := segmentEnd - segmentStart;
    extents' := extents + [Extent(segmentStart, segmentSize)];
    if segmentSize > size {
      segmentSize := size;
    }
    segments' := segments + [Segment(segmentStart, segmentSize)];
    size' := size - segmentSize;
  }

  /** Lays out one more cluster of the chain. */
  method LayOutCluster(io: IoHandle, ghost walked: seq<nat>, cluster: nat, ghost dataSize: nat, size: nat,
                       segmentStart: int, segmentEnd: int,
                       ghost extents0: seq<Extent>, extents: seq<Extent>, segments: seq<Segment>)
    returns (size': nat, segmentStart': int, segmentEnd': int, extents': seq<Extent>, segments': seq<Segment>)
    requires io.Valid() && 2 <= cluster && 0 < size
    requires LaidOut(io, walked, dataSize, size, segmentStart, segmentEnd, extents0, extents, segments)
    ensures LaidOut(io, walked + [cluster], dataSize, size', segmentStart', segmentEnd', extents0, extents', segments')
  {
    size', segmentStart', segmentEnd', extents', segments' := size, segmentStart, segmentEnd, extents, segments;
    var clusterOffset := io.ClusterOffset(cluster);
    ghost var runs := Runs(walked);
    if walked != [] {
      OffsetOrder(io, Last(runs), cluster);
    }
    MulMonotonic(0, cluster - 2, io.clusterBlockSize);
    if segmentStart' != 0 && clusterOffset > segmentEnd' {
      RunWritten(io, runs, dataSize);
      extents', segments', size' := WriteRun(segmentStart', segmentEnd', size', extents', segments');
      segmentStart' := 0;
    }
    if segmentStart' == 0 {
      RunCut(io, walked, cluster);
      segmentStart' := clusterOffset;
      segmentEnd' := clusterOffset;
    } else {
      RunExtended(io, walked, cluster);
    }
    segmentEnd' := segmentEnd' + io.clusterBlockSize;
  }

  /** Writes out the run the walk ended in, if data is left. */
  method LayOutLastRun(io: IoHandle, ghost walked: seq<nat>, ghost dataSize: nat, size: nat,
                       segmentStart: int, segmentEnd: int,
                       ghost extents0: seq<Extent>, extents: seq<Extent>, segments: seq<Segment>)
    returns (extents': seq<Extent>, segments': seq<Segment>)
    requires LaidOut(io, walked, dataSize, size, segmentStart, segmentEnd, extents0, extents, segments)
    ensures segments' == SegmentsOf(io, Runs(walked), dataSize)
    ensures |segments'| <= |Runs(walked)|
    ensures extents' == extents0 + ExtentsOf(io, Runs(walked)[..|segments'|])
  {
    extents', segments' := extents, segments;
    ghost var runs := Runs(walked);
    if size > 0 && segmentStart != 0 {
      RunWritten(io, runs, dataSize);
      var left;
      extents', segments', left := WriteRun(segmentStart, segmentEnd, size, extents, segments);
      assert runs[..|segments'|] == runs;
    } else if walked != [] {
      assert runs[..|segments'|] == Front(runs);
    }
  }

  /** What a turn of the walk comes to, depending on the cluster it is at. */
  lemma WalkTurn(io: IoHandle, table: seq<nat>, start: nat, dataSize: nat, walked: seq<nat>, cluster: nat,
                 seen: set<nat>)
    requires io.Valid() && OnTheWay(io, table, start, dataSize, walked, cluster, seen)
    requires IsCluster(io, cluster) && Bytes(io, Completed(walked)) < dataSize
    ensures if cluster in seen || !HasSlot(io, cluster) || |table| <= cluster then
              !StreamAvailable(io, table, start, dataSize)
            else
              && OnTheWay(io, table, start, dataSize, walked + [cluster], table[cluster], seen + {cluster})
              && Unseen(table, seen + {cluster}) < Unseen(table, seen)
  {
    if cluster in seen || !HasSlot(io, cluster) || |table| <= cluster {
      WalkFails(io, table, start, dataSize, walked, cluster, seen);
    } else {
      WalkGoesOn(io, table, start, dataSize, walked, cluster, seen);
    }
  }

  /** What a successful call returns. */
  ghost predicate StreamIs(io: IoHandle, table: seq<nat>, start: nat, dataSize: nat,
                           extents0: seq<Extent>, extents: seq<Extent>, segments: seq<Segment>)
    requires io.Valid()
  {
    var runs := Runs(Walked(io, table, start, dataSize));
    && segments == SegmentsOf(io, runs, dataSize)
    && |segments| <= |runs|
    && extents == extents0 + ExtentsOf(io, runs[..|segments|])
  }

  /** Lays out the last run when the walk is over. */
  method FinishStream(io: IoHandle, ghost table: seq<nat>, ghost start: nat, ghost dataSize: nat,
                      ghost walked: seq<nat>, ghost cluster: nat, ghost seen: set<nat>,
                      size: nat, segmentStart: int, segmentEnd: int,
                      ghost extents0: seq<Extent>, extents: seq<Extent>, segments: seq<Segment>)
    returns (extents': seq<Extent>, segments': seq<Segment>)
    requires io.Valid() && table != [] && 0 < io.volumeSize <= B.INT64_MAX
    requires LaidOut(io, walked, dataSize, size, segmentStart, segmentEnd, extents0, extents, segments)
    requires OnTheWay(io, table, start, dataSize, walked, cluster, seen)
    requires !IsCluster(io, cluster) || size == 0
    ensures StreamAvailable(io, table, start, dataSize)
    ensures StreamIs(io, table, start, dataSize, extents0, extents', segments')
  {
    WalkEnds(io, table, start, dataSize, walked, cluster, seen);
    extents', segments' := LayOutLastRun(io, walked, dataSize, size, segmentStart, segmentEnd, extents0, extents,
                                         segments);
  }

  /** One turn of the walk: marks the cluster and lays it out, or finds that the walk cannot go on. */
  method WalkCluster(io: IoHandle, tree: B.BlockTree, ghost table: seq<nat>, ghost start: nat, ghost dataSize: nat,
                     ghost walked: seq<nat>, cluster: nat, ghost seen: set<nat>,
                     size: nat, segmentStart: int, segmentEnd: int,
                     ghost extents0: seq<Extent>, extents: seq<Extent>, segments: seq<Segment>)
    returns (first: bool, size': nat, segmentStart': int, segmentEnd': int,
             extents': seq<Extent>, segments': seq<Segment>)
    requires io.Valid() && Visited(io, tree, seen) && IsCluster(io, cluster) && 0 < size
    requires OnTheWay(io, table, start, dataSize, walked, cluster, seen)
    requires LaidOut(io, walked, dataSize, size, segmentStart, segmentEnd, extents0, extents, segments)
    modifies tree, tree.nodes
    ensures forall n {:trigger n in tree.nodes} :: n in tree.nodes ==> n in old(tree.nodes) || fresh(n)
    ensures extents0 <= extents'
    ensures if first && cluster < |table| then
              && Visited(io, tree, seen + {cluster})
              && LaidOut(io, walked + [cluster], dataSize, size', segmentStart', segmentEnd',
                         extents0, extents', segments')
              && OnTheWay(io, table, start, dataSize, walked + [cluster], table[cluster], seen + {cluster})
              && Unseen(table, seen + {cluster}) < Unseen(table, seen)
            else !StreamAvailable(io, table, start, dataSize)
  {
    WalkTurn(io, table, start, dataSize, walked, cluster, seen);
    size', segmentStart', segmentEnd', extents', segments' := size, segmentStart, segmentEnd, extents, segments;
    first := CheckIfClusterBlockFirstRead(io, tree, cluster, seen);
    if first {
      size', segmentStart', segmentEnd', extents', segments' :=
        LayOutCluster(io, walked, cluster, dataSize, size, segmentStart, segmentEnd, extents0, extents, segments);
    }
  }

  lemma WalkStarts(io: IoHandle, table: seq<nat>, start: nat, dataSize: nat, extents0: seq<Extent>)
    requires io.Valid()
    ensures LaidOut(io, [], dataSize, dataSize, 0, 0, extents0, extents0, [])
    ensures OnTheWay(io, table, start, dataSize, [], start, {})
  {
  }

  /** The walk along the chain, with a tree that has no cluster yet. */
  method WalkChain(io: IoHandle, tree: B.BlockTree, table: seq<nat>, clusterNumber: nat, dataSize: nat,
                   extents0: seq<Extent>)
    returns (ok: bool, extents: seq<Extent>, segments: seq<Segment>)
    requires io.Valid() && Visited(io, tree, {}) && table != [] && 0 < io.volumeSize <= B.INT64_MAX
    modifies tree, tree.nodes
    ensures ok <==> StreamAvailable(io, table, clusterNumber, dataSize)
    ensures ok ==> StreamIs(io, table, clusterNumber, dataSize, extents0, extents, segments)
    ensures extents0 <= extents
  {
    extents, segments := extents0, [];
    var size, cluster, segmentStart, segmentEnd := dataSize, clusterNumber, 0, 0;
    ghost var walked: seq<nat>, seen: set<nat> := [], {};
    WalkStarts(io, table, clusterNumber, dataSize, extents0);
    while IsCluster(io, cluster)
      invariant Visited(io, tree, seen)
      invariant forall n {:trigger n in tree.nodes} :: n in tree.nodes ==> n in old(tree.nodes) || fresh(n)
      invariant LaidOut(io, walked, dataSize, size, segmentStart, segmentEnd, extents0, extents, segments)
      invariant OnTheWay(io, table, clusterNumber, dataSize, walked, cluster, seen)
      decreases Unseen(table, seen)
    {
      if size == 0 {
        break;
      }
      var first;
      first, size, segmentStart, segmentEnd, extents, segments :=
        WalkCluster(io, tree, table, clusterNumber, dataSize, walked, cluster, seen,
                    size, segmentStart, segmentEnd, extents0, extents, segments);
      if !first {
        return false, extents, segments;
      }
      if |table| <= cluster {
        return false, extents, segments;
      }
      walked, seen := walked + [cluster], seen + {cluster};
      cluster := table[cluster];
    }
    extents, segments :=
      FinishStream(io, table, clusterNumber, dataSize, walked, cluster, seen,
                   size, segmentStart, segmentEnd, extents0, extents, segments);
    return true, extents, segments;
  }

  /** Lays out the data of a cluster chain. */
  method GetDataStream(io: IoHandle, table: seq<nat>, clusterNumber: nat, dataSize: nat, extents0: seq<Extent>)
    returns (ok: bool, extents: seq<Extent>, segments: seq<Segment>)
    requires io.Valid() && io.clusterBlockSize <= B.UINT64_MAX
    ensures ok <==> StreamAvailable(io, table, clusterNumber, dataSize)
    ensures ok ==> StreamIs(io, table, clusterNumber, dataSize, extents0, extents, segments)
    ensures extents0 <= extents
  {
    if table == [] {
      return false, extents0, [];
    }
    var tree := B.BlockTree.Initialize(io.volumeSize, io.clusterBlockSize);
    if tree == null {
      return false, extents0, [];
    }
    ok, extents, segments := WalkChain(io, tree, table, clusterNumber, dataSize, extents0);
  }

  // ----- what is read: byte addresses, in order

  function Range(start: int, count: nat): (s: seq<int>)
    ensures |s| == count
    ensures forall i :: 0 <= i < count ==> s[i] == start + i
  {
    seq(count, i => start + i)
  }

  /** The addresses a reader of the stream gets. */
  ghost function StreamAddresses(segments: seq<Segment>): seq<int> {
    if segments == [] then []
    else
      var last := segments[|segments| - 1];
      StreamAddresses(segments[..|segments| - 1]) + Range(last.offset, last.size)
  }

  /** The addresses of the clusters' blocks, in chain order. */
  ghost function ChainAddresses(io: IoHandle, clusters: seq<nat>): seq<int> {
    if clusters == [] then []
    else
      ChainAddresses(io, clusters[..|clusters| - 1])
      + Range(io.ClusterOffset(clusters[|clusters| - 1]), io.clusterBlockSize)
  }

  ghost function SegmentBytes(segments: seq<Segment>): nat {
    if segments == [] then 0 else SegmentBytes(segments[..|segments| - 1]) + segments[|segments| - 1].size
  }

  lemma {:induction false} ChainAddressesSize(io: IoHandle, clusters: seq<nat>)
    ensures |ChainAddresses(io, clusters)| == |clusters| * io.clusterBlockSize
  {
    if clusters != [] {
      ChainAddressesSize(io, clusters[..|clusters| - 1]);
    }
  }

  lemma ChainAddressesLast(io: IoHandle, front: seq<nat>, c: nat)
    ensures ChainAddresses(io, front + [c]) ==
            ChainAddresses(io, front) + Range(io.ClusterOffset(c), io.clusterBlockSize)
  {
    assert (front + [c])[..|front|] == front;
  }

  lemma {:induction false} ChainAddressesConcat(io: IoHandle, a: seq<nat>, b: seq<nat>)
    ensures ChainAddresses(io, a + b) == ChainAddresses(io, a) + ChainAddresses(io, b)
    decreases |b|
  {
    if b == [] {
      assert a + b == a;
    } else {
      var front, c := b[..|b| - 1], b[|b| - 1];
      ChainAddressesConcat(io, a, front);
      ChainAddressesLast(io, a + front, c);
      ChainAddressesLast(io, front, c);
      assert b == front + [c];
      Reassociate(a, front, [c]);
      Reassociate(ChainAddresses(io, a), ChainAddresses(io, front), Range(io.ClusterOffset(c), io.clusterBlockSize));
    }
  }

  /** The blocks of one run lie side by side. */
  lemma {:induction false} RunAddresses(io: IoHandle, first: nat, count: nat)
    ensures ChainAddresses(io, Numbers(first, count)) == Range(io.ClusterOffset(first), count * io.clusterBlockSize)
  {
    if count != 0 {
      assert Numbers(first, count)[..count - 1] == Numbers(first, count - 1);
      RunAddresses(io, first, count - 1);
      var size := io.clusterBlockSize;
      assert (count - 1) * size + size == count * size;
      assert (first - 2) * size + (count - 1) * size == (first + (count - 1) - 2) * size;
    }
  }

  ghost function RunsAddresses(io: IoHandle, runs: seq<Run>): seq<int> {
    ChainAddresses(io, Expand(runs))
  }

  lemma RunsAddressesStep(io: IoHandle, runs: seq<Run>)
    requires runs != []
    ensures RunsAddresses(io, runs)
         == RunsAddresses(io, Front(runs)) + Range(io.ClusterOffset(Last(runs).first), RunSize(io, Last(runs)))
    ensures Bytes(io, runs) == Bytes(io, Front(runs)) + RunSize(io, Last(runs))
  {
    var r := Last(runs);
    ChainAddressesConcat(io, Expand(Front(runs)), Numbers(r.first, r.count));
    RunAddresses(io, r.first, r.count);
    BytesStep(io, runs);
  }

  /** Reading the segments gives the first `size` bytes of the runs' blocks. */
  lemma {:induction false} StreamIsRuns(io: IoHandle, runs: seq<Run>, size: nat)
    ensures |RunsAddresses(io, runs)| == Bytes(io, runs)
    ensures StreamAddresses(SegmentsOf(io, runs, size)) == RunsAddresses(io, runs)[..Min(size, Bytes(io, runs))]
    ensures SegmentBytes(SegmentsOf(io, runs, size)) == Min(size, Bytes(io, runs))
  {
    if runs != [] {
      StreamIsRuns(io, Front(runs), size);
      RunsAddressesStep(io, runs);
      var front := RunsAddresses(io, Front(runs));
      var last := Range(io.ClusterOffset(Last(runs).first), RunSize(io, Last(runs)));
      TakeConcat(front, last, Min(size, |front| + |last|));
      if Bytes(io, Front(runs)) < size {
        LastSegment(io, runs, size);
        assert front[..|front|] == front;
      }
    }
  }

  lemma LastSegment(io: IoHandle, runs: seq<Run>, size: nat)
    requires runs != [] && Bytes(io, Front(runs)) < size
    ensures
      var segments, front := SegmentsOf(io, runs, size), SegmentsOf(io, Front(runs), size);
      var offset := io.ClusterOffset(Last(runs).first);
      var length := Min(RunSize(io, Last(runs)), size - Bytes(io, Front(runs)));
      && StreamAddresses(segments) == StreamAddresses(front) + Range(offset, RunSize(io, Last(runs)))[..length]
      && SegmentBytes(segments) == SegmentBytes(front) + length
  {
    var segments := SegmentsOf(io, runs, size);
    assert segments[..|segments| - 1] == SegmentsOf(io, Front(runs), size);
    var last := segments[|segments| - 1];
    assert Range(last.offset, last.size) == Range(last.offset, RunSize(io, Last(runs)))[..last.size];
  }

  /** Segment sizes add up to the data size, or to the walked clusters if those are fewer bytes; and
      every walked cluster is counted in exactly one run. */
  lemma Conservation(io: IoHandle, clusters: seq<nat>, size: nat)
    ensures SegmentBytes(SegmentsOf(io, Runs(clusters), size)) == Min(size, |clusters| * io.clusterBlockSize)
    ensures Blocks(Runs(clusters)) == |clusters|
  {
    RunsCoverClusters(clusters);
    StreamIsRuns(io, Runs(clusters), size);
  }

  /** Addresses at the start of a block tell which cluster it is. */
  lemma {:induction false} BlockStart(io: IoHandle, clusters: seq<nat>, i: nat)
    requires io.Valid() && i < |clusters|
    ensures |ChainAddresses(io, clusters)| == |clusters| * io.clusterBlockSize
    ensures 0 <= i * io.clusterBlockSize < |clusters| * io.clusterBlockSize
    ensures ChainAddresses(io, clusters)[i * io.clusterBlockSize] == io.ClusterOffset(clusters[i])
  {
    ChainAddressesSize(io, clusters);
    MulMonotonic(0, i, io.clusterBlockSize);
    MulMonotonic(i + 1, |clusters|, io.clusterBlockSize);
    var front := clusters[..|clusters| - 1];
    if i < |front| {
      BlockStart(io, front, i);
    } else {
      ChainAddressesSize(io, front);
    }
  }

  lemma ChainAddressesPrefix(io: IoHandle, clusters: seq<nat>, k: nat, n: nat)
    requires k <= |clusters| && n <= k * io.clusterBlockSize
    ensures |ChainAddresses(io, clusters)| == |clusters| * io.clusterBlockSize
    ensures n <= |clusters| * io.clusterBlockSize && |ChainAddresses(io, clusters[..k])| == k * io.clusterBlockSize
    ensures ChainAddresses(io, clusters)[..n] == ChainAddresses(io, clusters[..k])[..n]
  {
    ChainAddressesSize(io, clusters);
    ChainAddressesSize(io, clusters[..k]);
    ChainAddressesConcat(io, clusters[..k], clusters[k..]);
    assert clusters == clusters[..k] + clusters[k..];
    TakeConcat(ChainAddresses(io, clusters[..k]), ChainAddresses(io, clusters[k..]), n);
  }

  /** Two equally long lists of blocks read alike for n bytes exactly when the clusters that the n
      bytes touch are the same. */
  lemma SameBytesIffSameClusters(io: IoHandle, a: seq<nat>, b: seq<nat>, k: nat, n: nat)
    requires io.Valid() && |a| == |b| && k <= |a|
    requires n <= k * io.clusterBlockSize && (0 < k ==> (k - 1) * io.clusterBlockSize < n)
    ensures n <= |ChainAddresses(io, a)| && n <= |ChainAddresses(io, b)|
    ensures ChainAddresses(io, a)[..n] == ChainAddresses(io, b)[..n] <==> a[..k] == b[..k]
  {
    ChainAddressesPrefix(io, a, k, n);
    ChainAddressesPrefix(io, b, k, n);
    var x, y := ChainAddresses(io, a), ChainAddresses(io, b);
    if x[..n] == y[..n] {
      forall i | 0 <= i < k
        ensures a[i] == b[i]
      {
        BlockStart(io, a, i);
        BlockStart(io, b, i);
        var at := i * io.clusterBlockSize;
        MulMonotonic(i, k - 1, io.clusterBlockSize);
        assert x[at] == x[..n][at] == y[..n][at] == y[at];
        SameOffset(io, a[i], b[i]);
      }
    }
  }

  lemma SameOffset(io: IoHandle, c: nat, d: nat)
    requires io.Valid()
    requires io.ClusterOffset(c) == io.ClusterOffset(d)
    ensures c == d
  {
    var size := io.clusterBlockSize;
    assert (c - 2) * size - (d - 2) * size == (c - d) * size;
    ZeroFactor(c - d, size);
  }

  lemma ZeroFactor(x: int, y: int)
    requires 0 < y && x * y == 0
    ensures x == 0
  {
  }

  /** How many of n clusters the first `size` bytes touch. */
  function Touched(io: IoHandle, n: nat, size: nat): nat
    requires io.Valid()
  {
    Min(n, (size + io.clusterBlockSize - 1) / io.clusterBlockSize)
  }

  lemma TouchedBounds(io: IoHandle, n: nat, size: nat)
    requires io.Valid()
    ensures
      var k, bytes := Touched(io, n, size), Min(size, n * io.clusterBlockSize);
      bytes <= k * io.clusterBlockSize && (0 < k ==> (k - 1) * io.clusterBlockSize < bytes)
  {
    var b := io.clusterBlockSize;
    var q := (size + b - 1) / b;
    assert q * b <= size + b - 1 < q * b + b;
    assert (q - 1) * b == q * b - b;
    if q <= n {
      MulMonotonic(q, n, b);
    } else {
      MulMonotonic(n, q - 1, b);
      if 0 < n {
        assert (n - 1) * b == n * b - b;
      }
    }
  }

  /**
    The stream of a successful read gives the first bytes of the chain's blocks, in chain order,
    exactly when the clusters those bytes touch come in ascending order.  (A step to a lower cluster
    extends the current run instead of starting a new one.)
   */
  lemma StreamReadsChainIffForward(io: IoHandle, table: seq<nat>, cluster: nat, size: nat)
    requires io.Valid() && StreamAvailable(io, table, cluster, size)
    ensures
      var clusters := ChainFrom(io, table, cluster, {}).clusters;
      var segments := SegmentsOf(io, Runs(Walked(io, table, cluster, size)), size);
      var k, bytes := Touched(io, |clusters|, size), Min(size, |clusters| * io.clusterBlockSize);
      && k <= |clusters| && bytes <= |ChainAddresses(io, clusters)|
      && (StreamAddresses(segments) == ChainAddresses(io, clusters)[..bytes] <==> Ascending(clusters[..k]))
      && |StreamAddresses(segments)| == bytes
  {
    var clusters := ChainFrom(io, table, cluster, {}).clusters;
    var walked := Walked(io, table, cluster, size);
    var k, bytes := Touched(io, |clusters|, size), Min(size, |clusters| * io.clusterBlockSize);
    var e := Expand(Runs(clusters));
    TouchedBounds(io, |clusters|, size);
    RunsCoverClusters(clusters);
    StreamIsExpanded(io, clusters, walked, size, bytes);
    SameBytesIffSameClusters(io, e, clusters, k, bytes);
    ReadsChainIffForward(clusters, k);
  }

  /** The stream of a walk reads the first bytes of the clusters of the whole chain's runs. */
  lemma StreamIsExpanded(io: IoHandle, clusters: seq<nat>, walked: seq<nat>, size: nat, bytes: nat)
    requires io.Valid() && walked == clusters[..WalkedLength(io, clusters, size, 0)]
    requires bytes == Min(size, |clusters| * io.clusterBlockSize)
    ensures bytes <= |ChainAddresses(io, Expand(Runs(clusters)))|
    ensures StreamAddresses(SegmentsOf(io, Runs(walked), size)) ==
            ChainAddresses(io, Expand(Runs(clusters)))[..bytes]
  {
    WalkedIsEnough(io, clusters, walked, size);
    RunsCoverClusters(clusters);
    RunsCoverClusters(walked);
    StreamIsRuns(io, Runs(walked), size);
    ExpandPrefix(clusters, |walked|);
    ChainAddressesSize(io, Expand(Runs(clusters)));
    ChainAddressesPrefix(io, Expand(Runs(clusters)), |walked|, bytes);
  }

  /** The walked clusters hold as many of the `size` bytes as the whole chain does. */
  lemma WalkedIsEnough(io: IoHandle, clusters: seq<nat>, walked: seq<nat>, size: nat)
    requires io.Valid()
    requires walked == clusters[..WalkedLength(io, clusters, size, 0)]
    ensures Min(size, |clusters| * io.clusterBlockSize) == Min(size, |walked| * io.clusterBlockSize)
  {
    if walked != clusters {
      RunsCoverClusters(walked);
      if walked != [] {
        BytesStep(io, Runs(walked));
      }
      MulMonotonic(|walked|, |clusters|, io.clusterBlockSize);
    }
  }

  /**
    The extents come out in ascending order with a gap between neighbours, each a positive number of
    whole blocks; segment i starts where extent i starts; only the last segment may be shorter.
   */
  lemma ExtentsAndSegments(io: IoHandle, clusters: seq<nat>, size: nat)
    requires io.Valid()
    ensures
      var runs := Runs(clusters);
      var segments := SegmentsOf(io, runs, size);
      && |segments| <= |runs|
      && var extents := ExtentsOf(io, runs[..|segments|]);
      && (forall i :: 0 <= i < |extents| ==> 0 < extents[i].size && extents[i].size % io.clusterBlockSize == 0)
      && (forall i, j :: 0 <= i < j < |extents| ==> extents[i].offset + extents[i].size < extents[j].offset)
      && (forall i :: 0 <= i < |segments| ==>
            && segments[i].offset == extents[i].offset
            && 0 < segments[i].size <= extents[i].size
            && (i < |segments| - 1 ==> segments[i].size == extents[i].size))
  {
    var runs := Runs(clusters);
    RunsCoverClusters(clusters);
    RunsAscend(clusters);
    RunSizes(io, runs);
    SegmentsPairRuns(io, runs, size);
    RunOrder(io, runs);
  }

  lemma RunSizes(io: IoHandle, runs: seq<Run>)
    requires io.Valid()
    requires forall r :: r in runs ==> 0 < r.count
    ensures forall r :: r in runs ==> 0 < RunSize(io, r) && RunSize(io, r) % io.clusterBlockSize == 0
  {
    forall r | r in runs
      ensures 0 < RunSize(io, r) && RunSize(io, r) % io.clusterBlockSize == 0
    {
      MulMonotonic(1, r.count, io.clusterBlockSize);
      DivInterval(RunSize(io, r), io.clusterBlockSize, r.count);
    }
  }

  lemma RunOrder(io: IoHandle, runs: seq<Run>)
    requires io.Valid() && Gapped(runs)
    ensures forall i, j {:trigger runs[i], runs[j]} :: 0 <= i < j < |runs| ==>
              io.ClusterOffset(runs[i].first) + RunSize(io, runs[i]) < io.ClusterOffset(runs[j].first)
  {
    forall i, j | 0 <= i < j < |runs|
      ensures io.ClusterOffset(runs[i].first) + RunSize(io, runs[i]) < io.ClusterOffset(runs[j].first)
    {
      GappedFar(runs, i, j);
      OffsetOrder(io, runs[i], runs[j].first);
    }
  }

  lemma {:induction false} GappedFar(runs: seq<Run>, i: nat, j: nat)
    requires Gapped(runs) && i < j < |runs|
    ensures runs[i].first + runs[i].count < runs[j].first
    decreases j
  {
    if i + 1 < j {
      GappedFar(runs, i, j - 1);
      assert runs[j - 1].first + runs[j - 1].count < runs[j].first;
    }
  }

  ghost predicate Paired(io: IoHandle, runs: seq<Run>, segments: seq<Segment>) {
    && |segments| <= |runs|
    && (forall i :: 0 <= i < |segments| ==>
          && segments[i].offset == io.ClusterOffset(runs[i].first)
          && 0 < segments[i].size <= RunSize(io, runs[i])
          && (i < |segments| - 1 ==> segments[i].size == RunSize(io, runs[i])))
  }

  lemma {:induction false} SegmentsPairRuns(io: IoHandle, runs: seq<Run>, size: nat)
    requires forall r :: r in runs ==> 0 < RunSize(io, r)
    ensures
      var segments := SegmentsOf(io, runs, size);
      && Paired(io, runs, segments)
      && (Bytes(io, runs) <= size ==>
            && |segments| == |runs|
            && (runs != [] ==> segments[|segments| - 1].size == RunSize(io, Last(runs))))
  {
    if runs != [] {
      SegmentsPairRuns(io, Front(runs), size);
      BytesStep(io, runs);
    }
  }

  /**
    A file of one cluster can be read exactly when the table has an entry for the cluster.  The table has as many
    entries as there are clusters, but clusters count from 2: on FAT32 and exFAT volumes the last two have none.
   */
  lemma OneClusterStreamIff(io: IoHandle, table: seq<nat>, cluster: nat, size: nat)
    requires io.Valid() && 0 < io.volumeSize <= B.INT64_MAX && table != []
    requires IsCluster(io, cluster) && HasSlot(io, cluster) && 0 < size
    requires cluster < |table| ==> !IsCluster(io, table[cluster])
    ensures StreamAvailable(io, table, cluster, size) <==> cluster < |table|
  {
    if cluster < |table| {
      ChainUnfolds(io, table, cluster, {}, Chain([], Complete));
    } else {
      assert ChainFrom(io, table, cluster, {}) == Chain([cluster], NoEntry);
      assert [cluster][..0] == [];
    }
  }

  /** A chain that steps back, 5 then 3: the stream is built, but does not read cluster 3. */
  lemma BackwardStepMisread()
    ensures
      var io := IoHandle(Fat12, 512, 512, 16384, 1536, 1024);
      var table := [0, 0, 0, 0xfff, 0, 3];
      && io.Valid() && ChainFrom(io, table, 5, {}) == Chain([5, 3], Complete)
      && StreamAvailable(io, table, 5, 1024)
      && 1024 <= |ChainAddresses(io, [5, 3])|
      && StreamAddresses(SegmentsOf(io, Runs(Walked(io, table, 5, 1024)), 1024)) != ChainAddresses(io, [5, 3])[..1024]
  {
    var io := IoHandle(Fat12, 512, 512, 16384, 1536, 1024);
    var table := [0, 0, 0, 0xfff, 0, 3];
    BackwardChain(io, table);
    StreamReadsChainIffForward(io, table, 5, 1024);
    assert [5, 3][0] == 5 && [5, 3][1] == 3;
  }

  lemma BackwardChain(io: IoHandle, table: seq<nat>)
    requires io == IoHandle(Fat12, 512, 512, 16384, 1536, 1024)
    requires table == [0, 0, 0, 0xfff, 0, 3]
    ensures ChainFrom(io, table, 5, {}) == Chain([5, 3], Complete)
  {
    assert B.Height(16384, 512, 0) == 0;
    assert HasSlot(io, 5) && HasSlot(io, 3);
    assert ChainFrom(io, table, 0xfff, {5, 3}) == Chain([], Complete);
    assert {} + {5} == {5} && {5} + {3} == {5, 3};
    assert ChainFrom(io, table, 3, {5}) == Chain([3], Complete);
  }
}

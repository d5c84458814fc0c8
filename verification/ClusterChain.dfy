/**
  Walks of the allocation table.  A walk starts at any cluster, in any table, and is guarded by the
  block tree: it refuses a cluster it has been at before, so it ends whatever the table holds.
 */
module ClusterChain {
  import opened Arithmetic
  import opened Common
  import B = BlockTree

  /** How a walk ends: at a number that is not a cluster, at a cluster the block tree refuses, or at a
      cluster without an entry in the table. */
  datatype ChainEnd = Complete | Refused(cluster: nat) | NoEntry

  /** The clusters put into the block tree, in order, and how the walk ended after the last of them. */
  datatype Chain = Chain(clusters: seq<nat>, end: ChainEnd)

  predicate IsCluster(io: IoHandle, number: nat) {
    2 <= number < io.LastClusterNumber()
  }

  /** Whether the block tree of a walk has a slot for the cluster. */
  ghost predicate HasSlot(io: IoHandle, cluster: nat)
    requires io.Valid()
  {
    2 <= cluster && B.Accepts(io.volumeSize, io.clusterBlockSize, io.ClusterOffset(cluster))
  }

  ghost function Unseen(table: seq<nat>, seen: set<nat>): set<nat> {
    set i: nat | i < |table| && i !in seen
  }

  lemma UnseenShrinks(table: seq<nat>, seen: set<nat>, cluster: nat)
    requires cluster < |table| && cluster !in seen
    ensures Unseen(table, seen + {cluster}) < Unseen(table, seen)
  {
    assert cluster in Unseen(table, seen) && cluster !in Unseen(table, seen + {cluster});
  }

  /** The walk from a cluster on, given the clusters seen before. */
  ghost function ChainFrom(io: IoHandle, table: seq<nat>, cluster: nat, seen: set<nat>): Chain
    requires io.Valid()
    decreases Unseen(table, seen)
  {
    if !IsCluster(io, cluster) then Chain([], Complete)
    else if cluster in seen || !HasSlot(io, cluster) then Chain([], Refused(cluster))
    else if |table| <= cluster then Chain([cluster], NoEntry)
    else
      assert cluster in Unseen(table, seen) && cluster !in Unseen(table, seen + {cluster});
      var rest := ChainFrom(io, table, table[cluster], seen + {cluster});
      Chain([cluster] + rest.clusters, rest.end)
  }

  lemma ChainUnfolds(io: IoHandle, table: seq<nat>, cluster: nat, seen: set<nat>, rest: Chain)
    requires io.Valid() && IsCluster(io, cluster) && cluster !in seen && HasSlot(io, cluster)
    requires rest == if |table| <= cluster then Chain([], NoEntry)
                     else ChainFrom(io, table, table[cluster], seen + {cluster})
    ensures ChainFrom(io, table, cluster, seen) == Chain([cluster] + rest.clusters, rest.end)
  {
  }

  /** Consecutive clusters are linked by the table. */
  ghost predicate Linked(table: seq<nat>, clusters: seq<nat>) {
    forall i :: 0 <= i < |clusters| - 1 ==> clusters[i] < |table| && clusters[i + 1] == table[clusters[i]]
  }

  /** The number the walk meets after its clusters. */
  function Next(table: seq<nat>, start: nat, clusters: seq<nat>): (next: Option<nat>) {
    if clusters == [] then Some(start)
    else if clusters[|clusters| - 1] < |table| then Some(table[clusters[|clusters| - 1]])
    else None
  }

  /** Every walk of any table: linked clusters with slots, none of them twice, and an end that says
      why the next number is not one of them.  It is refused as a repeat exactly when it meets a
      cluster it has been at. */
  lemma {:induction false} ChainIsWalk(io: IoHandle, table: seq<nat>, start: nat, seen: set<nat>)
    requires io.Valid()
    ensures
      var chain := ChainFrom(io, table, start, seen);
      var next := Next(table, start, chain.clusters);
      && Linked(table, chain.clusters)
      && (chain.clusters != [] ==> chain.clusters[0] == start)
      && (forall c :: c in chain.clusters ==> IsCluster(io, c) && HasSlot(io, c) && c !in seen)
      && (forall i, j :: 0 <= i < j < |chain.clusters| ==> chain.clusters[i] != chain.clusters[j])
      && (match chain.end
          case Complete => next.Some? && !IsCluster(io, next.value)
          case Refused(c) => next == Some(c) && IsCluster(io, c)
                             && (c in seen || c in chain.clusters || !HasSlot(io, c))
          case NoEntry => next.None?)
    decreases Unseen(table, seen)
  {
    if IsCluster(io, start) && start !in seen && HasSlot(io, start) && start < |table| {
      assert start in Unseen(table, seen) && start !in Unseen(table, seen + {start});
      ChainIsWalk(io, table, table[start], seen + {start});
      var rest := ChainFrom(io, table, table[start], seen + {start});
      var clusters := [start] + rest.clusters;
      assert ChainFrom(io, table, start, seen).clusters == clusters;
      forall i | 0 <= i < |clusters| - 1
        ensures clusters[i] < |table| && clusters[i + 1] == table[clusters[i]]
      {
        if i != 0 {
          assert clusters[i] == rest.clusters[i - 1];
        }
      }
    }
  }

  ghost function Turns(chain: Chain): nat {
    |chain.clusters| + if chain.end.Refused? then 1 else 0
  }

  /** A walk takes no more turns than the table has entries, the turn that fails included. */
  lemma ChainIsShort(io: IoHandle, table: seq<nat>, start: nat)
    requires io.Valid() && table != []
    ensures Turns(ChainFrom(io, table, start, {})) <= |table|
  {
    TurnsAreUnseen(io, table, start, {});
    EntriesCount(|table|);
    assert Unseen(table, {0}) == Entries(|table|) - {0};
  }

  ghost function Entries(n: nat): set<nat> {
    if n == 0 then {} else Entries(n - 1) + {n - 1}
  }

  lemma {:induction false} EntriesCount(n: nat)
    ensures |Entries(n)| == n
    ensures forall i: nat :: i in Entries(n) <==> i < n
  {
    if n != 0 {
      EntriesCount(n - 1);
    }
  }

  /** Every turn that succeeds but the last uses up an unseen entry, and entry 0 is never used. */
  lemma {:induction false} TurnsAreUnseen(io: IoHandle, table: seq<nat>, start: nat, seen: set<nat>)
    requires io.Valid()
    ensures Turns(ChainFrom(io, table, start, seen)) <= |Unseen(table, seen + {0})| + 1
    decreases Unseen(table, seen)
  {
    if IsCluster(io, start) && start !in seen && HasSlot(io, start) && start < |table| {
      assert start in Unseen(table, seen) && start !in Unseen(table, seen + {start});
      TurnsAreUnseen(io, table, table[start], seen + {start});
      assert Unseen(table, seen + {start} + {0}) == Unseen(table, seen + {0}) - {start};
      assert start in Unseen(table, seen + {0});
    }
  }

  // ----- the block tree as the set of visited clusters

  /** The key of a cluster in the block tree. */
  ghost function ClusterKey(io: IoHandle, cluster: nat): nat
    requires io.Valid() && 2 <= cluster
  {
    B.KeyOf(io.ClusterOffset(cluster), io.clusterBlockSize)
  }

  /** Different clusters have different keys, whether or not the first cluster is aligned. */
  lemma KeysDiffer(io: IoHandle, c: nat, d: nat)
    requires io.Valid() && 2 <= c && 2 <= d
    ensures ClusterKey(io, c) == ClusterKey(io, d) <==> c == d
  {
    var size := io.clusterBlockSize;
    DivShift(io.ClusterOffset(c), size, c - 2);
    DivShift(io.ClusterOffset(d), size, d - 2);
  }

  /** The tree of a walk that has been at exactly the clusters in `seen`. */
  ghost predicate Visited(io: IoHandle, tree: B.BlockTree, seen: set<nat>)
    reads tree, tree.nodes
  {
    && io.Valid()
    && tree.Valid()
    && tree.root.size == io.volumeSize && tree.leafValueSize == io.clusterBlockSize
    && (forall c :: c in seen ==> 2 <= c)
    && (forall c :: c in seen ==> ClusterKey(io, c) in tree.contents)
    && (forall key :: key in tree.contents ==> exists c :: c in seen && key == ClusterKey(io, c))
  }

  /** Marks a cluster as read; fails exactly when the tree has no slot for it or the walk has been
      there. */
  method CheckIfClusterBlockFirstRead(io: IoHandle, tree: B.BlockTree, cluster: nat, ghost seen: set<nat>)
    returns (ok: bool)
    requires 2 <= cluster && Visited(io, tree, seen)
    modifies tree, tree.nodes
    ensures ok <==> cluster !in seen && HasSlot(io, cluster)
    ensures Visited(io, tree, if ok then seen + {cluster} else seen)
    ensures forall n {:trigger n in tree.nodes} :: n in tree.nodes ==> n in old(tree.nodes) || fresh(n)
  {
    var result := tree.InsertBlockDescriptorByOffset(io.ClusterOffset(cluster), B.BlockDescriptor(cluster));
    ok := result.Inserted?;
    ghost var key := ClusterKey(io, cluster);
    forall c | c in seen
      ensures ClusterKey(io, c) == key <==> c == cluster
    {
      KeysDiffer(io, c, cluster);
    }
    assert key in old(tree.contents) <==> cluster in seen;
  }
}

/**
  Files and directories of whole chains, with the cluster numbers that each format has ("FAT Data Structure" in
  the Microsoft FAT32 File System Specification; section 4.1 of the Microsoft exFAT specification).
 */
module FileChains {
  import opened Arithmetic
  import opened ClusterChain
  import opened Common
  import opened DataStream
  import opened DirectoryScan
  import B = BlockTree

  // ----- the numbers of a format

  /** The greatest number that a cluster can have. */
  function GreatestCluster(format: Format): nat {
    match format
    case Fat12 => 0xfef
    case Fat16 => 0xffef
    case Fat32 => 0xfff_ffef
    case ExFat => 0xffff_ffef
  }

  /** The numbers from the one above it on end a chain. */
  predicate IsEndMark(format: Format, number: nat) {
    GreatestCluster(format) + 1 <= number
  }

  /** A chain with distinct clusters, each with an entry in the table and a slot in the block tree, of which the
      last one has an end mark. */
  ghost predicate IsWholeChain(io: IoHandle, table: seq<nat>, clusters: seq<nat>)
    requires io.Valid()
  {
    && clusters != []
    && (forall i :: 0 <= i < |clusters| ==>
          2 <= clusters[i] <= GreatestCluster(io.format) && clusters[i] < |table| && HasSlot(io, clusters[i]))
    && (forall i, j :: 0 <= i < j < |clusters| ==> clusters[i] != clusters[j])
    && (forall i :: 0 <= i < |clusters| - 1 ==> table[clusters[i]] == clusters[i + 1])
    && IsEndMark(io.format, table[clusters[|clusters| - 1]])
  }

  lemma {:induction false} WholeFrom(io: IoHandle, table: seq<nat>, clusters: seq<nat>, i: nat, seen: set<nat>)
    requires io.Valid() && IsWholeChain(io, table, clusters) && i < |clusters|
    requires forall c :: c in seen <==> c in clusters[..i]
    ensures ChainFrom(io, table, clusters[i], seen) == Chain(clusters[i..], Complete)
    decreases |clusters| - i
  {
    var c := clusters[i];
    assert c !in seen;
    var rest := ChainFrom(io, table, table[c], seen + {c});
    if i + 1 < |clusters| {
      assert clusters[..i + 1] == clusters[..i] + [c];
      WholeFrom(io, table, clusters, i + 1, seen + {c});
    }
    assert rest == Chain(clusters[i + 1..], Complete);
    ChainUnfolds(io, table, c, seen, rest);
    assert clusters[i..] == [c] + clusters[i + 1..];
  }

  /** A whole chain is walked from its first cluster to its last. */
  lemma WholeChainIsWalked(io: IoHandle, table: seq<nat>, clusters: seq<nat>)
    requires io.Valid() && IsWholeChain(io, table, clusters)
    ensures ChainFrom(io, table, clusters[0], {}) == Chain(clusters, Complete)
  {
    WholeFrom(io, table, clusters, 0, {});
    assert clusters[0..] == clusters;
  }

  /** A number ends every walk exactly when it is below 2 or above the greatest cluster number. */
  lemma EndsWalkIff(io: IoHandle, table: seq<nat>, number: nat, seen: set<nat>)
    requires io.Valid()
    ensures ChainFrom(io, table, number, seen) == Chain([], Complete) <==> number < 2 || IsEndMark(io.format, number)
  {
  }

  // ----- files

  /** The address of a byte of a cluster. */
  function ByteAddress(io: IoHandle, cluster: nat, at: nat): int {
    io.firstClusterOffset + (cluster - 2) * io.clusterBlockSize + at
  }

  lemma {:induction false} BlockByte(io: IoHandle, clusters: seq<nat>, i: nat, r: nat)
    requires io.Valid() && i < |clusters| && r < io.clusterBlockSize
    ensures 0 <= i * io.clusterBlockSize + r < |ChainAddresses(io, clusters)|
    ensures ChainAddresses(io, clusters)[i * io.clusterBlockSize + r] == ByteAddress(io, clusters[i], r)
    decreases |clusters|
  {
    var front := clusters[..|clusters| - 1];
    ChainAddressesSize(io, clusters);
    ChainAddressesSize(io, front);
    MulMonotonic(i + 1, |clusters|, io.clusterBlockSize);
    Distribute(i, 1, io.clusterBlockSize);
    if i < |front| {
      BlockByte(io, front, i, r);
    }
  }

  /** Byte r of cluster i is byte i * B + r of all. */
  ghost predicate ByteIs(io: IoHandle, clusters: seq<nat>, addresses: seq<int>, i: nat, r: nat)
    requires i < |clusters|
  {
    var k := i * io.clusterBlockSize + r;
    0 <= k < |addresses| ==> addresses[k] == ByteAddress(io, clusters[i], r)
  }

  /** The addresses of the first bytes of the clusters, in order. */
  ghost predicate AreFirstBytes(io: IoHandle, clusters: seq<nat>, size: nat, addresses: seq<int>) {
    && |addresses| == Min(size, |clusters| * io.clusterBlockSize)
    && forall i: nat, r: nat :: i < |clusters| && r < io.clusterBlockSize ==> ByteIs(io, clusters, addresses, i, r)
  }

  lemma FirstBytes(io: IoHandle, clusters: seq<nat>, size: nat, addresses: seq<int>)
    requires io.Valid() && Min(size, |clusters| * io.clusterBlockSize) <= |ChainAddresses(io, clusters)|
    requires addresses == ChainAddresses(io, clusters)[..Min(size, |clusters| * io.clusterBlockSize)]
    ensures AreFirstBytes(io, clusters, size, addresses)
  {
    forall i: nat, r: nat | i < |clusters| && r < io.clusterBlockSize
      ensures ByteIs(io, clusters, addresses, i, r)
    {
      BlockByte(io, clusters, i, r);
    }
  }

  /** A file in ascending clusters of a whole chain is read: its stream holds the first bytes of its clusters, as
      many as its size says, in order. */
  lemma WholeFileIsRead(io: IoHandle, table: seq<nat>, clusters: seq<nat>, size: nat,
                        extents0: seq<Extent>, extents: seq<Extent>, segments: seq<Segment>)
    requires io.Valid() && 0 < io.volumeSize <= 0x7fff_ffff_ffff_ffff
    requires IsWholeChain(io, table, clusters) && Ascending(clusters)
    ensures StreamAvailable(io, table, clusters[0], size)
    ensures StreamIs(io, table, clusters[0], size, extents0, extents, segments) ==>
              AreFirstBytes(io, clusters, size, StreamAddresses(segments))
  {
    WholeChainIsWalked(io, table, clusters);
    if StreamIs(io, table, clusters[0], size, extents0, extents, segments) {
      StreamIsFirstBytes(io, table, clusters, clusters[0], size, segments);
    }
  }

  lemma StreamIsFirstBytes(io: IoHandle, table: seq<nat>, clusters: seq<nat>, cluster: nat, size: nat,
                           segments: seq<Segment>)
    requires io.Valid() && StreamAvailable(io, table, cluster, size)
    requires clusters == ChainFrom(io, table, cluster, {}).clusters && Ascending(clusters)
    requires segments == SegmentsOf(io, Runs(Walked(io, table, cluster, size)), size)
    ensures AreFirstBytes(io, clusters, size, StreamAddresses(segments))
  {
    StreamReadsChainIffForward(io, table, cluster, size);
    FirstBytes(io, clusters, size, StreamAddresses(segments));
  }

  /** When the file is as long as its clusters, its extents are its segments. */
  lemma WholeExtentsAreSegments(io: IoHandle, table: seq<nat>, clusters: seq<nat>, size: nat,
                                extents0: seq<Extent>, extents: seq<Extent>, segments: seq<Segment>)
    requires io.Valid() && IsWholeChain(io, table, clusters) && |clusters| * io.clusterBlockSize <= size
    requires StreamIs(io, table, clusters[0], size, extents0, extents, segments)
    ensures |extents| == |extents0| + |segments|
    ensures forall i :: 0 <= i < |extents0| ==> extents[i] == extents0[i]
    ensures forall i :: 0 <= i < |segments| ==>
              extents[|extents0| + i] == Extent(segments[i].offset, segments[i].size)
  {
    WholeChainIsWalked(io, table, clusters);
    var walked := Walked(io, table, clusters[0], size);
    RunsFit(io, walked, clusters, size);
    LastSegmentIsRun(io, Runs(walked), size);
  }

  lemma RunsFit(io: IoHandle, walked: seq<nat>, clusters: seq<nat>, size: nat)
    requires io.Valid() && |walked| <= |clusters| && |clusters| * io.clusterBlockSize <= size
    ensures Bytes(io, Runs(walked)) <= size
    ensures forall r :: r in Runs(walked) ==> 0 < RunSize(io, r)
  {
    RunsCoverClusters(walked);
    MulMonotonic(|walked|, |clusters|, io.clusterBlockSize);
    RunSizes(io, Runs(walked));
  }

  lemma LastSegmentIsRun(io: IoHandle, runs: seq<Run>, size: nat)
    requires forall r :: r in runs ==> 0 < RunSize(io, r)
    requires Bytes(io, runs) <= size
    ensures var segments := SegmentsOf(io, runs, size);
            && |segments| == |runs|
            && forall i :: 0 <= i < |segments| ==>
                 segments[i].offset == io.ClusterOffset(runs[i].first) && segments[i].size == RunSize(io, runs[i])
  {
    SegmentsPairRuns(io, runs, size);
  }

  /** A file whose bytes are all in its first cluster is read whatever the table says behind the second one, if that
      is not its neighbour; a file with more bytes is not, if the second one leads back to the first. */
  lemma TailMayBeBroken(io: IoHandle, table: seq<nat>, first: nat, second: nat, size: nat)
    requires io.Valid() && 0 < io.volumeSize <= 0x7fff_ffff_ffff_ffff
    requires 2 <= first && first + 1 < second <= GreatestCluster(io.format) && second < |table|
    requires HasSlot(io, first) && HasSlot(io, second) && table[first] == second
    ensures size <= io.clusterBlockSize ==> StreamAvailable(io, table, first, size)
    ensures io.clusterBlockSize < size && table[second] == first ==> !StreamAvailable(io, table, first, size)
  {
    var rest := ChainFrom(io, table, table[second], {first} + {second});
    TwoClusters(io, table, first, second, rest);
    TwoClustersAvailable(io, table, first, second, size, rest);
  }

  lemma TwoClusters(io: IoHandle, table: seq<nat>, first: nat, second: nat, rest: Chain)
    requires io.Valid() && 2 <= first < second <= GreatestCluster(io.format) && second < |table|
    requires HasSlot(io, first) && HasSlot(io, second) && table[first] == second
    requires rest == ChainFrom(io, table, table[second], {first} + {second})
    ensures ChainFrom(io, table, first, {}) == Chain([first] + ([second] + rest.clusters), rest.end)
    ensures table[second] == first ==> rest == Chain([], Refused(first))
  {
    assert {} + {first} == {first};
    ChainUnfolds(io, table, second, {first}, rest);
    ChainUnfolds(io, table, first, {}, Chain([second] + rest.clusters, rest.end));
  }

  lemma TwoClustersAvailable(io: IoHandle, table: seq<nat>, first: nat, second: nat, size: nat, rest: Chain)
    requires io.Valid() && 0 < io.volumeSize <= 0x7fff_ffff_ffff_ffff && table != [] && first + 1 < second < |table|
    requires ChainFrom(io, table, first, {}) == Chain([first] + ([second] + rest.clusters), rest.end)
    ensures size <= io.clusterBlockSize ==> StreamAvailable(io, table, first, size)
    ensures io.clusterBlockSize < size && rest.clusters == [] && rest.end.Refused? ==>
              !StreamAvailable(io, table, first, size)
  {
    var clusters := [first] + ([second] + rest.clusters);
    WalkedTwo(io, clusters, first, second, size);
    NoEntryHasNext(io, table, first);
  }

  lemma WalkedTwo(io: IoHandle, clusters: seq<nat>, first: nat, second: nat, size: nat)
    requires 2 <= |clusters| && clusters[0] == first && clusters[1] == second && first + 1 < second
    ensures var walked := clusters[..WalkedLength(io, clusters, size, 0)];
            && (size <= io.clusterBlockSize ==> |walked| <= 2 && size <= Bytes(io, Completed(walked)))
            && (io.clusterBlockSize < size && |clusters| == 2 ==> Bytes(io, Completed(walked)) < size)
  {
    assert clusters[..0] == [] && clusters[..1] == [first] && clusters[..2] == [first, second];
    TwoRuns(io, first, second);
    WalkedLengthStep(io, clusters, size, 0);
    WalkedLengthStep(io, clusters, size, 1);
    WalkedLengthStep(io, clusters, size, 2);
  }

  lemma WalkedLengthStep(io: IoHandle, clusters: seq<nat>, size: nat, i: nat)
    requires i <= |clusters|
    ensures WalkedLength(io, clusters, size, i) ==
            if i == |clusters| || size <= Bytes(io, Completed(clusters[..i])) then i
            else WalkedLength(io, clusters, size, i + 1)
  {
  }

  lemma TwoRuns(io: IoHandle, first: nat, second: nat)
    requires first + 1 < second
    ensures Bytes(io, Completed([])) == 0 && Bytes(io, Completed([first])) == 0
    ensures Bytes(io, Completed([first, second])) == io.clusterBlockSize
  {
    assert [] + [first] == [first] && [first] + [second] == [first, second];
    RunCut(io, [], first);
    RunCut(io, [first], second);
    RunsCoverClusters([first]);
  }

  /** A walk without an entry for a cluster ends with that cluster. */
  lemma NoEntryHasNext(io: IoHandle, table: seq<nat>, first: nat)
    requires io.Valid()
    ensures var chain := ChainFrom(io, table, first, {});
            chain.end.NoEntry? ==> chain.clusters != [] && |table| <= chain.clusters[|chain.clusters| - 1]
  {
    ChainIsWalk(io, table, first, {});
  }

  /** Nothing is read on a volume of 2^63 bytes or more, nor without a table. */
  lemma NothingIsRead(io: IoHandle, table: seq<nat>, cluster: nat, size: nat)
    requires io.Valid() && (io.volumeSize == 0 || 0x8000_0000_0000_0000 <= io.volumeSize || table == [])
    ensures !StreamAvailable(io, table, cluster, size)
  {
  }

  // ----- directories

  /** The place of a record of a cluster. */
  function RecordPlace(io: IoHandle, cluster: nat, at: nat): int {
    io.firstClusterOffset + (cluster - 2) * io.clusterBlockSize + 32 * at
  }

  lemma {:induction false} PlaceInBlock(io: IoHandle, clusters: seq<nat>, count: nat, i: nat, r: nat)
    requires io.Valid() && count == io.clusterBlockSize / 32 && i < |clusters| && r < count
    ensures |ClusterOffsets(io, clusters)| == |clusters| * count
    ensures 0 <= i * count + r < |ClusterOffsets(io, clusters)|
    ensures ClusterOffsets(io, clusters)[i * count + r] == RecordPlace(io, clusters[i], r)
    decreases |clusters|
  {
    BlockOfRecords(io, clusters, count);
    if i == 0 {
      OffsetAt(io.ClusterOffset(clusters[0]), count, r);
      PlacesCount(io, clusters, count);
      MulMonotonic(1, |clusters|, count);
    } else {
      PlaceInBlock(io, clusters[1..], count, i - 1, r);
      Distribute(i - 1, 1, count);
      Distribute(|clusters| - 1, 1, count);
    }
  }

  lemma BlockOfRecords(io: IoHandle, clusters: seq<nat>, count: nat)
    requires io.Valid() && count == io.clusterBlockSize / 32 && clusters != []
    ensures ClusterOffsets(io, clusters) ==
            Offsets(io.ClusterOffset(clusters[0]), count) + ClusterOffsets(io, clusters[1..])
  {
    WholeRecords(io.clusterBlockSize);
  }

  lemma {:induction false} PlacesCount(io: IoHandle, clusters: seq<nat>, count: nat)
    requires io.Valid() && count == io.clusterBlockSize / 32
    ensures |ClusterOffsets(io, clusters)| == |clusters| * count
    decreases |clusters|
  {
    if clusters != [] {
      BlockOfRecords(io, clusters, count);
      PlacesCount(io, clusters[1..], count);
      Distribute(|clusters| - 1, 1, count);
    }
  }

  /** Record r of cluster i is record i * n + r of all. */
  ghost predicate PlaceIs(io: IoHandle, clusters: seq<nat>, count: nat, places: seq<int>, i: nat, r: nat)
    requires i < |clusters|
  {
    var k := i * count + r;
    0 <= k < |places| && places[k] == RecordPlace(io, clusters[i], r)
  }

  /** The places of all records of a chain, in order. */
  ghost predicate ArePlaces(io: IoHandle, clusters: seq<nat>, count: nat, places: seq<int>) {
    && |places| == |clusters| * count
    && forall i: nat, r: nat :: i < |clusters| && r < count ==> PlaceIs(io, clusters, count, places, i, r)
  }

  lemma ClusterOffsetsArePlaces(io: IoHandle, clusters: seq<nat>, count: nat)
    requires io.Valid() && count == io.clusterBlockSize / 32
    ensures ArePlaces(io, clusters, count, ClusterOffsets(io, clusters))
  {
    PlacesCount(io, clusters, count);
    forall i: nat, r: nat | i < |clusters| && r < count
      ensures PlaceIs(io, clusters, count, ClusterOffsets(io, clusters), i, r)
    {
      PlaceInBlock(io, clusters, count, i, r);
    }
  }

  /** A directory in a whole chain is what the records of its clusters list, in order. */
  lemma WholeDirectoryIsListed(io: IoHandle, table: seq<nat>, volume: seq<byte>, clusters: seq<nat>)
    returns (places: seq<int>)
    requires io.Valid() && 0 < io.volumeSize <= 0x7fff_ffff_ffff_ffff
    requires IsWholeChain(io, table, clusters)
    ensures ArePlaces(io, clusters, io.clusterBlockSize / 32, places)
    ensures ClusterListing(io, table, volume, clusters[0]) ==
            match ScanRecords(ByCluster, io.format, volume, places, START) {
              case Invalid => None
              case Terminated(last) => Some(last.listing)
              case Running(last) => Some(last.listing)
            }
  {
    WholeChainIsWalked(io, table, clusters);
    places := ClusterOffsets(io, clusters);
    ClusterOffsetsArePlaces(io, clusters, io.clusterBlockSize / 32);
  }

  /** A range holds the records that start in it. */
  lemma RangeHoldsRecords(start: int, size: nat)
    ensures var places := Offsets(start, RecordCount(size));
            && 32 * (|places| - 1) < size <= 32 * |places|
            && forall k :: 0 <= k < |places| ==> places[k] == start + 32 * k
  {
    forall k | 0 <= k < RecordCount(size)
      ensures Offsets(start, RecordCount(size))[k] == start + 32 * k
    {
      OffsetAt(start, RecordCount(size), k);
    }
  }
}

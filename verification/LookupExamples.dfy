/** Volumes on which the lookup by identifier fails a listed file, or finds it with another name. */
module LookupExamples {
  import opened ClusterChain
  import opened Common
  import opened DirectoryEntry
  import opened DirectoryScan
  import opened IdentifierLookup
  import opened LookupAgreement
  import opened NamePieces
  import B = BlockTree
  import L = LongName
  import T = LookupTermination

  // ----- a volume on which a listed file is not found

  /** Two one-record runs in a row and a short record behind them, at 1024, 1056 and 1088; zeros elsewhere. */
  function OrphanVolume(data: seq<byte>, short: Record): (volume: seq<byte>)
    requires |data| == 26
    ensures |volume| == 4096
  {
    seq(1024, _ => 0) + L.LongRecord(0x41, 0, data) + L.LongRecord(0x41, 0, data) + short + seq(2976, _ => 0)
  }

  /** A short record of a file. */
  predicate IsFile(short: Record) {
    EntryOf(Fat12, short).Some? && IsPlain(ByRange, EntryOf(Fat12, short).value)
  }

  function OrphanPart(data: seq<byte>): Entry {
    EMPTY.(kind := VfatLongName, sequence := 0x41, nameData := data)
  }

  lemma OrphanPlaces(data: seq<byte>, short: Record)
    requires |data| == 26
    ensures RecordAt(OrphanVolume(data, short), 1024) == L.LongRecord(0x41, 0, data)
    ensures RecordAt(OrphanVolume(data, short), 1056) == L.LongRecord(0x41, 0, data)
    ensures RecordAt(OrphanVolume(data, short), 1088) == short
    ensures RecordAt(OrphanVolume(data, short), 1120) == seq(32, _ => 0)
  {
  }

  lemma OrphanRecords(data: seq<byte>, short: Record)
    requires |data| == 26 && IsFile(short)
    ensures IsOrphanVolume(OrphanVolume(data, short), data, EntryOf(Fat12, short).value)
  {
    OrphanPlaces(data, short);
    L.LongRecordReads(Fat12, 0x41, 0, data);
  }

  /** A volume on which a file is listed with its long name, but not found by its identifier. */
  lemma ListedButRejected(data: seq<byte>, short: Record, table: seq<nat>, reversed: seq<nat>, turns: nat)
    requires |data| == 26 && IsFile(short) && 1 <= turns
    ensures EntryByIdentifier(T.SMALL, table, reversed, OrphanVolume(data, short), 1088, turns) == Rejected
    ensures OrphanIsListed(OrphanVolume(data, short), data, 1024, 512)
  {
    var volume, file := OrphanVolume(data, short), EntryOf(Fat12, short).value;
    OrphanRecords(data, short);
    OrphanIsRejected(volume, data, file, table, reversed, turns);
    OrphanListed(volume, data, file, 1024, 512, 14);
  }

  ghost predicate OrphanIsListed(volume: seq<byte>, data: seq<byte>, start: int, size: nat) {
    var listing := RangeListing(Fat12, volume, start, size);
    T.ListsOne(listing, 1088) && listing.value.files[0].name == VfatName([data])
  }

  ghost predicate IsOrphanVolume(volume: seq<byte>, data: seq<byte>, file: Entry) {
    && |data| == 26 && IsPlain(ByRange, file)
    && ReadAt(Fat12, volume, 1024) == Some(OrphanPart(data))
    && ReadAt(Fat12, volume, 1056) == Some(OrphanPart(data))
    && ReadAt(Fat12, volume, 1088) == Some(file)
    && ReadAt(Fat12, volume, 1120) == Some(EMPTY)
  }

  lemma OrphanIsRejected(volume: seq<byte>, data: seq<byte>, file: Entry, table: seq<nat>, reversed: seq<nat>,
                         turns: nat)
    requires IsOrphanVolume(volume, data, file) && 1 <= turns
    ensures EntryByIdentifier(T.SMALL, table, reversed, volume, 1088, turns) == Rejected
  {
    var parts := [LongPart(0x41, data)];
    OrphanFronted(volume, data, file, parts);
    OrphanRejects(T.SMALL, table, reversed, volume, 1088, file, parts, 1024, OrphanPart(data), turns);
  }

  lemma OrphanFronted(volume: seq<byte>, data: seq<byte>, file: Entry, parts: seq<LongPart>)
    requires IsOrphanVolume(volume, data, file) && parts == [LongPart(0x41, data)]
    ensures Fronted(T.SMALL, volume, 1088, file, parts, 1024, OrphanPart(data)) && Highest(parts) == 1
  {
    assert parts[..0] == [];
    assert PartAt(Fat12, volume, 1056, parts[0]);
  }

  lemma OnePartRun(volume: seq<byte>, offset: int, s: Scan, data: seq<byte>)
    requires ReadAt(Fat12, volume, offset) == Some(OrphanPart(data))
    ensures StepAt(ByRange, Fat12, volume, offset, s) == Running(WithParts(s, [LongPart(0x41, data)], 1))
  {
  }

  lemma OrphanListed(volume: seq<byte>, data: seq<byte>, file: Entry, start: int, size: nat, left: nat)
    requires IsOrphanVolume(volume, data, file) && start == 1024 && size == 512 && left == 14
    ensures OrphanIsListed(volume, data, start, size)
  {
    var pending := WithParts(START, [LongPart(0x41, data)], 1);
    assert RecordCount(size) == left + 2;
    OnePartFirst(volume, start, left + 1, START, data);
    OnePartFirst(volume, start + RECORD_SIZE, left, pending, data);
    OrphanEnds(volume, data, file, pending, start + 64, left,
               ScanRecords(ByRange, Fat12, volume, Offsets(start + 64, left), pending));
  }

  /** A one-record run replaces whatever run is pending. */
  lemma OnePartFirst(volume: seq<byte>, offset: int, left: nat, s: Scan, data: seq<byte>)
    requires ReadAt(Fat12, volume, offset) == Some(OrphanPart(data))
    ensures ScanRecords(ByRange, Fat12, volume, Offsets(offset, left + 1), s) ==
            ScanRecords(ByRange, Fat12, volume, Offsets(offset + RECORD_SIZE, left),
                        WithParts(s, [LongPart(0x41, data)], 1))
  {
    ScanFirst(ByRange, Fat12, volume, offset, left + 1, s);
    OnePartRun(volume, offset, s, data);
  }

  lemma OrphanEnds(volume: seq<byte>, data: seq<byte>, file: Entry, pending: Scan, start: int, left: nat,
                   outcome: Outcome)
    requires IsOrphanVolume(volume, data, file) && pending == WithParts(START, [LongPart(0x41, data)], 1)
    requires start == 1088 && 2 <= left && outcome == ScanRecords(ByRange, Fat12, volume, Offsets(start, left), pending)
    ensures outcome.Terminated?
    ensures outcome.scan.listing.files == [file.(identifier := 1088, name := VfatName([data]))]
  {
    ChunkAlone(LongPart(0x41, data));
    ScanFirst(ByRange, Fat12, volume, start, left, pending);
    ScanFirst(ByRange, Fat12, volume, start + 32, left - 1, StepAt(ByRange, Fat12, volume, start, pending).scan);
  }

  lemma ChunkAlone(part: LongPart)
    ensures Chunks([part]) == [part.nameData]
  {
    assert [part][..0] == [];
  }

  // ----- a volume on which a name is cut short

  /**
    A directory in the clusters 2 and 4, which start at 1536 and 2560: fifteen unallocated records and the first
    record of a run, and then the last record of the run, a short record and zeros.
   */
  function StraddledVolume(first: seq<byte>, second: seq<byte>, short: Record): (volume: seq<byte>)
    requires |first| == 26 && |second| == 26
    ensures |volume| == 4096
  {
    seq(2016, i => if 1536 <= i && i % 32 == 0 then 0xe5 else 0) + L.LongRecord(0x42, 0, second) + seq(512, _ => 0)
    + L.LongRecord(0x01, 0, first) + short + seq(1472, _ => 0)
  }

  function RunPart(sequence: byte, data: seq<byte>): Entry {
    EMPTY.(kind := VfatLongName, sequence := sequence, nameData := data)
  }

  ghost predicate IsStraddled(volume: seq<byte>, first: seq<byte>, second: seq<byte>, file: Entry) {
    && |volume| == 4096 && |first| == 26 && |second| == 26
    && file.kind.ShortName? && IsPlain(ByCluster, file)
    && (forall k :: 0 <= k < 15 ==> IsUnallocated(volume, 1536 + 32 * k))
    && ReadAt(Fat12, volume, 2016) == Some(RunPart(0x42, second))
    && ReadAt(Fat12, volume, 2528) == Some(EMPTY)
    && ReadAt(Fat12, volume, 2560) == Some(RunPart(0x01, first))
    && ReadAt(Fat12, volume, 2592) == Some(file)
    && ReadAt(Fat12, volume, 2624) == Some(EMPTY)
  }

  predicate IsUnallocated(volume: seq<byte>, offset: int) {
    ReadAt(Fat12, volume, offset).Some? && ReadAt(Fat12, volume, offset).value.kind.Unallocated?
  }

  lemma StraddledPlaces(first: seq<byte>, second: seq<byte>, short: Record)
    requires |first| == 26 && |second| == 26
    ensures var volume := StraddledVolume(first, second, short);
            && RecordAt(volume, 2016) == L.LongRecord(0x42, 0, second) && RecordAt(volume, 2528) == seq(32, _ => 0)
            && RecordAt(volume, 2560) == L.LongRecord(0x01, 0, first) && RecordAt(volume, 2592) == short
            && RecordAt(volume, 2624) == seq(32, _ => 0)
  {
  }

  lemma StraddledUnallocated(first: seq<byte>, second: seq<byte>, short: Record, k: nat)
    requires |first| == 26 && |second| == 26 && k < 15
    ensures IsUnallocated(StraddledVolume(first, second, short), 1536 + 32 * k)
  {
    var volume, offset := StraddledVolume(first, second, short), 1536 + 32 * k;
    assert volume[offset] == 0xe5;
    assert RecordAt(volume, offset)[0] == 0xe5;
  }

  lemma StraddledRecords(first: seq<byte>, second: seq<byte>, short: Record)
    requires |first| == 26 && |second| == 26
    requires EntryOf(Fat12, short).Some? && IsPlain(ByCluster, EntryOf(Fat12, short).value)
    ensures IsStraddled(StraddledVolume(first, second, short), first, second, EntryOf(Fat12, short).value)
  {
    StraddledPlaces(first, second, short);
    L.LongRecordReads(Fat12, 0x42, 0, second);
    L.LongRecordReads(Fat12, 0x01, 0, first);
    forall k | 0 <= k < 15
      ensures IsUnallocated(StraddledVolume(first, second, short), 1536 + 32 * k)
    {
      StraddledUnallocated(first, second, short, k);
    }
  }

  /** A piece of a name that is neither cut nor taken for a dot entry. */
  predicate IsPiece(data: seq<byte>) {
    |data| == 26 && !HoldsNul(data, 0) && !IsSelf(data) && !IsParent(data)
  }

  /** The file is listed with a name of two pieces, and found with the first piece as its name. */
  lemma NameIsCutShort(first: seq<byte>, second: seq<byte>, short: Record, table: seq<nat>, reversed: seq<nat>,
                       turns: nat)
    requires IsPiece(first) && IsPiece(second) && 1 <= turns
    requires EntryOf(Fat12, short).Some? && IsPlain(ByCluster, EntryOf(Fat12, short).value)
    requires 5 <= |table| && table[2] == 4 && table[4] == 0xfff
    ensures var volume, file := StraddledVolume(first, second, short), EntryOf(Fat12, short).value;
            var listing := ClusterListing(T.SMALL, table, volume, 2);
            && listing.Some? && listing.value.files == [ListedAs(file, 2592, Some(first + second + [0, 0]))]
            && EntryByIdentifier(T.SMALL, table, reversed, volume, 2592, turns)
               == Found(ListedAs(file, 2592, Some(first + [0, 0])))
  {
    var volume, file := StraddledVolume(first, second, short), EntryOf(Fat12, short).value;
    StraddledRecords(first, second, short);
    StraddledIsListed(volume, first, second, file, table);
    StraddledIsFound(volume, first, second, file, table, reversed, turns);
  }

  lemma CutAtEnd(text: seq<byte>, count: nat)
    requires |text| == 26 * count && !HoldsNul(text, 0)
    ensures CutAtNul(text + [0, 0]) == text + [0, 0]
  {
    CutConcat(text, [0, 0]);
  }

  lemma TextOfOne(first: seq<byte>)
    requires IsPiece(first)
    ensures TextOf([LongPart(0x01, first)]) == first && NameText([LongPart(0x01, first)]) == Some(first + [0, 0])
  {
    var low := LongPart(0x01, first);
    TextOfFirst([low], low, []);
    assert TextOf([]) + first == first;
    CutAtEnd(first, 1);
  }

  lemma TextOfTwo(first: seq<byte>, second: seq<byte>)
    requires IsPiece(first) && IsPiece(second)
    ensures NameText([LongPart(0x42, second), LongPart(0x01, first)]) == Some(first + second + [0, 0])
  {
    var low, high := LongPart(0x01, first), LongPart(0x42, second);
    TextOfOne(first);
    TextOfFirst([high, low], high, [low]);
    HoldsNulConcat(first, second);
    CutAtEnd(first + second, 2);
  }

  lemma StraddledIsFound(volume: seq<byte>, first: seq<byte>, second: seq<byte>, file: Entry, table: seq<nat>,
                         reversed: seq<nat>, turns: nat)
    requires IsStraddled(volume, first, second, file) && IsPiece(first) && IsPiece(second) && 1 <= turns
    ensures EntryByIdentifier(T.SMALL, table, reversed, volume, 2592, turns)
            == Found(ListedAs(file, 2592, Some(first + [0, 0])))
  {
    var tail := [LongPart(0x01, first)];
    TextOfOne(first);
    StraddledFronted(volume, first, second, file, tail);
    TailIsFound(T.SMALL, table, reversed, volume, 2592, file, tail, 2528, EMPTY, turns);
  }

  lemma StraddledFronted(volume: seq<byte>, first: seq<byte>, second: seq<byte>, file: Entry, tail: seq<LongPart>)
    requires IsStraddled(volume, first, second, file) && tail == [LongPart(0x01, first)]
    ensures Fronted(T.SMALL, volume, 2592, file, tail, 2528, EMPTY)
  {
    SmallLooks();
    OnePartBefore(volume, first, 2560, 2592, tail);
  }

  lemma SmallLooks()
    ensures LooksInFront(T.SMALL, 2592)
  {
  }

  lemma OnePartBefore(volume: seq<byte>, first: seq<byte>, place: int, identifier: int, tail: seq<LongPart>)
    requires tail == [LongPart(0x01, first)] && |first| == 26 && place == identifier - RECORD_SIZE
    requires ReadAt(Fat12, volume, place) == Some(RunPart(0x01, first))
    ensures TailBefore(Fat12, volume, identifier, tail)
  {
    assert tail[..0] == [];
    assert PartAt(Fat12, volume, place, tail[0]);
  }

  // the listing of the two clusters

  lemma {:induction false} UnallocatedSkipped(volume: seq<byte>, start: int, count: nat, s: Scan)
    requires forall k :: 0 <= k < count ==> IsUnallocated(volume, start + 32 * k)
    ensures ScanRecords(ByCluster, Fat12, volume, Offsets(start, count), s) == Running(s)
    decreases count
  {
    if count != 0 {
      assert IsUnallocated(volume, start + 32 * 0);
      forall k | 0 <= k < count - 1
        ensures IsUnallocated(volume, start + 32 + 32 * k)
      {
        assert IsUnallocated(volume, start + 32 * (k + 1));
      }
      UnallocatedSkipped(volume, start + 32, count - 1, s);
      assert Offsets(start, count)[1..] == Offsets(start + RECORD_SIZE, count - 1);
    }
  }

  /** The state with the first record of the run. */
  function Half(second: seq<byte>): Scan {
    WithParts(START, [LongPart(0x42, second)], 2)
  }

  lemma HalfIsScanned(volume: seq<byte>, second: seq<byte>, place: int)
    requires ReadAt(Fat12, volume, place) == Some(RunPart(0x42, second)) && !IsSelf(second) && !IsParent(second)
    ensures ScanRecords(ByCluster, Fat12, volume, Offsets(place, 1), START) == Running(Half(second))
  {
    assert StepAt(ByCluster, Fat12, volume, place, START) == Running(Half(second));
    ScanFirst(ByCluster, Fat12, volume, place, 1, START);
  }

  lemma FirstCluster(volume: seq<byte>, second: seq<byte>, start: int, count: nat, place: int)
    requires forall k :: 0 <= k < count ==> IsUnallocated(volume, start + 32 * k)
    requires place == start + 32 * count && ReadAt(Fat12, volume, place) == Some(RunPart(0x42, second))
    requires !IsSelf(second) && !IsParent(second)
    ensures ScanRecords(ByCluster, Fat12, volume, Offsets(start, count + 1), START) == Running(Half(second))
  {
    UnallocatedSkipped(volume, start, count, START);
    HalfIsScanned(volume, second, place);
    OffsetsConcat(start, count, 1);
    SkippedFirst(volume, Offsets(start, count), Offsets(place, 1), Offsets(start, count + 1), START, Half(second));
  }

  lemma SkippedFirst(volume: seq<byte>, first: seq<int>, second: seq<int>, all: seq<int>, s: Scan, last: Scan)
    requires all == first + second
    requires ScanRecords(ByCluster, Fat12, volume, first, s) == Running(s)
    requires ScanRecords(ByCluster, Fat12, volume, second, s) == Running(last)
    ensures ScanRecords(ByCluster, Fat12, volume, all, s) == Running(last)
  {
    ScanJoin(volume, first, second, all, s, s, last);
  }

  lemma ScanJoin(volume: seq<byte>, first: seq<int>, second: seq<int>, all: seq<int>, s: Scan, middle: Scan, last: Scan)
    requires all == first + second
    requires ScanRecords(ByCluster, Fat12, volume, first, s) == Running(middle)
    requires ScanRecords(ByCluster, Fat12, volume, second, middle) == Running(last)
    ensures ScanRecords(ByCluster, Fat12, volume, all, s) == Running(last)
  {
    ScanConcat(ByCluster, Fat12, volume, first, second, s);
  }

  /** The state with the whole run, and the state with the file. */
  function Whole(first: seq<byte>, second: seq<byte>): Scan {
    WithParts(START, [LongPart(0x42, second), LongPart(0x01, first)], 1)
  }

  function Listed(first: seq<byte>, second: seq<byte>, file: Entry, place: nat): Scan {
    var name := NameText([LongPart(0x42, second), LongPart(0x01, first)]);
    Scan(START.listing.(files := [ListedAs(file, place, name)]), Progress(None, 1, false))
  }

  lemma WholeIsScanned(volume: seq<byte>, first: seq<byte>, second: seq<byte>, place: int)
    requires ReadAt(Fat12, volume, place) == Some(RunPart(0x01, first)) && !IsSelf(first) && !IsParent(first)
    ensures StepAt(ByCluster, Fat12, volume, place, Half(second)) == Running(Whole(first, second))
  {
    assert [LongPart(0x42, second)] + [LongPart(0x01, first)] == [LongPart(0x42, second), LongPart(0x01, first)];
  }

  lemma FileIsListed(volume: seq<byte>, first: seq<byte>, second: seq<byte>, file: Entry, place: nat)
    requires ReadAt(Fat12, volume, place) == Some(file) && IsPlain(ByCluster, file)
    ensures StepAt(ByCluster, Fat12, volume, place, Whole(first, second)) == Running(Listed(first, second, file, place))
  {
  }

  lemma SecondCluster(volume: seq<byte>, first: seq<byte>, second: seq<byte>, file: Entry, start: nat, count: nat)
    requires ReadAt(Fat12, volume, start) == Some(RunPart(0x01, first)) && !IsSelf(first) && !IsParent(first)
    requires ReadAt(Fat12, volume, start + 32) == Some(file) && IsPlain(ByCluster, file)
    requires ReadAt(Fat12, volume, start + 64) == Some(EMPTY)
    ensures ScanRecords(ByCluster, Fat12, volume, Offsets(start, count + 3), Half(second))
         == Terminated(Listed(first, second, file, start + 32))
  {
    WholeIsScanned(volume, first, second, start);
    FileIsListed(volume, first, second, file, start + 32);
    ScanFirst(ByCluster, Fat12, volume, start, count + 3, Half(second));
    ScanFirst(ByCluster, Fat12, volume, start + 32, count + 2, Whole(first, second));
    ScanFirst(ByCluster, Fat12, volume, start + 64, count + 1, Listed(first, second, file, start + 32));
  }

  lemma StraddledIsListed(volume: seq<byte>, first: seq<byte>, second: seq<byte>, file: Entry, table: seq<nat>)
    requires IsStraddled(volume, first, second, file) && IsPiece(first) && IsPiece(second)
    requires 5 <= |table| && table[2] == 4 && table[4] == 0xfff
    ensures var listing := ClusterListing(T.SMALL, table, volume, 2);
            listing.Some? && listing.value.files == [ListedAs(file, 2592, Some(first + second + [0, 0]))]
  {
    TextOfTwo(first, second);
    FirstCluster(volume, second, 1536, 15, 2016);
    SecondCluster(volume, first, second, file, 2560, 13);
    TwoClusters(table, volume, 16, START, Half(second), Listed(first, second, file, 2592));
  }

  lemma SmallGeometry(cluster: nat)
    requires cluster == 2 || cluster == 4
    ensures T.SMALL.Valid() && IsCluster(T.SMALL, cluster) && HasSlot(T.SMALL, cluster)
    ensures T.SMALL.ClusterOffset(cluster) == 512 * cluster + 512 && RecordCount(T.SMALL.clusterBlockSize) == 16
    ensures !IsCluster(T.SMALL, 0xfff)
  {
    assert B.Height(4096, 512, 0) == 0;
  }

  lemma TwoClusters(table: seq<nat>, volume: seq<byte>, count: nat, s: Scan, next: Scan, last: Scan)
    requires 5 <= |table| && table[2] == 4 && table[4] == 0xfff && count == 16
    requires ScanRecords(ByCluster, Fat12, volume, Offsets(1536, count), s) == Running(next)
    requires ScanRecords(ByCluster, Fat12, volume, Offsets(2560, count), next) == Terminated(last)
    ensures FinishFrom(T.SMALL, table, volume, 2, {}, s) == Some(last.listing)
  {
    SmallGeometry(2);
    SmallGeometry(4);
    FinishStep(T.SMALL, table, volume, 2, {}, s);
    FinishStep(T.SMALL, table, volume, 4, {} + {2}, next);
  }
}

/**
  Reading a directory: a state machine over 32-byte records that collects VFAT long-name runs and exFAT
  record groups, fed either cluster by cluster or from a range of the volume.
 */
module DirectoryScan {
  import opened ClusterChain
  import opened Common
  import opened DirectoryEntry
  import B = BlockTree

  /** The reader that feeds the machine: the two differ in the dot entries and the volume label test. */
  datatype Reader = ByCluster | ByRange

  /** A long-name record waiting for its short record. */
  datatype LongPart = LongPart(sequence: byte, nameData: seq<byte>)

  /** The value of a directory. */
  datatype Listing = Listing(self: Option<Entry>, parent: Option<Entry>, volumeLabel: Option<Entry>, files: seq<Entry>)

  /** What the reader carries from record to record besides the directory: the pending long-name run, the
      last sequence number, and whether the current exFAT file entry has its data stream.  The current
      file entry is the last one: only exFAT file entries are made current, and an exFAT directory has no
      other file entries. */
  datatype Progress = Progress(pending: Option<seq<LongPart>>, last: nat, stream: bool)

  datatype Scan = Scan(listing: Listing, progress: Progress)

  const START: Scan := Scan(Listing(None, None, None, []), Progress(None, 0, false))

  // ----- one record

  function SequenceNumber(sequence: byte): nat {
    sequence % 0x20
  }

  predicate StartsRun(sequence: byte) {
    sequence / 0x40 % 2 == 1
  }

  predicate IsLabel(reader: Reader, entry: Entry) {
    if reader == ByCluster then HasLabelFlag(entry.attributes) else entry.attributes == 8
  }

  function Chunks(parts: seq<LongPart>): (chunks: seq<seq<byte>>)
    ensures |chunks| == |parts|
    ensures forall i :: 0 <= i < |parts| ==> chunks[i] == parts[i].nameData
  {
    if parts == [] then [] else Chunks(parts[..|parts| - 1]) + [parts[|parts| - 1].nameData]
  }

  function SetLabel(s: Scan, entry: Entry): Option<Scan> {
    if s.listing.volumeLabel.Some? then None else Some(s.(listing := s.listing.(volumeLabel := Some(entry))))
  }

  function RunName(pending: Option<seq<LongPart>>): Option<Name> {
    if pending.Some? then VfatName(Chunks(pending.value)) else None
  }

  /** A short record ends the pending run, which becomes its name. */
  function AddFile(s: Scan, entry: Entry, offset: nat): Option<Scan> {
    var name := RunName(s.progress.pending);
    if s.progress.pending.Some? && name.None? then None
    else
      var file := entry.(identifier := offset, name := name);
      Some(Scan(s.listing.(files := s.listing.files + [file]), s.progress.(pending := None)))
  }

  /** A long-name record starts a run, or continues the run below the last sequence number. */
  function AddPart(s: Scan, entry: Entry): Option<Scan> {
    var number := SequenceNumber(entry.sequence);
    var part := LongPart(entry.sequence, entry.nameData);
    var progress := s.progress;
    if StartsRun(entry.sequence) then Some(s.(progress := progress.(pending := Some([part]), last := number)))
    else if number + 1 != progress.last || progress.pending.None? then None
    else Some(s.(progress := progress.(pending := Some(progress.pending.value + [part]), last := number)))
  }

  function WithStream(file: Entry, stream: Entry): Entry {
    file.(startCluster := stream.startCluster, size := stream.size, validSize := stream.validSize)
  }

  function WithChunk(file: Entry, chunk: seq<byte>): Entry {
    file.(nameEntries := Some((if file.nameEntries.Some? then file.nameEntries.value else []) + [chunk]))
  }

  function ReplaceLast(files: seq<Entry>, file: Entry): seq<Entry>
    requires files != []
  {
    files[|files| - 1 := file]
  }

  /** The exFAT records of a group: the file entry, its data stream and its name chunks. */
  function AddExFat(s: Scan, entry: Entry, offset: nat): Option<Scan> {
    var files := s.listing.files;
    match entry.kind
    case ExFatFileEntry =>
      var file := entry.(identifier := offset, nameEntries := Some([]));
      Some(Scan(s.listing.(files := files + [file]), s.progress.(stream := false)))
    case ExFatDataStream =>
      if s.progress.stream || files == [] then None
      else
        var file := WithStream(files[|files| - 1], entry);
        Some(Scan(s.listing.(files := ReplaceLast(files, file)), s.progress.(stream := true)))
    case ExFatFileEntryName =>
      if files == [] then None
      else Some(s.(listing := s.listing.(files := ReplaceLast(files, WithChunk(files[|files| - 1], entry.nameData)))))
    case ExFatVolumeLabel => SetLabel(s, entry)
    case _ => Some(s)
  }

  /** The state after a record that is not a terminator; none when the reader fails. */
  function Step(reader: Reader, s: Scan, entry: Entry, offset: nat): Option<Scan> {
    if entry.kind.Unallocated? then Some(s)
    else if reader == ByCluster && IsSelf(entry.nameData) then
      if s.listing.self.Some? then None else Some(s.(listing := s.listing.(self := Some(entry))))
    else if reader == ByCluster && IsParent(entry.nameData) then
      if s.listing.parent.Some? then None else Some(s.(listing := s.listing.(parent := Some(entry))))
    else StepByKind(reader, s, entry, offset)
  }

  function StepByKind(reader: Reader, s: Scan, entry: Entry, offset: nat): Option<Scan> {
    if entry.kind.ShortName? then
      if IsLabel(reader, entry) then SetLabel(s, if reader == ByRange then entry.(identifier := offset) else entry)
      else AddFile(s, entry, offset)
    else if entry.kind.VfatLongName? then AddPart(s, entry)
    else if reader == ByCluster then AddExFat(s, entry, offset)
    else Some(s)
  }

  /** A short record that the reader files as a file entry. */
  predicate IsPlain(reader: Reader, entry: Entry) {
    && entry.kind.ShortName? && !IsLabel(reader, entry)
    && (reader == ByCluster ==> !IsSelf(entry.nameData) && !IsParent(entry.nameData))
  }

  // ----- records in a row

  datatype Outcome = Invalid | Terminated(scan: Scan) | Running(scan: Scan)

  /** The record at an offset. */
  function StepAt(reader: Reader, format: Format, volume: seq<byte>, offset: int, s: Scan): Outcome {
    match ReadAt(format, volume, offset)
    case None => Invalid
    case Some(entry) =>
      if entry.kind.Terminator? then Terminated(s)
      else
        match Step(reader, s, entry, offset)
        case None => Invalid
        case Some(next) => Running(next)
  }

  /** The records at the given offsets, up to a terminator. */
  function ScanRecords(reader: Reader, format: Format, volume: seq<byte>, offsets: seq<int>, s: Scan): Outcome
    decreases |offsets|
  {
    if offsets == [] then Running(s)
    else
      match StepAt(reader, format, volume, offsets[0], s)
      case Running(next) => ScanRecords(reader, format, volume, offsets[1..], next)
      case stop => stop
  }

  /** Scanning is independent of where the records are cut. */
  lemma {:induction false} ScanConcat(reader: Reader, format: Format, volume: seq<byte>,
                                      a: seq<int>, b: seq<int>, s: Scan)
    ensures ScanRecords(reader, format, volume, a + b, s) ==
            match ScanRecords(reader, format, volume, a, s) {
              case Running(next) => ScanRecords(reader, format, volume, b, next)
              case stop => stop
            }
    decreases |a|
  {
    if a == [] {
      assert a + b == b;
    } else {
      assert (a + b)[1..] == a[1..] + b;
      var outcome := StepAt(reader, format, volume, a[0], s);
      if outcome.Running? {
        ScanConcat(reader, format, volume, a[1..], b, outcome.scan);
      }
    }
  }

  /** Records that lead from state to state one by one lead from the first state to the last. */
  lemma {:induction false} ScanChain(reader: Reader, format: Format, volume: seq<byte>, offsets: seq<int>,
                                     states: seq<Scan>)
    requires |states| == |offsets| + 1
    requires forall k :: 0 <= k < |offsets| ==>
               StepAt(reader, format, volume, offsets[k], states[k]) == Running(states[k + 1])
    ensures ScanRecords(reader, format, volume, offsets, states[0]) == Running(states[|offsets|])
    decreases |offsets|
  {
    if offsets != [] {
      assert StepAt(reader, format, volume, offsets[0], states[0]) == Running(states[1]);
      ScanChain(reader, format, volume, offsets[1..], states[1..]);
    }
  }

  /** The offsets of a number of records in a row. */
  function Offsets(start: int, count: nat): (offsets: seq<int>)
    ensures |offsets| == count
    decreases count
  {
    if count == 0 then [] else [start] + Offsets(start + RECORD_SIZE, count - 1)
  }

  /** The first record, and the ones after it. */
  lemma ScanFirst(reader: Reader, format: Format, volume: seq<byte>, offset: int, left: nat, s: Scan)
    requires 0 < left
    ensures ScanRecords(reader, format, volume, Offsets(offset, left), s) ==
            match StepAt(reader, format, volume, offset, s) {
              case Running(next) => ScanRecords(reader, format, volume, Offsets(offset + RECORD_SIZE, left - 1), next)
              case stop => stop
            }
  {
    assert Offsets(offset, left)[1..] == Offsets(offset + RECORD_SIZE, left - 1);
  }

  function ClusterOffsets(io: IoHandle, clusters: seq<nat>): seq<int> {
    if clusters == [] then []
    else Offsets(io.ClusterOffset(clusters[0]), RecordCount(io.clusterBlockSize)) + ClusterOffsets(io, clusters[1..])
  }

  /** The directory from a chain of clusters on: a terminator ends it whatever follows, otherwise the
      chain has to end properly. */
  ghost function Finish(io: IoHandle, volume: seq<byte>, chain: Chain, s: Scan): Option<Listing>
  {
    match ScanRecords(ByCluster, io.format, volume, ClusterOffsets(io, chain.clusters), s)
    case Invalid => None
    case Terminated(last) => Some(last.listing)
    case Running(last) => if chain.end.Complete? then Some(last.listing) else None
  }

  /** Whole records are taken, the last one even if it ends behind the range. */
  function RecordCount(size: nat): nat {
    (size + RECORD_SIZE - 1) / RECORD_SIZE
  }

  function RangeOutcome(format: Format, volume: seq<byte>, offset: int, size: nat): Outcome {
    ScanRecords(ByRange, format, volume, Offsets(offset, RecordCount(size)), START)
  }

  function RangeListing(format: Format, volume: seq<byte>, offset: int, size: nat): Option<Listing> {
    match RangeOutcome(format, volume, offset, size)
    case Invalid => None
    case Terminated(last) => Some(last.listing)
    case Running(last) => Some(last.listing)
  }

  /** The directory that starts at a cluster. */
  ghost function ClusterListing(io: IoHandle, table: seq<nat>, volume: seq<byte>, cluster: nat): Option<Listing>
    requires io.Valid()
  {
    if 0 < io.volumeSize <= B.INT64_MAX then FinishFrom(io, table, volume, cluster, {}, START) else None
  }

  /** The directory from a cluster on, for a reader in the given state. */
  ghost function FinishFrom(io: IoHandle, table: seq<nat>, volume: seq<byte>, cluster: nat, seen: set<nat>,
                            s: Scan): Option<Listing>
    requires io.Valid()
  {
    Finish(io, volume, ChainFrom(io, table, cluster, seen), s)
  }

  function ScanCluster(io: IoHandle, volume: seq<byte>, cluster: nat, s: Scan): Outcome {
    ScanRecords(ByCluster, io.format, volume, Offsets(io.ClusterOffset(cluster), RecordCount(io.clusterBlockSize)), s)
  }

  lemma FinishStep(io: IoHandle, table: seq<nat>, volume: seq<byte>, cluster: nat, seen: set<nat>, s: Scan)
    requires io.Valid()
    ensures FinishFrom(io, table, volume, cluster, seen, s) ==
            if !IsCluster(io, cluster) then Some(s.listing)
            else if cluster in seen || !HasSlot(io, cluster) then None
            else
              match ScanCluster(io, volume, cluster, s)
              case Invalid => None
              case Terminated(last) => Some(last.listing)
              case Running(next) =>
                if |table| <= cluster then None
                else FinishFrom(io, table, volume, table[cluster], seen + {cluster}, next)
  {
    if IsCluster(io, cluster) && cluster !in seen && HasSlot(io, cluster) {
      var rest := if |table| <= cluster then Chain([], NoEntry)
                  else ChainFrom(io, table, table[cluster], seen + {cluster});
      ChainUnfolds(io, table, cluster, seen, rest);
      FinishCons(io, volume, cluster, rest, s);
    }
  }

  lemma FinishCons(io: IoHandle, volume: seq<byte>, cluster: nat, rest: Chain, s: Scan)
    ensures Finish(io, volume, Chain([cluster] + rest.clusters, rest.end), s) ==
            match ScanCluster(io, volume, cluster, s)
            case Invalid => None
            case Terminated(last) => Some(last.listing)
            case Running(next) => Finish(io, volume, rest, next)
  {
    var offsets := Offsets(io.ClusterOffset(cluster), RecordCount(io.clusterBlockSize));
    assert ([cluster] + rest.clusters)[1..] == rest.clusters;
    ScanConcat(ByCluster, io.format, volume, offsets, ClusterOffsets(io, rest.clusters), s);
  }

  // ----- the pending run

  /** A run of long-name records: it starts with the flagged record, its numbers descend by one, and the
      next record is expected to be the one below `last`. */
  ghost predicate IsRun(parts: seq<LongPart>, last: nat) {
    && 1 <= |parts| <= 20
    && StartsRun(parts[0].sequence)
    && last + |parts| - 1 == SequenceNumber(parts[0].sequence) <= 20
    && 1 <= last
    && (forall i :: 0 <= i < |parts| ==> |parts[i].nameData| == 26)
    && (forall i :: 0 < i < |parts| ==> !StartsRun(parts[i].sequence))
    && (forall i :: 0 <= i < |parts| ==> SequenceNumber(parts[i].sequence) == last + |parts| - 1 - i)
  }

  ghost predicate PendingOk(progress: Progress) {
    progress.pending.None? || IsRun(progress.pending.value, progress.last)
  }

  /** A record keeps the pending run well-formed, and a pending run is never turned down as a name. */
  lemma StepKeepsRun(reader: Reader, s: Scan, format: Format, data: Record, offset: nat)
    requires PendingOk(s.progress)
    requires EntryOf(format, data).Some?
    ensures var next := Step(reader, s, EntryOf(format, data).value, offset);
            next.Some? ==> PendingOk(next.value.progress)
    ensures forall entry {:trigger AddFile(s, entry, offset)} :: AddFile(s, entry, offset).Some?
  {
    var entry := EntryOf(format, data).value;
    if entry.kind.VfatLongName? && AddPart(s, entry).Some? {
      assert IsSequence(entry.sequence);
      assert PendingOk(AddPart(s, entry).value.progress);
    }
  }

  /** At every record boundary of a scan the pending run is absent or well-formed. */
  lemma {:induction false} ScanKeepsRun(reader: Reader, format: Format, volume: seq<byte>, offsets: seq<int>, s: Scan)
    requires PendingOk(s.progress)
    ensures var outcome := ScanRecords(reader, format, volume, offsets, s);
            !outcome.Invalid? ==> PendingOk(outcome.scan.progress)
    decreases |offsets|
  {
    if offsets != [] && ReadAt(format, volume, offsets[0]).Some? {
      var entry := ReadAt(format, volume, offsets[0]).value;
      StepKeepsRun(reader, s, format, RecordAt(volume, offsets[0]), offsets[0]);
      var next := Step(reader, s, entry, offsets[0]);
      if next.Some? {
        ScanKeepsRun(reader, format, volume, offsets[1..], next.value);
      }
    }
  }

  // ----- the file entries

  predicate AllWellFormed(files: seq<Entry>) {
    forall i :: 0 <= i < |files| ==> WellFormed(files[i])
  }

  lemma StepKeepsWellFormed(reader: Reader, format: Format, volume: seq<byte>, offset: int, s: Scan)
    requires AllWellFormed(s.listing.files)
    ensures var outcome := StepAt(reader, format, volume, offset, s);
            !outcome.Invalid? ==> AllWellFormed(outcome.scan.listing.files)
  {
    var read := ReadAt(format, volume, offset);
    if read.Some? {
      assert WellFormed(read.value);
    }
  }

  /** Every file entry of a scan has the data its name is made of. */
  lemma {:induction false} ScanKeepsWellFormed(reader: Reader, format: Format, volume: seq<byte>, offsets: seq<int>,
                                               s: Scan)
    requires AllWellFormed(s.listing.files)
    ensures var outcome := ScanRecords(reader, format, volume, offsets, s);
            !outcome.Invalid? ==> AllWellFormed(outcome.scan.listing.files)
    decreases |offsets|
  {
    if offsets != [] {
      StepKeepsWellFormed(reader, format, volume, offsets[0], s);
      var outcome := StepAt(reader, format, volume, offsets[0], s);
      if outcome.Running? {
        ScanKeepsWellFormed(reader, format, volume, offsets[1..], outcome.scan);
      }
    }
  }

  lemma ListingIsWellFormed(io: IoHandle, table: seq<nat>, volume: seq<byte>, cluster: nat)
    requires io.Valid()
    ensures var listing := ClusterListing(io, table, volume, cluster);
            listing.Some? ==> AllWellFormed(listing.value.files)
  {
    var chain := ChainFrom(io, table, cluster, {});
    ScanKeepsWellFormed(ByCluster, io.format, volume, ClusterOffsets(io, chain.clusters), START);
  }

  // ----- the two readers

  /** The records that both readers treat alike. */
  predicate Neutral(entry: Entry) {
    || entry.kind.Unallocated?
    || (&& !IsSelf(entry.nameData) && !IsParent(entry.nameData)
        && (entry.kind.ShortName? && HasLabelFlag(entry.attributes) ==> entry.attributes == 8))
  }

  function Bare(entry: Entry): Entry {
    entry.(identifier := 0)
  }

  predicate SameOption(a: Option<Entry>, b: Option<Entry>) {
    match (a, b)
    case (None, None) => true
    case (Some(x), Some(y)) => Bare(x) == Bare(y)
    case _ => false
  }

  predicate SameFiles(a: seq<Entry>, b: seq<Entry>) {
    |a| == |b| && forall i :: 0 <= i < |a| ==> Bare(a[i]) == Bare(b[i])
  }

  /** The same directory but for the identifiers, which are places in the volume. */
  predicate SameListing(a: Listing, b: Listing) {
    && SameOption(a.self, b.self)
    && SameOption(a.parent, b.parent)
    && SameOption(a.volumeLabel, b.volumeLabel)
    && SameFiles(a.files, b.files)
  }

  predicate Similar(s: Scan, t: Scan) {
    SameListing(s.listing, t.listing) && s.progress == t.progress
  }

  predicate SameNext(s: Option<Scan>, t: Option<Scan>) {
    match (s, t)
    case (None, None) => true
    case (Some(x), Some(y)) => Similar(x, y)
    case _ => false
  }

  predicate FatKind(kind: EntryType) {
    kind.Unallocated? || kind.ShortName? || kind.VfatLongName?
  }

  lemma NeutralStep(s: Scan, t: Scan, entry: Entry, offset: nat, otherOffset: nat)
    requires FatKind(entry.kind) && Neutral(entry)
    requires Similar(s, t)
    ensures SameNext(Step(ByCluster, s, entry, offset), Step(ByRange, t, entry, otherOffset))
  {
  }

  /** The two readers agree on a record, whatever came before it, exactly when it is neutral. */
  lemma AgreeIffNeutral(entry: Entry, offset: nat, otherOffset: nat)
    requires FatKind(entry.kind)
    ensures Neutral(entry) <==>
            forall s, t :: Similar(s, t)
                      ==> SameNext(Step(ByCluster, s, entry, offset), Step(ByRange, t, entry, otherOffset))
  {
    if Neutral(entry) {
      forall s, t | Similar(s, t)
        ensures SameNext(Step(ByCluster, s, entry, offset), Step(ByRange, t, entry, otherOffset))
      {
        NeutralStep(s, t, entry, offset, otherOffset);
      }
    } else {
      assert Similar(START, START);
      assert !SameNext(Step(ByCluster, START, entry, offset), Step(ByRange, START, entry, otherOffset));
    }
  }

  /** The same records at two lists of places. */
  ghost predicate SameRecords(volume: seq<byte>, offsets: seq<int>, other: seq<byte>, otherOffsets: seq<int>) {
    && |offsets| == |otherOffsets|
    && forall i :: 0 <= i < |offsets| ==> SameRecord(volume, offsets[i], other, otherOffsets[i])
  }

  ghost predicate SameRecord(volume: seq<byte>, offset: int, other: seq<byte>, otherOffset: int) {
    && Inside(volume, offset) == Inside(other, otherOffset)
    && (Inside(volume, offset) ==> RecordAt(volume, offset) == RecordAt(other, otherOffset))
  }

  ghost predicate AllNeutral(format: Format, volume: seq<byte>, offsets: seq<int>) {
    forall i :: 0 <= i < |offsets| && ReadAt(format, volume, offsets[i]).Some?
                ==> Neutral(ReadAt(format, volume, offsets[i]).value)
  }

  predicate SameOutcome(a: Outcome, b: Outcome) {
    match (a, b)
    case (Invalid, Invalid) => true
    case (Terminated(s), Terminated(t)) => Similar(s, t)
    case (Running(s), Running(t)) => Similar(s, t)
    case _ => false
  }

  lemma {:induction false} ScansAgree(format: Format, volume: seq<byte>, offsets: seq<int>,
                                      other: seq<byte>, otherOffsets: seq<int>, s: Scan, t: Scan)
    requires format != ExFat
    requires SameRecords(volume, offsets, other, otherOffsets)
    requires AllNeutral(format, volume, offsets)
    requires Similar(s, t)
    ensures SameOutcome(ScanRecords(ByCluster, format, volume, offsets, s),
                        ScanRecords(ByRange, format, other, otherOffsets, t))
    decreases |offsets|
  {
    if offsets != [] {
      assert SameRecord(volume, offsets[0], other, otherOffsets[0]);
      StepsAtAgree(format, volume, offsets[0], other, otherOffsets[0], s, t);
      var a := StepAt(ByCluster, format, volume, offsets[0], s);
      var b := StepAt(ByRange, format, other, otherOffsets[0], t);
      if a.Running? {
        ScansAgree(format, volume, offsets[1..], other, otherOffsets[1..], a.scan, b.scan);
      }
    }
  }

  lemma StepsAtAgree(format: Format, volume: seq<byte>, offset: int, other: seq<byte>, otherOffset: int, s: Scan,
                     t: Scan)
    requires format != ExFat && SameRecord(volume, offset, other, otherOffset) && Similar(s, t)
    requires ReadAt(format, volume, offset).Some? ==> Neutral(ReadAt(format, volume, offset).value)
    ensures SameOutcome(StepAt(ByCluster, format, volume, offset, s), StepAt(ByRange, format, other, otherOffset, t))
  {
    if ReadAt(format, volume, offset).Some? && !ReadAt(format, volume, offset).value.kind.Terminator? {
      NeutralStep(s, t, ReadAt(format, volume, offset).value, offset, otherOffset);
    }
  }

  // ----- clusters against a range with the same bytes

  ghost predicate ClustersInside(io: IoHandle, volume: seq<byte>, clusters: seq<nat>) {
    forall i :: 0 <= i < |clusters| ==>
      0 <= io.ClusterOffset(clusters[i]) && io.ClusterOffset(clusters[i]) + io.clusterBlockSize <= |volume|
  }

  /** The blocks of the clusters in a row. */
  ghost function ClusterData(io: IoHandle, volume: seq<byte>, clusters: seq<nat>): seq<byte>
    requires ClustersInside(io, volume, clusters)
  {
    if clusters == [] then []
    else
      var offset := io.ClusterOffset(clusters[0]);
      volume[offset..offset + io.clusterBlockSize] + ClusterData(io, volume, clusters[1..])
  }

  lemma {:induction false} OffsetAt(start: int, count: nat, i: nat)
    requires i < count
    ensures Offsets(start, count)[i] == start + RECORD_SIZE * i
    decreases count
  {
    if 0 < i {
      OffsetAt(start + RECORD_SIZE, count - 1, i - 1);
    }
  }

  lemma {:induction false} OffsetsConcat(start: int, a: nat, b: nat)
    ensures Offsets(start, a) + Offsets(start + RECORD_SIZE * a, b) == Offsets(start, a + b)
    decreases a
  {
    if a == 0 {
      assert Offsets(start, a) + Offsets(start, b) == Offsets(start, b);
    } else {
      OffsetsConcat(start + RECORD_SIZE, a - 1, b);
      Reassociate([start], Offsets(start + RECORD_SIZE, a - 1), Offsets(start + RECORD_SIZE * a, b));
    }
  }

  lemma SameSlice(volume: seq<byte>, start: nat, other: seq<byte>, otherStart: nat, size: nat, at: nat, width: nat)
    requires start + size <= |volume| && otherStart + size <= |other| && at + width <= size
    requires volume[start..start + size] == other[otherStart..otherStart + size]
    ensures volume[start + at..start + at + width] == other[otherStart + at..otherStart + at + width]
  {
    var block, otherBlock := volume[start..start + size], other[otherStart..otherStart + size];
    var piece, otherPiece := volume[start + at..start + at + width], other[otherStart + at..otherStart + at + width];
    forall i | 0 <= i < width
      ensures piece[i] == otherPiece[i]
    {
      assert piece[i] == block[at + i] && otherPiece[i] == otherBlock[at + i];
    }
  }

  lemma BlockRecord(volume: seq<byte>, start: nat, other: seq<byte>, otherStart: nat, count: nat, i: nat)
    requires i < count
    requires start + RECORD_SIZE * count <= |volume| && otherStart + RECORD_SIZE * count <= |other|
    requires volume[start..start + RECORD_SIZE * count] == other[otherStart..otherStart + RECORD_SIZE * count]
    ensures SameRecord(volume, start + RECORD_SIZE * i, other, otherStart + RECORD_SIZE * i)
  {
    SameSlice(volume, start, other, otherStart, RECORD_SIZE * count, RECORD_SIZE * i, RECORD_SIZE);
  }

  lemma BlockSameRecords(volume: seq<byte>, start: nat, other: seq<byte>, otherStart: nat, count: nat)
    requires start + RECORD_SIZE * count <= |volume| && otherStart + RECORD_SIZE * count <= |other|
    requires volume[start..start + RECORD_SIZE * count] == other[otherStart..otherStart + RECORD_SIZE * count]
    ensures SameRecords(volume, Offsets(start, count), other, Offsets(otherStart, count))
  {
    forall i | 0 <= i < count
      ensures SameRecord(volume, Offsets(start, count)[i], other, Offsets(otherStart, count)[i])
    {
      OffsetAt(start, count, i);
      OffsetAt(otherStart, count, i);
      BlockRecord(volume, start, other, otherStart, count, i);
    }
  }

  lemma ConcatSameRecords(volume: seq<byte>, a: seq<int>, a': seq<int>,
                          other: seq<byte>, b: seq<int>, b': seq<int>)
    requires SameRecords(volume, a, other, b) && SameRecords(volume, a', other, b')
    ensures SameRecords(volume, a + a', other, b + b')
  {
  }

  lemma SliceOfTwo(whole: seq<byte>, start: nat, a: seq<byte>, b: seq<byte>)
    requires start + |a| + |b| <= |whole| && whole[start..start + |a| + |b|] == a + b
    ensures whole[start..start + |a|] == a
    ensures whole[start + |a|..start + |a| + |b|] == b
  {
    var both := whole[start..start + |a| + |b|];
    assert both[..|a|] == a && both[|a|..] == b;
  }

  /** The range that starts at a place holds the given bytes. */
  ghost predicate Holds(other: seq<byte>, start: nat, data: seq<byte>) {
    start + |data| <= |other| && other[start..start + |data|] == data
  }

  lemma {:induction false} LayoutSameRecords(io: IoHandle, volume: seq<byte>, clusters: seq<nat>,
                                             other: seq<byte>, start: nat)
    requires io.Valid() && ClustersInside(io, volume, clusters)
    requires Holds(other, start, ClusterData(io, volume, clusters))
    ensures |ClusterData(io, volume, clusters)| == RECORD_SIZE * |ClusterOffsets(io, clusters)|
    ensures SameRecords(volume, ClusterOffsets(io, clusters),
                        other, Offsets(start, |ClusterOffsets(io, clusters)|))
    decreases |clusters|
  {
    if clusters != [] {
      var size, count := io.clusterBlockSize, RecordCount(io.clusterBlockSize);
      var offset, more := io.ClusterOffset(clusters[0]), ClusterOffsets(io, clusters[1..]);
      SliceOfTwo(other, start, volume[offset..offset + size], ClusterData(io, volume, clusters[1..]));
      WholeRecords(size);
      LayoutSameRecords(io, volume, clusters[1..], other, start + size);
      PrependBlock(volume, offset, more, other, start, count);
    }
  }

  lemma PrependBlock(volume: seq<byte>, offset: nat, more: seq<int>,
                     other: seq<byte>, start: nat, count: nat)
    requires offset + RECORD_SIZE * count <= |volume| && start + RECORD_SIZE * count <= |other|
    requires volume[offset..offset + RECORD_SIZE * count] == other[start..start + RECORD_SIZE * count]
    requires SameRecords(volume, more, other, Offsets(start + RECORD_SIZE * count, |more|))
    ensures SameRecords(volume, Offsets(offset, count) + more, other, Offsets(start, count + |more|))
  {
    BlockSameRecords(volume, offset, other, start, count);
    ConcatSameRecords(volume, Offsets(offset, count), more,
                      other, Offsets(start, count), Offsets(start + RECORD_SIZE * count, |more|));
    OffsetsConcat(start, count, |more|);
  }

  lemma WholeRecords(size: nat)
    requires size % 512 == 0
    ensures size == RECORD_SIZE * RecordCount(size)
  {
    var units := size / 512;
    assert size == 512 * units;
    assert RecordCount(size) == 16 * units;
  }

  predicate SameResult(a: Option<Listing>, b: Option<Listing>) {
    match (a, b)
    case (None, None) => true
    case (Some(x), Some(y)) => SameListing(x, y)
    case _ => false
  }

  /** Reading a FAT directory cluster by cluster gives what reading the range of its concatenated clusters
      gives, or both fail, so that a run may straddle clusters; only a chain that is cut short without a
      terminator makes the cluster reader fail alone. */
  lemma ClusterScanIsRangeScan(io: IoHandle, table: seq<nat>, volume: seq<byte>, cluster: nat,
                               other: seq<byte>, start: nat)
    requires io.Valid() && io.format != ExFat && 0 < io.volumeSize <= B.INT64_MAX
    requires ClustersInside(io, volume, ChainFrom(io, table, cluster, {}).clusters)
    requires Holds(other, start, ClusterData(io, volume, ChainFrom(io, table, cluster, {}).clusters))
    requires AllNeutral(io.format, volume, ClusterOffsets(io, ChainFrom(io, table, cluster, {}).clusters))
    ensures
      var chain := ChainFrom(io, table, cluster, {});
      var size := |ClusterData(io, volume, chain.clusters)|;
      if chain.end.Complete? || RangeOutcome(io.format, other, start, size).Terminated? then
        SameResult(ClusterListing(io, table, volume, cluster), RangeListing(io.format, other, start, size))
      else ClusterListing(io, table, volume, cluster).None?
  {
    var chain := ChainFrom(io, table, cluster, {});
    var offsets := ClusterOffsets(io, chain.clusters);
    LayoutSameRecords(io, volume, chain.clusters, other, start);
    ScansAgree(io.format, volume, offsets, other, Offsets(start, |offsets|), START, START);
    RangeOfRecords(io.format, other, start, |offsets|);
    SameFinish(io, volume, chain, other, start, RECORD_SIZE * |offsets|);
  }

  lemma RangeOfRecords(format: Format, volume: seq<byte>, start: int, count: nat)
    ensures RangeOutcome(format, volume, start, RECORD_SIZE * count) ==
            ScanRecords(ByRange, format, volume, Offsets(start, count), START)
  {
    assert RecordCount(RECORD_SIZE * count) == count;
  }

  lemma SameFinish(io: IoHandle, volume: seq<byte>, chain: Chain, other: seq<byte>, start: nat, size: nat)
    requires SameOutcome(ScanRecords(ByCluster, io.format, volume, ClusterOffsets(io, chain.clusters), START),
                         RangeOutcome(io.format, other, start, size))
    ensures if chain.end.Complete? || RangeOutcome(io.format, other, start, size).Terminated? then
              SameResult(Finish(io, volume, chain, START), RangeListing(io.format, other, start, size))
            else Finish(io, volume, chain, START).None?
  {
  }
}

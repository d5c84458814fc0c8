/** The two directory readers: loops over the records of a cluster chain or of a range of the volume. */
module DirectoryReader {
  import opened ClusterChain
  import opened Common
  import opened DirectoryEntry
  import opened DirectoryScan
  import B = BlockTree

  function InitialIdentifier(reader: Reader, offset: int): nat {
    if reader == ByRange && 0 <= offset then offset else 0
  }

  /** The pending records have the full 26 bytes of name data. */
  ghost predicate Sized(progress: Progress) {
    progress.pending.Some? ==>
      forall i :: 0 <= i < |progress.pending.value| ==> |progress.pending.value[i].nameData| == 26
  }

  /** Gives a short entry its identifier, and the pending run as its name. */
  method NameFile(entry: DirectoryEntry, offset: nat, pending: Option<seq<LongPart>>) returns (ok: bool)
    requires entry.name.None?
    requires pending.Some? ==> ChunksOf(Chunks(pending.value), 26)
    modifies entry
    ensures var name := RunName(pending);
            && ok == (pending.Some? ==> name.Some?)
            && entry.Value() == old(entry.Value()).(identifier := offset, name := name)
  {
    entry.identifier := offset;
    ok := true;
    if pending.Some? {
      ok := entry.GetNameFromVfatLongFileNameEntries(Chunks(pending.value));
    }
  }

  class Directory {
    var selfEntry: Option<Entry>
    var parentEntry: Option<Entry>
    var volumeLabelEntry: Option<Entry>
    var fileEntries: seq<DirectoryEntry>
    /** The value of the directory. */
    ghost var content: Listing

    constructor ()
      ensures Valid() && fileEntries == [] && content == START.listing
    {
      selfEntry, parentEntry, volumeLabelEntry, fileEntries := None, None, None, [];
      content := START.listing;
    }

    ghost predicate Valid()
      reads this, fileEntries
    {
      && content.self == selfEntry && content.parent == parentEntry && content.volumeLabel == volumeLabelEntry
      && |content.files| == |fileEntries|
      && (forall i :: 0 <= i < |fileEntries| ==>
            content.files[i] == fileEntries[i].Value() && fileEntries[i].owner == this)
      && (forall i, j :: 0 <= i < j < |fileEntries| ==> fileEntries[i] != fileEntries[j])
    }

    method SetVolumeLabel(entry: Entry) returns (ok: bool)
      requires Valid()
      modifies `volumeLabelEntry, `content
      ensures ok == old(content).volumeLabel.None?
      ensures ok ==> Valid() && content == old(content).(volumeLabel := Some(entry))
    {
      ok := volumeLabelEntry.None?;
      volumeLabelEntry := Some(entry);
      content := content.(volumeLabel := Some(entry));
    }

    method AppendEntry(entry: DirectoryEntry)
      requires Valid() && entry !in fileEntries
      modifies `fileEntries, `content, entry`owner
      ensures Valid() && fileEntries == old(fileEntries) + [entry]
      ensures content == old(content).(files := old(content).files + [old(entry.Value())])
    {
      entry.owner := this;
      fileEntries := fileEntries + [entry];
      content := content.(files := content.files + [entry.Value()]);
    }

    /** The file entry with the pending run as its name. */
    method AddFileEntry(entry: DirectoryEntry, offset: nat, progress: Progress)
      returns (ok: bool, newProgress: Progress)
      requires Valid() && entry !in fileEntries
      requires entry.name.None? && Sized(progress)
      modifies `fileEntries, `content, entry
      ensures match AddFile(Scan(old(content), progress), old(entry.Value()), offset)
              case None => !ok
              case Some(next) => ok && Scan(content, newProgress) == next && Valid()
      ensures fileEntries == old(fileEntries) || fileEntries == old(fileEntries) + [entry]
    {
      newProgress := progress;
      ok := NameFile(entry, offset, progress.pending);
      if ok {
        AppendEntry(entry);
        newProgress := progress.(pending := None);
      }
    }

    method StartGroup(entry: DirectoryEntry, offset: nat)
      requires Valid() && entry !in fileEntries
      modifies `fileEntries, `content, entry
      ensures Valid() && fileEntries == old(fileEntries) + [entry]
      ensures var file := old(entry.Value()).(identifier := offset, nameEntries := Some([]));
              content == old(content).(files := old(content).files + [file])
    {
      entry.identifier := offset;
      entry.nameEntries := Some([]);
      AppendEntry(entry);
    }

    method SetDataStream(stream: Entry)
      requires Valid() && fileEntries != []
      modifies fileEntries, `content
      ensures var files := old(content).files;
              content == old(content).(files := ReplaceLast(files, WithStream(files[|files| - 1], stream)))
      ensures Valid()
    {
      var file := fileEntries[|fileEntries| - 1];
      file.startCluster := stream.startCluster;
      file.size := stream.size;
      file.validSize := stream.validSize;
      content := content.(files := ReplaceLast(content.files, file.Value()));
    }

    method AppendNameChunk(chunk: seq<byte>)
      requires Valid() && fileEntries != []
      modifies fileEntries, `content
      ensures var files := old(content).files;
              content == old(content).(files := ReplaceLast(files, WithChunk(files[|files| - 1], chunk)))
      ensures Valid()
    {
      var file := fileEntries[|fileEntries| - 1];
      var chunks := if file.nameEntries.Some? then file.nameEntries.value else [];
      file.nameEntries := Some(chunks + [chunk]);
      content := content.(files := ReplaceLast(content.files, file.Value()));
    }

    method AddExFatEntry(entry: DirectoryEntry, offset: nat, progress: Progress)
      returns (ok: bool, newProgress: Progress)
      requires Valid() && entry !in fileEntries
      modifies this, entry, fileEntries
      ensures match AddExFat(Scan(old(content), progress), old(entry.Value()), offset)
              case None => !ok
              case Some(next) => ok && Scan(content, newProgress) == next && Valid()
      ensures fileEntries == old(fileEntries) || fileEntries == old(fileEntries) + [entry]
    {
      ok, newProgress := true, progress;
      match entry.kind {
        case ExFatFileEntry =>
          StartGroup(entry, offset);
          newProgress := progress.(stream := false);
        case ExFatDataStream =>
          if progress.stream || |fileEntries| == 0 {
            return false, progress;
          }
          SetDataStream(entry.Value());
          newProgress := progress.(stream := true);
        case ExFatFileEntryName =>
          if |fileEntries| == 0 {
            return false, progress;
          }
          AppendNameChunk(entry.nameData);
        case ExFatVolumeLabel =>
          ok := SetVolumeLabel(entry.Value());
        case _ =>
      }
    }

    method AddLongNameEntry(entry: DirectoryEntry, progress: Progress) returns (ok: bool, newProgress: Progress)
      ensures match AddPart(Scan(content, progress), entry.Value())
              case None => !ok
              case Some(next) => ok && Scan(content, newProgress) == next
    {
      var number := SequenceNumber(entry.sequence);
      var parts := progress.pending;
      newProgress := progress;
      if StartsRun(entry.sequence) {
        parts := Some([]);
      } else if number + 1 != progress.last {
        return false, progress;
      }
      if parts.None? {
        return false, progress;
      }
      var part := LongPart(entry.sequence, entry.nameData);
      assert [] + [part] == [part];
      newProgress := progress.(pending := Some(parts.value + [part]), last := number);
      ok := true;
    }

    method AddByKind(reader: Reader, entry: DirectoryEntry, ghost read: Entry, offset: nat, progress: Progress)
      returns (ok: bool, newProgress: Progress)
      requires Valid() && entry !in fileEntries
      requires entry.Value() == read.(identifier := InitialIdentifier(reader, offset))
      requires read.name.None? && read.identifier == 0 && Sized(progress)
      modifies this, entry, fileEntries
      ensures match StepByKind(reader, Scan(old(content), progress), read, offset)
              case None => !ok
              case Some(next) => ok && Scan(content, newProgress) == next && Valid()
      ensures fileEntries == old(fileEntries) || fileEntries == old(fileEntries) + [entry]
    {
      ok, newProgress := true, progress;
      if entry.kind.ShortName? {
        if IsLabel(reader, entry.Value()) {
          ok := SetVolumeLabel(entry.Value());
        } else {
          ok, newProgress := AddFileEntry(entry, offset, progress);
        }
      } else if entry.kind.VfatLongName? {
        ok, newProgress := AddLongNameEntry(entry, progress);
      } else if reader == ByCluster {
        ok, newProgress := AddExFatEntry(entry, offset, progress);
      }
    }

    /** Files an entry that is not a terminator. */
    method AddEntry(reader: Reader, entry: DirectoryEntry, ghost read: Entry, offset: nat, progress: Progress)
      returns (ok: bool, newProgress: Progress)
      requires Valid() && entry !in fileEntries
      requires entry.Value() == read.(identifier := InitialIdentifier(reader, offset))
      requires read.name.None? && read.identifier == 0 && Sized(progress)
      modifies this, entry, fileEntries
      ensures match Step(reader, Scan(old(content), progress), read, offset)
              case None => !ok
              case Some(next) => ok && Scan(content, newProgress) == next && Valid()
      ensures fileEntries == old(fileEntries) || fileEntries == old(fileEntries) + [entry]
    {
      ok, newProgress := true, progress;
      if entry.kind.Unallocated? {
      } else if reader == ByCluster && IsSelf(entry.nameData) {
        ok := selfEntry.None?;
        selfEntry := Some(entry.Value());
        content := content.(self := selfEntry);
      } else if reader == ByCluster && IsParent(entry.nameData) {
        ok := parentEntry.None?;
        parentEntry := Some(entry.Value());
        content := content.(parent := parentEntry);
      } else {
        ok, newProgress := AddByKind(reader, entry, read, offset, progress);
      }
    }

    /** The reader is where the machine is after an outcome. */
    ghost predicate Reached(outcome: Outcome, result: ReadResult, progress: Progress)
      reads this, fileEntries
    {
      match outcome
      case Invalid => result == Failed
      case Terminated(s) => result == Empty && Scan(content, progress) == s && Valid()
      case Running(s) => result == Read && Scan(content, progress) == s && Valid()
    }

    /** The file entries are the old ones and new ones. */
    twostate predicate OldOrFresh()
      reads this
    {
      forall i :: 0 <= i < |fileEntries| ==> fileEntries[i] in old(fileEntries) || fresh(fileEntries[i])
    }

    method ReadRecord(reader: Reader, format: Format, volume: seq<byte>, offset: int, progress: Progress)
      returns (result: ReadResult, newProgress: Progress)
      requires Valid() && Sized(progress)
      modifies this, fileEntries
      ensures Reached(StepAt(reader, format, volume, offset, Scan(old(content), progress)), result, newProgress)
      ensures result != Failed ==> Sized(newProgress)
      ensures OldOrFresh()
    {
      KeepsSize(reader, format, volume, offset, Scan(content, progress));
      newProgress := progress;
      var entry := new DirectoryEntry();
      entry.identifier := InitialIdentifier(reader, offset);
      result := entry.ReadFileIoHandle(volume, offset, format);
      if result == Read {
        var ok;
        ok, newProgress := AddEntry(reader, entry, ReadAt(format, volume, offset).value, offset, progress);
        result := if ok then Read else Failed;
      }
    }

    /** Reads the records from an offset up to an end, or up to a terminator. */
    method ReadRecords(reader: Reader, format: Format, volume: seq<byte>, start: int, end: int, progress0: Progress,
                       ghost outcome: Outcome)
      returns (result: ReadResult, progress: Progress)
      requires Valid() && Sized(progress0)
      requires outcome == ScanBetween(reader, format, volume, start, end, Scan(content, progress0))
      modifies this, fileEntries
      ensures Reached(outcome, result, progress)
      ensures result != Failed ==> Sized(progress)
      ensures OldOrFresh()
    {
      var offset := start;
      result, progress := Read, progress0;
      while offset < end
        invariant result == Read && Valid() && Sized(progress)
        invariant outcome == ScanBetween(reader, format, volume, offset, end, Scan(content, progress))
        invariant OldOrFresh()
      {
        BetweenStep(reader, format, volume, offset, end, Scan(content, progress));
        result, progress := ReadRecord(reader, format, volume, offset, progress);
        if result != Read {
          return;
        }
        offset := offset + RECORD_SIZE;
      }
      BetweenStep(reader, format, volume, offset, end, Scan(content, progress));
    }
  }

  /** The records that start between two offsets. */
  ghost function ScanBetween(reader: Reader, format: Format, volume: seq<byte>, start: int, end: int, s: Scan): Outcome
  {
    ScanRecords(reader, format, volume, Offsets(start, RecordCount(Max(0, end - start))), s)
  }

  lemma BetweenStep(reader: Reader, format: Format, volume: seq<byte>, offset: int, end: int, s: Scan)
    ensures end <= offset ==> ScanBetween(reader, format, volume, offset, end, s) == Running(s)
    ensures offset < end ==>
              ScanBetween(reader, format, volume, offset, end, s) ==
              match StepAt(reader, format, volume, offset, s) {
                case Running(next) => ScanBetween(reader, format, volume, offset + RECORD_SIZE, end, next)
                case stop => stop
              }
  {
    var count := RecordCount(Max(0, end - offset));
    if offset < end {
      assert RecordCount(Max(0, end - (offset + RECORD_SIZE))) == count - 1;
      ScanFirst(reader, format, volume, offset, count, s);
    } else {
      assert Offsets(offset, 0) == [];
    }
  }

  lemma KeepsSize(reader: Reader, format: Format, volume: seq<byte>, offset: int, s: Scan)
    requires Sized(s.progress)
    ensures var outcome := StepAt(reader, format, volume, offset, s);
            !outcome.Invalid? ==> Sized(outcome.scan.progress)
  {
    if ReadAt(format, volume, offset).Some? {
      var entry := ReadAt(format, volume, offset).value;
      assert entry.kind.VfatLongName? ==> |entry.nameData| == 26;
    }
  }

  /** Reads the directory in a range of the volume. */
  method ReadDirectoryByRange(format: Format, volume: seq<byte>, fileOffset: int, size: nat)
    returns (directory: Directory?)
    ensures match RangeListing(format, volume, fileOffset, size)
            case None => directory == null
            case Some(listing) =>
              directory != null && fresh(directory) && directory.Valid() && directory.content == listing
  {
    var safeDirectory := new Directory();
    ghost var outcome := RangeOutcome(format, volume, fileOffset, size);
    var result, progress :=
      safeDirectory.ReadRecords(ByRange, format, volume, fileOffset, fileOffset + size, START.progress, outcome);
    directory := if result == Failed then null else safeDirectory;
  }

  /** What reading a cluster leaves to be done: nothing after a failure or a terminator, otherwise the
      chain from the next cluster on. */
  ghost function AfterReading(io: IoHandle, table: seq<nat>, volume: seq<byte>, cluster: nat, seen: set<nat>,
                              result: ReadResult, s: Scan): Option<Listing>
    requires io.Valid() && 2 <= cluster
  {
    match result
    case Failed => None
    case Empty => Some(s.listing)
    case Read =>
      if |table| <= cluster then None
      else FinishFrom(io, table, volume, table[cluster], seen + {cluster}, s)
  }

  lemma AfterCluster(io: IoHandle, table: seq<nat>, volume: seq<byte>, cluster: nat, seen: set<nat>, s: Scan,
                     directory: Directory, result: ReadResult, progress: Progress)
    requires io.Valid() && IsCluster(io, cluster)
    requires cluster in seen || !HasSlot(io, cluster) ==> result == Failed
    requires cluster !in seen && HasSlot(io, cluster)
             ==> directory.Reached(ScanCluster(io, volume, cluster, s), result, progress)
    ensures FinishFrom(io, table, volume, cluster, seen, s) ==
            AfterReading(io, table, volume, cluster, seen, result, Scan(directory.content, progress))
    ensures result != Failed ==> directory.Valid() && cluster !in seen
  {
    FinishStep(io, table, volume, cluster, seen, s);
  }

  /** Reads the records of a cluster. */
  method ReadBlock(io: IoHandle, volume: seq<byte>, cluster: nat, directory: Directory, progress0: Progress)
    returns (result: ReadResult, progress: Progress)
    requires io.Valid() && 2 <= cluster && directory.Valid() && Sized(progress0)
    modifies directory, directory.fileEntries
    ensures directory.Reached(ScanCluster(io, volume, cluster, Scan(old(directory.content), progress0)),
                              result, progress)
    ensures result != Failed ==> Sized(progress)
    ensures directory.OldOrFresh()
  {
    var offset := io.ClusterOffset(cluster);
    ghost var outcome := ScanCluster(io, volume, cluster, Scan(directory.content, progress0));
    result, progress := directory.ReadRecords(ByCluster, io.format, volume, offset, offset + io.clusterBlockSize,
                                              progress0, outcome);
  }

  /** Reads one cluster of a chain, if the walk has not been there. */
  method ReadCluster(io: IoHandle, tree: B.BlockTree, ghost table: seq<nat>, volume: seq<byte>, cluster: nat,
                     directory: Directory, progress0: Progress, ghost seen: set<nat>, ghost goal: Option<Listing>)
    returns (result: ReadResult, progress: Progress)
    requires io.Valid() && goal == FinishFrom(io, table, volume, cluster, seen, Scan(directory.content, progress0))
    requires Visited(io, tree, seen) && IsCluster(io, cluster) && directory.Valid() && Sized(progress0)
    modifies tree, tree.nodes, directory, directory.fileEntries
    ensures goal == AfterReading(io, table, volume, cluster, seen, result, Scan(directory.content, progress))
    ensures result != Failed ==> directory.Valid() && Sized(progress)
    ensures result != Failed ==> cluster !in seen && Visited(io, tree, seen + {cluster})
    ensures forall n {:trigger n in tree.nodes} :: n in tree.nodes ==> n in old(tree.nodes) || fresh(n)
    ensures directory.OldOrFresh()
  {
    ghost var s := Scan(directory.content, progress0);
    progress := progress0;
    var first := CheckIfClusterBlockFirstRead(io, tree, cluster, seen);
    if !first {
      AfterCluster(io, table, volume, cluster, seen, s, directory, Failed, progress);
      return Failed, progress;
    }
    result, progress := ReadBlock(io, volume, cluster, directory, progress);
    AfterCluster(io, table, volume, cluster, seen, s, directory, result, progress);
  }

  /** Reads the clusters of a chain into a new directory. */
  method ReadClusters(io: IoHandle, tree: B.BlockTree, table: seq<nat>, volume: seq<byte>, clusterNumber: nat,
                      directory: Directory)
    returns (ok: bool)
    requires Visited(io, tree, {})
    requires directory.Valid() && directory.content == START.listing
    modifies tree, tree.nodes, directory, directory.fileEntries
    ensures match FinishFrom(io, table, volume, clusterNumber, {}, START)
            case None => !ok
            case Some(listing) => ok && directory.Valid() && directory.content == listing
    ensures forall i :: 0 <= i < |directory.fileEntries| ==>
              directory.fileEntries[i] in old(directory.fileEntries) || fresh(directory.fileEntries[i])
  {
    var cluster, progress := clusterNumber, START.progress;
    ghost var seen: set<nat> := {};
    ghost var listing := FinishFrom(io, table, volume, cluster, seen, START);
    while IsCluster(io, cluster)
      invariant Visited(io, tree, seen)
      invariant forall n {:trigger n in tree.nodes} :: n in tree.nodes ==> n in old(tree.nodes) || fresh(n)
      invariant directory.Valid() && Sized(progress)
      invariant forall i :: 0 <= i < |directory.fileEntries| ==>
                  directory.fileEntries[i] in old(directory.fileEntries) || fresh(directory.fileEntries[i])
      invariant listing == FinishFrom(io, table, volume, cluster, seen, Scan(directory.content, progress))
      decreases Unseen(table, seen)
    {
      var result;
      result, progress := ReadCluster(io, tree, table, volume, cluster, directory, progress, seen, listing);
      if result != Read || |table| <= cluster {
        return result == Empty;
      }
      UnseenShrinks(table, seen, cluster);
      seen, cluster := seen + {cluster}, table[cluster];
    }
    FinishStep(io, table, volume, cluster, seen, Scan(directory.content, progress));
    ok := true;
  }

  /** Reads the directory in a chain of clusters. */
  method ReadDirectory(io: IoHandle, table: seq<nat>, volume: seq<byte>, clusterNumber: nat)
    returns (directory: Directory?)
    requires io.Valid() && io.clusterBlockSize <= B.UINT64_MAX
    ensures match ClusterListing(io, table, volume, clusterNumber)
            case None => directory == null
            case Some(listing) =>
              directory != null && fresh(directory) && directory.Valid() && directory.content == listing
    ensures directory != null ==> forall e :: e in directory.fileEntries ==> fresh(e)
  {
    var tree := B.BlockTree.Initialize(io.volumeSize, io.clusterBlockSize);
    if tree == null {
      return null;
    }
    var safeDirectory := new Directory();
    var ok := ReadClusters(io, tree, table, volume, clusterNumber, safeDirectory);
    directory := if ok then safeDirectory else null;
  }
}

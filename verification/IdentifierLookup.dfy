/**
  Finding the directory entry behind an identifier.  For FAT that is the place of a short record, and the
  long-name records are collected backwards from there; for exFAT it is the place of a file record, and the
  records of its group are collected forwards.
 */
module IdentifierLookup {
  import opened Common
  import opened DirectoryEntry
  import opened DirectoryScan

  /** What collecting the records before a place comes to: a failure, the end of the name, or a record after
      which the search goes on in another cluster. */
  datatype Collected = Stuck | Ended(last: nat, parts: seq<LongPart>) | GoesOn(last: nat, parts: seq<LongPart>)

  /** Where the backward search is: the cluster whose number it has, the place of the record it looks at next,
      the end of the places it accepts, and the records it has. */
  datatype Position = Position(cluster: nat, offset: int, end: int, last: nat, parts: seq<LongPart>)

  datatype Lookup = Found(entry: Entry) | NotAvailable | Rejected | Unfinished

  // ----- FAT: backwards from the short record

  /** The long-name records from an offset backwards, numbers ascending. */
  function Collect(format: Format, volume: seq<byte>, offset: int, last: nat, parts: seq<LongPart>): Collected
    decreases offset
  {
    match ReadAt(format, volume, offset)
    case None => Stuck
    case Some(entry) =>
      if entry.kind.VfatLongName? then
        var number := SequenceNumber(entry.sequence);
        if last != 0 && last + 1 != number then Stuck
        else Collect(format, volume, offset - RECORD_SIZE, number, [LongPart(entry.sequence, entry.nameData)] + parts)
      else if entry.kind.ShortName? || entry.kind.Terminator? then Ended(last, parts)
      else GoesOn(last, parts)
  }

  function CollectAt(io: IoHandle, volume: seq<byte>, s: Position): Collected {
    if s.offset <= s.end then Collect(io.format, volume, s.offset, s.last, s.parts) else GoesOn(s.last, s.parts)
  }

  /** The search goes on at the first record of a cluster. */
  function AtCluster(io: IoHandle, cluster: nat, last: nat, parts: seq<LongPart>): Position {
    Position(cluster, io.ClusterOffset(cluster), io.ClusterOffset(cluster) + io.clusterBlockSize, last, parts)
  }

  /** The search from cluster to cluster, in a number of turns that the code does not bound. */
  function Search(io: IoHandle, reversed: seq<nat>, volume: seq<byte>, s: Position, turns: nat): Option<Collected>
    decreases turns
  {
    if s.cluster <= 2 then Some(Ended(s.last, s.parts))
    else if turns == 0 then None
    else
      match CollectAt(io, volume, s)
      case GoesOn(last, parts) =>
        if |reversed| <= s.cluster then Some(Stuck)
        else Search(io, reversed, volume, AtCluster(io, reversed[s.cluster], last, parts), turns - 1)
      case stop => Some(stop)
  }

  /** The number the search starts with: it is computed from the start of the volume, not of the first
      cluster, and in 32 bits. */
  function StartCluster(io: IoHandle, identifier: nat): nat
    requires 0 < io.clusterBlockSize
  {
    (identifier / io.clusterBlockSize % 0x1_0000_0000 + 2) % 0x1_0000_0000
  }

  function StartEnd(io: IoHandle, identifier: nat): nat
    requires 0 < io.clusterBlockSize
  {
    identifier / io.clusterBlockSize % 0x1_0000_0000 * io.clusterBlockSize + io.clusterBlockSize
  }

  function StartPosition(io: IoHandle, identifier: nat): Position
    requires 0 < io.clusterBlockSize
  {
    Position(StartCluster(io, identifier), identifier - RECORD_SIZE, StartEnd(io, identifier), 0, [])
  }

  /** The entry with the collected records as its name, if there are any. */
  function Named(entry: Entry, identifier: nat, collected: Collected): Lookup {
    if collected.Stuck? then Rejected
    else if collected.last == 0 then Found(entry.(identifier := identifier))
    else
      match VfatName(Chunks(collected.parts))
      case None => Rejected
      case Some(name) => Found(entry.(identifier := identifier, name := Some(name)))
  }

  // ----- exFAT: forwards from the file record

  /** What following the records of a group comes to: a failure, the end of the group, or a place after which
      the search goes on in another cluster. */
  datatype Followed = Broken | Complete(entry: Entry, names: seq<seq<byte>>)
                    | Onward(entry: Entry, names: seq<seq<byte>>, stream: bool)

  /** The records of a group from an offset to an end.  A record behind the data stream is never read: the
      stream keeps the variable that the next record needs. */
  function Follow(volume: seq<byte>, offset: int, end: int, entry: Entry, names: seq<seq<byte>>, stream: bool): Followed
    decreases end - offset
  {
    if end <= offset then Onward(entry, names, stream)
    else if stream then Broken
    else
      match ReadAt(ExFat, volume, offset)
      case None => Broken
      case Some(next) =>
        if next.kind.ExFatDataStream? then
          Follow(volume, offset + RECORD_SIZE, end, WithStream(entry, next), names, true)
        else if next.kind.ExFatFileEntryName? then
          Follow(volume, offset + RECORD_SIZE, end, entry, names + [next.nameData], false)
        else if next.kind.ExFatFileEntry? || next.kind.Terminator? then Complete(entry, names)
        else Onward(entry, names, false)
  }

  /** The search along the allocation table, in a number of turns that the code does not bound. */
  function FollowChain(io: IoHandle, table: seq<nat>, volume: seq<byte>, cluster: nat, offset: int, end: int,
                       entry: Entry, names: seq<seq<byte>>, stream: bool, turns: nat): Option<Followed>
    decreases turns
  {
    if turns == 0 then None
    else
      match Follow(volume, offset, end, entry, names, stream)
      case Onward(entry', names', stream') =>
        if |table| <= cluster then Some(Broken)
        else if !ChainGoesOn(table[cluster]) then Some(Complete(entry', names'))
        else
          var start := io.ClusterOffset(table[cluster]);
          FollowChain(io, table, volume, table[cluster], start, start + io.clusterBlockSize, entry', names', stream',
                      turns - 1)
      case stop => Some(stop)
  }

  predicate ChainGoesOn(cluster: nat) {
    2 <= cluster < 0xfffffff0
  }

  /** The entry with the name its chunks spell. */
  function NamedByChunks(followed: Followed, identifier: nat): Lookup
    requires !followed.Onward?
  {
    if followed.Broken? then Rejected
    else
      match ExFatName(followed.names)
      case None => Rejected
      case Some(name) => Found(followed.entry.(identifier := identifier, name := Some(name)))
  }

  lemma {:induction false} FollowChainStops(io: IoHandle, table: seq<nat>, volume: seq<byte>, cluster: nat, offset: int,
                                            end: int,
                                            entry: Entry, names: seq<seq<byte>>, stream: bool, turns: nat)
    ensures var found := FollowChain(io, table, volume, cluster, offset, end, entry, names, stream, turns);
            found.Some? ==> !found.value.Onward?
    decreases turns
  {
    if turns != 0 {
      var followed := Follow(volume, offset, end, entry, names, stream);
      if followed.Onward? && cluster < |table| && ChainGoesOn(table[cluster]) {
        var start := io.ClusterOffset(table[cluster]);
        FollowChainStops(io, table, volume, table[cluster], start, start + io.clusterBlockSize,
                         followed.entry, followed.names, followed.stream, turns - 1);
      }
    }
  }

  // ----- the lookup

  /** Both tables are given: FAT is searched along the reversed one, exFAT along the allocation table. */
  function EntryByIdentifier(io: IoHandle, table: seq<nat>, reversed: seq<nat>, volume: seq<byte>, identifier: nat,
                             turns: nat): Lookup
    requires 0 < io.clusterBlockSize
  {
    match ReadAt(io.format, volume, identifier)
    case None => Rejected
    case Some(entry) =>
      if entry.kind.Terminator? then NotAvailable
      else if entry.kind.ShortName? then
        match Search(io, reversed, volume, StartPosition(io, identifier), turns)
        case None => Unfinished
        case Some(collected) => Named(entry, identifier, collected)
      else if entry.kind.ExFatFileEntry? then
        FollowChainStops(io, table, volume, StartCluster(io, identifier), identifier + RECORD_SIZE,
                         StartEnd(io, identifier), entry, [], false, turns);
        match FollowChain(io, table, volume, StartCluster(io, identifier), identifier + RECORD_SIZE,
                          StartEnd(io, identifier), entry, [], false, turns)
        case None => Unfinished
        case Some(followed) => NamedByChunks(followed, identifier)
      else Rejected
  }

  // ----- the loops

  method CollectBackwards(format: Format, volume: seq<byte>, offset0: int, last0: nat, parts0: seq<LongPart>)
    returns (collected: Collected)
    ensures collected == Collect(format, volume, offset0, last0, parts0)
  {
    var offset, last, parts := offset0, last0, parts0;
    while true
      invariant Collect(format, volume, offset0, last0, parts0) == Collect(format, volume, offset, last, parts)
      decreases offset
    {
      var entry := new DirectoryEntry();
      var result := entry.ReadFileIoHandle(volume, offset, format);
      if result == Failed {
        return Stuck;
      }
      if !entry.kind.VfatLongName? {
        return if entry.kind.ShortName? || result == Empty then Ended(last, parts) else GoesOn(last, parts);
      }
      var number := SequenceNumber(entry.sequence);
      if last != 0 && last + 1 != number {
        return Stuck;
      }
      parts := [LongPart(entry.sequence, entry.nameData)] + parts;
      last := number;
      offset := offset - RECORD_SIZE;
    }
  }

  method SearchClusters(io: IoHandle, reversed: seq<nat>, volume: seq<byte>, identifier: nat, turns0: nat)
    returns (collected: Option<Collected>)
    requires 0 < io.clusterBlockSize
    ensures collected == Search(io, reversed, volume, StartPosition(io, identifier), turns0)
  {
    var offset, end := identifier - RECORD_SIZE, StartEnd(io, identifier);
    var cluster: nat, turns: nat := StartCluster(io, identifier), turns0;
    var last, parts := 0, [];
    ghost var goal := Search(io, reversed, volume, StartPosition(io, identifier), turns0);
    while cluster > 2
      invariant goal == Search(io, reversed, volume, Position(cluster, offset, end, last, parts), turns)
      decreases turns
    {
      if turns == 0 {
        return None;
      }
      var records := GoesOn(last, parts);
      if offset <= end {
        records := CollectBackwards(io.format, volume, offset, last, parts);
      }
      if !records.GoesOn? {
        return Some(records);
      }
      if |reversed| <= cluster {
        return Some(Stuck);
      }
      cluster := reversed[cluster];
      offset := io.ClusterOffset(cluster);
      end := offset + io.clusterBlockSize;
      last, parts, turns := records.last, records.parts, turns - 1;
    }
    collected := Some(Ended(last, parts));
  }

  lemma {:induction false} CollectSized(format: Format, volume: seq<byte>, offset: int, last: nat, parts: seq<LongPart>)
    requires ChunksOf(Chunks(parts), 26)
    ensures var collected := Collect(format, volume, offset, last, parts);
            !collected.Stuck? ==> ChunksOf(Chunks(collected.parts), 26)
    decreases offset
  {
    var read := ReadAt(format, volume, offset);
    if read.Some? && read.value.kind.VfatLongName? {
      var number := SequenceNumber(read.value.sequence);
      if last == 0 || last + 1 == number {
        CollectSized(format, volume, offset - RECORD_SIZE, number,
                     [LongPart(read.value.sequence, read.value.nameData)] + parts);
      }
    }
  }

  lemma {:induction false} SearchSized(io: IoHandle, reversed: seq<nat>, volume: seq<byte>, s: Position, turns: nat)
    requires ChunksOf(Chunks(s.parts), 26)
    ensures var found := Search(io, reversed, volume, s, turns);
            found.Some? && !found.value.Stuck? ==> ChunksOf(Chunks(found.value.parts), 26)
    decreases turns
  {
    if s.cluster > 2 && 0 < turns {
      var collected := CollectAt(io, volume, s);
      CollectSized(io.format, volume, s.offset, s.last, s.parts);
      if collected.GoesOn? && s.cluster < |reversed| {
        SearchSized(io, reversed, volume, AtCluster(io, reversed[s.cluster], collected.last, collected.parts),
                    turns - 1);
      }
    }
  }

  /** Follows the records of a group up to an end; the stream record, if there is one, stays in `safe`. */
  method FollowRecords(volume: seq<byte>, offset0: int, end: int, current: DirectoryEntry,
                       names0: seq<seq<byte>>, safe0: DirectoryEntry?)
    returns (followed: Followed, safe: DirectoryEntry?)
    modifies current
    ensures followed == Follow(volume, offset0, end, old(current.Value()), names0, safe0 != null)
    ensures !followed.Broken? ==> current.Value() == followed.entry
    ensures followed.Onward? ==> followed.stream == (safe != null)
  {
    var offset, names := offset0, names0;
    safe := safe0;
    ghost var goal := Follow(volume, offset0, end, current.Value(), names0, safe0 != null);
    while offset < end
      invariant goal == Follow(volume, offset, end, current.Value(), names, safe != null)
      decreases end - offset
    {
      if safe != null {
        return Broken, safe;
      }
      safe := new DirectoryEntry();
      var result := safe.ReadFileIoHandle(volume, offset, ExFat);
      if result == Failed {
        return Broken, safe;
      }
      if safe.kind.ExFatDataStream? {
        current.startCluster := safe.startCluster;
        current.size := safe.size;
        current.validSize := safe.validSize;
      } else if safe.kind.ExFatFileEntryName? {
        names := names + [safe.nameData];
        safe := null;
      } else {
        if safe.kind.ExFatFileEntry? || result == Empty {
          return Complete(current.Value(), names), null;
        }
        return Onward(current.Value(), names, false), null;
      }
      offset := offset + RECORD_SIZE;
    }
    followed := Onward(current.Value(), names, safe != null);
  }

  method FollowClusters(io: IoHandle, table: seq<nat>, volume: seq<byte>, identifier: nat, current: DirectoryEntry,
                        turns0: nat)
    returns (followed: Option<Followed>)
    requires 0 < io.clusterBlockSize
    modifies current
    ensures followed == FollowChain(io, table, volume, StartCluster(io, identifier), identifier + RECORD_SIZE,
                                    StartEnd(io, identifier), old(current.Value()), [], false, turns0)
    ensures followed.Some? && followed.value.Complete? ==> current.Value() == followed.value.entry
  {
    var cluster: nat, offset, end := StartCluster(io, identifier), identifier + RECORD_SIZE, StartEnd(io, identifier);
    var names: seq<seq<byte>>, safe: DirectoryEntry?, turns: nat := [], null, turns0;
    ghost var goal := FollowChain(io, table, volume, cluster, offset, end, current.Value(), [], false, turns0);
    while true
      invariant goal ==
                  FollowChain(io, table, volume, cluster, offset, end, current.Value(), names, safe != null, turns)
      decreases turns
    {
      if turns == 0 {
        return None;
      }
      var records;
      records, safe := FollowRecords(volume, offset, end, current, names, safe);
      if !records.Onward? {
        return Some(records);
      }
      names := records.names;
      if |table| <= cluster {
        return Some(Broken);
      }
      cluster := table[cluster];
      if !ChainGoesOn(cluster) {
        return Some(Complete(current.Value(), names));
      }
      offset := io.ClusterOffset(cluster);
      end := offset + io.clusterBlockSize;
      turns := turns - 1;
    }
  }

  method ReadDirectoryEntryByIdentifier(io: IoHandle, table: seq<nat>, reversed: seq<nat>, volume: seq<byte>,
                                        identifier: nat, turns: nat)
    returns (lookup: Lookup)
    requires 0 < io.clusterBlockSize
    ensures lookup == EntryByIdentifier(io, table, reversed, volume, identifier, turns)
  {
    var current := new DirectoryEntry();
    var result := current.ReadFileIoHandle(volume, identifier, io.format);
    if result == Failed {
      return Rejected;
    }
    if result == Empty {
      return NotAvailable;
    }
    if !current.kind.ShortName? && !current.kind.ExFatFileEntry? {
      return Rejected;
    }
    if current.kind.ShortName? {
      lookup := NameShortEntry(io, reversed, volume, identifier, current, turns);
    } else {
      lookup := NameFileEntry(io, table, volume, identifier, current, turns);
    }
  }

  method NameShortEntry(io: IoHandle, reversed: seq<nat>, volume: seq<byte>, identifier: nat, current: DirectoryEntry,
                        turns: nat)
    returns (lookup: Lookup)
    requires 0 < io.clusterBlockSize && current.name.None?
    modifies current
    ensures lookup == match Search(io, reversed, volume, StartPosition(io, identifier), turns)
                      case None => Unfinished
                      case Some(collected) => Named(old(current.Value()), identifier, collected)
  {
    current.identifier := identifier;
    var collected := SearchClusters(io, reversed, volume, identifier, turns);
    SearchSized(io, reversed, volume, StartPosition(io, identifier), turns);
    if collected.None? {
      return Unfinished;
    }
    if collected.value.Stuck? {
      return Rejected;
    }
    if collected.value.last != 0 {
      var ok := current.GetNameFromVfatLongFileNameEntries(Chunks(collected.value.parts));
      if !ok {
        return Rejected;
      }
    }
    lookup := Found(current.Value());
  }

  method NameFileEntry(io: IoHandle, table: seq<nat>, volume: seq<byte>, identifier: nat, current: DirectoryEntry,
                       turns: nat)
    returns (lookup: Lookup)
    requires 0 < io.clusterBlockSize && current.name.None?
    modifies current
    ensures var found := FollowChain(io, table, volume, StartCluster(io, identifier), identifier + RECORD_SIZE,
                                     StartEnd(io, identifier), old(current.Value()), [], false, turns);
            if found.None? then lookup == Unfinished
            else !found.value.Onward? && lookup == NamedByChunks(found.value, identifier)
  {
    ghost var entry := current.Value();
    FollowChainStops(io, table, volume, StartCluster(io, identifier), identifier + RECORD_SIZE,
                     StartEnd(io, identifier), entry, [], false, turns);
    FollowChainSized(io, table, volume, StartCluster(io, identifier), identifier + RECORD_SIZE,
                     StartEnd(io, identifier), entry, [], false, turns);
    var followed := FollowClusters(io, table, volume, identifier, current, turns);
    if followed.None? {
      return Unfinished;
    }
    if followed.value.Broken? {
      return Rejected;
    }
    current.identifier := identifier;
    var ok := current.GetNameFromExFatFileNameEntries(followed.value.names);
    if !ok {
      return Rejected;
    }
    lookup := Found(current.Value());
  }

  lemma {:induction false} FollowSized(volume: seq<byte>, offset: int, end: int, entry: Entry, names: seq<seq<byte>>,
                                       stream: bool)
    requires ChunksOf(names, 30)
    ensures var followed := Follow(volume, offset, end, entry, names, stream);
            !followed.Broken? ==> ChunksOf(followed.names, 30) && followed.entry.name == entry.name
    decreases end - offset
  {
    if offset < end && !stream && ReadAt(ExFat, volume, offset).Some? {
      var next := ReadAt(ExFat, volume, offset).value;
      if next.kind.ExFatDataStream? {
        FollowSized(volume, offset + RECORD_SIZE, end, WithStream(entry, next), names, true);
      } else if next.kind.ExFatFileEntryName? {
        FollowSized(volume, offset + RECORD_SIZE, end, entry, names + [next.nameData], false);
      }
    }
  }

  lemma {:induction false} FollowChainSized(io: IoHandle, table: seq<nat>, volume: seq<byte>, cluster: nat, offset: int,
                                            end: int,
                                            entry: Entry, names: seq<seq<byte>>, stream: bool, turns: nat)
    requires ChunksOf(names, 30)
    ensures var found := FollowChain(io, table, volume, cluster, offset, end, entry, names, stream, turns);
            found.Some? && found.value.Complete? ==>
              ChunksOf(found.value.names, 30) && found.value.entry.name == entry.name
    decreases turns
  {
    if turns != 0 {
      var followed := Follow(volume, offset, end, entry, names, stream);
      FollowSized(volume, offset, end, entry, names, stream);
      if followed.Onward? && cluster < |table| && ChainGoesOn(table[cluster]) {
        var start := io.ClusterOffset(table[cluster]);
        FollowChainSized(io, table, volume, table[cluster], start, start + io.clusterBlockSize,
                         followed.entry, followed.names, followed.stream, turns - 1);
      }
    }
  }
}

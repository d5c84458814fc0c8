/** Where the lookup by identifier starts, for volumes of any size, and which records it takes. */
module LookupStart {
  import opened Arithmetic
  import opened Common
  import opened DirectoryEntry
  import opened DirectoryScan
  import opened IdentifierLookup
  import opened LookupAgreement
  import opened NamePieces
  import opened RecordSteps

  /** A place in the cluster-sized part q of the volume: the search starts with cluster q + 2 at the record in front
      of the place, and looks up to the end of the part.  From 2^32 - 2 parts on the cluster number wraps around,
      and from 2^32 on the end is too low. */
  lemma SearchStartsAt(io: IoHandle, identifier: nat, q: nat, r: nat)
    requires 0 < io.clusterBlockSize && r < io.clusterBlockSize && identifier == q * io.clusterBlockSize + r
    ensures StartPosition(io, identifier) ==
            Position((q + 2) % 0x1_0000_0000, identifier - 32,
                     q % 0x1_0000_0000 * io.clusterBlockSize + io.clusterBlockSize, 0, [])
    ensures q <= 0xffff_fffd ==>
              StartPosition(io, identifier) ==
              Position(q + 2, identifier - 32, q * io.clusterBlockSize + io.clusterBlockSize, 0, [])
  {
    DivModUnique(io.clusterBlockSize, q, r);
    WrapTwice(q);
  }

  lemma WrapTwice(q: nat)
    ensures (q % 0x1_0000_0000 + 2) % 0x1_0000_0000 == (q + 2) % 0x1_0000_0000
    ensures q <= 0xffff_fffd ==> (q + 2) % 0x1_0000_0000 == q + 2 && q % 0x1_0000_0000 == q
  {
  }

  /** On volumes of any size, behind an unallocated record the entry of cluster q + 2 in the reversed table decides:
      the lookup fails without one, and ends if it leads to no further cluster. */
  lemma DeletedInPart(io: IoHandle, table: seq<nat>, reversed: seq<nat>, volume: seq<byte>, identifier: nat,
                      q: nat, r: nat, entry: Entry, record: seq<byte>, turns: nat)
    requires 0 < io.clusterBlockSize && r < io.clusterBlockSize && identifier == q * io.clusterBlockSize + r
    requires 1 <= q <= 0xffff_fffd && 1 <= turns && io.format != ExFat
    requires ReadAt(io.format, volume, identifier) == Some(entry) && entry.kind.ShortName?
    requires BytesAt(volume, identifier - 32, record) && record[0] == 0xe5
    ensures |reversed| <= q + 2 ==> EntryByIdentifier(io, table, reversed, volume, identifier, turns) == Rejected
    ensures q + 2 < |reversed| && reversed[q + 2] <= 2 ==>
              EntryByIdentifier(io, table, reversed, volume, identifier, turns)
              == Found(entry.(identifier := identifier))
  {
    SearchStartsAt(io, identifier, q, r);
    FatRecordAt(io.format, volume, identifier - 32, record);
    FatRecordReads(io.format, record);
    DeletedBefore(io, table, reversed, volume, identifier, entry, EMPTY.(kind := Unallocated), turns);
  }

  lemma DeletedBefore(io: IoHandle, table: seq<nat>, reversed: seq<nat>, volume: seq<byte>, identifier: nat,
                      entry: Entry, record: Entry, turns: nat)
    requires LooksInFront(io, identifier) && 1 <= turns
    requires ReadAt(io.format, volume, identifier) == Some(entry) && entry.kind.ShortName?
    requires ReadAt(io.format, volume, identifier - 32) == Some(record) && record.kind.Unallocated?
    ensures var cluster := StartCluster(io, identifier);
            var lookup := EntryByIdentifier(io, table, reversed, volume, identifier, turns);
            && (|reversed| <= cluster ==> lookup == Rejected)
            && (cluster < |reversed| && reversed[cluster] <= 2 ==> lookup == Found(entry.(identifier := identifier)))
  {
    var none: seq<LongPart> := [];
    assert none + none == none;
    DeletedInFront(io, table, reversed, volume, identifier, entry, none, none, identifier - 32, record, turns);
  }

  // ----- the record at the place

  /** FAT: a place outside the volume, a deleted record or a piece of a long name is rejected; zeros are told apart. */
  lemma FatPlaces(io: IoHandle, table: seq<nat>, reversed: seq<nat>, volume: seq<byte>, identifier: nat, turns: nat)
    requires 0 < io.clusterBlockSize && io.format != ExFat
    ensures var lookup := EntryByIdentifier(io, table, reversed, volume, identifier, turns);
            if |volume| < identifier + 32 then lookup == Rejected
            else
              var record := volume[identifier..identifier + 32];
              && (AllZero(record) ==> lookup == NotAvailable)
              && (record[0] == 0xe5 || IsPieceRecord(record) ==> lookup == Rejected)
              && (IsShortRecord(record) ==> lookup != NotAvailable)
  {
    if identifier + 32 <= |volume| {
      var record := volume[identifier..identifier + 32];
      FatRecordAt(io.format, volume, identifier, record);
      FatRecordReads(io.format, record);
    }
  }

  /** exFAT: only file records are looked up. */
  lemma ExFatPlaces(io: IoHandle, table: seq<nat>, reversed: seq<nat>, volume: seq<byte>, identifier: nat, turns: nat)
    requires 0 < io.clusterBlockSize && io.format == ExFat
    ensures var lookup := EntryByIdentifier(io, table, reversed, volume, identifier, turns);
            if |volume| < identifier + 32 then lookup == Rejected
            else
              var first := volume[identifier];
              && (first == 0 ==> lookup == NotAvailable)
              && (first != 0 && first != 0x85 ==> lookup == Rejected)
              && (first == 0x85 ==> lookup != NotAvailable)
  {
    if identifier + 32 <= |volume| {
      var record: Record := volume[identifier..identifier + 32];
      assert record[0] == volume[identifier];
      ExFatRecordReads(record);
      if record[0] == 0x85 {
        FileRecordReads(record);
      } else if record[0] == 0xc0 {
        StreamRecordReads(record);
      }
    }
  }

  /** The exFAT search goes on in the clusters 2 to 0xffffffef. */
  lemma SearchGoesOnIff(cluster: nat)
    ensures ChainGoesOn(cluster) <==> 2 <= cluster <= 0xffff_ffef
  {
  }
}

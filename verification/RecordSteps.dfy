/**
  What the directory readers do with a record, in terms of its bytes alone: for every kind of record, for each
  of the two readers and in any state.
 */
module RecordSteps {
  import opened Common
  import opened DirectoryEntry
  import opened DirectoryScan

  /** The 32 bytes at a place of the volume. */
  ghost predicate BytesAt(volume: seq<byte>, offset: int, record: seq<byte>) {
    |record| == 32 && 0 <= offset && offset + 32 <= |volume| && volume[offset..offset + 32] == record
  }

  function Number16(record: seq<byte>, at: nat): nat
    requires at + 2 <= |record|
  {
    (record[at] as nat) + 0x100 * (record[at + 1] as nat)
  }

  function Number32(record: seq<byte>, at: nat): nat
    requires at + 4 <= |record|
  {
    Number16(record, at) + 0x1_0000 * Number16(record, at + 2)
  }

  function Number64(record: seq<byte>, at: nat): nat
    requires at + 8 <= |record|
  {
    Number32(record, at) + 0x1_0000_0000 * Number32(record, at + 4)
  }

  lemma Little16(record: seq<byte>, at: nat)
    requires at + 2 <= |record|
    ensures LittleEndian(record[at..at + 2]) == Number16(record, at)
  {
    var bytes := record[at..at + 2];
    assert bytes[1..][1..] == [];
    assert LittleEndian(bytes[1..]) == bytes[1] as nat;
  }

  lemma LittleAfterTwo(a: seq<byte>, b: seq<byte>)
    requires |a| == 2
    ensures LittleEndian(a + b) == LittleEndian(a) + 0x1_0000 * LittleEndian(b)
  {
    LittleAfterOne(a, b);
    LittleAfterOne(a[1..], b);
    assert a[1..][1..] == [] && [] + b == b;
    assert LittleEndian(a[1..]) == a[1] as nat;
  }

  lemma LittleAfterFour(a: seq<byte>, b: seq<byte>)
    requires |a| == 4
    ensures LittleEndian(a + b) == LittleEndian(a) + 0x1_0000_0000 * LittleEndian(b)
  {
    var low, high := a[..2], a[2..];
    assert a == low + high;
    Reassociate(low, high, b);
    LittleAfterTwo(low, high);
    LittleAfterTwo(low, high + b);
    LittleAfterTwo(high, b);
  }

  lemma LittleAfterOne(a: seq<byte>, b: seq<byte>)
    requires a != []
    ensures LittleEndian(a + b) == (a[0] as nat) + 0x100 * LittleEndian(a[1..] + b)
  {
    assert (a + b)[1..] == a[1..] + b;
  }

  lemma Little32(record: seq<byte>, at: nat)
    requires at + 4 <= |record|
    ensures LittleEndian(record[at..at + 4]) == Number32(record, at)
  {
    Little16(record, at);
    Little16(record, at + 2);
    assert record[at..at + 4] == record[at..at + 2] + record[at + 2..at + 4];
    LittleAfterTwo(record[at..at + 2], record[at + 2..at + 4]);
  }

  lemma Little64(record: seq<byte>, at: nat)
    requires at + 8 <= |record|
    ensures LittleEndian(record[at..at + 8]) == Number64(record, at)
  {
    Little32(record, at);
    Little32(record, at + 4);
    assert record[at..at + 8] == record[at..at + 4] + record[at + 4..at + 8];
    LittleAfterFour(record[at..at + 4], record[at + 4..at + 8]);
  }

  // ----- FAT: the four kinds of record

  predicate AllZero(record: seq<byte>) {
    forall i :: 0 <= i < |record| ==> record[i] == 0
  }

  /** The records that hold a piece of a long name. */
  predicate IsPieceRecord(record: seq<byte>)
    requires |record| == 32
  {
    && (1 <= record[0] <= 19 || 65 <= record[0] <= 84)
    && record[11] == 15 && record[12] == 0 && record[26] == 0 && record[27] == 0
  }

  /** The records of files, directories and volume labels. */
  predicate IsShortRecord(record: seq<byte>)
    requires |record| == 32
  {
    !AllZero(record) && !IsPieceRecord(record) && record[0] != 0xe5
  }

  function PieceOf(record: seq<byte>): seq<byte>
    requires |record| == 32
  {
    record[1..11] + record[14..26] + record[28..32]
  }

  /** The fields of a short record. */
  function ShortEntry(record: seq<byte>): Entry
    requires |record| == 32
  {
    var times := NO_TIMES.(
      creationTimeFraction := record[13], creationTime := Number16(record, 14), creationDate := Number16(record, 16),
      accessDate := Number16(record, 18), modificationTime := Number16(record, 22),
      modificationDate := Number16(record, 24));
    EMPTY.(kind := ShortName, nameData := record[0..11], attributes := record[11], times := times,
           startCluster := Number16(record, 26), size := Number32(record, 28))
  }

  lemma ShortFields(record: Record)
    ensures LittleEndian(record[26..28]) == Number16(record, 26) && LittleEndian(record[28..32]) == Number32(record, 28)
    ensures ShortTimes(record) == ShortEntry(record).times
  {
    Little16(record, 14);
    Little16(record, 16);
    Little16(record, 18);
    Little16(record, 22);
    Little16(record, 24);
    Little16(record, 26);
    Little32(record, 28);
  }

  lemma ZeroRecord(record: Record)
    ensures record == seq(32, _ => 0) <==> AllZero(record)
  {
  }

  /** Every record of a FAT directory: it ends the directory, is free, holds a piece of a name, or is a short one. */
  lemma FatRecordReads(format: Format, record: Record)
    requires format != ExFat
    ensures AllZero(record) ==> EntryOf(format, record) == Some(EMPTY)
    ensures record[0] == 0xe5 ==> EntryOf(format, record) == Some(EMPTY.(kind := Unallocated))
    ensures IsPieceRecord(record) ==>
              EntryOf(format, record) ==
              Some(EMPTY.(kind := VfatLongName, sequence := record[0], nameData := PieceOf(record)))
    ensures IsShortRecord(record) ==> EntryOf(format, record) == Some(ShortEntry(record))
  {
    ZeroRecord(record);
    ShortFields(record);
  }

  // ----- FAT: the steps

  lemma FatRecordAt(format: Format, volume: seq<byte>, offset: int, record: seq<byte>)
    requires format != ExFat && BytesAt(volume, offset, record)
    ensures ReadAt(format, volume, offset) == EntryOf(format, record)
  {
  }

  /** A record of zeros ends the directory. */
  lemma ZerosEnd(reader: Reader, format: Format, volume: seq<byte>, offset: int, record: seq<byte>, s: Scan)
    requires format != ExFat && BytesAt(volume, offset, record) && AllZero(record)
    ensures StepAt(reader, format, volume, offset, s) == Terminated(s)
  {
    FatRecordAt(format, volume, offset, record);
    FatRecordReads(format, record);
  }

  /** A record of a deleted file is passed over, whatever its other 31 bytes are. */
  lemma DeletedIsPassedOver(reader: Reader, format: Format, volume: seq<byte>, offset: int, record: seq<byte>, s: Scan)
    requires format != ExFat && BytesAt(volume, offset, record) && record[0] == 0xe5
    ensures StepAt(reader, format, volume, offset, s) == Running(s)
  {
    FatRecordAt(format, volume, offset, record);
    FatRecordReads(format, record);
  }

  /** Deleted files do not count, wherever they are in a directory. */
  lemma DeletedDoNotCount(reader: Reader, format: Format, volume: seq<byte>, before: seq<int>, offset: int,
                          record: seq<byte>, behind: seq<int>, s: Scan)
    requires format != ExFat && BytesAt(volume, offset, record) && record[0] == 0xe5
    ensures ScanRecords(reader, format, volume, before + ([offset] + behind), s) ==
            ScanRecords(reader, format, volume, before + behind, s)
  {
    ScanConcat(reader, format, volume, before, [offset] + behind, s);
    ScanConcat(reader, format, volume, before, behind, s);
    var middle := ScanRecords(reader, format, volume, before, s);
    if middle.Running? {
      DeletedIsPassedOver(reader, format, volume, offset, record, middle.scan);
      assert ([offset] + behind)[1..] == behind;
    }
  }

  predicate SpacesFrom(bytes: seq<byte>, start: nat, end: nat)
    requires start <= end <= |bytes|
  {
    forall i :: start <= i < end ==> bytes[i] == 0x20
  }

  /** A full stop, or two, and spaces. */
  predicate IsSelfName(bytes: seq<byte>)
    requires 11 <= |bytes|
  {
    bytes[0] == 0x2e && SpacesFrom(bytes, 1, 11)
  }

  predicate IsParentName(bytes: seq<byte>)
    requires 11 <= |bytes|
  {
    bytes[0] == 0x2e && bytes[1] == 0x2e && SpacesFrom(bytes, 2, 11)
  }

  lemma DotNames(bytes: seq<byte>)
    requires 11 <= |bytes|
    ensures IsSelf(bytes) <==> IsSelfName(bytes)
    ensures IsParent(bytes) <==> IsParentName(bytes)
  {
    forall i | 1 <= i < 11
      ensures bytes[i] == bytes[1..11][i - 1]
    {
    }
    forall i | 2 <= i < 11
      ensures bytes[i] == bytes[2..11][i - 2]
    {
    }
  }

  /** Both readers collect pieces, but the cluster reader not those that look like dot entries. */
  predicate IsTakenAsPiece(reader: Reader, record: seq<byte>)
    requires |record| == 32
  {
    IsPieceRecord(record) && (reader == ByCluster ==> !IsSelfName(PieceOf(record)) && !IsParentName(PieceOf(record)))
  }

  /** A first piece starts a new run, whatever run is pending. */
  lemma FirstPiece(reader: Reader, format: Format, volume: seq<byte>, offset: int, record: seq<byte>, s: Scan)
    requires format != ExFat && BytesAt(volume, offset, record)
    requires IsTakenAsPiece(reader, record) && 65 <= record[0]
    ensures StepAt(reader, format, volume, offset, s) ==
            Running(s.(progress := s.progress.(pending := Some([LongPart(record[0], PieceOf(record))]),
                                               last := record[0] - 64)))
  {
    FatRecordAt(format, volume, offset, record);
    FatRecordReads(format, record);
    DotNames(PieceOf(record));
  }

  /** Another piece continues the run below the last number, or fails the reader. */
  lemma NextPiece(reader: Reader, format: Format, volume: seq<byte>, offset: int, record: seq<byte>, s: Scan)
    requires format != ExFat && BytesAt(volume, offset, record)
    requires IsTakenAsPiece(reader, record) && record[0] <= 19
    ensures StepAt(reader, format, volume, offset, s) ==
            if s.progress.pending.Some? && s.progress.last == record[0] + 1 then
              Running(s.(progress := s.progress.(
                           pending := Some(s.progress.pending.value + [LongPart(record[0], PieceOf(record))]),
                           last := record[0])))
            else Invalid
  {
    FatRecordAt(format, volume, offset, record);
    FatRecordReads(format, record);
    DotNames(PieceOf(record));
  }

  /** The attribute of a volume label is the fourth bit. */
  predicate HasLabelBit(attributes: byte) {
    8 <= attributes % 16
  }

  /** A short record that the reader lists as a file or directory. */
  predicate IsListed(reader: Reader, record: seq<byte>)
    requires |record| == 32
  {
    && IsShortRecord(record)
    && match reader
       case ByCluster => !HasLabelBit(record[11]) && !IsSelfName(record) && !IsParentName(record)
       case ByRange => record[11] != 8
  }

  /** A short record is listed at its place, with the fields of the record and the name of the pending run. */
  lemma FileIsListed(reader: Reader, format: Format, volume: seq<byte>, offset: int, record: seq<byte>, s: Scan)
    requires format != ExFat && BytesAt(volume, offset, record) && IsListed(reader, record) && PendingOk(s.progress)
    ensures var name := if s.progress.pending.None? then None else VfatName(Chunks(s.progress.pending.value));
            && (name.None? <==> s.progress.pending.None?)
            && StepAt(reader, format, volume, offset, s) ==
               Running(Scan(s.listing.(files := s.listing.files +
                                                [ShortEntry(record).(identifier := offset, name := name)]),
                            s.progress.(pending := None)))
  {
    FatRecordAt(format, volume, offset, record);
    FatRecordReads(format, record);
    SameDots(record);
    LabelBit(record[11]);
    PendingHasName(s.progress);
  }

  lemma LabelBit(attributes: byte)
    ensures HasLabelFlag(attributes) <==> HasLabelBit(attributes)
    ensures attributes == 8 ==> HasLabelBit(attributes)
  {
  }

  lemma PendingHasName(progress: Progress)
    requires PendingOk(progress)
    ensures progress.pending.Some? ==> VfatName(Chunks(progress.pending.value)).Some?
  {
  }

  lemma SameDots(record: Record)
    ensures IsSelf(record[0..11]) <==> IsSelfName(record)
    ensures IsParent(record[0..11]) <==> IsParentName(record)
  {
    DotNames(record[0..11]);
  }

  /** The cluster reader keeps the first volume label, by its attribute, and fails at a second one. */
  lemma ClusterLabel(format: Format, volume: seq<byte>, offset: int, record: seq<byte>, s: Scan)
    requires format != ExFat && BytesAt(volume, offset, record)
    requires IsShortRecord(record) && HasLabelBit(record[11]) && !IsSelfName(record) && !IsParentName(record)
    ensures StepAt(ByCluster, format, volume, offset, s) ==
            if s.listing.volumeLabel.None? then
              Running(s.(listing := s.listing.(volumeLabel := Some(ShortEntry(record)))))
            else Invalid
  {
    FatRecordAt(format, volume, offset, record);
    FatRecordReads(format, record);
    SameDots(record);
    LabelBit(record[11]);
  }

  /** The range reader takes records with no other attribute for a label. */
  lemma RangeLabel(format: Format, volume: seq<byte>, offset: int, record: seq<byte>, s: Scan)
    requires format != ExFat && BytesAt(volume, offset, record) && IsShortRecord(record) && record[11] == 8
    ensures StepAt(ByRange, format, volume, offset, s) ==
            if s.listing.volumeLabel.None? then
              Running(s.(listing := s.listing.(volumeLabel := Some(ShortEntry(record).(identifier := offset)))))
            else Invalid
  {
    FatRecordAt(format, volume, offset, record);
    FatRecordReads(format, record);
  }

  /** The cluster reader keeps the entries for the directory and its parent apart, one of each. */
  lemma ClusterDots(format: Format, volume: seq<byte>, offset: int, record: seq<byte>, s: Scan)
    requires format != ExFat && BytesAt(volume, offset, record)
    requires IsShortRecord(record) && (IsSelfName(record) || IsParentName(record))
    ensures StepAt(ByCluster, format, volume, offset, s) ==
            if IsSelfName(record) then
              if s.listing.self.None? then Running(s.(listing := s.listing.(self := Some(ShortEntry(record)))))
              else Invalid
            else
              if s.listing.parent.None? then Running(s.(listing := s.listing.(parent := Some(ShortEntry(record)))))
              else Invalid
  {
    FatRecordAt(format, volume, offset, record);
    FatRecordReads(format, record);
    SameDots(record);
  }

  // ----- exFAT: the kinds of record

  function StreamEntry(record: seq<byte>): Entry
    requires |record| == 32
  {
    EMPTY.(kind := ExFatDataStream, nameSize := (record[3] as nat) * 2, validSize := Number64(record, 8),
           startCluster := Number32(record, 20), size := Number64(record, 24))
  }

  function FileEntry(record: seq<byte>): Entry
    requires |record| == 32
  {
    EMPTY.(kind := ExFatFileEntry, attributes := Number16(record, 4), times := Times(
             Number16(record, 10), Number16(record, 8), record[20], record[22],
             Number16(record, 14), Number16(record, 12), record[21], record[23],
             Number16(record, 18), Number16(record, 16), record[24]))
  }

  lemma FileEntryTimes(record: Record)
    ensures FileTimes(record) == FileEntry(record).times && LittleEndian(record[4..6]) == Number16(record, 4)
  {
    Little16(record, 4);
    Little16(record, 8);
    Little16(record, 10);
    Little16(record, 12);
    Little16(record, 14);
    Little16(record, 16);
    Little16(record, 18);
  }

  function LabelEntry(record: seq<byte>): Entry
    requires |record| == 32
  {
    EMPTY.(kind := ExFatVolumeLabel, nameData := record[2..24], nameSize := (record[1] as nat) * 2)
  }

  /** The types of record that are neither of a group nor a label. */
  predicate IsOtherType(first: byte) {
    first != 0 && first != 0x83 && first != 0x85 && first != 0xc0 && first != 0xc1
  }

  /** Every record of an exFAT directory, by its first byte. */
  lemma ExFatRecordReads(record: Record)
    ensures record[0] == 0 ==> EntryOf(ExFat, record) == Some(EMPTY)
    ensures record[0] == 0x83 ==> EntryOf(ExFat, record) == if 11 < record[1] then None else Some(LabelEntry(record))
    ensures record[0] == 0xc1 ==>
              EntryOf(ExFat, record) == Some(EMPTY.(kind := ExFatFileEntryName, nameData := record[2..32]))
    ensures IsOtherType(record[0]) ==> EntryOf(ExFat, record) == Some(OtherEntry(record[0]))
  {
  }

  lemma FileRecordReads(record: Record)
    requires record[0] == 0x85
    ensures EntryOf(ExFat, record) == Some(FileEntry(record))
  {
    FileEntryTimes(record);
  }

  lemma StreamRecordReads(record: Record)
    requires record[0] == 0xc0
    ensures EntryOf(ExFat, record) == Some(StreamEntry(record))
  {
    Little64(record, 8);
    Little32(record, 20);
    Little64(record, 24);
  }

  function OtherEntry(first: byte): Entry {
    EMPTY.(kind := if first == 0x81 then ExFatAllocationBitmap
                   else if first == 0x82 then ExFatUpcaseTable else ExFatUnknown)
  }

  // ----- exFAT: the steps

  lemma ExFatRecordAt(volume: seq<byte>, offset: int, record: seq<byte>)
    requires BytesAt(volume, offset, record)
    ensures ReadAt(ExFat, volume, offset) == EntryOf(ExFat, record)
  {
  }

  /** The type 0 ends the directory, whatever the other bytes are. */
  lemma TypeZeroEnds(reader: Reader, volume: seq<byte>, offset: int, record: seq<byte>, s: Scan)
    requires BytesAt(volume, offset, record) && record[0] == 0
    ensures StepAt(reader, ExFat, volume, offset, s) == Terminated(s)
  {
    ExFatRecordAt(volume, offset, record);
    ExFatRecordReads(record);
  }

  /** Allocation bitmaps, upcase tables and records of unknown types are passed over. */
  lemma OtherTypesPass(reader: Reader, volume: seq<byte>, offset: int, record: seq<byte>, s: Scan)
    requires BytesAt(volume, offset, record) && IsOtherType(record[0])
    ensures StepAt(reader, ExFat, volume, offset, s) == Running(s)
  {
    ExFatRecordAt(volume, offset, record);
    ExFatRecordReads(record);
  }

  /** A file record starts a group: a file at its place, without a data stream. */
  lemma FileRecordStep(volume: seq<byte>, offset: int, record: seq<byte>, s: Scan)
    requires BytesAt(volume, offset, record) && record[0] == 0x85
    ensures StepAt(ByCluster, ExFat, volume, offset, s) ==
            Running(Scan(s.listing.(files := s.listing.files +
                                             [FileEntry(record).(identifier := offset, nameEntries := Some([]))]),
                         s.progress.(stream := false)))
  {
    ExFatRecordAt(volume, offset, record);
    FileRecordReads(record);
  }

  /** A data stream gives its start cluster and sizes to the last file, which must not have one. */
  lemma StreamRecordStep(volume: seq<byte>, offset: int, record: seq<byte>, s: Scan)
    requires BytesAt(volume, offset, record) && record[0] == 0xc0
    ensures var files := s.listing.files;
            StepAt(ByCluster, ExFat, volume, offset, s) ==
            if s.progress.stream || files == [] then Invalid
            else
              var file := files[|files| - 1].(startCluster := Number32(record, 20), size := Number64(record, 24),
                                              validSize := Number64(record, 8));
              Running(Scan(s.listing.(files := files[..|files| - 1] + [file]), s.progress.(stream := true)))
  {
    ExFatRecordAt(volume, offset, record);
    StreamRecordReads(record);
    LastReplaced(s.listing.files);
  }

  lemma LastReplaced(files: seq<Entry>)
    ensures files != [] ==> forall file :: ReplaceLast(files, file) == files[..|files| - 1] + [file]
  {
  }

  /** A name record gives its fifteen units to the last file. */
  lemma NameRecordStep(volume: seq<byte>, offset: int, record: seq<byte>, s: Scan)
    requires BytesAt(volume, offset, record) && record[0] == 0xc1
    requires !IsSelfName(record[2..32]) && !IsParentName(record[2..32])
    ensures var files := s.listing.files;
            StepAt(ByCluster, ExFat, volume, offset, s) ==
            if files == [] then Invalid
            else
              var file := files[|files| - 1];
              var names := if file.nameEntries.None? then [] else file.nameEntries.value;
              Running(s.(listing := s.listing.(
                           files := files[..|files| - 1] + [file.(nameEntries := Some(names + [record[2..32]]))])))
  {
    ExFatRecordAt(volume, offset, record);
    ExFatRecordReads(record);
    DotNames(record[2..32]);
    LastReplaced(s.listing.files);
  }

  /** A volume label has at most eleven units, which are its name; there is one at most. */
  lemma LabelRecordStep(volume: seq<byte>, offset: int, record: seq<byte>, s: Scan)
    requires BytesAt(volume, offset, record) && record[0] == 0x83
    requires !IsSelfName(record[2..24]) && !IsParentName(record[2..24])
    ensures StepAt(ByCluster, ExFat, volume, offset, s) ==
            if 11 < record[1] || s.listing.volumeLabel.Some? then Invalid
            else Running(s.(listing := s.listing.(volumeLabel := Some(LabelEntry(record)))))
    ensures record[1] <= 11 ==>
              && WellFormed(LabelEntry(record))
              && NameOf(LabelEntry(record)) == Some(Name(record[2..2 + 2 * record[1] as int] + [0, 0], true))
  {
    ExFatRecordAt(volume, offset, record);
    ExFatRecordReads(record);
    DotNames(record[2..24]);
    if record[1] <= 11 {
      assert record[2..24][..2 * record[1] as int] == record[2..2 + 2 * record[1] as int];
    }
  }
}

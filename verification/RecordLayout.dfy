/**
  Records as they are laid out on disk ("FAT Data Structure" in the Microsoft FAT32 File System
  Specification; sections 7.4, 7.6 and 7.7 of the Microsoft exFAT specification), and what the reader
  makes of them.
 */
module RecordLayout {
  import opened Common
  import opened DirectoryEntry

  function LittleBytes(value: nat, width: nat): (bytes: seq<byte>)
    ensures |bytes| == width
  {
    if width == 0 then [] else [value % 0x100] + LittleBytes(value / 0x100, width - 1)
  }

  predicate FitsBytes(value: nat, width: nat) {
    if width == 0 then value == 0 else FitsBytes(value / 0x100, width - 1)
  }

  lemma {:induction false} LittleRoundTrip(value: nat, width: nat)
    requires FitsBytes(value, width)
    ensures LittleEndian(LittleBytes(value, width)) == value
  {
    if width != 0 {
      LittleRoundTrip(value / 0x100, width - 1);
      assert LittleBytes(value, width)[1..] == LittleBytes(value / 0x100, width - 1);
    }
  }

  // ----- short records

  function Spaced(text: seq<byte>, width: nat): (padded: seq<byte>)
    requires |text| <= width
    ensures |padded| == width
  {
    text + seq(width - |text|, _ => 0x20)
  }

  predicate NoSpace(text: seq<byte>) {
    forall i :: 0 <= i < |text| ==> text[i] != 0x20
  }

  lemma {:induction false} WordOfSpaced(text: seq<byte>, width: nat)
    requires |text| <= width && NoSpace(text)
    ensures Word(Spaced(text, width)) == text
    decreases |text|
  {
    var padded := Spaced(text, width);
    if text != [] {
      assert padded[0] == text[0] && padded[1..] == Spaced(text[1..], width - 1);
      WordOfSpaced(text[1..], width - 1);
    }
  }

  /** A base of up to eight characters and an extension of up to three read back with a dot in between,
      except that a volume label has no dot. */
  lemma ShortNameRoundTrip(base: seq<byte>, extension: seq<byte>, isLabel: bool)
    requires |base| <= 8 && |extension| <= 3 && NoSpace(base) && NoSpace(extension)
    ensures ShortNameOf(Spaced(base, 8) + Spaced(extension, 3), isLabel) ==
            base + (if extension == [] || isLabel then [] else [0x2e]) + extension
  {
    var nameData := Spaced(base, 8) + Spaced(extension, 3);
    assert nameData[..8] == Spaced(base, 8) && nameData[8..11] == Spaced(extension, 3);
    WordOfSpaced(base, 8);
    WordOfSpaced(extension, 3);
  }

  /** The name of an entry that has no pieces: a dot is put in unless bit 3 of the attributes is set. */
  lemma ShortEntryIsNamed(entry: Entry, base: seq<byte>, extension: seq<byte>)
    requires |base| <= 8 && |extension| <= 3 && NoSpace(base) && NoSpace(extension)
    requires entry.kind.ShortName? && entry.name.None? && entry.nameEntries.None?
    requires entry.nameData == Spaced(base, 8) + Spaced(extension, 3)
    ensures NameOf(entry) ==
            Some(Name(base + (if extension == [] || entry.attributes / 8 % 2 == 1 then [] else [0x2e]) + extension
                      + [0], false))
  {
    ShortNameRoundTrip(base, extension, HasLabelFlag(entry.attributes));
    assert HasLabelFlag(entry.attributes) <==> entry.attributes / 8 % 2 == 1;
  }

  /** A base or an extension ends at its first space, whatever is behind it. */
  lemma {:induction false} WordStops(text: seq<byte>, rest: seq<byte>)
    requires NoSpace(text)
    ensures Word(text + [0x20] + rest) == text
    decreases |text|
  {
    var all := text + [0x20] + rest;
    if text != [] {
      assert all[0] == text[0] && all[1..] == text[1..] + [0x20] + rest;
      WordStops(text[1..], rest);
    }
  }

  /** The two parts of a short name are read independently, each up to its first space. */
  lemma ShortNameStops(base: seq<byte>, behind: seq<byte>, extension: seq<byte>, end: seq<byte>, isLabel: bool)
    requires NoSpace(base) && |base| + 1 + |behind| == 8 && NoSpace(extension) && |extension| + 1 + |end| == 3
    ensures ShortNameOf((base + [0x20] + behind) + (extension + [0x20] + end), isLabel) ==
            base + (if extension == [] || isLabel then [] else [0x2e]) + extension
  {
    var nameData := (base + [0x20] + behind) + (extension + [0x20] + end);
    assert nameData[..8] == base + [0x20] + behind && nameData[8..11] == extension + [0x20] + end;
    WordStops(base, behind);
    WordStops(extension, end);
  }

  predicate ShortTimesFit(times: Times) {
    && FitsBytes(times.creationTime, 2) && FitsBytes(times.creationDate, 2) && FitsBytes(times.accessDate, 2)
    && FitsBytes(times.modificationTime, 2) && FitsBytes(times.modificationDate, 2)
    && times == times.(accessTime := 0, modificationTimeFraction := 0,
                       creationTimeUtcOffset := 0, modificationTimeUtcOffset := 0, accessTimeUtcOffset := 0)
  }

  /** Name, attributes, a reserved byte, times, and the start cluster in two halves with the time of
      modification in between, and the size. */
  function ShortRecord(nameData: seq<byte>, attributes: byte, reserved: byte, times: Times, cluster: nat,
                       size: nat): Record
    requires |nameData| == 11
  {
    nameData + [attributes, reserved, times.creationTimeFraction]
    + LittleBytes(times.creationTime, 2) + LittleBytes(times.creationDate, 2) + LittleBytes(times.accessDate, 2)
    + LittleBytes(cluster / 0x10000, 2)
    + LittleBytes(times.modificationTime, 2) + LittleBytes(times.modificationDate, 2)
    + LittleBytes(cluster % 0x10000, 2) + LittleBytes(size, 4)
  }

  lemma ShortTimesRead(nameData: seq<byte>, attributes: byte, reserved: byte, times: Times, cluster: nat, size: nat)
    requires |nameData| == 11 && ShortTimesFit(times)
    ensures ShortTimes(ShortRecord(nameData, attributes, reserved, times, cluster, size)) == times
  {
    var record := ShortRecord(nameData, attributes, reserved, times, cluster, size);
    assert record[14..16] == LittleBytes(times.creationTime, 2);
    assert record[16..18] == LittleBytes(times.creationDate, 2);
    assert record[18..20] == LittleBytes(times.accessDate, 2);
    assert record[22..24] == LittleBytes(times.modificationTime, 2);
    assert record[24..26] == LittleBytes(times.modificationDate, 2);
    LittleRoundTrip(times.creationTime, 2);
    LittleRoundTrip(times.creationDate, 2);
    LittleRoundTrip(times.accessDate, 2);
    LittleRoundTrip(times.modificationTime, 2);
    LittleRoundTrip(times.modificationDate, 2);
  }

  /** A short record reads back, but for the upper half of its start cluster. */
  lemma ShortRecordReads(format: Format, nameData: seq<byte>, attributes: byte, reserved: byte, times: Times,
                         cluster: nat, size: nat)
    requires format != ExFat && |nameData| == 11 && ShortTimesFit(times) && FitsBytes(cluster, 4) && FitsBytes(size, 4)
    requires nameData[0] != 0 && nameData[0] != 0xe5 && (IsSequence(nameData[0]) ==> attributes != 0x0f)
    ensures EntryOf(format, ShortRecord(nameData, attributes, reserved, times, cluster, size)) ==
            Some(EMPTY.(kind := ShortName, nameData := nameData, attributes := attributes, times := times,
                        startCluster := cluster % 0x10000, size := size))
  {
    var record := ShortRecord(nameData, attributes, reserved, times, cluster, size);
    assert record[0] == nameData[0] && record[11] == attributes;
    assert record[..11] == nameData;
    assert record[26..28] == LittleBytes(cluster % 0x10000, 2);
    assert record[28..32] == LittleBytes(size, 4);
    assert FitsBytes(cluster % 0x10000, 2);
    LittleRoundTrip(cluster % 0x10000, 2);
    LittleRoundTrip(size, 4);
    ShortTimesRead(nameData, attributes, reserved, times, cluster, size);
  }

  /** A FAT32 start cluster is read back exactly when it has no upper half. */
  lemma StartClusterReadsIff(nameData: seq<byte>, attributes: byte, reserved: byte, times: Times, cluster: nat,
                             size: nat)
    requires |nameData| == 11 && ShortTimesFit(times) && FitsBytes(cluster, 4) && FitsBytes(size, 4)
    requires nameData[0] != 0 && nameData[0] != 0xe5 && (IsSequence(nameData[0]) ==> attributes != 0x0f)
    ensures var entry := EntryOf(Fat32, ShortRecord(nameData, attributes, reserved, times, cluster, size));
            entry.Some? && (entry.value.startCluster == cluster <==> cluster < 0x10000)
  {
    ShortRecordReads(Fat32, nameData, attributes, reserved, times, cluster, size);
    LowerHalf(cluster);
  }

  lemma LowerHalf(cluster: nat)
    ensures cluster % 0x10000 == cluster <==> cluster < 0x10000
  {
  }

  // ----- exFAT records

  /** The stream extension of a file: the second field has the length of the name in units. */
  function StreamRecord(flags: seq<byte>, nameLength: byte, hash: seq<byte>, validSize: nat, cluster: nat,
                        size: nat): Record
    requires |flags| == 2 && |hash| == 4
  {
    [0xc0] + flags + [nameLength] + hash + LittleBytes(validSize, 8) + [0, 0, 0, 0]
    + LittleBytes(cluster, 4) + LittleBytes(size, 8)
  }

  lemma StreamRecordReads(flags: seq<byte>, nameLength: byte, hash: seq<byte>, validSize: nat, cluster: nat, size: nat)
    requires |flags| == 2 && |hash| == 4
    requires FitsBytes(validSize, 8) && FitsBytes(cluster, 4) && FitsBytes(size, 8)
    ensures EntryOf(ExFat, StreamRecord(flags, nameLength, hash, validSize, cluster, size)) ==
            Some(EMPTY.(kind := ExFatDataStream, nameSize := nameLength * 2, validSize := validSize,
                        startCluster := cluster, size := size))
  {
    var record := StreamRecord(flags, nameLength, hash, validSize, cluster, size);
    assert record[0] == 0xc0 && record[3] == nameLength;
    assert record[8..16] == LittleBytes(validSize, 8);
    assert record[20..24] == LittleBytes(cluster, 4);
    assert record[24..32] == LittleBytes(size, 8);
    LittleRoundTrip(validSize, 8);
    LittleRoundTrip(cluster, 4);
    LittleRoundTrip(size, 8);
  }

  predicate FileTimesFit(times: Times) {
    && FitsBytes(times.creationTime, 2) && FitsBytes(times.creationDate, 2)
    && FitsBytes(times.modificationTime, 2) && FitsBytes(times.modificationDate, 2)
    && FitsBytes(times.accessTime, 2) && FitsBytes(times.accessDate, 2)
  }

  /** The file directory entry: attributes behind the entry count and the checksum, and times. */
  function FileRecord(header: seq<byte>, attributes: nat, reserved: seq<byte>, times: Times, tail: seq<byte>): Record
    requires |header| == 3 && |reserved| == 2 && |tail| == 7
  {
    ([0x85] + header + LittleBytes(attributes, 2)) + (reserved + FileTimesBytes(times) + tail)
  }

  function FileTimesBytes(times: Times): (bytes: seq<byte>)
    ensures |bytes| == 17
  {
    LittleBytes(times.creationTime, 2) + LittleBytes(times.creationDate, 2)
    + LittleBytes(times.modificationTime, 2) + LittleBytes(times.modificationDate, 2)
    + LittleBytes(times.accessTime, 2) + LittleBytes(times.accessDate, 2)
    + [times.creationTimeFraction, times.modificationTimeFraction, times.creationTimeUtcOffset,
       times.modificationTimeUtcOffset, times.accessTimeUtcOffset]
  }

  lemma FileTimesRead(header: seq<byte>, attributes: nat, reserved: seq<byte>, times: Times, tail: seq<byte>)
    requires |header| == 3 && |reserved| == 2 && |tail| == 7 && FileTimesFit(times)
    ensures FileTimes(FileRecord(header, attributes, reserved, times, tail)) == times
  {
    var record := FileRecord(header, attributes, reserved, times, tail);
    assert record[8..10] == LittleBytes(times.creationTime, 2);
    assert record[10..12] == LittleBytes(times.creationDate, 2);
    assert record[12..14] == LittleBytes(times.modificationTime, 2);
    assert record[14..16] == LittleBytes(times.modificationDate, 2);
    assert record[16..18] == LittleBytes(times.accessTime, 2);
    assert record[18..20] == LittleBytes(times.accessDate, 2);
    LittleRoundTrip(times.creationTime, 2);
    LittleRoundTrip(times.creationDate, 2);
    LittleRoundTrip(times.modificationTime, 2);
    LittleRoundTrip(times.modificationDate, 2);
    LittleRoundTrip(times.accessTime, 2);
    LittleRoundTrip(times.accessDate, 2);
  }

  lemma FileRecordReads(header: seq<byte>, attributes: nat, reserved: seq<byte>, times: Times, tail: seq<byte>)
    requires |header| == 3 && |reserved| == 2 && |tail| == 7 && FileTimesFit(times) && FitsBytes(attributes, 2)
    ensures EntryOf(ExFat, FileRecord(header, attributes, reserved, times, tail)) ==
            Some(EMPTY.(kind := ExFatFileEntry, attributes := attributes, times := times))
  {
    var record := FileRecord(header, attributes, reserved, times, tail);
    assert record[0] == 0x85;
    Middle([0x85] + header, LittleBytes(attributes, 2), reserved + FileTimesBytes(times) + tail);
    LittleRoundTrip(attributes, 2);
    FileTimesRead(header, attributes, reserved, times, tail);
    EntryOfFile(record);
  }

  lemma Middle(a: seq<byte>, b: seq<byte>, c: seq<byte>)
    ensures (a + b + c)[|a|..|a| + |b|] == b
  {
  }

  lemma EntryOfFile(record: Record)
    requires record[0] == 0x85
    ensures EntryOf(ExFat, record) ==
            Some(EMPTY.(kind := ExFatFileEntry, attributes := LittleEndian(record[4..6]), times := FileTimes(record)))
  {
  }

  /** A file name entry: fifteen units behind the type and the flags. */
  function NameRecord(flags: byte, chunk: seq<byte>): Record
    requires |chunk| == 30
  {
    [0xc1, flags] + chunk
  }

  lemma NameRecordReads(flags: byte, chunk: seq<byte>)
    requires |chunk| == 30
    ensures EntryOf(ExFat, NameRecord(flags, chunk)) == Some(EMPTY.(kind := ExFatFileEntryName, nameData := chunk))
  {
    assert NameRecord(flags, chunk)[2..32] == chunk;
  }
}

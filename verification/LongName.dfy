/**
  VFAT long names: the records a name is written as ("FAT Long Directory Entries" in the Microsoft FAT32
  File System Specification), and the proof that the directory scan undoes the encoding.
 */
module LongName {
  import opened Common
  import opened DirectoryEntry
  import opened DirectoryScan

  type Unit = u: int | 0 <= u < 0x1_0000

  const UNITS_PER_RECORD := 13

  /** UTF-16 little-endian. */
  function Bytes(units: seq<Unit>): (bytes: seq<byte>)
    ensures |bytes| == 2 * |units|
  {
    if units == [] then [] else [units[0] % 0x100, units[0] / 0x100] + Bytes(units[1..])
  }

  function Repeat(unit: Unit, count: nat): (units: seq<Unit>)
    ensures |units| == count
  {
    seq(count, _ => unit)
  }

  /** The number of records a name takes. */
  function Count(name: seq<Unit>): nat {
    (|name| + UNITS_PER_RECORD - 1) / UNITS_PER_RECORD
  }

  /** A name that does not fill its last record is followed by a NUL and then by 0xffff units. */
  function Padding(name: seq<Unit>): seq<Unit> {
    var left := UNITS_PER_RECORD * Count(name) - |name|;
    if left <= 0 then [] else [0] + Repeat(0xffff, left - 1)
  }

  function Padded(name: seq<Unit>): (units: seq<Unit>)
    ensures |units| == UNITS_PER_RECORD * Count(name)
  {
    name + Padding(name)
  }

  predicate CanEncode(name: seq<Unit>) {
    1 <= |name| <= 260 && forall i :: 0 <= i < |name| ==> name[i] != 0
  }

  /** The last record of a name carries the flag 0x40. */
  function Sequence(number: nat, count: nat): byte
    requires 1 <= number <= count <= 20
  {
    if number == count then 0x40 + number else number
  }

  function LongRecord(sequence: byte, checksum: byte, data: seq<byte>): Record
    requires |data| == 26
  {
    [sequence] + data[..10] + [0x0f, 0, checksum] + data[10..22] + [0, 0] + data[22..26]
  }

  function Chunk(data: seq<byte>, number: nat): seq<byte>
    requires 1 <= number && 26 * number <= |data|
  {
    data[26 * (number - 1)..26 * number]
  }

  /** The records with the numbers up to the given one, in the order they are stored: last one first. */
  function RunRecords(data: seq<byte>, checksum: byte, number: nat, count: nat): (records: seq<Record>)
    requires number <= count <= 20 && 26 * count <= |data|
    ensures |records| == number
  {
    if number == 0 then []
    else
      [LongRecord(Sequence(number, count), checksum, Chunk(data, number))]
      + RunRecords(data, checksum, number - 1, count)
  }

  /** The records a name is written as. */
  function Encode(name: seq<Unit>, checksum: byte): (records: seq<Record>)
    requires CanEncode(name)
    ensures |records| == Count(name)
  {
    RunRecords(Bytes(Padded(name)), checksum, Count(name), Count(name))
  }

  // ----- single records

  /** A record of a name reads back as its sequence byte and its piece of the name. */
  lemma LongRecordReads(format: Format, sequence: byte, checksum: byte, data: seq<byte>)
    requires format != ExFat && IsSequence(sequence) && |data| == 26
    ensures EntryOf(format, LongRecord(sequence, checksum, data)) ==
            Some(EMPTY.(kind := VfatLongName, sequence := sequence, nameData := data))
  {
    var record := LongRecord(sequence, checksum, data);
    assert record[0] == sequence && record[11] == 0x0f;
    assert record[1..11] == data[..10];
    assert record[14..26] == data[10..22];
    assert record[28..32] == data[22..26];
    assert LongNameData(record) == data;
  }

  lemma SequenceOk(number: nat, count: nat)
    requires 1 <= number <= count <= 20
    ensures IsSequence(Sequence(number, count))
    ensures SequenceNumber(Sequence(number, count)) == number
    ensures StartsRun(Sequence(number, count)) <==> number == count
  {
  }

  lemma {:induction false} RecordOfRun(data: seq<byte>, checksum: byte, number: nat, count: nat, i: nat)
    requires i < number <= count <= 20 && 26 * count <= |data|
    ensures RunRecords(data, checksum, number, count)[i] ==
            LongRecord(Sequence(number - i, count), checksum, Chunk(data, number - i))
  {
    if 0 < i {
      RecordOfRun(data, checksum, number - 1, count, i - 1);
    }
  }

  /** Every record of every name is classified as a long-name record. */
  lemma EncodedIsClassified(format: Format, name: seq<Unit>, checksum: byte, i: nat)
    requires format != ExFat && CanEncode(name) && i < Count(name)
    ensures Classify(format, Encode(name, checksum)[i]) == VfatLongName
  {
    var data, number := Bytes(Padded(name)), Count(name) - i;
    RecordOfRun(data, checksum, Count(name), Count(name), i);
    SequenceOk(number, Count(name));
    LongRecordReads(format, Sequence(number, Count(name)), checksum, Chunk(data, number));
  }

  // ----- the name behind the padding

  lemma {:induction false} BytesConcat(a: seq<Unit>, b: seq<Unit>)
    ensures Bytes(a + b) == Bytes(a) + Bytes(b)
  {
    if a == [] {
      assert a + b == b;
    } else {
      assert (a + b)[1..] == a[1..] + b;
      BytesConcat(a[1..], b);
    }
  }

  lemma {:induction false} UnitBytes(units: seq<Unit>, i: nat)
    requires i < |units|
    ensures Bytes(units)[2 * i] == units[i] % 0x100 && Bytes(units)[2 * i + 1] == units[i] / 0x100
  {
    if 0 < i {
      UnitBytes(units[1..], i - 1);
    }
  }

  /** The search for the end of a name stops at the first NUL unit. */
  lemma {:induction false} NameEndsAtNul(units: seq<Unit>, length: nat, i: nat)
    requires i <= length < |units| && units[length] == 0
    requires forall j :: 0 <= j < length ==> units[j] != 0
    ensures NameEnd(Bytes(units), 2 * i) == 2 * length + 2
    decreases length - i
  {
    UnitBytes(units, i);
    if i < length {
      assert units[i] != 0;
      NameEndsAtNul(units, length, i + 1);
    }
  }

  lemma NulBytes(units: seq<Unit>)
    requires units != [] && units[0] == 0
    ensures Bytes(units)[..2] == [0, 0]
  {
  }

  lemma CutAtUnit(units: seq<Unit>, length: nat)
    requires length < |units| && units[length] == 0
    requires forall j :: 0 <= j < length ==> units[j] != 0
    ensures CutAtNul(Bytes(units)) == Bytes(units[..length]) + [0, 0]
  {
    NameEndsAtNul(units, length, 0);
    var name, rest := units[..length], units[length..];
    assert units == name + rest;
    BytesConcat(name, rest);
    NulBytes(rest);
    TakeConcat(Bytes(name), Bytes(rest), 2 * length + 2);
  }

  /** Text ends where it is followed by a NUL unit, or else by the one that the reader appends. */
  lemma CutBehind(units: seq<Unit>, tail: seq<Unit>)
    requires (tail != [] ==> tail[0] == 0) && forall i :: 0 <= i < |units| ==> units[i] != 0
    ensures CutAtNul(Bytes(units + tail) + [0, 0]) == Bytes(units) + [0, 0]
  {
    var all := units + tail + [0];
    BytesConcat(units + tail, [0]);
    assert Bytes([0]) == [0, 0];
    assert all[..|units|] == units;
    CutAtUnit(all, |units|);
  }

  // ----- the scan

  /** The parts of the records with the numbers up to the given one, in stored order. */
  function RunParts(data: seq<byte>, number: nat, count: nat): (parts: seq<LongPart>)
    requires number <= count <= 20 && 26 * count <= |data|
    ensures |parts| == number
  {
    if number == 0 then []
    else [LongPart(Sequence(number, count), Chunk(data, number))] + RunParts(data, number - 1, count)
  }

  /** The parts put together, last record first, are the bytes the records were cut from. */
  lemma {:induction false} PartsJoin(data: seq<byte>, number: nat, count: nat)
    requires number <= count <= 20 && 26 * count <= |data|
    ensures JoinedBackwards(Chunks(RunParts(data, number, count))) == data[..26 * number]
  {
    if number != 0 {
      PartsJoin(data, number - 1, count);
      ChunksCons(LongPart(Sequence(number, count), Chunk(data, number)), RunParts(data, number - 1, count));
      assert data[..26 * number] == data[..26 * (number - 1)] + Chunk(data, number);
    }
  }

  lemma ChunksCons(part: LongPart, rest: seq<LongPart>)
    ensures JoinedBackwards(Chunks([part] + rest)) == JoinedBackwards(Chunks(rest)) + part.nameData
  {
    assert Chunks([part] + rest) == [part.nameData] + Chunks(rest);
    assert ([part.nameData] + Chunks(rest))[1..] == Chunks(rest);
  }

  lemma {:induction false} PartOfRun(data: seq<byte>, number: nat, count: nat, i: nat)
    requires i < number <= count <= 20 && 26 * count <= |data|
    ensures RunParts(data, number, count)[i] == LongPart(Sequence(number - i, count), Chunk(data, number - i))
  {
    if 0 < i {
      PartOfRun(data, number - 1, count, i - 1);
    }
  }

  /** What the cluster reader would take for a dot entry is not among the pieces of the name. */
  ghost predicate NoDots(reader: Reader, data: seq<byte>, count: nat)
    requires 26 * count <= |data|
  {
    reader == ByCluster ==>
      forall number :: 1 <= number <= count ==> !IsSelf(Chunk(data, number)) && !IsParent(Chunk(data, number))
  }

  ghost predicate Stored(volume: seq<byte>, offsets: seq<int>, records: seq<Record>) {
    && |records| <= |offsets|
    && forall i :: 0 <= i < |records| ==> Inside(volume, offsets[i]) && RecordAt(volume, offsets[i]) == records[i]
  }

  /** The state after the first records of a run. */
  function AfterParts(s: Scan, parts: seq<LongPart>, i: nat): Scan
    requires i <= |parts|
  {
    if i == 0 then s
    else s.(progress := s.progress.(pending := Some(parts[..i]), last := |parts| - i + 1))
  }

  /** One record of the run: it is the first one, or it continues what is pending. */
  lemma PartStep(reader: Reader, format: Format, volume: seq<byte>, offset: int, s: Scan, parts: seq<LongPart>, i: nat)
    requires i < |parts|
    requires ReadAt(format, volume, offset) ==
             Some(EMPTY.(kind := VfatLongName, sequence := parts[i].sequence, nameData := parts[i].nameData))
    requires SequenceNumber(parts[i].sequence) == |parts| - i && (StartsRun(parts[i].sequence) <==> i == 0)
    requires reader == ByCluster ==> !IsSelf(parts[i].nameData) && !IsParent(parts[i].nameData)
    ensures StepAt(reader, format, volume, offset, AfterParts(s, parts, i)) == Running(AfterParts(s, parts, i + 1))
  {
    assert parts[..i + 1] == parts[..i] + [parts[i]];
    assert parts[..0] + [parts[i]] == [parts[i]];
  }

  lemma RunStep(reader: Reader, format: Format, volume: seq<byte>, offset: int, s: Scan,
                data: seq<byte>, checksum: byte, count: nat, i: nat)
    requires format != ExFat && i < count <= 20 && 26 * count <= |data| && NoDots(reader, data, count)
    requires Inside(volume, offset) && RecordAt(volume, offset) == RunRecords(data, checksum, count, count)[i]
    ensures var parts := RunParts(data, count, count);
            StepAt(reader, format, volume, offset, AfterParts(s, parts, i)) == Running(AfterParts(s, parts, i + 1))
  {
    var parts, number := RunParts(data, count, count), count - i;
    RecordOfRun(data, checksum, count, count, i);
    PartOfRun(data, count, count, i);
    SequenceOk(number, count);
    LongRecordReads(format, Sequence(number, count), checksum, Chunk(data, number));
    PartStep(reader, format, volume, offset, s, parts, i);
  }

  lemma RunBecomesName(name: seq<Unit>)
    requires CanEncode(name)
    ensures var parts := RunParts(Bytes(Padded(name)), Count(name), Count(name));
            VfatName(Chunks(parts)) == Some(Name(Bytes(name) + [0, 0], true))
  {
    var data := Bytes(Padded(name));
    PartsJoin(data, Count(name), Count(name));
    assert data[..26 * Count(name)] == data;
    CutBehind(name, Padding(name));
  }

  lemma ShortEndsRun(reader: Reader, format: Format, volume: seq<byte>, offset: int, s: Scan, name: Name)
    requires format != ExFat && ReadAt(format, volume, offset).Some?
    requires IsPlain(reader, ReadAt(format, volume, offset).value)
    requires s.progress.pending.Some? && VfatName(Chunks(s.progress.pending.value)) == Some(name)
    ensures var file := ReadAt(format, volume, offset).value.(identifier := offset, name := Some(name));
            ScanRecords(reader, format, volume, [offset], s) ==
            Running(Scan(s.listing.(files := s.listing.files + [file]), s.progress.(pending := None)))
  {
    assert [offset][1..] == [];
  }

  /** Whatever came before, the records of a name and a plain short record yield one file entry, whose name
      is exactly the name and its terminator. */
  lemma LongNameRoundTrip(reader: Reader, format: Format, volume: seq<byte>, offsets: seq<int>, s: Scan,
                          name: seq<Unit>, checksum: byte)
    requires format != ExFat && CanEncode(name)
    requires |offsets| == Count(name) + 1 && Stored(volume, offsets, Encode(name, checksum))
    requires NoDots(reader, Bytes(Padded(name)), Count(name))
    requires ReadAt(format, volume, offsets[Count(name)]).Some?
    requires IsPlain(reader, ReadAt(format, volume, offsets[Count(name)]).value)
    ensures var entry := ReadAt(format, volume, offsets[Count(name)]).value;
            var file := entry.(identifier := offsets[Count(name)], name := Some(Name(Bytes(name) + [0, 0], true)));
            ScanRecords(reader, format, volume, offsets, s) ==
            Running(Scan(s.listing.(files := s.listing.files + [file]), s.progress.(pending := None, last := 1)))
  {
    var run, short := offsets[..Count(name)], offsets[Count(name)];
    SplitLast(offsets);
    NameScanned(reader, format, volume, run, s, name, checksum);
    RunBecomesName(name);
    var pending := WithRun(s, name);
    ShortEndsRun(reader, format, volume, short, pending, Name(Bytes(name) + [0, 0], true));
    ScanConcat(reader, format, volume, run, [short], s);
  }

  // ----- pieces that are taken for dot entries

  /** The entry for the directory itself and that for its parent are only set once. */
  ghost predicate KeepsDots(s: Listing, t: Listing) {
    (s.self.Some? ==> t.self == s.self) && (s.parent.Some? ==> t.parent == s.parent)
  }

  lemma StepKeepsDots(reader: Reader, format: Format, volume: seq<byte>, offset: int, s: Scan)
    ensures var outcome := StepAt(reader, format, volume, offset, s);
            outcome.Running? ==> KeepsDots(s.listing, outcome.scan.listing)
  {
  }

  lemma {:induction false} ScanKeepsDots(reader: Reader, format: Format, volume: seq<byte>, offsets: seq<int>, s: Scan)
    ensures var outcome := ScanRecords(reader, format, volume, offsets, s);
            outcome.Running? ==> KeepsDots(s.listing, outcome.scan.listing)
    decreases |offsets|
  {
    if offsets != [] {
      StepKeepsDots(reader, format, volume, offsets[0], s);
      var outcome := StepAt(reader, format, volume, offsets[0], s);
      if outcome.Running? {
        ScanKeepsDots(reader, format, volume, offsets[1..], outcome.scan);
      }
    }
  }

  predicate IsDot(read: Option<Entry>) {
    read.Some? && read.value.kind.VfatLongName? && (IsSelf(read.value.nameData) || IsParent(read.value.nameData))
  }

  lemma DotIsSet(format: Format, volume: seq<byte>, offset: int, s: Scan)
    requires IsDot(ReadAt(format, volume, offset))
    ensures var outcome := StepAt(ByCluster, format, volume, offset, s);
            outcome.Running? ==>
              || (s.listing.self.None? && outcome.scan.listing.self.Some?)
              || (s.listing.parent.None? && outcome.scan.listing.parent.Some?)
  {
  }

  /** A record that is taken for a dot entry fails the scan or leaves its trace in the directory. */
  lemma {:induction false} DotLeavesTrace(format: Format, volume: seq<byte>, offsets: seq<int>, s: Scan, i: nat)
    requires i < |offsets| && IsDot(ReadAt(format, volume, offsets[i]))
    ensures var outcome := ScanRecords(ByCluster, format, volume, offsets, s);
            outcome.Running? ==>
              outcome.scan.listing.self != s.listing.self || outcome.scan.listing.parent != s.listing.parent
    decreases |offsets|
  {
    var outcome := StepAt(ByCluster, format, volume, offsets[0], s);
    StepKeepsDots(ByCluster, format, volume, offsets[0], s);
    if outcome.Running? {
      ScanKeepsDots(ByCluster, format, volume, offsets[1..], outcome.scan);
      if i == 0 {
        DotIsSet(format, volume, offsets[0], s);
      } else {
        DotLeavesTrace(format, volume, offsets[1..], outcome.scan, i - 1);
      }
    }
  }

  lemma PieceIsDot(format: Format, volume: seq<byte>, offset: int, data: seq<byte>, checksum: byte, count: nat, i: nat)
    requires format != ExFat && i < count <= 20 && 26 * count <= |data|
    requires Inside(volume, offset) && RecordAt(volume, offset) == RunRecords(data, checksum, count, count)[i]
    requires IsSelf(Chunk(data, count - i)) || IsParent(Chunk(data, count - i))
    ensures IsDot(ReadAt(format, volume, offset))
  {
    RecordOfRun(data, checksum, count, count, i);
    SequenceOk(count - i, count);
    LongRecordReads(format, Sequence(count - i, count), checksum, Chunk(data, count - i));
  }

  lemma DotIsSeen(format: Format, volume: seq<byte>, offsets: seq<int>, s: Scan, name: seq<Unit>, checksum: byte,
                  number: nat)
    requires format != ExFat && CanEncode(name) && 1 <= number <= Count(name)
    requires Count(name) < |offsets| && Stored(volume, offsets, Encode(name, checksum))
    requires IsSelf(Chunk(Bytes(Padded(name)), number)) || IsParent(Chunk(Bytes(Padded(name)), number))
    ensures var outcome := ScanRecords(ByCluster, format, volume, offsets, s);
            outcome.Running? ==>
              outcome.scan.listing.self != s.listing.self || outcome.scan.listing.parent != s.listing.parent
  {
    var i := Count(name) - number;
    PieceIsDot(format, volume, offsets[i], Bytes(Padded(name)), checksum, Count(name), i);
    DotLeavesTrace(format, volume, offsets, s, i);
  }

  /** The records of a name and a plain short record add exactly one file entry with the name to the directory, in
      any state, exactly when the reader takes none of the pieces of the name for a dot entry. */
  lemma LongNameReadsIff(reader: Reader, format: Format, volume: seq<byte>, offsets: seq<int>, s: Scan,
                         name: seq<Unit>, checksum: byte)
    requires format != ExFat && CanEncode(name)
    requires |offsets| == Count(name) + 1 && Stored(volume, offsets, Encode(name, checksum))
    requires ReadAt(format, volume, offsets[Count(name)]).Some?
    requires IsPlain(reader, ReadAt(format, volume, offsets[Count(name)]).value)
    ensures var entry := ReadAt(format, volume, offsets[Count(name)]).value;
            var file := entry.(identifier := offsets[Count(name)], name := Some(Name(Bytes(name) + [0, 0], true)));
            var outcome := ScanRecords(reader, format, volume, offsets, s);
            outcome.Running? && outcome.scan.listing == s.listing.(files := s.listing.files + [file])
            <==> NoDots(reader, Bytes(Padded(name)), Count(name))
  {
    if NoDots(reader, Bytes(Padded(name)), Count(name)) {
      LongNameRoundTrip(reader, format, volume, offsets, s, name, checksum);
    } else {
      var number :| 1 <= number <= Count(name)
        && (IsSelf(Chunk(Bytes(Padded(name)), number)) || IsParent(Chunk(Bytes(Padded(name)), number)));
      DotIsSeen(format, volume, offsets, s, name, checksum, number);
    }
  }

  lemma SplitLast<T>(s: seq<T>)
    requires s != []
    ensures s == s[..|s| - 1] + [s[|s| - 1]]
  {
  }

  /** The state with the run of a name pending. */
  function WithRun(s: Scan, name: seq<Unit>): Scan
    requires CanEncode(name)
  {
    var parts := RunParts(Bytes(Padded(name)), Count(name), Count(name));
    s.(progress := s.progress.(pending := Some(parts), last := 1))
  }

  lemma NameScanned(reader: Reader, format: Format, volume: seq<byte>, offsets: seq<int>, s: Scan,
                    name: seq<Unit>, checksum: byte)
    requires format != ExFat && CanEncode(name)
    requires |offsets| == Count(name) && Stored(volume, offsets, Encode(name, checksum))
    requires NoDots(reader, Bytes(Padded(name)), Count(name))
    ensures ScanRecords(reader, format, volume, offsets, s) == Running(WithRun(s, name))
  {
    var count, data := Count(name), Bytes(Padded(name));
    var parts := RunParts(data, count, count);
    var states := seq(count + 1, i requires 0 <= i <= count => AfterParts(s, parts, i));
    forall i | 0 <= i < count
      ensures StepAt(reader, format, volume, offsets[i], states[i]) == Running(states[i + 1])
    {
      RunStep(reader, format, volume, offsets[i], s, data, checksum, count, i);
    }
    ScanChain(reader, format, volume, offsets, states);
    assert parts[..count] == parts;
  }

  lemma UnitIsSpaces(unit: Unit)
    ensures unit == 0x2020 <==> unit % 0x100 == 0x20 && unit / 0x100 == 0x20
  {
  }

  lemma NineSpaces(bytes: seq<byte>)
    requires 11 <= |bytes|
    ensures Spaces(bytes[2..11]) <==>
            && bytes[2] == 0x20 && bytes[3] == 0x20 && bytes[4] == 0x20 && bytes[5] == 0x20 && bytes[6] == 0x20
            && bytes[7] == 0x20 && bytes[8] == 0x20 && bytes[9] == 0x20 && bytes[10] == 0x20
    ensures Spaces(bytes[1..11]) <==> bytes[1] == 0x20 && Spaces(bytes[2..11])
  {
    var nine, ten := bytes[2..11], bytes[1..11];
    assert ten == [bytes[1]] + nine;
    assert nine[0] == bytes[2] && nine[1] == bytes[3] && nine[2] == bytes[4] && nine[3] == bytes[5];
    assert nine[4] == bytes[6] && nine[5] == bytes[7] && nine[6] == bytes[8]
      && nine[7] == bytes[9] && nine[8] == bytes[10];
    assert ten[0] == bytes[1];
    assert forall i :: 0 <= i < 9 ==> nine[i] == ten[i + 1];
  }

  predicate FourDaggers(units: seq<Unit>)
    requires 5 <= |units|
  {
    units[1] == 0x2020 && units[2] == 0x2020 && units[3] == 0x2020 && units[4] == 0x2020
  }

  /** A piece of a name is taken for the entry of the directory itself exactly when it starts with U+202E,
      four times U+2020 and a unit with the low byte 0x20, and for the parent when U+2E2E comes first. */
  lemma DotPiece(units: seq<Unit>)
    requires |units| == UNITS_PER_RECORD
    ensures IsSelf(Bytes(units)) <==>
            units[0] == 0x202e && FourDaggers(units) && units[5] % 0x100 == 0x20
    ensures IsParent(Bytes(units)) <==>
            units[0] == 0x2e2e && FourDaggers(units) && units[5] % 0x100 == 0x20
  {
    UnitBytes(units, 0);
    UnitBytes(units, 1);
    UnitBytes(units, 2);
    UnitBytes(units, 3);
    UnitBytes(units, 4);
    UnitBytes(units, 5);
    UnitIsSpaces(units[1]);
    UnitIsSpaces(units[2]);
    UnitIsSpaces(units[3]);
    UnitIsSpaces(units[4]);
    NineSpaces(Bytes(units));
  }
}

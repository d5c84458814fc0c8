/** Directory entries: the classification of a record, the fields read from it, and its name. */
module DirectoryEntry {
  import opened Common

  const RECORD_SIZE := 32

  type Record = r: seq<byte> | |r| == 32 witness seq(32, _ => 0)

  datatype EntryType =
    | Terminator
    | Unallocated
    | ShortName
    | VfatLongName
    | ExFatAllocationBitmap
    | ExFatDataStream
    | ExFatFileEntry
    | ExFatFileEntryName
    | ExFatUpcaseTable
    | ExFatUnknown
    | ExFatVolumeLabel

  /** A name with its terminator, in UTF-16 little-endian or in single bytes. */
  datatype Name = Name(text: seq<byte>, unicode: bool)

  /** The dates and times of a record, as they are stored. */
  datatype Times = Times(
    creationDate: nat,
    creationTime: nat,
    creationTimeFraction: byte,
    creationTimeUtcOffset: byte,
    modificationDate: nat,
    modificationTime: nat,
    modificationTimeFraction: byte,
    modificationTimeUtcOffset: byte,
    accessDate: nat,
    accessTime: nat,
    accessTimeUtcOffset: byte)

  const NO_TIMES: Times := Times(0, 0, 0, 0, 0, 0, 0, 0, 0, 0, 0)

  /** The value of a directory entry object. */
  datatype Entry = Entry(
    kind: EntryType,
    nameData: seq<byte>,
    attributes: nat,
    times: Times,
    sequence: byte,
    startCluster: nat,
    size: nat,
    validSize: nat,
    nameSize: nat,
    identifier: nat,
    name: Option<Name>,
    nameEntries: Option<seq<seq<byte>>>)

  const EMPTY: Entry := Entry(Terminator, [], 0, NO_TIMES, 0, 0, 0, 0, 0, 0, None, None)

  predicate Inside(volume: seq<byte>, offset: int) {
    0 <= offset && offset + RECORD_SIZE <= |volume|
  }

  function RecordAt(volume: seq<byte>, offset: nat): Record
    requires Inside(volume, offset)
  {
    volume[offset..offset + RECORD_SIZE]
  }

  // ----- reading a record

  /** The sequence bytes a long-name record may start with: 1 to 19, and 1 to 20 with the last-record flag. */
  predicate IsSequence(first: byte) {
    0x01 <= first <= 0x13 || 0x41 <= first <= 0x54
  }

  function Classify(format: Format, data: Record): EntryType {
    if format == ExFat then
      if data[0] == 0 then Terminator
      else if data[0] == 0x81 then ExFatAllocationBitmap
      else if data[0] == 0x82 then ExFatUpcaseTable
      else if data[0] == 0x83 then ExFatVolumeLabel
      else if data[0] == 0x85 then ExFatFileEntry
      else if data[0] == 0xc0 then ExFatDataStream
      else if data[0] == 0xc1 then ExFatFileEntryName
      else ExFatUnknown
    else if data == seq(32, _ => 0) then Terminator
    else if IsSequence(data[0]) then
      if data[11] == 0x0f && data[12] == 0 && data[26] == 0 && data[27] == 0 then VfatLongName else ShortName
    else if data[0] == 0xe5 then Unallocated
    else ShortName
  }

  /** The 13 units of a long-name record. */
  function LongNameData(data: Record): seq<byte> {
    data[1..11] + data[14..26] + data[28..32]
  }

  /** The times of a short record, which has no time of access and no UTC offsets. */
  function ShortTimes(data: Record): Times {
    NO_TIMES.(
      creationTimeFraction := data[13],
      creationTime := LittleEndian(data[14..16]),
      creationDate := LittleEndian(data[16..18]),
      accessDate := LittleEndian(data[18..20]),
      modificationTime := LittleEndian(data[22..24]),
      modificationDate := LittleEndian(data[24..26]))
  }

  /** The times of an exFAT file record. */
  function FileTimes(data: Record): Times {
    Times(
      LittleEndian(data[10..12]), LittleEndian(data[8..10]), data[20], data[22],
      LittleEndian(data[14..16]), LittleEndian(data[12..14]), data[21], data[23],
      LittleEndian(data[18..20]), LittleEndian(data[16..18]), data[24])
  }

  /** The entry a record holds; none when an exFAT volume label claims more than its 11 units. */
  function EntryOf(format: Format, data: Record): (r: Option<Entry>)
    ensures r.Some? ==> r.value.identifier == 0 && r.value.name.None? && WellFormed(r.value)
  {
    var entry := EMPTY.(kind := Classify(format, data));
    match entry.kind
    case ShortName => Some(entry.(
      nameData := data[..11],
      attributes := data[11],
      times := ShortTimes(data),
      startCluster := LittleEndian(data[26..28]),
      size := LittleEndian(data[28..32])))
    case VfatLongName => Some(entry.(sequence := data[0], nameData := LongNameData(data)))
    case ExFatDataStream => Some(entry.(
      nameSize := (data[3] as nat) * 2,
      validSize := LittleEndian(data[8..16]),
      startCluster := LittleEndian(data[20..24]),
      size := LittleEndian(data[24..32])))
    case ExFatFileEntry => Some(entry.(attributes := LittleEndian(data[4..6]), times := FileTimes(data)))
    case ExFatFileEntryName => Some(entry.(nameData := data[2..32]))
    case ExFatVolumeLabel =>
      if 11 < data[1] then None else Some(entry.(nameData := data[2..24], nameSize := (data[1] as nat) * 2))
    case _ => Some(entry)
  }

  function ReadAt(format: Format, volume: seq<byte>, offset: int): Option<Entry> {
    if Inside(volume, offset) then EntryOf(format, RecordAt(volume, offset)) else None
  }

  predicate HasLabelFlag(attributes: nat) {
    attributes / 8 % 2 == 1
  }

  predicate Spaces(bytes: seq<byte>) {
    forall i :: 0 <= i < |bytes| ==> bytes[i] == 0x20
  }

  predicate IsSelf(nameData: seq<byte>) {
    11 <= |nameData| && nameData[0] == 0x2e && Spaces(nameData[1..11])
  }

  predicate IsParent(nameData: seq<byte>) {
    11 <= |nameData| && nameData[0] == 0x2e && nameData[1] == 0x2e && Spaces(nameData[2..11])
  }

  // ----- names

  /** Up to the first space. */
  function Word(bytes: seq<byte>): seq<byte> {
    if bytes == [] || bytes[0] == 0x20 then [] else [bytes[0]] + Word(bytes[1..])
  }

  /** The short name: base and extension without their padding, with a dot in between unless the
      entry is a volume label. */
  function ShortNameOf(nameData: seq<byte>, isLabel: bool): seq<byte>
    requires |nameData| == 11
  {
    var extension := Word(nameData[8..11]);
    Word(nameData[..8]) + (if extension == [] || isLabel then extension else [0x2e] + extension)
  }

  /** Where UTF-16 text ends, looking from an offset on: behind its first NUL unit. */
  function NameEnd(bytes: seq<byte>, offset: nat): (end: nat)
    requires offset <= |bytes|
    ensures offset <= end <= |bytes|
    decreases |bytes| - offset
  {
    if |bytes| < offset + 2 then offset
    else if bytes[offset] == 0 && bytes[offset + 1] == 0 then offset + 2
    else NameEnd(bytes, offset + 2)
  }

  function CutAtNul(bytes: seq<byte>): seq<byte> {
    bytes[..NameEnd(bytes, 0)]
  }

  function Joined(chunks: seq<seq<byte>>): seq<byte> {
    if chunks == [] then [] else Joined(chunks[..|chunks| - 1]) + chunks[|chunks| - 1]
  }

  /** The last chunk comes first. */
  function JoinedBackwards(chunks: seq<seq<byte>>): seq<byte> {
    if chunks == [] then [] else JoinedBackwards(chunks[1..]) + chunks[0]
  }

  function ExFatName(chunks: seq<seq<byte>>): Option<Name> {
    if 1 <= |chunks| <= 9 then Some(Name(CutAtNul(Joined(chunks) + [0, 0]), true)) else None
  }

  function VfatName(chunks: seq<seq<byte>>): Option<Name> {
    if 1 <= |chunks| <= 20 then Some(Name(CutAtNul(JoinedBackwards(chunks) + [0, 0]), true)) else None
  }

  predicate WellFormed(entry: Entry) {
    && (entry.kind.ShortName? ==> |entry.nameData| == 11)
    && (entry.kind.VfatLongName? ==> |entry.nameData| == 26)
    && (entry.kind.ExFatFileEntryName? ==> |entry.nameData| == 30)
    && (entry.kind.ExFatVolumeLabel? ==> |entry.nameData| == 22 && entry.nameSize <= 22)
    && (entry.nameEntries.Some? ==> ChunksOf(entry.nameEntries.value, 30))
  }

  predicate ChunksOf(chunks: seq<seq<byte>>, size: nat) {
    forall i :: 0 <= i < |chunks| ==> |chunks[i]| == size
  }

  /** The name an entry has, or gets when it is asked for. */
  function NameOf(entry: Entry): Option<Name>
    requires WellFormed(entry)
  {
    if entry.name.Some? then entry.name
    else if entry.nameEntries.Some? then ExFatName(entry.nameEntries.value)
    else if entry.kind.ShortName? then
      Some(Name(ShortNameOf(entry.nameData, HasLabelFlag(entry.attributes)) + [0], false))
    else if entry.kind.ExFatVolumeLabel? then
      Some(Name(entry.nameData[..entry.nameSize] + [0, 0], true))
    else None
  }

  lemma JoinSlices(data: seq<byte>, a: nat, b: nat)
    requires a <= b <= |data|
    ensures data[..a] + data[a..b] == data[..b]
  {
  }

  datatype ReadResult = Failed | Empty | Read

  class DirectoryEntry {
    var kind: EntryType
    var nameData: seq<byte>
    var attributes: nat
    var times: Times
    var sequence: byte
    var startCluster: nat
    var size: nat
    var validSize: nat
    var nameSize: nat
    var identifier: nat
    var name: Option<Name>
    var nameEntries: Option<seq<seq<byte>>>
    /** The directory that lists the entry, if any. */
    ghost var owner: object?

    function Value(): Entry
      reads this
    {
      Entry(kind, nameData, attributes, times, sequence, startCluster, size, validSize, nameSize, identifier, name,
            nameEntries)
    }

    constructor ()
      ensures Value() == EMPTY
    {
      kind, nameData, attributes, times, sequence := Terminator, [], 0, NO_TIMES, 0;
      startCluster, size, validSize, nameSize, identifier := 0, 0, 0, 0, 0;
      name, nameEntries := None, None;
      owner := null;
    }

    method ReadShortTimes(data: Record)
      requires times == NO_TIMES
      modifies `times
      ensures times == ShortTimes(data)
    {
      times := times.(creationTimeFraction := data[13]);
      times := times.(creationDate := LittleEndian(data[16..18]), creationTime := LittleEndian(data[14..16]));
      times := times.(accessDate := LittleEndian(data[18..20]));
      times := times.(modificationDate := LittleEndian(data[24..26]), modificationTime := LittleEndian(data[22..24]));
    }

    method ReadShortName(data: Record)
      requires times == NO_TIMES
      modifies this
      ensures Value() == old(Value()).(nameData := data[..11], attributes := data[11], times := ShortTimes(data),
                                       startCluster := LittleEndian(data[26..28]), size := LittleEndian(data[28..32]))
    {
      nameData := data[..8];
      nameData := nameData + data[8..11];
      JoinSlices(data, 8, 11);
      attributes := data[11];
      ReadShortTimes(data);
      startCluster := LittleEndian(data[26..28]);
      size := LittleEndian(data[28..32]);
    }

    method ReadDataStream(data: Record)
      modifies this
      ensures Value() == old(Value()).(nameSize := (data[3] as nat) * 2, validSize := LittleEndian(data[8..16]),
                                       startCluster := LittleEndian(data[20..24]), size := LittleEndian(data[24..32]))
    {
      nameSize := data[3];
      validSize := LittleEndian(data[8..16]);
      startCluster := LittleEndian(data[20..24]);
      size := LittleEndian(data[24..32]);
      nameSize := nameSize * 2;
    }

    method ReadFileEntry(data: Record)
      requires times == NO_TIMES
      modifies this
      ensures Value() == old(Value()).(attributes := LittleEndian(data[4..6]), times := FileTimes(data))
    {
      attributes := LittleEndian(data[4..6]);
      times := times.(creationDate := LittleEndian(data[10..12]), creationTime := LittleEndian(data[8..10]));
      times := times.(modificationDate := LittleEndian(data[14..16]), modificationTime := LittleEndian(data[12..14]));
      times := times.(accessDate := LittleEndian(data[18..20]), accessTime := LittleEndian(data[16..18]));
      times := times.(creationTimeFraction := data[20], modificationTimeFraction := data[21]);
      times := times.(creationTimeUtcOffset := data[22], accessTimeUtcOffset := data[24]);
      times := times.(modificationTimeUtcOffset := data[23]);
    }

    /** Fills a new entry from a record. */
    method ReadData(data: Record, format: Format) returns (result: ReadResult)
      requires Value() == EMPTY.(identifier := identifier)
      modifies this
      ensures identifier == old(identifier)
      ensures match EntryOf(format, data)
              case None => result == Failed
              case Some(entry) =>
                && result == (if entry.kind.Terminator? then Empty else Read)
                && Value() == entry.(identifier := identifier)
    {
      kind := Classify(format, data);
      result := Read;
      match kind {
        case Terminator =>
          result := Empty;
        case ShortName =>
          ReadShortName(data);
        case VfatLongName =>
          sequence := data[0];
          nameData := data[1..11];
          nameData := nameData + data[14..26];
          nameData := nameData + data[28..32];
        case ExFatDataStream =>
          ReadDataStream(data);
        case ExFatFileEntry =>
          ReadFileEntry(data);
        case ExFatFileEntryName =>
          nameData := data[2..32];
        case ExFatVolumeLabel =>
          nameData := data[2..24];
          nameSize := data[1];
          if 11 < nameSize {
            return Failed;
          }
          nameSize := nameSize * 2;
        case _ =>
      }
    }

    method ReadFileIoHandle(volume: seq<byte>, offset: int, format: Format) returns (result: ReadResult)
      requires Value() == EMPTY.(identifier := identifier)
      modifies this
      ensures identifier == old(identifier)
      ensures match ReadAt(format, volume, offset)
              case None => result == Failed
              case Some(entry) =>
                && result == (if entry.kind.Terminator? then Empty else Read)
                && Value() == entry.(identifier := identifier)
    {
      if !Inside(volume, offset) {
        return Failed;
      }
      result := ReadData(RecordAt(volume, offset), format);
    }

    /** Determines the name of an entry that has none yet; nothing but the name changes. */
    method GetName() returns (ok: bool)
      requires WellFormed(Value()) && name.None?
      modifies `name
      ensures ok == (NameOf(old(Value())).Some? ||
                        (old(nameEntries).None? && !kind.ShortName? && !kind.ExFatVolumeLabel?))
      ensures Value() == old(Value()).(name := NameOf(old(Value())))
    {
      ok := true;
      if nameEntries.Some? {
        ok := GetNameFromExFatFileNameEntries(nameEntries.value);
      } else if kind.ShortName? {
        var text := CopyShortName(nameData, HasLabelFlag(attributes));
        name := Some(Name(text, false));
      } else if kind.ExFatVolumeLabel? {
        name := Some(Name(nameData[..nameSize] + [0, 0], true));
      }
    }

    method GetNameFromExFatFileNameEntries(chunks: seq<seq<byte>>) returns (ok: bool)
      requires ChunksOf(chunks, 30) && name.None?
      modifies `name
      ensures ok == ExFatName(chunks).Some?
      ensures Value() == old(Value()).(name := ExFatName(chunks))
    {
      if |chunks| == 0 || 9 < |chunks| {
        return false;
      }
      var text := new byte[30 * |chunks| + 2];
      for index := 0 to |chunks|
        invariant text[..30 * index] == Joined(chunks[..index])
        modifies text
      {
        CopyChunk(text, 30 * index, chunks[index]);
        assert chunks[..index + 1][..index] == chunks[..index];
      }
      assert chunks[..|chunks|] == chunks && 30 * |chunks| == text.Length - 2;
      assert text[..text.Length - 2] == Joined(chunks);
      var cut := TerminateAndCut(text);
      name := Some(Name(cut, true));
      ok := true;
    }

    method GetNameFromVfatLongFileNameEntries(chunks: seq<seq<byte>>) returns (ok: bool)
      requires ChunksOf(chunks, 26) && name.None?
      modifies `name
      ensures ok == VfatName(chunks).Some?
      ensures Value() == old(Value()).(name := VfatName(chunks))
    {
      if |chunks| == 0 || 20 < |chunks| {
        return false;
      }
      var text := new byte[26 * |chunks| + 2];
      var index, offset := |chunks|, 0;
      while 0 < index
        invariant 0 <= index <= |chunks| && offset == 26 * (|chunks| - index)
        invariant text[..offset] == JoinedBackwards(chunks[index..])
        modifies text
      {
        index := index - 1;
        CopyChunk(text, offset, chunks[index]);
        offset := offset + 26;
        assert chunks[index..][1..] == chunks[index + 1..];
      }
      assert chunks[0..] == chunks && offset == text.Length - 2;
      assert text[..text.Length - 2] == JoinedBackwards(chunks);
      var cut := TerminateAndCut(text);
      name := Some(Name(cut, true));
      ok := true;
    }
  }

  method CopyChunk(text: array<byte>, offset: nat, chunk: seq<byte>)
    requires offset + |chunk| <= text.Length
    modifies text
    ensures text[..offset + |chunk|] == old(text[..offset]) + chunk
  {
    forall i | 0 <= i < |chunk| {
      text[offset + i] := chunk[i];
    }
  }

  /** Puts a NUL unit at the end of a name buffer and cuts the name at its first NUL unit. */
  method TerminateAndCut(text: array<byte>) returns (cut: seq<byte>)
    requires 2 <= text.Length
    modifies text
    ensures cut == CutAtNul(old(text[..text.Length - 2]) + [0, 0])
  {
    text[text.Length - 2] := 0;
    text[text.Length - 1] := 0;
    ghost var whole := text[..];
    assert whole == old(text[..text.Length - 2]) + [0, 0];
    var offset := 0;
    while offset + 1 < text.Length
      invariant 0 <= offset <= text.Length
      invariant NameEnd(whole, 0) == NameEnd(whole, offset)
      modifies {}
    {
      if text[offset] == 0 && text[offset + 1] == 0 {
        offset := offset + 2;
        break;
      }
      offset := offset + 2;
    }
    cut := text[..offset];
  }

  method CopyWord(bytes: seq<byte>) returns (word: seq<byte>)
    ensures word == Word(bytes)
  {
    word := [];
    var index := 0;
    while index < |bytes|
      invariant 0 <= index <= |bytes|
      invariant Word(bytes) == word + Word(bytes[index..])
    {
      if bytes[index] == 0x20 {
        return;
      }
      word := word + [bytes[index]];
      index := index + 1;
    }
  }

  method CopyShortName(nameData: seq<byte>, isLabel: bool) returns (text: seq<byte>)
    requires |nameData| == 11
    ensures text == ShortNameOf(nameData, isLabel) + [0]
  {
    text := CopyWord(nameData[..8]);
    var index := 8;
    ghost var start, extension := text, Word(nameData[8..11]);
    while index < 11
      invariant 8 <= index <= 11
      invariant start + (if extension == [] || isLabel then extension else [0x2e] + extension)
                == text + (if index == 8 && extension != [] && !isLabel then [0x2e] else []) + Word(nameData[index..11])
    {
      if nameData[index] == 0x20 {
        break;
      }
      if index == 8 && !isLabel {
        text := text + [0x2e];
      }
      text := text + [nameData[index]];
      index := index + 1;
    }
    text := text + [0];
  }
}

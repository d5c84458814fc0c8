/**
  Reading the allocation table, sector by sector, together with the reversed table that leads from a
  cluster back to the one before it.
 */
module AllocationTable {
  import opened Arithmetic
  import opened Common

  // ----- what the loop decodes

  /** The lower and upper entry of the 24 bits of a FAT12 group. */
  function Lower(number: nat): nat {
    number % 0x1000
  }

  function Upper(number: nat): nat {
    number / 0x1000
  }

  /** A decoded entry, and the number that is compared with the number of clusters before its reversed
      entry is written: for a lower FAT12 entry that is the whole 24-bit group. */
  datatype Decoded = Decoded(number: nat, tested: nat)

  /** Bytes per entry; FAT12 takes groups of two entries. */
  function Width(format: Format): nat {
    match format
    case Fat12 => 3
    case Fat16 => 2
    case Fat32 => 4
    case ExFat => 4
  }

  function DecodeBytes(format: Format, bytes: seq<byte>): seq<Decoded> {
    var number := LittleEndian(bytes);
    if format == Fat12 then [Decoded(Lower(number), number), Decoded(Upper(number), Upper(number))]
    else [Decoded(number, number)]
  }

  /** Whether the loop, standing at an offset of a sector, never reads behind the buffer, which is two
      bytes longer than the sector. */
  ghost predicate Aligned(format: Format, size: nat, at: int) {
    match format
    case Fat12 => 0 <= at
    case Fat16 => 0 <= at <= size && (size - at) % 2 == 0
    case Fat32 => 0 <= at <= size && (size - at) % 4 == 0
    case ExFat => 0 <= at <= size && (size - at) % 4 == 0
  }

  lemma AlignedNext(format: Format, size: nat, at: nat)
    requires Aligned(format, size, at) && at < size
    ensures Aligned(format, size, at + Width(format)) && at + Width(format) <= size + 2
  {
  }

  /** The entries decoded from an offset of a sector on. */
  ghost function EntriesFrom(format: Format, sector: seq<byte>, at: nat): seq<Decoded>
    requires Aligned(format, |sector|, at)
    decreases |sector| - at
  {
    if |sector| <= at then []
    else
      AlignedNext(format, |sector|, at);
      DecodeBytes(format, (sector + [0, 0])[at..at + Width(format)]) + EntriesFrom(format, sector, at + Width(format))
  }

  /** Sectors that hold whole entries; the accepted sector sizes do. */
  ghost predicate SectorFits(io: IoHandle) {
    0 < io.bytesPerSector && Aligned(io.format, io.bytesPerSector, 0)
  }

  lemma AcceptedSectorsFit(io: IoHandle)
    requires io.SectorSizeOk()
    ensures SectorFits(io)
  {
  }

  /** The entries decoded from a table: decoding starts afresh at every sector. */
  ghost function TableEntries(io: IoHandle, data: seq<byte>): seq<Decoded>
    requires SectorFits(io)
    decreases |data|
  {
    if |data| < io.bytesPerSector then []
    else EntriesFrom(io.format, data[..io.bytesPerSector], 0) + TableEntries(io, data[io.bytesPerSector..])
  }

  /** The entries decoded from the buffer, from an offset on, when a number of bytes was read into it: the last
      entry may take bytes behind those that were read. */
  ghost function BufferEntries(format: Format, buffer: seq<byte>, size: nat, at: nat): seq<Decoded>
    requires size + 2 <= |buffer| && Aligned(format, |buffer| - 2, at)
    decreases size - at
  {
    if size <= at then []
    else
      AlignedNext(format, |buffer| - 2, at);
      DecodeBytes(format, buffer[at..at + Width(format)]) + BufferEntries(format, buffer, size, at + Width(format))
  }

  /** The entries decoded from a table of any size; the last part of it may leave bytes of the sector before it in
      the buffer, or what was there when it was allocated. */
  ghost function AllEntries(io: IoHandle, data: seq<byte>, buffer: seq<byte>): seq<Decoded>
    requires SectorFits(io) && |buffer| == io.bytesPerSector + 2
    decreases |data|
  {
    if data == [] then []
    else
      var size := Min(io.bytesPerSector, |data|);
      var buffer' := data[..size] + buffer[size..];
      BufferEntries(io.format, buffer', size, 0) + AllEntries(io, data[size..], buffer')
  }

  lemma {:induction false} SectorEntries(format: Format, sector: seq<byte>, at: nat)
    requires Aligned(format, |sector|, at)
    ensures BufferEntries(format, sector + [0, 0], |sector|, at) == EntriesFrom(format, sector, at)
    decreases |sector| - at
  {
    if at < |sector| {
      AlignedNext(format, |sector|, at);
      SectorEntries(format, sector, at + Width(format));
    }
  }

  /** Of a table of whole sectors nothing is decoded but what was read. */
  lemma {:induction false} WholeTable(io: IoHandle, data: seq<byte>, buffer: seq<byte>)
    requires SectorFits(io) && |data| % io.bytesPerSector == 0
    requires |buffer| == io.bytesPerSector + 2 && buffer[io.bytesPerSector..] == [0, 0]
    ensures AllEntries(io, data, buffer) == TableEntries(io, data)
    decreases |data|
  {
    if data != [] {
      var size := io.bytesPerSector;
      WholeSectorLeft(size, |data|);
      SectorEntries(io.format, data[..size], 0);
      WholeTable(io, data[size..], data[..size] + [0, 0]);
    }
  }

  // ----- what the two tables hold

  /** The last entry that makes a reversed entry for cluster j in a table of n entries, or 0. */
  ghost function LastLink(entries: seq<Decoded>, n: nat, j: nat): nat {
    if entries == [] then 0
    else
      var last := |entries| - 1;
      if entries[last].number == j && entries[last].tested < n then last else LastLink(entries[..last], n, j)
  }

  /** Both tables after these entries were stored. */
  ghost predicate Filled(entries: seq<Decoded>, table: array<nat>, reversed: array?<nat>)
    reads table, reversed
  {
    && |entries| <= table.Length
    && (forall i :: 0 <= i < |entries| ==> table[i] == entries[i].number)
    && (forall i :: |entries| <= i < table.Length ==> table[i] == 0)
    && (reversed != null ==>
          && reversed.Length == table.Length
          && forall j :: 0 <= j < table.Length ==> reversed[j] == LastLink(entries, table.Length, j))
  }

  /** Both tables after the bytes of an allocation table were read, as far as the entries fit. */
  ghost predicate FilledFrom(io: IoHandle, data: seq<byte>, table: array<nat>, reversed: array?<nat>)
    requires io.SectorSizeOk()
    reads table, reversed
  {
    var all := TableEntries(io, data);
    Filled(all[..Min(table.Length, |all|)], table, reversed)
  }

  /** The same for bytes of any number, given the buffer before them. */
  ghost predicate FilledBehind(io: IoHandle, data: seq<byte>, buffer: seq<byte>, table: array<nat>,
                               reversed: array?<nat>)
    requires io.SectorSizeOk()
    reads table, reversed
  {
    && |buffer| == io.bytesPerSector + 2 && buffer[io.bytesPerSector..] == [0, 0]
    && var all := AllEntries(io, data, buffer);
       Filled(all[..Min(table.Length, |all|)], table, reversed)
  }

  /** Stores one entry, and its reversed entry when the tested number is below the number of clusters. */
  method StoreEntry(ghost entries: seq<Decoded>, table: array<nat>, reversed: array?<nat>,
                    index: nat, number: nat, tested: nat)
    requires table != reversed && Filled(entries, table, reversed)
    requires index == |entries| < table.Length && number <= tested
    modifies table, reversed
    ensures Filled(entries + [Decoded(number, tested)], table, reversed)
  {
    ghost var entries' := entries + [Decoded(number, tested)];
    assert entries'[..|entries|] == entries;
    table[index] := number;
    if reversed != null && tested < table.Length {
      reversed[number] := index;
    }
  }

  // ----- the loops

  /** What is stored, out of all entries: a prefix, and if the table is not full yet, `rest` is left. */
  ghost predicate Stored(all: seq<Decoded>, stored: seq<Decoded>, rest: seq<Decoded>, n: nat) {
    stored <= all && |stored| <= n && (|stored| < n ==> all == stored + rest)
  }

  /** One turn of the decoding loop: stores the entries of the next bytes; only the first of a FAT12
      group when the table is full then. */
  method ReadEntries(format: Format, buffer: array<byte>, tableDataOffset0: nat,
                     table: array<nat>, reversed: array?<nat>, tableIndex0: nat, ghost stored0: seq<Decoded>)
    returns (tableDataOffset: nat, tableIndex: nat, ghost stored: seq<Decoded>)
    requires table != reversed && (buffer as object) != table && (buffer as object) != reversed
    requires tableDataOffset0 + Width(format) <= buffer.Length
    requires Filled(stored0, table, reversed) && tableIndex0 == |stored0| < table.Length
    modifies table, reversed
    ensures Filled(stored, table, reversed) && tableIndex == |stored|
    ensures tableDataOffset == tableDataOffset0 + Width(format)
    ensures var all := stored0 + DecodeBytes(format, buffer[tableDataOffset0..tableDataOffset0 + Width(format)]);
      stored == all || (|stored| == table.Length && stored <= all)
  {
    tableDataOffset, tableIndex, stored := tableDataOffset0, tableIndex0, stored0;
    var clusterNumber: nat;
    match format {
      case Fat12 =>
        clusterNumber := LittleEndian(buffer[tableDataOffset..tableDataOffset + 3]);
        tableDataOffset := tableDataOffset + 3;
        StoreEntry(stored, table, reversed, tableIndex, Lower(clusterNumber), clusterNumber);
        stored := stored + [Decoded(Lower(clusterNumber), clusterNumber)];
        tableIndex := tableIndex + 1;
        if tableIndex >= table.Length {
          return;
        }
        clusterNumber := Upper(clusterNumber);
      case Fat16 =>
        clusterNumber := LittleEndian(buffer[tableDataOffset..tableDataOffset + 2]);
        tableDataOffset := tableDataOffset + 2;
      case _ =>
        clusterNumber := LittleEndian(buffer[tableDataOffset..tableDataOffset + 4]);
        tableDataOffset := tableDataOffset + 4;
    }
    StoreEntry(stored, table, reversed, tableIndex, clusterNumber, clusterNumber);
    stored := stored + [Decoded(clusterNumber, clusterNumber)];
    tableIndex := tableIndex + 1;
  }

  lemma StoredMore(all: seq<Decoded>, stored0: seq<Decoded>, next: seq<Decoded>, rest: seq<Decoded>,
                   stored: seq<Decoded>, n: nat)
    requires Stored(all, stored0, next + rest, n) && |stored0| < n && |stored| <= n
    requires stored == stored0 + next || (|stored| == n && stored <= stored0 + next)
    ensures Stored(all, stored, rest, n)
  {
    assert all == (stored0 + next) + rest;
  }

  /** Decodes the entries of one sector, or of the part of it that was read, in the buffer. */
  method ReadSector(io: IoHandle, ghost content: seq<byte>, buffer: array<byte>, readSize: nat,
                    table: array<nat>, reversed: array?<nat>, tableIndex0: nat, ghost stored0: seq<Decoded>)
    returns (tableIndex: nat, ghost stored: seq<Decoded>)
    requires readSize + 2 <= |content| && Aligned(io.format, |content| - 2, 0) && buffer[..] == content
    requires (buffer as object) != table && (buffer as object) != reversed && table != reversed
    requires Filled(stored0, table, reversed) && tableIndex0 == |stored0|
    modifies table, reversed
    ensures Filled(stored, table, reversed) && tableIndex == |stored|
    ensures Stored(stored0 + BufferEntries(io.format, content, readSize, 0), stored, [], table.Length)
  {
    tableIndex, stored := tableIndex0, stored0;
    ghost var all := stored0 + BufferEntries(io.format, content, readSize, 0);
    var tableDataOffset := 0;
    while tableDataOffset < readSize
      invariant buffer[..] == content
      invariant Aligned(io.format, |content| - 2, tableDataOffset)
      invariant Filled(stored, table, reversed) && tableIndex == |stored|
      invariant Stored(all, stored, BufferEntries(io.format, content, readSize, tableDataOffset), table.Length)
      decreases readSize - tableDataOffset
    {
      if tableIndex >= table.Length {
        break;
      }
      AlignedNext(io.format, |content| - 2, tableDataOffset);
      ghost var at, before := tableDataOffset, stored;
      ghost var bytes := content[at..at + Width(io.format)];
      assert bytes == buffer[at..at + Width(io.format)];
      tableDataOffset, tableIndex, stored :=
        ReadEntries(io.format, buffer, tableDataOffset, table, reversed, tableIndex, stored);
      StoredMore(all, before, DecodeBytes(io.format, bytes),
                 BufferEntries(io.format, content, readSize, tableDataOffset), stored, table.Length);
    }
  }

  /** What is left of a table that ends at an offset of the volume. */
  ghost predicate Remaining(io: IoHandle, volume: seq<byte>, start: nat, end: nat, all: seq<Decoded>,
                            stored: seq<Decoded>, rest: seq<byte>, content: seq<byte>, n: nat)
    requires SectorFits(io) && |content| == io.bytesPerSector + 2
  {
    && start <= end <= |volume| && rest == volume[start..end]
    && Stored(all, stored, AllEntries(io, rest, content), n)
  }

  /** Reads and decodes one sector, or what is left of the table in it. */
  method LoadSector(io: IoHandle, volume: seq<byte>, fileOffset: nat, readSize: nat, ghost end: nat,
                    buffer: array<byte>, table: array<nat>, reversed: array?<nat>, tableIndex0: nat,
                    ghost stored0: seq<Decoded>, ghost inside: bool, ghost all: seq<Decoded>, ghost rest: seq<byte>)
    returns (tableIndex: nat, ghost stored: seq<Decoded>)
    requires SectorFits(io) && buffer.Length == io.bytesPerSector + 2
    requires fileOffset < end && readSize == Min(io.bytesPerSector, end - fileOffset)
    requires fileOffset + readSize <= |volume|
    requires (buffer as object) != table && (buffer as object) != reversed && table != reversed
    requires Filled(stored0, table, reversed) && tableIndex0 == |stored0|
    requires inside ==> Remaining(io, volume, fileOffset, end, all, stored0, rest, buffer[..], table.Length)
    modifies buffer, table, reversed
    ensures Filled(stored, table, reversed) && tableIndex == |stored|
    ensures inside ==>
              && readSize <= |rest|
              && Remaining(io, volume, fileOffset + readSize, end, all, stored, rest[readSize..],
                           buffer[..], table.Length)
  {
    ghost var part, content := volume[fileOffset..fileOffset + readSize], buffer[..];
    forall i | 0 <= i < readSize {
      buffer[i] := volume[fileOffset + i];
    }
    ghost var content' := part + content[readSize..];
    assert buffer[..] == content';
    tableIndex, stored := ReadSector(io, content', buffer, readSize, table, reversed, tableIndex0, stored0);
    if inside {
      SliceInTwo(volume, fileOffset, readSize, end);
      SectorStored(all, stored0, BufferEntries(io.format, content', readSize, 0),
                   AllEntries(io, rest[readSize..], content'), stored, table.Length);
    }
  }

  /** Reads the table sector by sector. */
  method ReadSectors(io: IoHandle, volume: seq<byte>, fileOffset0: nat, size: nat, buffer: array<byte>,
                     table: array<nat>, reversed: array?<nat>, ghost inside: bool, ghost rest0: seq<byte>)
    returns (ok: bool, ghost stored: seq<Decoded>)
    requires SectorFits(io) && buffer.Length == io.bytesPerSector + 2
    requires (buffer as object) != table && (buffer as object) != reversed && table != reversed
    requires Filled([], table, reversed)
    requires inside == (fileOffset0 + size <= |volume|)
    requires inside ==> rest0 == volume[fileOffset0..fileOffset0 + size]
    modifies buffer, table, reversed
    ensures ok == (size == 0 || inside)
    ensures ok && inside ==>
              var all := AllEntries(io, rest0, old(buffer[..]));
              Filled(all[..Min(table.Length, |all|)], table, reversed)
  {
    var readSize := io.bytesPerSector;
    var fileOffset: nat, left: nat, tableIndex: nat := fileOffset0, size, 0;
    stored := [];
    ghost var rest, all := rest0, if inside then AllEntries(io, rest0, buffer[..]) else [];
    while 0 < left
      invariant fileOffset + left == fileOffset0 + size
      invariant 0 < left ==> readSize == io.bytesPerSector
      invariant Filled(stored, table, reversed) && tableIndex == |stored|
      invariant inside ==>
                  Remaining(io, volume, fileOffset, fileOffset0 + size, all, stored, rest, buffer[..], table.Length)
      invariant left < size ==> fileOffset <= |volume|
    {
      if readSize > left {
        readSize := left;
      }
      if fileOffset + readSize > |volume| {
        return false, stored;
      }
      tableIndex, stored :=
        LoadSector(io, volume, fileOffset, readSize, fileOffset0 + size, buffer, table, reversed, tableIndex, stored,
                   inside, all, rest);
      rest := if inside then rest[readSize..] else [];
      fileOffset := fileOffset + readSize;
      left := left - readSize;
    }
    if inside {
      AllStored(io, all, stored, rest, buffer[..], table.Length);
    }
    ok := true;
  }

  /** Reads the allocation table at an offset of the volume.  Succeeds exactly when the table lies inside the
      volume; then both tables hold what its entries say, and zeros elsewhere, given what was in the buffer at
      first.  For a table of whole sectors the entries are those of its bytes alone. */
  method ReadFileIoHandle(io: IoHandle, volume: seq<byte>, fileOffset0: nat, size: nat,
                          table: array<nat>, reversed: array?<nat>)
    returns (ok: bool, ghost before: seq<byte>)
    requires io.bytesPerSector in {512, 1024, 2048, 4096}
    requires table != reversed
    requires forall i :: 0 <= i < table.Length ==> table[i] == 0
    requires reversed != null ==>
               reversed.Length == table.Length && forall i :: 0 <= i < table.Length ==> reversed[i] == 0
    modifies table, reversed
    ensures ok <==> size == 0 || fileOffset0 + size <= |volume|
    ensures ok && 0 < size ==>
              && FilledBehind(io, volume[fileOffset0..fileOffset0 + size], before, table, reversed)
              && (size % io.bytesPerSector == 0 ==>
                    FilledFrom(io, volume[fileOffset0..fileOffset0 + size], table, reversed))
  {
    AcceptedSectorsFit(io);
    var buffer := new byte[io.bytesPerSector + 2];
    buffer[io.bytesPerSector] := 0;
    buffer[io.bytesPerSector + 1] := 0;
    before := buffer[..];
    assert before[io.bytesPerSector..] == [0, 0];
    ghost var inside := fileOffset0 + size <= |volume|;
    ghost var rest := if inside then volume[fileOffset0..fileOffset0 + size] else [];
    ghost var stored;
    ok, stored := ReadSectors(io, volume, fileOffset0, size, buffer, table, reversed, inside, rest);
    if ok && 0 < size {
      assert FilledBehind(io, rest, before, table, reversed);
      if size % io.bytesPerSector == 0 {
        WholeTable(io, rest, before);
      }
    }
  }

  lemma SliceInTwo(volume: seq<byte>, start: nat, width: nat, end: nat)
    requires start + width <= end <= |volume|
    ensures volume[start..end][..width] == volume[start..start + width]
    ensures volume[start..end][width..] == volume[start + width..end]
  {
  }

  lemma AllStored(io: IoHandle, all: seq<Decoded>, stored: seq<Decoded>, rest: seq<byte>, content: seq<byte>, n: nat)
    requires SectorFits(io) && |content| == io.bytesPerSector + 2
    requires rest == [] && Stored(all, stored, AllEntries(io, rest, content), n)
    ensures stored == all[..Min(n, |all|)]
  {
  }

  lemma WholeSectorLeft(bytesPerSector: nat, left: nat)
    requires 0 < bytesPerSector && 0 < left && left % bytesPerSector == 0
    ensures bytesPerSector <= left && (left - bytesPerSector) % bytesPerSector == 0
  {
    var q := left / bytesPerSector;
    assert left == q * bytesPerSector;
    MulMonotonic(1, q, bytesPerSector);
    DivModUnique(bytesPerSector, q - 1, 0);
    assert (q - 1) * bytesPerSector + 0 == left - bytesPerSector;
  }

  lemma SectorStored(all: seq<Decoded>, before: seq<Decoded>, next: seq<Decoded>, rest: seq<Decoded>,
                     stored: seq<Decoded>, n: nat)
    requires Stored(all, before, next + rest, n) && Stored(before + next, stored, [], n)
    ensures Stored(all, stored, rest, n)
  {
    if |before| < n {
      assert all == (before + next) + rest;
    }
  }

  // ----- what the entries are, for the formats with whole-byte entries

  /** Offset of entry i of a format with whole-byte entries. */
  function EntryOffset(format: Format, i: nat): nat {
    if format == Fat16 then 2 * i else 4 * i
  }

  lemma {:induction false} WideEntryFrom(format: Format, sector: seq<byte>, at: nat, i: nat)
    requires format != Fat12 && Aligned(format, |sector|, at)
    requires at + EntryOffset(format, i) < |sector|
    ensures at + EntryOffset(format, i) + Width(format) <= |sector|
    ensures i < |EntriesFrom(format, sector, at)|
    ensures var start := at + EntryOffset(format, i);
      var number := LittleEndian(sector[start..start + Width(format)]);
      EntriesFrom(format, sector, at)[i] == Decoded(number, number)
    decreases i
  {
    var width := Width(format);
    AlignedNext(format, |sector|, at);
    if i == 0 {
      assert (sector + [0, 0])[at..at + width] == sector[at..at + width];
    } else {
      WideEntryFrom(format, sector, at + width, i - 1);
    }
  }

  lemma {:induction false} WideCountFrom(format: Format, sector: seq<byte>, at: nat)
    requires format != Fat12 && Aligned(format, |sector|, at)
    ensures EntryOffset(format, |EntriesFrom(format, sector, at)|) == |sector| - at
    decreases |sector| - at
  {
    if at < |sector| {
      AlignedNext(format, |sector|, at);
      WideCountFrom(format, sector, at + Width(format));
    }
  }

  /** One entry per entry width: entry i is the little-endian number at byte width * i, and it is the
      number that is tested. */
  ghost predicate OneEntryPerWidth(format: Format, data: seq<byte>, entries: seq<Decoded>) {
    && EntryOffset(format, |entries|) == |data|
    && forall i :: 0 <= i < |entries| ==> EntryAt(format, data, i, entries[i])
  }

  ghost predicate EntryAt(format: Format, data: seq<byte>, i: nat, entry: Decoded) {
    var start := EntryOffset(format, i);
    && start + Width(format) <= |data|
    && var number := LittleEndian(data[start..start + Width(format)]);
       entry == Decoded(number, number)
  }

  lemma EntryInFirst(format: Format, a: seq<byte>, b: seq<byte>, i: nat, entry: Decoded)
    requires EntryAt(format, a, i, entry)
    ensures EntryAt(format, a + b, i, entry)
  {
    var start, width := EntryOffset(format, i), Width(format);
    assert (a + b)[start..start + width] == a[start..start + width];
  }

  lemma EntryInSecond(format: Format, a: seq<byte>, b: seq<byte>, count: nat, i: nat, entry: Decoded)
    requires EntryOffset(format, count) == |a| && EntryAt(format, b, i, entry)
    ensures EntryAt(format, a + b, count + i, entry)
  {
    var start, width := EntryOffset(format, i), Width(format);
    assert EntryOffset(format, count + i) == |a| + start;
    assert (a + b)[|a| + start..|a| + start + width] == b[start..start + width];
  }

  lemma ConcatEntries(format: Format, a: seq<byte>, b: seq<byte>, first: seq<Decoded>, more: seq<Decoded>)
    requires format != Fat12
    requires OneEntryPerWidth(format, a, first) && OneEntryPerWidth(format, b, more)
    ensures OneEntryPerWidth(format, a + b, first + more)
  {
    var entries := first + more;
    forall i | 0 <= i < |entries|
      ensures EntryAt(format, a + b, i, entries[i])
    {
      if i < |first| {
        EntryInFirst(format, a, b, i, first[i]);
      } else {
        EntryInSecond(format, a, b, |first|, i - |first|, more[i - |first|]);
      }
    }
  }

  /** FAT16, FAT32 and exFAT: sector boundaries leave no trace in the decoded table. */
  lemma {:induction false} WideEntries(io: IoHandle, data: seq<byte>)
    requires SectorFits(io) && io.format != Fat12 && |data| % io.bytesPerSector == 0
    ensures OneEntryPerWidth(io.format, data, TableEntries(io, data))
    decreases |data|
  {
    if data != [] {
      WholeSectorLeft(io.bytesPerSector, |data|);
      var sector, rest := data[..io.bytesPerSector], data[io.bytesPerSector..];
      WideSector(io.format, sector);
      WideEntries(io, rest);
      ConcatEntries(io.format, sector, rest, EntriesFrom(io.format, sector, 0), TableEntries(io, rest));
      assert sector + rest == data;
    }
  }

  lemma WideSector(format: Format, sector: seq<byte>)
    requires format != Fat12 && Aligned(format, |sector|, 0)
    ensures OneEntryPerWidth(format, sector, EntriesFrom(format, sector, 0))
  {
    WideCountFrom(format, sector, 0);
    forall i | 0 <= i < |EntriesFrom(format, sector, 0)|
      ensures EntryAt(format, sector, i, EntriesFrom(format, sector, 0)[i])
    {
      WideEntryFrom(format, sector, 0, i);
    }
  }

  // ----- the reversed table leads back

  /** A reversed entry is the greatest index that links to its cluster. */
  lemma {:induction false} LastLinkIsGreatest(entries: seq<Decoded>, n: nat, j: nat)
    ensures var last := LastLink(entries, n, j);
      && (last != 0 ==> last < |entries| && entries[last].number == j && entries[last].tested < n)
      && (forall i :: 0 < i < |entries| && entries[i].number == j && entries[i].tested < n ==> i <= last)
  {
    if entries != [] {
      LastLinkIsGreatest(entries[..|entries| - 1], n, j);
    }
  }

  /** Entries that are tested as they are stored: all but the lower FAT12 ones. */
  ghost predicate Plain(entries: seq<Decoded>) {
    forall i :: 0 <= i < |entries| ==> entries[i].tested == entries[i].number
  }

  /** Whatever the table holds: a reversed entry that is set points to an entry that points back.  And
      every plain entry i >= 1 whose number is a cluster of the table is recorded, the greatest one
      winning. */
  lemma ReversedPointsBack(entries: seq<Decoded>, table: array<nat>, reversed: array<nat>)
    requires Filled(entries, table, reversed)
    ensures forall j :: 0 <= j < table.Length && reversed[j] != 0 ==>
              reversed[j] < |entries| && table[reversed[j]] == j
    ensures forall i :: 0 < i < |entries| && entries[i].tested == table[i] < table.Length ==> i <= reversed[table[i]]
  {
    forall j | 0 <= j < table.Length
      ensures reversed[j] != 0 ==> reversed[j] < |entries| && table[reversed[j]] == j
      ensures forall i :: 0 < i < |entries| && entries[i].tested == table[i] == j ==> i <= reversed[j]
    {
      LastLinkIsGreatest(entries, table.Length, j);
    }
  }

  /** No other entry has the successor of entry i. */
  ghost predicate OwnSuccessor(entries: seq<Decoded>, i: nat)
    requires i < |entries|
  {
    forall a :: 0 < a < |entries| && a != i ==> entries[a].number != entries[i].number
  }

  /** A link to a cluster that no other entry leads to is recorded exactly when its tested number passes. */
  lemma LinkRecordedIff(entries: seq<Decoded>, table: array<nat>, reversed: array<nat>, i: nat)
    requires Filled(entries, table, reversed)
    requires 0 < i < |entries| && table[i] < table.Length && OwnSuccessor(entries, i)
    ensures reversed[table[i]] == i <==> entries[i].tested < table.Length
  {
    LastLinkIsGreatest(entries, table.Length, table[i]);
  }

  /** A chain of linked entries, none of which shares its successor with another entry. */
  ghost predicate IsOwnChain(entries: seq<Decoded>, chain: seq<nat>) {
    && (forall i :: 0 <= i < |chain| ==> 0 < chain[i] < |entries|)
    && (forall i :: 0 <= i < |chain| - 1 ==>
          entries[chain[i]].number == chain[i + 1] && OwnSuccessor(entries, chain[i]))
  }

  /** Walking the reversed table retraces exactly those links of a chain whose tested number passes. */
  lemma ReversedRetracesChain(entries: seq<Decoded>, table: array<nat>, reversed: array<nat>, chain: seq<nat>)
    requires Filled(entries, table, reversed) && IsOwnChain(entries, chain)
    ensures forall i :: 0 <= i < |chain| - 1 ==>
              (reversed[chain[i + 1]] == chain[i] <==> entries[chain[i]].tested < table.Length)
  {
    forall i | 0 <= i < |chain| - 1
      ensures reversed[chain[i + 1]] == chain[i] <==> entries[chain[i]].tested < table.Length
    {
      LinkRecordedIff(entries, table, reversed, chain[i]);
    }
  }

  /** FAT16, FAT32 and exFAT: the reversed table retraces every chain. */
  lemma WideChainsRetraced(io: IoHandle, data: seq<byte>, table: array<nat>, reversed: array<nat>, chain: seq<nat>)
    requires io.SectorSizeOk() && io.format != Fat12 && |data| % io.bytesPerSector == 0
    requires FilledFrom(io, data, table, reversed)
    requires IsOwnChain(TableEntries(io, data)[..Min(table.Length, |TableEntries(io, data)|)], chain)
    ensures forall i :: 0 <= i < |chain| - 1 ==> reversed[chain[i + 1]] == chain[i]
  {
    var all := TableEntries(io, data);
    WideEntries(io, data);
    ReversedRetracesChain(all[..Min(table.Length, |all|)], table, reversed, chain);
    forall i | 0 <= i < |chain| - 1
      ensures reversed[chain[i + 1]] == chain[i]
    {
      assert EntryAt(io.format, data, chain[i], all[chain[i]]);
    }
  }

  // ----- FAT12

  /** The entries of a group, given its position in a sector. */
  lemma {:induction false} GroupFrom(sector: seq<byte>, at: nat, group: nat)
    requires at + 3 * group < |sector|
    ensures 2 * group + 1 < |EntriesFrom(Fat12, sector, at)|
    ensures EntriesFrom(Fat12, sector, at)[2 * group..2 * group + 2]
         == DecodeBytes(Fat12, (sector + [0, 0])[at + 3 * group..at + 3 * group + 3])
    decreases group
  {
    if group != 0 {
      GroupFrom(sector, at + 3, group - 1);
      var first, rest := DecodeBytes(Fat12, (sector + [0, 0])[at..at + 3]), EntriesFrom(Fat12, sector, at + 3);
      assert (first + rest)[2 * group..2 * group + 2] == rest[2 * (group - 1)..2 * (group - 1) + 2];
    }
  }

  lemma {:induction false} GroupCountFrom(sector: seq<byte>, at: nat)
    requires at <= |sector| + 2
    ensures |EntriesFrom(Fat12, sector, at)| == 2 * ((|sector| + 2 - at) / 3)
    decreases |sector| + 2 - at
  {
    if at < |sector| {
      GroupCountFrom(sector, at + 3);
    }
  }

  /** Index of the last byte that holds a part of a packed 12-bit entry. */
  function LastPackedByte(i: nat): nat {
    3 * (i / 2) + 1 + i % 2
  }

  /** Entry i of the packed table: two entries in every 3 bytes, across the whole table. */
  function Packed12(data: seq<byte>, i: nat): nat
    requires LastPackedByte(i) < |data|
  {
    var at := 3 * (i / 2);
    if i % 2 == 0 then (data[at] as nat) + 0x100 * (data[at + 1] as nat % 0x10)
    else (data[at + 1] as nat) / 0x10 + 0x10 * (data[at + 2] as nat)
  }

  lemma SplitGroup(bytes: seq<byte>)
    requires |bytes| == 3
    ensures Lower(LittleEndian(bytes)) == (bytes[0] as nat) + 0x100 * (bytes[1] as nat % 0x10)
    ensures Upper(LittleEndian(bytes)) == (bytes[1] as nat) / 0x10 + 0x10 * (bytes[2] as nat)
  {
    var b0, b1, b2 := bytes[0] as nat, bytes[1] as nat, bytes[2] as nat;
    assert LittleEndian(bytes[1..][1..][1..]) == 0;
    assert LittleEndian(bytes[1..][1..]) == b2;
    assert LittleEndian(bytes[1..]) == b1 + 0x100 * b2;
    var lo, hi := b0 + 0x100 * (b1 % 0x10), b1 / 0x10 + 0x10 * b2;
    assert LittleEndian(bytes) == hi * 0x1000 + lo;
    DivModUnique(0x1000, hi, lo);
  }

  /** Entry i of a sector, from the bytes of its group; behind the sector they read as zero. */
  lemma EntryOfSector(sector: seq<byte>, i: nat)
    requires 3 * (i / 2) < |sector|
    ensures i < |EntriesFrom(Fat12, sector, 0)|
    ensures EntriesFrom(Fat12, sector, 0)[i].number == Packed12(sector + [0, 0], i)
  {
    var group := i / 2;
    GroupFrom(sector, 0, group);
    var entries := EntriesFrom(Fat12, sector, 0);
    var bytes := (sector + [0, 0])[3 * group..3 * group + 3];
    SplitGroup(bytes);
    assert entries[2 * group..2 * group + 2][i % 2] == entries[i];
  }

  lemma PackedInFirstSector(io: IoHandle, data: seq<byte>, i: nat)
    requires io.SectorSizeOk() && io.format == Fat12
    requires LastPackedByte(i) < io.bytesPerSector <= |data|
    ensures i < |TableEntries(io, data)|
    ensures TableEntries(io, data)[i].number == Packed12(data, i)
  {
    EntryOfSector(data[..io.bytesPerSector], i);
  }

  /** An entry of a sector is zero if all its bytes are, except for bytes behind the sector. */
  lemma ZeroInSector(sector: seq<byte>, i: nat, z: nat)
    requires 3 * (i / 2) < |sector|
    requires forall p :: 0 <= p < z && p < |sector| ==> sector[p] == 0
    requires LastPackedByte(i) < z || (LastPackedByte(i) == z && |sector| <= z)
    ensures i < |EntriesFrom(Fat12, sector, 0)| && EntriesFrom(Fat12, sector, 0)[i].number == 0
  {
    EntryOfSector(sector, i);
  }

  /** Entries that read only zeros: all bytes before position z are zero, and the entry's packed bytes
      lie before z, or its last one is at z but behind the first sector. */
  lemma {:induction false} ZeroEntry(io: IoHandle, data: seq<byte>, i: nat, z: nat)
    requires io.SectorSizeOk() && io.format == Fat12 && |data| % io.bytesPerSector == 0
    requires LastPackedByte(i) < |data|
    requires forall p :: 0 <= p < z && p < |data| ==> data[p] == 0
    requires LastPackedByte(i) < z || (LastPackedByte(i) == z && io.bytesPerSector <= z)
    ensures i < |TableEntries(io, data)|
    ensures TableEntries(io, data)[i].number == 0
    decreases |data|
  {
    var size := io.bytesPerSector;
    WholeSectorLeft(size, |data|);
    var sector, rest, groups := data[..size], data[size..], (size + 2) / 3;
    assert size < 3 * groups <= size + 2;
    GroupCountFrom(sector, 0);
    if i < 2 * groups {
      ZeroInSector(sector, i, z);
    } else {
      ZerosBehind(data, size, z);
      LastPackedShift(i, groups);
      ZeroEntry(io, rest, i - 2 * groups, z - size);
    }
  }

  lemma ZerosBehind(data: seq<byte>, size: nat, z: nat)
    requires size <= |data| && forall p :: 0 <= p < z && p < |data| ==> data[p] == 0
    ensures forall p :: 0 <= p < z - size && p < |data[size..]| ==> data[size..][p] == 0
  {
  }

  lemma LastPackedShift(i: nat, groups: nat)
    requires 2 * groups <= i
    ensures LastPackedByte(i - 2 * groups) == LastPackedByte(i) - 3 * groups
  {
  }

  /** A table of zeros but for one byte. */
  ghost function OneByte(size: nat, at: nat): seq<byte> {
    seq(size, p => if p == at then 0xff else 0)
  }

  lemma PackedElsewhere(io: IoHandle, size: nat, i: nat)
    requires io.SectorSizeOk() && io.format == Fat12 && size % io.bytesPerSector == 0
    requires io.bytesPerSector <= LastPackedByte(i) < size
    ensures var data := OneByte(size, LastPackedByte(i));
      && i < |TableEntries(io, data)|
      && TableEntries(io, data)[i].number != Packed12(data, i)
  {
    ZeroEntry(io, OneByte(size, LastPackedByte(i)), i, LastPackedByte(i));
  }

  /**
    FAT12 entries are decoded as they are packed, whatever the table holds, exactly when their last
    packed byte lies in the first sector; later entries are read from the wrong place because the
    3-byte groups restart at every sector.
   */
  lemma Fat12DecodedIffFirstSector(io: IoHandle, size: nat, i: nat)
    requires io.SectorSizeOk() && io.format == Fat12 && size % io.bytesPerSector == 0
    requires LastPackedByte(i) < size
    ensures
      (forall data: seq<byte> {:trigger TableEntries(io, data)} :: |data| == size ==>
          i < |TableEntries(io, data)| && TableEntries(io, data)[i].number == Packed12(data, i))
      <==> LastPackedByte(i) < io.bytesPerSector
  {
    if LastPackedByte(i) < io.bytesPerSector {
      WholeSectorLeft(io.bytesPerSector, size);
      forall data: seq<byte> | |data| == size
        ensures i < |TableEntries(io, data)| && TableEntries(io, data)[i].number == Packed12(data, i)
      {
        PackedInFirstSector(io, data, i);
      }
    } else {
      PackedElsewhere(io, size, i);
    }
  }

  /** Entries in pairs, of which the lower one is tested together with the upper one. */
  ghost predicate Paired(entries: seq<Decoded>) {
    && |entries| % 2 == 0
    && forall i :: 0 <= i < |entries| ==> PairedAt(entries, i)
  }

  ghost predicate PairedAt(entries: seq<Decoded>, i: nat)
    requires i < |entries| && |entries| % 2 == 0
  {
    && entries[i].number < 0x1000
    && entries[i].tested == entries[i].number + (if i % 2 == 0 then 0x1000 * entries[i + 1].number else 0)
  }

  lemma PairedConcat(a: seq<Decoded>, b: seq<Decoded>)
    requires Paired(a) && Paired(b)
    ensures Paired(a + b)
  {
    forall i | 0 <= i < |a + b|
      ensures PairedAt(a + b, i)
    {
      if i < |a| {
        assert PairedAt(a, i);
      } else {
        assert PairedAt(b, i - |a|);
      }
    }
  }

  lemma GroupIsPaired(bytes: seq<byte>)
    requires |bytes| == 3
    ensures Paired(DecodeBytes(Fat12, bytes))
  {
    SplitGroup(bytes);
  }

  lemma {:induction false} SectorIsPaired(sector: seq<byte>, at: nat)
    requires at <= |sector| + 2
    ensures Paired(EntriesFrom(Fat12, sector, at))
    decreases |sector| + 2 - at
  {
    if at < |sector| {
      var bytes := (sector + [0, 0])[at..at + 3];
      GroupIsPaired(bytes);
      SectorIsPaired(sector, at + 3);
      PairedConcat(DecodeBytes(Fat12, bytes), EntriesFrom(Fat12, sector, at + 3));
    }
  }

  lemma {:induction false} TableIsPaired(io: IoHandle, data: seq<byte>)
    requires SectorFits(io) && io.format == Fat12
    ensures Paired(TableEntries(io, data))
    decreases |data|
  {
    if io.bytesPerSector <= |data| {
      SectorIsPaired(data[..io.bytesPerSector], 0);
      TableIsPaired(io, data[io.bytesPerSector..]);
      PairedConcat(EntriesFrom(Fat12, data[..io.bytesPerSector], 0), TableEntries(io, data[io.bytesPerSector..]));
    }
  }

  /** FAT12: the reversed table retraces a link of a chain exactly when its entry is the upper one of its
      group or the upper entry of its group is free, because the whole group is compared before it is
      masked. */
  lemma LowerEntryRecorded(io: IoHandle, data: seq<byte>, table: array<nat>, reversed: array<nat>, chain: seq<nat>)
    requires io.SectorSizeOk() && io.format == Fat12 && table.Length <= 0x1000
    requires FilledFrom(io, data, table, reversed)
    requires IsOwnChain(TableEntries(io, data)[..Min(table.Length, |TableEntries(io, data)|)], chain)
    ensures forall i :: 0 <= i < |chain| - 1 ==>
              (reversed[chain[i + 1]] == chain[i]
               <==> chain[i] % 2 == 1 || IsFree(TableEntries(io, data), chain[i] + 1))
  {
    TableIsPaired(io, data);
    var all := TableEntries(io, data);
    var entries := all[..Min(table.Length, |all|)];
    ReversedRetracesChain(entries, table, reversed, chain);
    forall i | 0 <= i < |chain| - 1
      ensures all[chain[i]].tested < table.Length <==> chain[i] % 2 == 1 || IsFree(all, chain[i] + 1)
    {
      assert entries[chain[i]].number == chain[i + 1] < |entries|;
      TestedIff(all, chain[i], table.Length);
    }
  }

  lemma TestedIff(entries: seq<Decoded>, i: nat, n: nat)
    requires Paired(entries) && i < |entries| && entries[i].number < n <= 0x1000
    ensures entries[i].tested < n <==> i % 2 == 1 || IsFree(entries, i + 1)
  {
    assert PairedAt(entries, i);
  }

  ghost predicate IsFree(entries: seq<Decoded>, i: nat) {
    i < |entries| && entries[i].number == 0
  }

  /** The entries of a table of one sector. */
  lemma OneSectorEntries(io: IoHandle, data: seq<byte>, i: nat)
    requires io.SectorSizeOk() && io.format == Fat12 && |data| == io.bytesPerSector
    requires i < |TableEntries(io, data)|
    ensures |TableEntries(io, data)| == 2 * ((|data| + 2) / 3)
    ensures TableEntries(io, data)[i].number == Packed12(data + [0, 0], i)
  {
    assert data[..io.bytesPerSector] == data;
    assert TableEntries(io, data) == EntriesFrom(Fat12, data, 0);
    GroupCountFrom(data, 0);
    EntryOfSector(data, i);
  }

  /** Entry 2 is 3 and entry 3 is the end of a chain. */
  function LostLinkData(size: nat): (data: seq<byte>)
    ensures |data| == size
  {
    seq(size, p => if p == 3 then 0x03 else if p == 4 then 0xf0 else if p == 5 then 0xff else 0)
  }

  lemma LostLinkEntry(io: IoHandle, i: nat)
    requires io.SectorSizeOk() && io.format == Fat12
    requires i < |TableEntries(io, LostLinkData(io.bytesPerSector))|
    ensures TableEntries(io, LostLinkData(io.bytesPerSector))[i].number ==
            if i == 2 then 3 else if i == 3 then 0xfff else 0
  {
    OneSectorEntries(io, LostLinkData(io.bytesPerSector), i);
  }

  /** A FAT12 table in which cluster 2 leads to cluster 3, which ends the chain: the reversed table does not
      lead back. */
  lemma LinkLost(io: IoHandle, table: array<nat>, reversed: array<nat>)
    requires io.SectorSizeOk() && io.format == Fat12 && 4 <= table.Length <= 0x1000
    requires FilledFrom(io, LostLinkData(io.bytesPerSector), table, reversed)
    ensures table[2] == 3 && table[3] == 0xfff && reversed[3] == 0
  {
    var data := LostLinkData(io.bytesPerSector);
    PackedInFirstSector(io, data, 3);
    LostLinkEntry(io, 2);
    LostLinkEntry(io, 3);
    TableIsPaired(io, data);
    LastIsLost(io, TableEntries(io, data)[..Min(table.Length, |TableEntries(io, data)|)], table.Length);
  }

  lemma LastIsLost(io: IoHandle, entries: seq<Decoded>, n: nat)
    requires io.SectorSizeOk() && io.format == Fat12 && 4 <= n <= 0x1000
    requires entries <= TableEntries(io, LostLinkData(io.bytesPerSector))
    ensures LastLink(entries, n, 3) == 0
  {
    var last := LastLink(entries, n, 3);
    LastLinkIsGreatest(entries, n, 3);
    if last != 0 {
      var all := TableEntries(io, LostLinkData(io.bytesPerSector));
      TableIsPaired(io, LostLinkData(io.bytesPerSector));
      assert PairedAt(all, last);
      LostLinkEntry(io, last);
      LostLinkEntry(io, 3);
    }
  }
}

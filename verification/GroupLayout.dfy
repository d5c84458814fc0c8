/** exFAT files from their records as laid out on disk to the entries that are listed. */
module GroupLayout {
  import opened Common
  import opened DirectoryEntry
  import opened DirectoryScan
  import G = ExFatGroups
  import L = LongName
  import R = RecordLayout

  // ----- the fields of a listed file

  /** The first data stream of a group. */
  ghost predicate IsFirstStream(body: seq<Entry>, i: int) {
    0 <= i < |body| && G.IsStream(body[i]) && forall j :: 0 <= j < i ==> !G.IsStream(body[j])
  }

  lemma {:induction false} StreamIsFirst(body: seq<Entry>)
    ensures match G.StreamOf(body)
            case Some(stream) => exists i :: IsFirstStream(body, i) && body[i] == stream
            case None => forall i :: 0 <= i < |body| ==> !G.IsStream(body[i])
  {
    if body != [] && !G.IsStream(body[0]) {
      StreamIsFirst(body[1..]);
      if i :| IsFirstStream(body[1..], i) && G.StreamOf(body[1..]) == Some(body[1..][i]) {
        assert body[i + 1] == body[1..][i];
        assert forall j :: 1 <= j < i + 1 ==> body[j] == body[1..][j - 1];
        assert IsFirstStream(body, i + 1);
      } else {
        assert forall j :: 1 <= j < |body| ==> body[j] == body[1..][j - 1];
      }
    } else if body != [] {
      assert IsFirstStream(body, 0);
    }
  }

  lemma FirstStreamIsUnique(body: seq<Entry>, i: int, k: int)
    requires IsFirstStream(body, i) && IsFirstStream(body, k)
    ensures i == k
  {
  }

  /** A listed file has the start cluster and both sizes of the first data stream of its group. */
  lemma StreamGivesFields(file: Entry, body: seq<Entry>, i: int)
    requires file.nameEntries.Some? && IsFirstStream(body, i)
    ensures var listed := G.Completed(file, body);
            && listed.startCluster == body[i].startCluster
            && listed.size == body[i].size && listed.validSize == body[i].validSize
            && listed == file.(startCluster := listed.startCluster, size := listed.size, validSize := listed.validSize,
                               nameEntries := listed.nameEntries)
  {
    StreamIsFirst(body);
    assert G.IsStream(body[i]);
    var k :| IsFirstStream(body, k) && G.StreamOf(body) == Some(body[k]);
    FirstStreamIsUnique(body, i, k);
  }

  /** Without a data stream it keeps its own. */
  lemma NoStreamKeepsFields(file: Entry, body: seq<Entry>)
    requires file.nameEntries.Some? && forall i :: 0 <= i < |body| ==> !G.IsStream(body[i])
    ensures var listed := G.Completed(file, body);
            && listed.startCluster == file.startCluster && listed.size == file.size
            && listed.validSize == file.validSize && listed == file.(nameEntries := listed.nameEntries)
  {
    StreamIsFirst(body);
  }

  /** The chunks of a listed file are its own and those of its name records, in order. */
  lemma NamesAreChunks(file: Entry, body: seq<Entry>)
    requires file.nameEntries.Some?
    ensures G.Completed(file, body).nameEntries == Some(file.nameEntries.value + G.NameChunks(body))
  {
  }

  // ----- a group on disk

  /** The records of a group: file, data stream and names, at the given places. */
  ghost predicate IsGroupAt(volume: seq<byte>, places: seq<nat>, file: Record, stream: Record, names: seq<Record>) {
    && |places| == |names| + 2
    && RecordIs(volume, places[0], file) && RecordIs(volume, places[1], stream)
    && forall i :: 0 <= i < |names| ==> RecordIs(volume, places[i + 2], names[i])
  }

  ghost predicate RecordIs(volume: seq<byte>, place: nat, record: Record) {
    Inside(volume, place) && RecordAt(volume, place) == record
  }

  function NameRecords(flags: byte, pieces: seq<seq<byte>>): (records: seq<Record>)
    requires ChunksOf(pieces, 30)
    ensures |records| == |pieces|
    ensures forall i :: 0 <= i < |pieces| ==> records[i] == R.NameRecord(flags, pieces[i])
  {
    if pieces == [] then [] else [R.NameRecord(flags, pieces[0])] + NameRecords(flags, pieces[1..])
  }

  /** The cluster reader takes none of the pieces for a dot entry. */
  predicate NoDots(pieces: seq<seq<byte>>) {
    forall i :: 0 <= i < |pieces| ==> !IsSelf(pieces[i]) && !IsParent(pieces[i])
  }

  /** The file of a group with its first pieces, in a state of the scan. */
  function WithPieces(s: Scan, file: Entry, pieces: seq<seq<byte>>): Scan {
    Scan(s.listing.(files := s.listing.files + [file.(nameEntries := Some(pieces))]), s.progress.(stream := true))
  }

  lemma FileStep(volume: seq<byte>, place: nat, s: Scan, attributes: nat, times: Times, record: Record)
    requires RecordIs(volume, place, record)
    requires EntryOf(ExFat, record) == Some(EMPTY.(kind := ExFatFileEntry, attributes := attributes, times := times))
    ensures var file := EMPTY.(kind := ExFatFileEntry, attributes := attributes, times := times, identifier := place,
                               nameEntries := Some([]));
            StepAt(ByCluster, ExFat, volume, place, s) ==
            Running(Scan(s.listing.(files := s.listing.files + [file]), s.progress.(stream := false)))
  {
  }

  lemma StreamStep(volume: seq<byte>, place: nat, s: Scan, files: seq<Entry>, file: Entry, record: Record,
                   nameSize: nat, validSize: nat, cluster: nat, size: nat)
    requires RecordIs(volume, place, record) && s.listing.files == files + [file] && !s.progress.stream
    requires EntryOf(ExFat, record) ==
             Some(EMPTY.(kind := ExFatDataStream, nameSize := nameSize, validSize := validSize,
                         startCluster := cluster, size := size))
    ensures var last := file.(startCluster := cluster, size := size, validSize := validSize);
            StepAt(ByCluster, ExFat, volume, place, s) ==
            Running(Scan(s.listing.(files := files + [last]), s.progress.(stream := true)))
  {
    assert forall last :: ReplaceLast(files + [file], last) == files + [last];
  }

  lemma PieceStep(volume: seq<byte>, place: nat, s: Scan, file: Entry, pieces: seq<seq<byte>>, piece: seq<byte>,
                  record: Record)
    requires RecordIs(volume, place, record) && !IsSelf(piece) && !IsParent(piece)
    requires EntryOf(ExFat, record) == Some(EMPTY.(kind := ExFatFileEntryName, nameData := piece))
    ensures StepAt(ByCluster, ExFat, volume, place, WithPieces(s, file, pieces)) ==
            Running(WithPieces(s, file, pieces + [piece]))
  {
    var files, last := s.listing.files, file.(nameEntries := Some(pieces));
    assert ReplaceLast(files + [last], WithChunk(last, piece)) == files + [WithChunk(last, piece)];
  }

  lemma PiecesAreScanned(volume: seq<byte>, places: seq<nat>, s: Scan, file: Entry, flags: byte, pieces: seq<seq<byte>>)
    requires ChunksOf(pieces, 30) && NoDots(pieces) && |places| == |pieces|
    requires forall i :: 0 <= i < |pieces| ==> RecordIs(volume, places[i], R.NameRecord(flags, pieces[i]))
    ensures ScanRecords(ByCluster, ExFat, volume, places, WithPieces(s, file, [])) ==
            Running(WithPieces(s, file, pieces))
  {
    var states := seq(|pieces| + 1, k requires 0 <= k <= |pieces| => WithPieces(s, file, pieces[..k]));
    forall k | 0 <= k < |pieces|
      ensures StepAt(ByCluster, ExFat, volume, places[k], states[k]) == Running(states[k + 1])
    {
      R.NameRecordReads(flags, pieces[k]);
      PieceStep(volume, places[k], s, file, pieces[..k], pieces[k], R.NameRecord(flags, pieces[k]));
      assert pieces[..k + 1] == pieces[..k] + [pieces[k]];
    }
    assert pieces[..|pieces|] == pieces;
    ScanChain(ByCluster, ExFat, volume, places, states);
  }

  /** What a group is written with. */
  datatype Group = Group(header: seq<byte>, attributes: nat, reserved: seq<byte>, times: Times, tail: seq<byte>,
                         flags: seq<byte>, nameLength: byte, hash: seq<byte>, validSize: nat, cluster: nat, size: nat,
                         nameFlags: byte, units: seq<L.Unit>)
  {
    predicate Ok() {
      && |header| == 3 && |reserved| == 2 && |tail| == 7 && |flags| == 2 && |hash| == 4
      && R.FileTimesFit(times) && R.FitsBytes(attributes, 2)
      && R.FitsBytes(validSize, 8) && R.FitsBytes(cluster, 4) && R.FitsBytes(size, 8)
      && 1 <= |units| <= 135 && (forall i :: 0 <= i < |units| ==> units[i] != 0) && NoDots(Pieces())
    }

    function Pieces(): (pieces: seq<seq<byte>>)
      ensures ChunksOf(pieces, 30)
    {
      G.Pieces(L.Bytes(units))
    }
  }

  function FileOf(g: Group): Record
    requires g.Ok()
  {
    R.FileRecord(g.header, g.attributes, g.reserved, g.times, g.tail)
  }

  function StreamRecordOf(g: Group): Record
    requires g.Ok()
  {
    R.StreamRecord(g.flags, g.nameLength, g.hash, g.validSize, g.cluster, g.size)
  }

  /** The entry of a group. */
  function EntryOfGroup(g: Group, place: nat): Entry {
    EMPTY.(kind := ExFatFileEntry, attributes := g.attributes, times := g.times, identifier := place,
           startCluster := g.cluster, size := g.size, validSize := g.validSize, nameEntries := Some(g.Pieces()))
  }

  /** A group on disk is listed in any state of the scan: at the place of its file record, with the attributes, times,
      cluster and sizes it was written with, and with exactly its units as the name. */
  lemma GroupIsListed(volume: seq<byte>, places: seq<nat>, g: Group, s: Scan)
    requires g.Ok() && IsGroupAt(volume, places, FileOf(g), StreamRecordOf(g), NameRecords(g.nameFlags, g.Pieces()))
    ensures var outcome := ScanRecords(ByCluster, ExFat, volume, places, s);
            && outcome.Running?
            && outcome.scan.listing == s.listing.(files := s.listing.files + [EntryOfGroup(g, places[0])])
    ensures WellFormed(EntryOfGroup(g, places[0]))
    ensures NameOf(EntryOfGroup(g, places[0])) == Some(Name(L.Bytes(g.units) + [0, 0], true))
  {
    var file := EMPTY.(kind := ExFatFileEntry, attributes := g.attributes, times := g.times, identifier := places[0],
                       nameEntries := Some([]));
    var whole := file.(startCluster := g.cluster, size := g.size, validSize := g.validSize);
    var names := places[2..];
    HeadIsScanned(volume, places[0], places[1], g, s, file, whole);
    PiecesAreScanned(volume, names, s, whole, g.nameFlags, g.Pieces());
    assert places == places[..2] + names && places[..2] == [places[0], places[1]];
    ScanConcat(ByCluster, ExFat, volume, [places[0], places[1]], names, s);
    GroupIsNamed(g, places[0]);
  }

  lemma HeadIsScanned(volume: seq<byte>, first: nat, second: nat, g: Group, s: Scan, file: Entry, whole: Entry)
    requires g.Ok() && RecordIs(volume, first, FileOf(g)) && RecordIs(volume, second, StreamRecordOf(g))
    requires file == EMPTY.(kind := ExFatFileEntry, attributes := g.attributes, times := g.times, identifier := first,
                            nameEntries := Some([]))
    requires whole == file.(startCluster := g.cluster, size := g.size, validSize := g.validSize)
    ensures ScanRecords(ByCluster, ExFat, volume, [first, second], s) == Running(WithPieces(s, whole, []))
  {
    var middle := Scan(s.listing.(files := s.listing.files + [file]), s.progress.(stream := false));
    R.FileRecordReads(g.header, g.attributes, g.reserved, g.times, g.tail);
    FileStep(volume, first, s, g.attributes, g.times, FileOf(g));
    R.StreamRecordReads(g.flags, g.nameLength, g.hash, g.validSize, g.cluster, g.size);
    StreamStep(volume, second, middle, s.listing.files, file, StreamRecordOf(g), g.nameLength * 2, g.validSize,
               g.cluster, g.size);
    ScanChain(ByCluster, ExFat, volume, [first, second], [s, middle, WithPieces(s, whole, [])]);
  }

  lemma GroupIsNamed(g: Group, place: nat)
    requires g.Ok()
    ensures WellFormed(EntryOfGroup(g, place))
    ensures NameOf(EntryOfGroup(g, place)) == Some(Name(L.Bytes(g.units) + [0, 0], true))
  {
    G.PiecesFit(g.units);
    G.PiecesAreCut(g.units);
  }

  // ----- the number of names

  /** A name has one to nine chunks on exFAT, and one to twenty on FAT; with any other number there is none. */
  lemma ChunkLimits(chunks: seq<seq<byte>>)
    ensures ExFatName(chunks).None? <==> |chunks| == 0 || 10 <= |chunks|
    ensures VfatName(chunks).None? <==> |chunks| == 0 || 21 <= |chunks|
  {
  }
}

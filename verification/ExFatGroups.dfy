/** exFAT directories: the groups of a file entry, its data stream and its name records. */
module ExFatGroups {
  import opened Common
  import opened DirectoryEntry
  import opened DirectoryScan
  import L = LongName

  predicate IsFile(entry: Entry) {
    entry.kind.ExFatFileEntry?
  }

  predicate IsStream(entry: Entry) {
    entry.kind.ExFatDataStream?
  }

  predicate IsName(entry: Entry) {
    entry.kind.ExFatFileEntryName?
  }

  predicate IsVolumeLabel(entry: Entry) {
    entry.kind.ExFatVolumeLabel?
  }

  /** Records of an exFAT directory that are neither terminators nor taken for dot entries. */
  predicate Ordinary(entry: Entry) {
    && (IsFile(entry) || IsStream(entry) || IsName(entry) || IsVolumeLabel(entry)
        || entry.kind.ExFatAllocationBitmap? || entry.kind.ExFatUpcaseTable? || entry.kind.ExFatUnknown?)
    && !IsSelf(entry.nameData) && !IsParent(entry.nameData)
  }

  /** The reader's state after a list of records. */
  function Run(records: seq<Entry>, offsets: seq<nat>, s: Scan): Option<Scan>
    requires |records| == |offsets|
    decreases |records|
  {
    if records == [] then Some(s)
    else
      match Step(ByCluster, s, records[0], offsets[0])
      case None => None
      case Some(next) => Run(records[1..], offsets[1..], next)
  }

  /** The records found at a list of places. */
  ghost predicate Found(volume: seq<byte>, offsets: seq<nat>, records: seq<Entry>) {
    && |offsets| == |records|
    && forall i :: 0 <= i < |records| ==> ReadAt(ExFat, volume, offsets[i]) == Some(records[i])
  }

  ghost predicate AllOrdinary(records: seq<Entry>) {
    forall i :: 0 <= i < |records| ==> Ordinary(records[i])
  }

  lemma {:induction false} ScanIsRun(volume: seq<byte>, offsets: seq<nat>, records: seq<Entry>, s: Scan)
    requires Found(volume, offsets, records) && AllOrdinary(records)
    ensures ScanRecords(ByCluster, ExFat, volume, offsets, s) ==
            match Run(records, offsets, s) { case None => Invalid case Some(last) => Running(last) }
    decreases |records|
  {
    if records != [] {
      assert ReadAt(ExFat, volume, offsets[0]) == Some(records[0]) && Ordinary(records[0]);
      var next := Step(ByCluster, s, records[0], offsets[0]);
      if next.Some? {
        ScanIsRun(volume, offsets[1..], records[1..], next.value);
      }
    }
  }

  lemma {:induction false} RunLast(records: seq<Entry>, offsets: seq<nat>, entry: Entry, offset: nat, s: Scan)
    requires |records| == |offsets|
    ensures Run(records + [entry], offsets + [offset], s) ==
            match Run(records, offsets, s) { case None => None case Some(next) => Step(ByCluster, next, entry, offset) }
    decreases |records|
  {
    var more, moreOffsets := records + [entry], offsets + [offset];
    if records == [] {
      assert more[1..] == [];
    } else {
      assert more[1..] == records[1..] + [entry] && moreOffsets[1..] == offsets[1..] + [offset];
      var next := Step(ByCluster, s, records[0], offsets[0]);
      if next.Some? {
        RunLast(records[1..], offsets[1..], entry, offset, next.value);
      }
    }
  }

  // ----- which directories are accepted

  ghost predicate HasFile(records: seq<Entry>, low: nat, high: nat) {
    exists k :: low <= k < high <= |records| && IsFile(records[k])
  }

  /** Data streams and names follow a file entry, no file entry has two data streams, and there is one
      volume label at most. */
  ghost predicate Grouped(records: seq<Entry>) {
    && (forall j :: 0 <= j < |records| && (IsStream(records[j]) || IsName(records[j])) ==> HasFile(records, 0, j))
    && (forall i, j :: 0 <= i < j < |records| && IsStream(records[i]) && IsStream(records[j]) ==>
          HasFile(records, i, j))
    && (forall i, j :: 0 <= i < j < |records| && IsVolumeLabel(records[i]) ==> !IsVolumeLabel(records[j]))
  }

  ghost predicate StreamOpen(records: seq<Entry>) {
    exists i :: 0 <= i < |records| && IsStream(records[i]) && !HasFile(records, i, |records|)
  }

  ghost predicate HasLabel(records: seq<Entry>) {
    exists i :: 0 <= i < |records| && IsVolumeLabel(records[i])
  }

  /** What the reader's state says about the records it has read. */
  ghost predicate Tracks(s: Scan, records: seq<Entry>) {
    && (s.listing.files != [] <==> HasFile(records, 0, |records|))
    && (s.progress.stream <==> StreamOpen(records))
    && (s.listing.volumeLabel.Some? <==> HasLabel(records))
  }

  /** Whether the reader accepts one more record. */
  ghost predicate Fits(records: seq<Entry>, next: Entry) {
    && (IsStream(next) || IsName(next) ==> HasFile(records, 0, |records|))
    && (IsStream(next) ==> !StreamOpen(records))
    && (IsVolumeLabel(next) ==> !HasLabel(records))
  }

  lemma HasFileMore(records: seq<Entry>, next: Entry, low: nat, high: nat)
    ensures high <= |records| ==> HasFile(records + [next], low, high) == HasFile(records, low, high)
    ensures low <= |records|
            ==> HasFile(records + [next], low, |records| + 1) == (HasFile(records, low, |records|) || IsFile(next))
  {
    var more := records + [next];
    if high <= |records| && HasFile(records, low, high) {
      var k :| low <= k < high <= |records| && IsFile(records[k]);
      assert more[k] == records[k];
    }
    if HasFile(records, low, |records|) {
      var k :| low <= k < |records| && IsFile(records[k]);
      assert more[k] == records[k];
    }
    if low <= |records| && IsFile(next) {
      assert IsFile(more[|records|]);
    }
  }

  lemma GroupedMore(records: seq<Entry>, next: Entry)
    ensures Grouped(records + [next]) <==> Grouped(records) && Fits(records, next)
  {
    var more, n := records + [next], |records|;
    forall i, j | 0 <= i <= j <= n
      ensures HasFile(more, i, j) == HasFile(records, i, j)
    {
      HasFileMore(records, next, i, j);
    }
    assert forall i :: 0 <= i < n ==> more[i] == records[i];
    if Grouped(more) {
      GroupedFront(records, next);
    }
  }

  lemma GroupedFront(records: seq<Entry>, next: Entry)
    requires Grouped(records + [next])
    requires forall i, j :: 0 <= i <= j <= |records| ==> HasFile(records + [next], i, j) == HasFile(records, i, j)
    ensures Grouped(records) && Fits(records, next)
  {
    var more, n := records + [next], |records|;
    assert more[n] == next;
    assert forall i :: 0 <= i < n ==> more[i] == records[i];
  }

  lemma TracksMore(s: Scan, records: seq<Entry>, next: Entry, offset: nat)
    requires Tracks(s, records) && Ordinary(next)
    ensures var t := Step(ByCluster, s, next, offset);
            t.Some? == Fits(records, next) && (t.Some? ==> Tracks(t.value, records + [next]))
  {
    HasFileMore(records, next, 0, 0);
    StreamOpenMore(records, next);
    LabelMore(records, next);
  }

  lemma StreamOpenMore(records: seq<Entry>, next: Entry)
    ensures StreamOpen(records + [next]) <==> IsStream(next) || (StreamOpen(records) && !IsFile(next))
  {
    var more, n := records + [next], |records|;
    assert more[n] == next;
    forall i: nat | i <= n
      ensures HasFile(more, i, |more|) == (HasFile(records, i, n) || IsFile(next))
    {
      HasFileMore(records, next, i, n);
    }
    if IsStream(next) {
      assert IsStream(more[n]) && !HasFile(more, n, |more|);
    } else if StreamOpen(records) && !IsFile(next) {
      var i :| 0 <= i < n && IsStream(records[i]) && !HasFile(records, i, n);
      assert IsStream(more[i]) && !HasFile(more, i, |more|);
    }
    if StreamOpen(more) {
      var i :| 0 <= i < |more| && IsStream(more[i]) && !HasFile(more, i, |more|);
      assert i < n ==> IsStream(records[i]) && !HasFile(records, i, n);
    }
  }

  lemma LabelMore(records: seq<Entry>, next: Entry)
    ensures HasLabel(records + [next]) <==> HasLabel(records) || IsVolumeLabel(next)
  {
    var more := records + [next];
    if HasLabel(records) {
      var i :| 0 <= i < |records| && IsVolumeLabel(records[i]);
      assert IsVolumeLabel(more[i]);
    }
    if IsVolumeLabel(next) {
      assert IsVolumeLabel(more[|records|]);
    }
  }

  lemma {:induction false} AcceptedIffGrouped(records: seq<Entry>, offsets: seq<nat>)
    requires |records| == |offsets| && AllOrdinary(records)
    ensures var last := Run(records, offsets, START);
            last.Some? == Grouped(records) && (last.Some? ==> Tracks(last.value, records))
    decreases |records|
  {
    if records != [] {
      var n := |records| - 1;
      var front, next, offset := records[..n], records[n], offsets[n];
      assert records == front + [next] && offsets == offsets[..n] + [offset];
      AcceptedIffGrouped(front, offsets[..n]);
      RunLast(front, offsets[..n], next, offset, START);
      GroupedMore(front, next);
      var last := Run(front, offsets[..n], START);
      if last.Some? {
        TracksMore(last.value, front, next, offset);
      }
    }
  }

  // ----- what is listed

  /** The records up to the next file entry. */
  function Body(records: seq<Entry>): (body: seq<Entry>)
    ensures body <= records
    ensures forall i :: 0 <= i < |body| ==> !IsFile(body[i])
    ensures |body| < |records| ==> IsFile(records[|body|])
  {
    if records == [] || IsFile(records[0]) then [] else [records[0]] + Body(records[1..])
  }

  function NameChunks(body: seq<Entry>): seq<seq<byte>> {
    if body == [] then []
    else (if IsName(body[0]) then [body[0].nameData] else []) + NameChunks(body[1..])
  }

  function StreamOf(body: seq<Entry>): Option<Entry> {
    if body == [] then None else if IsStream(body[0]) then Some(body[0]) else StreamOf(body[1..])
  }

  /** A file entry completed by the records behind it. */
  function Completed(file: Entry, body: seq<Entry>): Entry
    requires file.nameEntries.Some?
  {
    var named := file.(nameEntries := Some(file.nameEntries.value + NameChunks(body)));
    match StreamOf(body)
    case None => named
    case Some(stream) => WithStream(named, stream)
  }

  function NewFile(entry: Entry, offset: nat): Entry {
    entry.(identifier := offset, nameEntries := Some([]))
  }

  /** Every file entry in order, with the data stream and the names of its own group. */
  ghost function Listed(records: seq<Entry>, offsets: seq<nat>): seq<Entry>
    requires |records| == |offsets|
    decreases |records|
  {
    if records == [] then []
    else
      (if IsFile(records[0]) then [Completed(NewFile(records[0], offsets[0]), Body(records[1..]))] else [])
      + Listed(records[1..], offsets[1..])
  }

  /** The last file entry completed by the records up to the next one. */
  function CompleteLast(files: seq<Entry>, body: seq<Entry>): seq<Entry>
    requires files != [] ==> files[|files| - 1].nameEntries.Some?
  {
    if files == [] then [] else ReplaceLast(files, Completed(files[|files| - 1], body))
  }

  /** The last file entry is ready for names. */
  predicate Named(s: Scan) {
    s.listing.files != [] ==> s.listing.files[|s.listing.files| - 1].nameEntries.Some?
  }

  /** A run that starts with a data stream finds no other before the next file entry. */
  lemma {:induction false} OneStream(records: seq<Entry>, offsets: seq<nat>, s: Scan)
    requires |records| == |offsets| && AllOrdinary(records) && s.progress.stream
    requires Run(records, offsets, s).Some?
    ensures StreamOf(Body(records)) == None
    decreases |records|
  {
    if records != [] && !IsFile(records[0]) {
      assert Ordinary(records[0]);
      OneStream(records[1..], offsets[1..], Step(ByCluster, s, records[0], offsets[0]).value);
    }
  }

  lemma CompletedByName(file: Entry, first: Entry, body: seq<Entry>)
    requires file.nameEntries.Some? && IsName(first)
    ensures Completed(WithChunk(file, first.nameData), body) == Completed(file, [first] + body)
  {
    assert ([first] + body)[1..] == body;
    Reassociate(file.nameEntries.value, [first.nameData], NameChunks(body));
  }

  lemma CompletedByStream(file: Entry, first: Entry, body: seq<Entry>)
    requires file.nameEntries.Some? && IsStream(first) && StreamOf(body) == None
    ensures Completed(WithStream(file, first), body) == Completed(file, [first] + body)
  {
    assert ([first] + body)[1..] == body;
    assert [] + NameChunks(body) == NameChunks(body);
  }

  lemma CompletedByOther(file: Entry, first: Entry, body: seq<Entry>)
    requires file.nameEntries.Some? && !IsStream(first) && !IsName(first)
    ensures Completed(file, body) == Completed(file, [first] + body)
  {
    assert ([first] + body)[1..] == body;
    assert [] + NameChunks(body) == NameChunks(body);
  }

  /** The files after one record, completed by what follows, are those before it completed by all. */
  lemma CompletedStep(s: Scan, first: Entry, body: seq<Entry>, offset: nat)
    requires Named(s) && Ordinary(first) && Step(ByCluster, s, first, offset).Some?
    requires IsStream(first) ==> StreamOf(body) == None
    ensures var next := Step(ByCluster, s, first, offset).value;
            && Named(next)
            && CompleteLast(next.listing.files, body) ==
               if IsFile(first) then s.listing.files + [Completed(NewFile(first, offset), body)]
               else CompleteLast(s.listing.files, [first] + body)
  {
    var files := s.listing.files;
    if files != [] {
      var last := files[|files| - 1];
      if IsName(first) {
        CompletedByName(last, first, body);
      } else if IsStream(first) {
        CompletedByStream(last, first, body);
      } else {
        CompletedByOther(last, first, body);
      }
    }
  }

  /** Completing the last file entry with the records before the first one that follows. */
  lemma ListedStep(files: seq<Entry>, records: seq<Entry>, offsets: seq<nat>, nextFiles: seq<Entry>)
    requires records != [] && |records| == |offsets|
    requires files != [] ==> files[|files| - 1].nameEntries.Some?
    requires nextFiles != [] ==> nextFiles[|nextFiles| - 1].nameEntries.Some?
    requires CompleteLast(nextFiles, Body(records[1..])) ==
             if IsFile(records[0]) then files + [Completed(NewFile(records[0], offsets[0]), Body(records[1..]))]
             else CompleteLast(files, [records[0]] + Body(records[1..]))
    ensures CompleteLast(nextFiles, Body(records[1..])) + Listed(records[1..], offsets[1..]) ==
            CompleteLast(files, Body(records)) + Listed(records, offsets)
  {
    var more := Listed(records[1..], offsets[1..]);
    if IsFile(records[0]) {
      var file := Completed(NewFile(records[0], offsets[0]), Body(records[1..]));
      CompleteLastNothing(files);
      assert Body(records) == [] && Listed(records, offsets) == [file] + more;
      Reassociate(files, [file], more);
    } else {
      assert Body(records) == [records[0]] + Body(records[1..]);
      assert Listed(records, offsets) == [] + more == more;
    }
  }

  lemma CompleteLastNothing(files: seq<Entry>)
    requires files != [] ==> files[|files| - 1].nameEntries.Some?
    ensures CompleteLast(files, []) == files
  {
    if files != [] {
      CompletedByNothing(files[|files| - 1]);
    }
  }

  lemma {:induction false} ListedFrom(records: seq<Entry>, offsets: seq<nat>, s: Scan, final: Scan)
    requires |records| == |offsets| && AllOrdinary(records) && Named(s)
    requires Run(records, offsets, s) == Some(final)
    ensures final.listing.files == CompleteLast(s.listing.files, Body(records)) + Listed(records, offsets)
    decreases |records|
  {
    if records == [] {
      CompleteLastNothing(s.listing.files);
    } else {
      var next := NextScan(records, offsets, s, final);
      ListedFrom(records[1..], offsets[1..], next, final);
      ListedStep(s.listing.files, records, offsets, next.listing.files);
    }
  }

  lemma NextScan(records: seq<Entry>, offsets: seq<nat>, s: Scan, final: Scan) returns (next: Scan)
    requires |records| == |offsets| && AllOrdinary(records) && records != [] && Named(s)
    requires Run(records, offsets, s) == Some(final)
    ensures Run(records[1..], offsets[1..], next) == Some(final) && Named(next)
    ensures CompleteLast(next.listing.files, Body(records[1..])) ==
            if IsFile(records[0]) then
              s.listing.files + [Completed(NewFile(records[0], offsets[0]), Body(records[1..]))]
            else CompleteLast(s.listing.files, [records[0]] + Body(records[1..]))
  {
    assert Ordinary(records[0]);
    next := Step(ByCluster, s, records[0], offsets[0]).value;
    if IsStream(records[0]) {
      OneStream(records[1..], offsets[1..], next);
    }
    CompletedStep(s, records[0], Body(records[1..]), offsets[0]);
  }

  lemma CompletedByNothing(file: Entry)
    requires file.nameEntries.Some?
    ensures Completed(file, []) == file
  {
    assert file.nameEntries.value + [] == file.nameEntries.value;
  }

  /** An exFAT directory without dot names is accepted exactly when it is grouped.  It then lists its file
      entries in order; each has the place of its record, the start cluster and sizes of the one data stream
      of its group, and the names of its group. */
  lemma GroupsAreListed(volume: seq<byte>, offsets: seq<nat>, records: seq<Entry>)
    requires Found(volume, offsets, records) && AllOrdinary(records)
    ensures var outcome := ScanRecords(ByCluster, ExFat, volume, offsets, START);
            if Grouped(records) then outcome.Running? && outcome.scan.listing.files == Listed(records, offsets)
            else outcome.Invalid?
  {
    ScanIsRun(volume, offsets, records, START);
    AcceptedIffGrouped(records, offsets);
    if Grouped(records) {
      ListedFrom(records, offsets, START, Run(records, offsets, START).value);
      assert [] + Listed(records, offsets) == Listed(records, offsets);
    }
  }

  // ----- the name of a group

  const UNITS_PER_NAME := 15

  /** The pieces of a name, the last one filled up with zeros (section 7.7 of the exFAT specification). */
  function Pieces(bytes: seq<byte>): (pieces: seq<seq<byte>>)
    ensures ChunksOf(pieces, 30)
    ensures |bytes| <= 30 * |pieces| < |bytes| + 30
    decreases |bytes|
  {
    if bytes == [] then []
    else if |bytes| <= 30 then [bytes + seq(30 - |bytes|, _ => 0)]
    else [bytes[..30]] + Pieces(bytes[30..])
  }

  lemma {:induction false} JoinedCons(first: seq<byte>, rest: seq<seq<byte>>)
    ensures Joined([first] + rest) == first + Joined(rest)
  {
    if rest == [] {
      assert [first] + rest == [first] && [first][..0] == [];
      assert Joined([first]) == [] + first;
    } else {
      var front, last := rest[..|rest| - 1], rest[|rest| - 1];
      JoinedCons(first, front);
      assert ([first] + rest)[..|rest|] == [first] + front;
      Reassociate(first, Joined(front), last);
    }
  }

  lemma {:induction false} PiecesJoin(units: seq<L.Unit>) returns (zeros: nat)
    ensures Joined(Pieces(L.Bytes(units))) == L.Bytes(units + L.Repeat(0, zeros))
    decreases |units|
  {
    var bytes := L.Bytes(units);
    zeros := 0;
    if units == [] {
      assert units + L.Repeat(0, 0) == units;
    } else if |units| <= UNITS_PER_NAME {
      zeros := UNITS_PER_NAME - |units|;
      ZeroBytes(zeros);
      L.BytesConcat(units, L.Repeat(0, zeros));
      var piece := bytes + seq(30 - |bytes|, _ => 0);
      JoinedCons(piece, []);
      assert [piece] + [] == [piece];
    } else {
      var front, rest := units[..UNITS_PER_NAME], units[UNITS_PER_NAME..];
      assert units == front + rest;
      L.BytesConcat(front, rest);
      assert bytes[..30] == L.Bytes(front) && bytes[30..] == L.Bytes(rest);
      zeros := PiecesJoin(rest);
      JoinedCons(bytes[..30], Pieces(bytes[30..]));
      L.BytesConcat(front, rest + L.Repeat(0, zeros));
      Reassociate(front, rest, L.Repeat(0, zeros));
    }
  }

  lemma {:induction false} ZeroBytes(count: nat)
    ensures L.Bytes(L.Repeat(0, count)) == seq(2 * count, _ => 0)
  {
    if 0 < count {
      assert L.Repeat(0, count)[1..] == L.Repeat(0, count - 1);
      ZeroBytes(count - 1);
    }
  }

  lemma PiecesAreCut(units: seq<L.Unit>)
    requires forall i :: 0 <= i < |units| ==> units[i] != 0
    ensures CutAtNul(Joined(Pieces(L.Bytes(units))) + [0, 0]) == L.Bytes(units) + [0, 0]
  {
    var zeros := PiecesJoin(units);
    L.CutBehind(units, L.Repeat(0, zeros));
  }

  /** The name of a completed file is made of the names of its group. */
  lemma CompletedName(file: Entry, body: seq<Entry>)
    requires WellFormed(file) && file.name.None? && file.nameEntries == Some([])
    requires ChunksOf(NameChunks(body), 30)
    ensures WellFormed(Completed(file, body))
    ensures NameOf(Completed(file, body)) == ExFatName(NameChunks(body))
  {
    assert [] + NameChunks(body) == NameChunks(body);
    var completed := Completed(file, body);
    assert completed.name == file.name && completed.kind == file.kind && completed.nameData == file.nameData;
    assert completed.nameEntries == Some(NameChunks(body));
  }

  lemma PiecesFit(units: seq<L.Unit>)
    requires 1 <= |units| <= 9 * UNITS_PER_NAME
    ensures 1 <= |Pieces(L.Bytes(units))| <= 9
  {
  }

  /** The name of a group whose name records were written from 1 to 135 units that are not NUL is exactly
      those units and the terminator. */
  lemma GroupNameRoundTrip(file: Entry, body: seq<Entry>, units: seq<L.Unit>)
    requires WellFormed(file) && file.name.None? && file.nameEntries == Some([])
    requires 1 <= |units| <= 9 * UNITS_PER_NAME && forall i :: 0 <= i < |units| ==> units[i] != 0
    requires NameChunks(body) == Pieces(L.Bytes(units))
    ensures WellFormed(Completed(file, body))
    ensures NameOf(Completed(file, body)) == Some(Name(L.Bytes(units) + [0, 0], true))
  {
    CompletedName(file, body);
    PiecesFit(units);
    PiecesAreCut(units);
  }
}

/** When the lookup by identifier finds the very entry that the directory lists, on FAT volumes. */
module LookupAgreement {
  import opened Common
  import opened DirectoryEntry
  import opened DirectoryScan
  import opened IdentifierLookup
  import opened NamePieces

  // ----- the records that the lookup reads

  predicate EndsName(last: nat, left: Option<seq<byte>>) {
    if last == 0 then left.None? else left.Some? && IsEnd(left.value)
  }

  /**
    The records from a place backwards spell what is left of a name, which is none for an entry without a long
    name.  Long-name records have rising numbers and are pieces of the name; a short record or a terminator
    ends it, and behind any other record it goes on with the first record of the next cluster.
   */
  predicate Spells(io: IoHandle, reversed: seq<nat>, volume: seq<byte>, cluster: nat, offset: int,
                   last: nat, left: Option<seq<byte>>, turns: nat)
    decreases turns, offset
  {
    if cluster <= 2 then EndsName(last, left)
    else if turns == 0 then false
    else
      match ReadAt(io.format, volume, offset)
      case None => false
      case Some(entry) =>
        if entry.kind.VfatLongName? then
          var number := SequenceNumber(entry.sequence);
          && (last == 0 || number == last + 1)
          && left.Some? && Behind(entry.nameData, left.value).Some?
          && Spells(io, reversed, volume, cluster, offset - RECORD_SIZE, number,
                    Behind(entry.nameData, left.value), turns)
        else if entry.kind.ShortName? || entry.kind.Terminator? then EndsName(last, left)
        else
          && cluster < |reversed|
          && Spells(io, reversed, volume, reversed[cluster], io.ClusterOffset(reversed[cluster]), last, left, turns - 1)
  }

  /** The same from the first record of a cluster on. */
  predicate SpellsFrom(io: IoHandle, reversed: seq<nat>, volume: seq<byte>, cluster: nat,
                       last: nat, left: Option<seq<byte>>, turns: nat)
  {
    Spells(io, reversed, volume, cluster, io.ClusterOffset(cluster), last, left, turns)
  }

  /** The records that the lookup of a short record reads spell a name.  Where the start of the search was
      computed in too few bits, the records in front of the short record are not read. */
  predicate LookupSpells(io: IoHandle, reversed: seq<nat>, volume: seq<byte>, identifier: nat,
                         name: Option<seq<byte>>, turns: nat)
    requires 0 < io.clusterBlockSize
  {
    var s := StartPosition(io, identifier);
    if s.end < s.offset && 2 < s.cluster then
      0 < turns && s.cluster < |reversed| && SpellsFrom(io, reversed, volume, reversed[s.cluster], 0, name, turns - 1)
    else Spells(io, reversed, volume, s.cluster, s.offset, 0, name, turns)
  }

  /** An entry as it is listed, with a long name or without one. */
  function ListedAs(entry: Entry, identifier: nat, name: Option<seq<byte>>): Entry {
    entry.(identifier := identifier, name := if name.None? then None else Some(Name(name.value, true)))
  }

  // ----- what is collected beyond the records read so far

  /** Parts that were put in front of the given ones, with numbers that rise by one. */
  ghost predicate Prepends(parts: seq<LongPart>, last: nat, collected: Collected) {
    || collected.Stuck?
    || (&& |parts| <= |collected.parts| && collected.parts[|collected.parts| - |parts|..] == parts
        && collected.last - last == |collected.parts| - |parts| && collected.last <= 20)
  }

  lemma PrependsMore(parts: seq<LongPart>, last: nat, part: LongPart, collected: Collected)
    requires Prepends([part] + parts, last + 1, collected)
    ensures Prepends(parts, last, collected)
  {
    if !collected.Stuck? {
      var all, n := collected.parts, |collected.parts| - |parts| - 1;
      assert all[n + 1..] == all[n..][1..];
    }
  }

  lemma {:induction false} CollectPrepends(format: Format, volume: seq<byte>, offset: int, last: nat,
                                           parts: seq<LongPart>)
    requires 1 <= last <= 20
    ensures Prepends(parts, last, Collect(format, volume, offset, last, parts))
    decreases offset, 1
  {
    var read := ReadAt(format, volume, offset);
    if read.Some? && read.value.kind.VfatLongName? && SequenceNumber(read.value.sequence) == last + 1 {
      PartPrepends(format, volume, offset, last, parts, LongPart(read.value.sequence, read.value.nameData));
    } else {
      assert parts[0..] == parts;
    }
  }

  lemma {:induction false} PartPrepends(format: Format, volume: seq<byte>, offset: int, last: nat,
                                        parts: seq<LongPart>, part: LongPart)
    requires 1 <= last && PartAt(format, volume, offset, part) && SequenceNumber(part.sequence) == last + 1
    ensures Prepends(parts, last, Collect(format, volume, offset, last, parts))
    decreases offset, 0
  {
    PartIsSized(format, volume, offset);
    CollectStep(format, volume, offset, part, last, parts);
    CollectPrepends(format, volume, offset - RECORD_SIZE, last + 1, [part] + parts);
    PrependsMore(parts, last, part, Collect(format, volume, offset - RECORD_SIZE, last + 1, [part] + parts));
  }

  lemma PrependsTwice(parts: seq<LongPart>, last: nat, first: Collected, second: Collected)
    requires Prepends(parts, last, first) && !first.Stuck? && Prepends(first.parts, first.last, second)
    ensures Prepends(parts, last, second)
  {
    if !second.Stuck? {
      var n, m := |second.parts| - |first.parts|, |first.parts| - |parts|;
      assert second.parts[n + m..] == second.parts[n..][m..];
    }
  }

  lemma {:induction false} SearchPrepends(io: IoHandle, reversed: seq<nat>, volume: seq<byte>, s: Position, turns: nat)
    requires 1 <= s.last <= 20
    ensures var found := Search(io, reversed, volume, s, turns);
            found.Some? ==> Prepends(s.parts, s.last, found.value)
    decreases turns, 0
  {
    if s.cluster > 2 && 0 < turns {
      TurnPrepends(io, reversed, volume, s, turns, CollectAt(io, volume, s));
    }
  }

  lemma {:induction false} TurnPrepends(io: IoHandle, reversed: seq<nat>, volume: seq<byte>, s: Position, turns: nat,
                                        collected: Collected)
    requires 1 <= s.last <= 20 && 2 < s.cluster && 0 < turns && collected == CollectAt(io, volume, s)
    ensures var found := Search(io, reversed, volume, s, turns);
            found.Some? ==> Prepends(s.parts, s.last, found.value)
    decreases turns - 1, 2
  {
    CollectPrepends(io.format, volume, s.offset, s.last, s.parts);
    if collected.GoesOn? && s.cluster < |reversed| {
      NextPrepends(io, reversed, volume, reversed[s.cluster], s.last, s.parts, collected, turns - 1);
    }
  }

  lemma {:induction false} NextPrepends(io: IoHandle, reversed: seq<nat>, volume: seq<byte>, cluster: nat,
                                        last: nat, parts: seq<LongPart>, collected: Collected, turns: nat)
    requires 1 <= last <= 20 && collected.GoesOn? && Prepends(parts, last, collected)
    ensures var found := Search(io, reversed, volume, AtCluster(io, cluster, collected.last, collected.parts), turns);
            found.Some? ==> Prepends(parts, last, found.value)
    decreases turns, 1
  {
    var next := AtCluster(io, cluster, collected.last, collected.parts);
    SearchPrepends(io, reversed, volume, next, turns);
    var found := Search(io, reversed, volume, next, turns);
    if found.Some? {
      PrependsTwice(parts, last, collected, found.value);
    }
  }

  // ----- what a search has, and what is left

  /** The search has a number of records with numbers up to the last one. */
  ghost predicate Held(s: Position) {
    && s.offset <= s.end && |s.parts| <= s.last <= 20 && Sized(s.parts)
    && (s.parts == [] ==> s.last == 0)
  }

  /** The records read so far are the beginning of a name. */
  ghost predicate Partly(parts: seq<LongPart>, name: Option<seq<byte>>, left: Option<seq<byte>>) {
    if name.None? then parts == [] && left.None?
    else left.Some? && Begins(TextOf(parts), name.value, left.value)
  }

  lemma NamedByText(entry: Entry, identifier: nat, collected: Collected)
    requires !collected.Stuck? && 1 <= |collected.parts| <= collected.last <= 20
    ensures Named(entry, identifier, collected) ==
            Found(ListedAs(entry, identifier, Some(CutAtNul(TextOf(collected.parts) + [0, 0]))))
  {
  }

  lemma EndsIff(entry: Entry, identifier: nat, s: Position, name: Option<seq<byte>>, left: Option<seq<byte>>)
    requires entry.name.None? && Held(s) && Partly(s.parts, name, left)
    ensures Named(entry, identifier, Ended(s.last, s.parts)) == Found(ListedAs(entry, identifier, name))
            <==> EndsName(s.last, left)
  {
    if s.parts != [] {
      NamedByText(entry, identifier, Ended(s.last, s.parts));
      TextSize(s.parts);
      if name.Some? {
        TextEnds(TextOf(s.parts), name.value, left.value);
      }
    } else {
      NotEndedYet(name, left);
    }
  }

  lemma NotEndedYet(name: Option<seq<byte>>, left: Option<seq<byte>>)
    requires Partly([], name, left)
    ensures name.None? <==> left.None?
  {
  }

  /** The position behind a long-name record. */
  function Taken(s: Position, front: Entry): Position {
    s.(offset := s.offset - RECORD_SIZE, last := SequenceNumber(front.sequence),
       parts := [LongPart(front.sequence, front.nameData)] + s.parts)
  }

  lemma PartIsSized(format: Format, volume: seq<byte>, offset: int)
    requires ReadAt(format, volume, offset).Some? && ReadAt(format, volume, offset).value.kind.VfatLongName?
    ensures var front := ReadAt(format, volume, offset).value;
            1 <= SequenceNumber(front.sequence) <= 20 && |front.nameData| == 26
  {
    assert IsSequence(ReadAt(format, volume, offset).value.sequence);
  }

  lemma SearchTakesPart(io: IoHandle, reversed: seq<nat>, volume: seq<byte>, s: Position, turns: nat, front: Entry)
    requires 2 < s.cluster && s.offset <= s.end && ReadAt(io.format, volume, s.offset) == Some(front)
    requires front.kind.VfatLongName? && 1 <= turns
    ensures Search(io, reversed, volume, s, turns) ==
            if s.last != 0 && SequenceNumber(front.sequence) != s.last + 1 then Some(Stuck)
            else Search(io, reversed, volume, Taken(s, front), turns)
  {
  }

  lemma TakenIsHeld(s: Position, front: Entry)
    requires Held(s) && 1 <= SequenceNumber(front.sequence) <= 20 && |front.nameData| == 26
    requires s.last == 0 || SequenceNumber(front.sequence) == s.last + 1
    ensures Held(Taken(s, front))
  {
  }

  /** A record that is not a piece of the name keeps the search from the name for good. */
  lemma MisfitsForGood(entry: Entry, identifier: nat, s: Position, front: Entry, collected: Collected,
                       name: Option<seq<byte>>, left: Option<seq<byte>>)
    requires Held(s) && Partly(s.parts, name, left) && |front.nameData| == 26 && Held(Taken(s, front))
    requires left.None? || Behind(front.nameData, left.value).None?
    requires Prepends(Taken(s, front).parts, Taken(s, front).last, collected)
    ensures Named(entry, identifier, collected) != Found(ListedAs(entry, identifier, name))
  {
    if !collected.Stuck? {
      NamedByText(entry, identifier, collected);
      if name.Some? {
        var part := LongPart(front.sequence, front.nameData);
        var extra := collected.parts[..|collected.parts| - |s.parts| - 1];
        assert collected.parts == extra + ([part] + s.parts);
        MoreMisfits(s.parts, part, extra, name.value, left.value);
      }
    }
  }

  lemma MoreMisfits(parts: seq<LongPart>, part: LongPart, extra: seq<LongPart>, name: seq<byte>, left: seq<byte>)
    requires Sized(parts) && |part.nameData| == 26 && Begins(TextOf(parts), name, left)
    requires Behind(part.nameData, left).None?
    ensures CutAtNul(TextOf(extra + ([part] + parts)) + [0, 0]) != name
  {
    TextSize(parts);
    TextInThree(parts, part, extra);
    TextMisfits(TextOf(parts), name, left, part.nameData, TextOf(extra) + [0, 0], |parts|);
  }

  lemma TextInThree(parts: seq<LongPart>, part: LongPart, extra: seq<LongPart>)
    ensures TextOf(extra + ([part] + parts)) + [0, 0] == TextOf(parts) + (part.nameData + (TextOf(extra) + [0, 0]))
  {
    TextOfConcat(extra, [part] + parts);
    TextOfFirst([part] + parts, part, parts);
    Reassociate(TextOf(parts) + part.nameData, TextOf(extra), [0, 0]);
    Reassociate(TextOf(parts), part.nameData, TextOf(extra) + [0, 0]);
  }

  lemma TextMisfits(text: seq<byte>, name: seq<byte>, left: seq<byte>, piece: seq<byte>, more: seq<byte>, count: nat)
    requires |text| == 26 * count && |piece| == 26 && 2 <= |more|
    requires Begins(text, name, left) && Behind(piece, left).None?
    ensures CutAtNul(text + (piece + more)) != name
  {
    PieceMisfits(text, name, left, piece, more);
  }

  lemma PieceIsTaken(s: Position, front: Entry, name: Option<seq<byte>>, left: Option<seq<byte>>)
    requires Held(s) && Partly(s.parts, name, left) && |front.nameData| == 26
    requires left.Some? && Behind(front.nameData, left.value).Some?
    ensures Partly(Taken(s, front).parts, name, Behind(front.nameData, left.value))
  {
    TextSize(s.parts);
    TextOfFirst(Taken(s, front).parts, LongPart(front.sequence, front.nameData), s.parts);
    PieceFits(TextOf(s.parts), name.value, left.value, front.nameData);
  }

  /** What a search that has the beginning of a name has to come to. */
  ghost predicate FindsName(io: IoHandle, reversed: seq<nat>, volume: seq<byte>, entry: Entry, identifier: nat,
                            s: Position, name: Option<seq<byte>>, turns: nat)
  {
    var found := Search(io, reversed, volume, s, turns);
    found.Some? && Named(entry, identifier, found.value) == Found(ListedAs(entry, identifier, name))
  }

  /** A search that has the beginning of a name finds the name exactly when the records spell the rest. */
  lemma {:induction false} SpellsIff(io: IoHandle, reversed: seq<nat>, volume: seq<byte>, entry: Entry, identifier: nat,
                                     s: Position, name: Option<seq<byte>>, left: Option<seq<byte>>, turns: nat)
    requires entry.name.None? && Held(s) && Partly(s.parts, name, left)
    ensures Spells(io, reversed, volume, s.cluster, s.offset, s.last, left, turns) <==>
            FindsName(io, reversed, volume, entry, identifier, s, name, turns)
    decreases turns, s.offset
  {
    EndsIff(entry, identifier, s, name, left);
    var read := ReadAt(io.format, volume, s.offset);
    if 2 < s.cluster && 0 < turns && read.Some? {
      if read.value.kind.VfatLongName? {
        SpellsPartIff(io, reversed, volume, entry, identifier, s, name, left, turns, read.value);
      } else if !read.value.kind.ShortName? && !read.value.kind.Terminator? && s.cluster < |reversed| {
        var next := AtCluster(io, reversed[s.cluster], s.last, s.parts);
        SpellsIff(io, reversed, volume, entry, identifier, next, name, left, turns - 1);
      }
    }
  }

  lemma {:induction false} SpellsPartIff(io: IoHandle, reversed: seq<nat>, volume: seq<byte>, entry: Entry,
                                         identifier: nat,
                                         s: Position, name: Option<seq<byte>>, left: Option<seq<byte>>, turns: nat,
                                         front: Entry)
    requires entry.name.None? && Held(s) && Partly(s.parts, name, left) && 2 < s.cluster && 1 <= turns
    requires ReadAt(io.format, volume, s.offset) == Some(front) && front.kind.VfatLongName?
    ensures Spells(io, reversed, volume, s.cluster, s.offset, s.last, left, turns) <==>
            FindsName(io, reversed, volume, entry, identifier, s, name, turns)
    decreases turns, s.offset, 0
  {
    PartIsSized(io.format, volume, s.offset);
    SearchTakesPart(io, reversed, volume, s, turns, front);
    if s.last == 0 || SequenceNumber(front.sequence) == s.last + 1 {
      TakenIsHeld(s, front);
      if left.Some? && Behind(front.nameData, left.value).Some? {
        PieceIsTaken(s, front, name, left);
        SpellsIff(io, reversed, volume, entry, identifier, Taken(s, front), name, Behind(front.nameData, left.value),
                  turns);
      } else {
        SearchPrepends(io, reversed, volume, Taken(s, front), turns);
        var found := Search(io, reversed, volume, Taken(s, front), turns);
        if found.Some? {
          MisfitsForGood(entry, identifier, s, front, found.value, name, left);
        }
      }
    }
  }

  /** The lookup of a short record finds it with a name, or without one, exactly when the records it reads
      spell that. */
  lemma LookupIff(io: IoHandle, table: seq<nat>, reversed: seq<nat>, volume: seq<byte>, identifier: nat, entry: Entry,
                  name: Option<seq<byte>>, turns: nat)
    requires 0 < io.clusterBlockSize && ReadAt(io.format, volume, identifier) == Some(entry) && entry.kind.ShortName?
    requires name != Some([])
    ensures EntryByIdentifier(io, table, reversed, volume, identifier, turns) ==
            Found(ListedAs(entry, identifier, name))
            <==> LookupSpells(io, reversed, volume, identifier, name, turns)
  {
    var s := StartPosition(io, identifier);
    if name.Some? {
      NothingRead(name.value);
    }
    if s.end < s.offset && 2 < s.cluster {
      if 0 < turns && s.cluster < |reversed| {
        SpellsIff(io, reversed, volume, entry, identifier, AtCluster(io, reversed[s.cluster], 0, []), name, name,
                  turns - 1);
      }
    } else {
      StartIff(io, reversed, volume, entry, identifier, s, name, turns);
    }
  }

  lemma StartIff(io: IoHandle, reversed: seq<nat>, volume: seq<byte>, entry: Entry, identifier: nat,
                 s: Position, name: Option<seq<byte>>, turns: nat)
    requires entry.name.None? && s.parts == [] && s.last == 0 && (s.offset <= s.end || s.cluster <= 2)
    requires Partly([], name, name)
    ensures Spells(io, reversed, volume, s.cluster, s.offset, 0, name, turns) <==>
            FindsName(io, reversed, volume, entry, identifier, s, name, turns)
  {
    if 2 < s.cluster {
      SpellsIff(io, reversed, volume, entry, identifier, s, name, name, turns);
    }
  }

  // ----- from any state of the directory scan

  /** The name that a short record gets in a state of the scan. */
  function PendingText(progress: Progress): Option<seq<byte>> {
    if progress.pending.None? then None else NameText(progress.pending.value)
  }

  lemma ShortIsListed(reader: Reader, format: Format, volume: seq<byte>, identifier: nat, entry: Entry, s: Scan)
    requires PendingOk(s.progress)
    requires ReadAt(format, volume, identifier) == Some(entry) && IsPlain(reader, entry)
    ensures var outcome := ScanRecords(reader, format, volume, [identifier], s);
            && outcome.Running? && outcome.scan.progress.pending.None?
            && outcome.scan.listing.files == s.listing.files + [ListedAs(entry, identifier, PendingText(s.progress))]
  {
    assert [identifier][1..] == [];
    assert StepAt(reader, format, volume, identifier, s).Running?;
  }

  /**
    In any state that a scan may have, whatever run is pending and wherever its records are: the short record of
    a file is listed, and the lookup by its place finds the very entry that is listed exactly when the records
    that the lookup reads spell the name that is listed.
   */
  lemma LookupAgreesIff(io: IoHandle, table: seq<nat>, reversed: seq<nat>, volume: seq<byte>, reader: Reader, s: Scan,
                        identifier: nat, entry: Entry, turns: nat)
    requires 0 < io.clusterBlockSize && PendingOk(s.progress)
    requires ReadAt(io.format, volume, identifier) == Some(entry) && IsPlain(reader, entry)
    ensures var outcome := ScanRecords(reader, io.format, volume, [identifier], s);
            && outcome.Running? && |outcome.scan.listing.files| == |s.listing.files| + 1
            && (EntryByIdentifier(io, table, reversed, volume, identifier, turns)
                == Found(outcome.scan.listing.files[|s.listing.files|])
                <==> LookupSpells(io, reversed, volume, identifier, PendingText(s.progress), turns))
  {
    ShortIsListed(reader, io.format, volume, identifier, entry, s);
    PendingIsNotEmpty(s.progress);
    LookupIff(io, table, reversed, volume, identifier, entry, PendingText(s.progress), turns);
  }

  lemma PendingIsNotEmpty(progress: Progress)
    ensures PendingText(progress) != Some([])
  {
    if progress.pending.Some? {
      CutNotEmpty(TextOf(progress.pending.value) + [0, 0]);
    }
  }

  /** Where a run is pending and the lookup reads no long-name record, it finds the entry without a name. */
  lemma SplitRunDisagrees(io: IoHandle, table: seq<nat>, reversed: seq<nat>, volume: seq<byte>, reader: Reader, s: Scan,
                          identifier: nat, entry: Entry, turns: nat)
    requires 0 < io.clusterBlockSize && PendingOk(s.progress) && s.progress.pending.Some?
    requires ReadAt(io.format, volume, identifier) == Some(entry) && IsPlain(reader, entry)
    requires LookupSpells(io, reversed, volume, identifier, None, turns)
    ensures EntryByIdentifier(io, table, reversed, volume, identifier, turns) ==
            Found(ListedAs(entry, identifier, None))
    ensures var outcome := ScanRecords(reader, io.format, volume, [identifier], s);
            && outcome.Running? && |outcome.scan.listing.files| == |s.listing.files| + 1
            && outcome.scan.listing.files[|s.listing.files|].name.Some?
  {
    ShortIsListed(reader, io.format, volume, identifier, entry, s);
    LookupIff(io, table, reversed, volume, identifier, entry, None, turns);
  }

  // ----- the last records of a run in front of a short record

  /** The parts are stored in a row and end at a place. */
  ghost predicate StoredBefore(format: Format, volume: seq<byte>, place: int, parts: seq<LongPart>) {
    parts == []
    || (PartAt(format, volume, place - RECORD_SIZE, parts[|parts| - 1])
        && StoredBefore(format, volume, place - RECORD_SIZE, parts[..|parts| - 1]))
  }

  ghost predicate PartAt(format: Format, volume: seq<byte>, offset: int, part: LongPart) {
    && ReadAt(format, volume, offset).Some?
    && var entry := ReadAt(format, volume, offset).value;
       entry.kind.VfatLongName? && entry.sequence == part.sequence && entry.nameData == part.nameData
  }

  function Lowest(parts: seq<LongPart>): nat
    requires parts != []
  {
    SequenceNumber(parts[|parts| - 1].sequence)
  }

  function Highest(parts: seq<LongPart>): nat {
    if parts == [] then 0 else SequenceNumber(parts[0].sequence)
  }

  /** The numbers descend to the one above `last`. */
  ghost predicate Descends(parts: seq<LongPart>, last: nat) {
    forall i :: 0 <= i < |parts| ==> SequenceNumber(parts[i].sequence) == last + |parts| - i
  }

  /** Records with numbers that rise by one from the last to the first. */
  ghost predicate IsTail(parts: seq<LongPart>) {
    parts != [] ==>
      && 1 <= Lowest(parts) && Highest(parts) <= 20
      && Descends(parts, Lowest(parts) - 1) && Sized(parts)
  }

  ghost predicate TailBefore(format: Format, volume: seq<byte>, place: int, tail: seq<LongPart>) {
    IsTail(tail) && StoredBefore(format, volume, place, tail)
  }

  /** A run that the directory scan takes: it may lack its lowest numbers, and there may be none. */
  ghost predicate EmptyOrRun(parts: seq<LongPart>) {
    parts != [] ==> IsRun(parts, Lowest(parts))
  }

  lemma RunHasTail(front: seq<LongPart>, tail: seq<LongPart>)
    requires EmptyOrRun(front + tail)
    ensures IsTail(tail) && Sized(front)
  {
    var parts := front + tail;
    if parts != [] {
      forall i | 0 <= i < |tail|
        ensures SequenceNumber(tail[i].sequence) == Lowest(parts) - 1 + |tail| - i && |tail[i].nameData| == 26
      {
        assert tail[i] == parts[|front| + i];
      }
      forall i | 0 <= i < |front|
        ensures |front[i].nameData| == 26
      {
        assert front[i] == parts[i];
      }
      if tail != [] {
        assert parts[|parts| - 1] == tail[|tail| - 1];
        assert SequenceNumber(parts[|front|].sequence) <= 20;
      }
    }
  }

  lemma CollectStep(format: Format, volume: seq<byte>, offset: int, part: LongPart, last: nat, parts: seq<LongPart>)
    requires PartAt(format, volume, offset, part)
    ensures var number := SequenceNumber(part.sequence);
            Collect(format, volume, offset, last, parts) ==
            if last != 0 && last + 1 != number then Stuck
            else Collect(format, volume, offset - RECORD_SIZE, number, [part] + parts)
  {
  }

  /** Collecting backwards puts the parts in front of those collected before, and comes to the record
      before them. */
  lemma {:induction false} PartsAreCollected(format: Format, volume: seq<byte>, place: int, parts: seq<LongPart>,
                                             last: nat,
                                             behind: seq<LongPart>, end: int, top: nat, all: seq<LongPart>)
    requires Descends(parts, last) && StoredBefore(format, volume, place, parts)
    requires end == place - RECORD_SIZE * |parts| && top == last + |parts| && all == parts + behind
    ensures Collect(format, volume, place - RECORD_SIZE, last, behind) ==
            Collect(format, volume, end - RECORD_SIZE, top, all)
    decreases |parts|
  {
    if parts != [] {
      var front, part := parts[..|parts| - 1], parts[|parts| - 1];
      CollectLast(format, volume, place, parts, last, behind);
      SplitLast(parts, behind);
      PartsAreCollected(format, volume, place - RECORD_SIZE, front, last + 1, [part] + behind, end, top, all);
    } else {
      assert parts + behind == behind;
    }
  }

  lemma SplitLast<X>(s: seq<X>, behind: seq<X>)
    requires s != []
    ensures s[..|s| - 1] + ([s[|s| - 1]] + behind) == s + behind
  {
  }

  lemma CollectLast(format: Format, volume: seq<byte>, place: int, parts: seq<LongPart>, last: nat,
                    behind: seq<LongPart>)
    requires parts != [] && Descends(parts, last) && StoredBefore(format, volume, place, parts)
    ensures var front, part := parts[..|parts| - 1], parts[|parts| - 1];
            && Descends(front, last + 1) && StoredBefore(format, volume, place - RECORD_SIZE, front)
            && Collect(format, volume, place - RECORD_SIZE, last, behind) ==
               Collect(format, volume, place - RECORD_SIZE - RECORD_SIZE, last + 1, [part] + behind)
  {
    DescendsFront(parts, last);
    CollectStep(format, volume, place - RECORD_SIZE, parts[|parts| - 1], last, behind);
  }

  lemma DescendsFront(parts: seq<LongPart>, last: nat)
    requires parts != [] && Descends(parts, last)
    ensures Descends(parts[..|parts| - 1], last + 1)
    ensures SequenceNumber(parts[|parts| - 1].sequence) == last + 1
  {
    var front := parts[..|parts| - 1];
    forall i | 0 <= i < |front|
      ensures SequenceNumber(front[i].sequence) == last + 1 + |front| - i
    {
      assert front[i] == parts[i];
    }
  }

  lemma TailIsCollected(format: Format, volume: seq<byte>, place: int, tail: seq<LongPart>, end: int, last: nat)
    requires TailBefore(format, volume, place, tail) && end == place - RECORD_SIZE * |tail| && last == Highest(tail)
    ensures Collect(format, volume, place - RECORD_SIZE, 0, []) ==
            Collect(format, volume, end - RECORD_SIZE, last, tail)
  {
    if tail != [] {
      FirstAndRest(format, volume, place, tail, end, last, tail[|tail| - 1]);
    }
  }

  lemma FirstAndRest(format: Format, volume: seq<byte>, place: int, tail: seq<LongPart>, end: int, last: nat,
                     part: LongPart)
    requires tail != [] && TailBefore(format, volume, place, tail)
    requires end == place - RECORD_SIZE * |tail| && last == Highest(tail) && part == tail[|tail| - 1]
    ensures Collect(format, volume, place - RECORD_SIZE, 0, []) ==
            Collect(format, volume, end - RECORD_SIZE, last, tail)
  {
    FirstIsCollected(format, volume, place, part, Lowest(tail));
    RestIsCollected(format, volume, place - RECORD_SIZE, tail, end, part, Lowest(tail), last);
  }

  lemma FirstIsCollected(format: Format, volume: seq<byte>, place: int, part: LongPart, low: nat)
    requires PartAt(format, volume, place - RECORD_SIZE, part) && low == SequenceNumber(part.sequence)
    ensures Collect(format, volume, place - RECORD_SIZE, 0, []) ==
            Collect(format, volume, place - RECORD_SIZE - RECORD_SIZE, low, [part])
  {
    assert [part] + [] == [part];
    CollectStep(format, volume, place - RECORD_SIZE, part, 0, []);
  }

  lemma RestIsCollected(format: Format, volume: seq<byte>, place: int, tail: seq<LongPart>, end: int,
                        part: LongPart, low: nat, last: nat)
    requires tail != [] && 1 <= low && Descends(tail, low - 1) && part == tail[|tail| - 1]
    requires StoredBefore(format, volume, place, tail[..|tail| - 1]) && end == place - RECORD_SIZE * (|tail| - 1)
    requires last == low + |tail| - 1
    ensures Collect(format, volume, place - RECORD_SIZE, low, [part]) ==
            Collect(format, volume, end - RECORD_SIZE, last, tail)
  {
    var front := tail[..|tail| - 1];
    DescendsFront(tail, low - 1);
    assert tail == front + [part];
    PartsAreCollected(format, volume, place, front, low, [part], end, last, tail);
  }

  /** The search in front of the last records of a run. */
  function InFront(io: IoHandle, identifier: nat, tail: seq<LongPart>): Position
    requires 0 < io.clusterBlockSize
  {
    StartPosition(io, identifier).(offset := identifier - RECORD_SIZE * (|tail| + 1), last := Highest(tail),
                                   parts := tail)
  }

  /** The lookup of a short record starts in a cluster above 2 and reads the record in front of it. */
  predicate LooksInFront(io: IoHandle, identifier: nat) {
    0 < io.clusterBlockSize && 2 < StartCluster(io, identifier) && identifier - RECORD_SIZE <= StartEnd(io, identifier)
  }

  lemma SearchFromFront(io: IoHandle, reversed: seq<nat>, volume: seq<byte>, identifier: nat, tail: seq<LongPart>,
                        turns: nat)
    requires LooksInFront(io, identifier) && TailBefore(io.format, volume, identifier, tail)
    ensures Search(io, reversed, volume, StartPosition(io, identifier), turns)
         == Search(io, reversed, volume, InFront(io, identifier, tail), turns)
  {
    var s, t := StartPosition(io, identifier), InFront(io, identifier, tail);
    TailIsCollected(io.format, volume, identifier, tail, t.offset + RECORD_SIZE, t.last);
    SameCollected(io, volume, s, t);
    SameSearch(io, reversed, volume, s, t, turns);
  }

  lemma SameCollected(io: IoHandle, volume: seq<byte>, s: Position, t: Position)
    requires s.offset <= s.end && t.offset <= t.end
    requires Collect(io.format, volume, s.offset, s.last, s.parts) ==
             Collect(io.format, volume, t.offset, t.last, t.parts)
    ensures CollectAt(io, volume, s) == CollectAt(io, volume, t)
  {
  }

  lemma SameSearch(io: IoHandle, reversed: seq<nat>, volume: seq<byte>, s: Position, t: Position, turns: nat)
    requires 2 < s.cluster == t.cluster && CollectAt(io, volume, s) == CollectAt(io, volume, t)
    ensures Search(io, reversed, volume, s, turns) == Search(io, reversed, volume, t, turns)
  {
  }

  lemma TailIsHeld(io: IoHandle, identifier: nat, tail: seq<LongPart>)
    requires LooksInFront(io, identifier) && IsTail(tail)
    ensures Held(InFront(io, identifier, tail))
  {
  }

  /** What is left of the name of a run behind its last records; none if there is no run. */
  function LeftBehind(front: seq<LongPart>, tail: seq<LongPart>): Option<seq<byte>> {
    if front + tail == [] then None else Some(LeftOf(front, tail))
  }

  lemma TailIsPartly(front: seq<LongPart>, tail: seq<LongPart>)
    requires Sized(tail)
    ensures Partly(tail, NameText(front + tail), LeftBehind(front, tail))
  {
    TailBegins(front, tail);
  }

  /** With the last records of a run in front of a short record, the lookup finds the name of the run exactly when
      the records in front of those spell what is left of it. */
  lemma FrontIff(io: IoHandle, table: seq<nat>, reversed: seq<nat>, volume: seq<byte>, identifier: nat, entry: Entry,
                 front: seq<LongPart>, tail: seq<LongPart>, place: int, turns: nat)
    requires LooksInFront(io, identifier) && place == identifier - RECORD_SIZE * (|tail| + 1)
    requires ReadAt(io.format, volume, identifier) == Some(entry) && entry.kind.ShortName?
    requires EmptyOrRun(front + tail) && StoredBefore(io.format, volume, identifier, tail)
    ensures EntryByIdentifier(io, table, reversed, volume, identifier, turns)
            == Found(ListedAs(entry, identifier, NameText(front + tail)))
            <==> Spells(io, reversed, volume, StartCluster(io, identifier), place, Highest(tail),
                        LeftBehind(front, tail), turns)
  {
    RunHasTail(front, tail);
    SearchFromFront(io, reversed, volume, identifier, tail, turns);
    TailIsHeld(io, identifier, tail);
    TailIsPartly(front, tail);
    SpellsIff(io, reversed, volume, entry, identifier, InFront(io, identifier, tail), NameText(front + tail),
              LeftBehind(front, tail), turns);
  }

  // ----- a run and its short record in the scan

  /** The cluster reader takes none of the parts for a dot entry. */
  ghost predicate NoDots(reader: Reader, parts: seq<LongPart>) {
    reader == ByCluster ==> forall i :: 0 <= i < |parts| ==> !IsSelf(parts[i].nameData) && !IsParent(parts[i].nameData)
  }

  /** The state with the first parts of a run pending. */
  function WithParts(s: Scan, parts: seq<LongPart>, last: nat): Scan {
    s.(progress := s.progress.(pending := Some(parts), last := last))
  }

  /** The state after the first records of a run. */
  function AfterParts(s: Scan, parts: seq<LongPart>, low: nat, i: nat): Scan
    requires i <= |parts|
  {
    if i == 0 then s else WithParts(s, parts[..i], low + |parts| - i)
  }

  lemma PartIsAdded(reader: Reader, format: Format, volume: seq<byte>, offset: int, parts: seq<LongPart>, low: nat,
                    i: nat, s: Scan)
    requires i < |parts| && IsRun(parts, low) && NoDots(reader, parts) && PartAt(format, volume, offset, parts[i])
    ensures StepAt(reader, format, volume, offset, AfterParts(s, parts, low, i)) ==
            Running(AfterParts(s, parts, low, i + 1))
  {
    var part := parts[i];
    assert parts[..i + 1] == parts[..i] + [part];
    assert parts[..0] + [part] == [part];
    assert SequenceNumber(part.sequence) == low + |parts| - 1 - i;
    var entry := ReadAt(format, volume, offset).value;
    assert LongPart(entry.sequence, entry.nameData) == part;
  }

  /** The parts are at the given places, in any clusters. */
  ghost predicate PartsAt(format: Format, volume: seq<byte>, places: seq<int>, parts: seq<LongPart>) {
    |places| == |parts| && forall i :: 0 <= i < |parts| ==> PartAt(format, volume, places[i], parts[i])
  }

  lemma RunIsScanned(reader: Reader, format: Format, volume: seq<byte>, places: seq<int>, parts: seq<LongPart>,
                     low: nat, s: Scan)
    requires IsRun(parts, low) && NoDots(reader, parts) && PartsAt(format, volume, places, parts)
    ensures ScanRecords(reader, format, volume, places, s) == Running(WithParts(s, parts, low))
  {
    var n := |parts|;
    var states := seq(n + 1, k requires 0 <= k <= n => AfterParts(s, parts, low, k));
    forall k | 0 <= k < n
      ensures StepAt(reader, format, volume, places[k], states[k]) == Running(states[k + 1])
    {
      PartIsAdded(reader, format, volume, places[k], parts, low, k, s);
    }
    ScanChain(reader, format, volume, places, states);
    assert parts[..n] == parts;
  }

  /** A short record behind a run takes the run's name, wherever the records of the run are. */
  lemma RunIsListed(reader: Reader, format: Format, volume: seq<byte>, places: seq<int>, parts: seq<LongPart>,
                    identifier: nat, entry: Entry, s: Scan)
    requires EmptyOrRun(parts) && NoDots(reader, parts) && PartsAt(format, volume, places, parts)
    requires s.progress.pending.None? || parts != []
    requires ReadAt(format, volume, identifier) == Some(entry) && IsPlain(reader, entry)
    ensures var outcome := ScanRecords(reader, format, volume, places + [identifier], s);
            && outcome.Running?
            && outcome.scan.listing.files == s.listing.files + [ListedAs(entry, identifier, NameText(parts))]
  {
    if parts == [] {
      assert places + [identifier] == [identifier];
      ShortIsListed(reader, format, volume, identifier, entry, s);
    } else {
      var pending := WithParts(s, parts, Lowest(parts));
      RunIsScanned(reader, format, volume, places, parts, Lowest(parts), s);
      ScanConcat(reader, format, volume, places, [identifier], s);
      ShortIsListed(reader, format, volume, identifier, entry, pending);
    }
  }

  /**
    A run whose first records are anywhere, as in another cluster of the directory, and whose last records, or none
    of them, are in front of the short record: the scan lists the short record with the name of the whole run,
    and the lookup finds the very entry that is listed exactly when the records in front of the last ones
    spell the rest of the name.
   */
  lemma StraddledRunIff(io: IoHandle, table: seq<nat>, reversed: seq<nat>, volume: seq<byte>, reader: Reader, s: Scan,
                        places: seq<int>, identifier: nat, entry: Entry, front: seq<LongPart>, tail: seq<LongPart>,
                        place: int, turns: nat)
    requires LooksInFront(io, identifier) && place == identifier - RECORD_SIZE * (|tail| + 1)
    requires ReadAt(io.format, volume, identifier) == Some(entry) && IsPlain(reader, entry)
    requires EmptyOrRun(front + tail) && NoDots(reader, front + tail)
    requires PartsAt(io.format, volume, places, front + tail) && StoredBefore(io.format, volume, identifier, tail)
    requires s.progress.pending.None? || front + tail != []
    ensures var outcome := ScanRecords(reader, io.format, volume, places + [identifier], s);
            && outcome.Running? && |outcome.scan.listing.files| == |s.listing.files| + 1
            && (EntryByIdentifier(io, table, reversed, volume, identifier, turns)
                == Found(outcome.scan.listing.files[|s.listing.files|])
                <==> Spells(io, reversed, volume, StartCluster(io, identifier), place, Highest(tail),
                            LeftBehind(front, tail), turns))
  {
    RunIsListed(reader, io.format, volume, places, front + tail, identifier, entry, s);
    FrontIff(io, table, reversed, volume, identifier, entry, front, tail, place, turns);
  }

  // ----- by the record in front

  /** A short record, the last records of a run in front of it, and the record at the place in front of those. */
  ghost predicate Fronted(io: IoHandle, volume: seq<byte>, identifier: nat, entry: Entry, tail: seq<LongPart>,
                          place: int, record: Entry)
  {
    && LooksInFront(io, identifier)
    && ReadAt(io.format, volume, identifier) == Some(entry) && entry.kind.ShortName?
    && TailBefore(io.format, volume, identifier, tail)
    && place == identifier - RECORD_SIZE * (|tail| + 1) && ReadAt(io.format, volume, place) == Some(record)
  }

  /** The last records of a run spell the name of the run. */
  predicate SpellsAll(front: seq<LongPart>, tail: seq<LongPart>) {
    || front == []
    || (tail != [] && (HoldsNul(TextOf(tail), 0) || StartsWithNul(front[|front| - 1].nameData)))
  }

  lemma SpellsAllIff(front: seq<LongPart>, tail: seq<LongPart>)
    requires IsTail(tail) && Sized(front)
    ensures SpellsAll(front, tail) <==> NameText(tail) == NameText(front + tail)
    ensures SpellsAll(front, tail) <==> EndsName(Highest(tail), LeftBehind(front, tail))
  {
    if tail != [] {
      TailIsNameIff(front, tail);
      TailBegins(front, tail);
      TextSize(tail);
      TextEnds(TextOf(tail), CutAtNul(TextOf(front + tail) + [0, 0]), LeftOf(front, tail));
    } else {
      assert front + tail == front;
    }
  }

  lemma LookupOfSearch(io: IoHandle, table: seq<nat>, reversed: seq<nat>, volume: seq<byte>, identifier: nat,
                       entry: Entry,
                       tail: seq<LongPart>, place: int, record: Entry, turns: nat, collected: Collected)
    requires Fronted(io, volume, identifier, entry, tail, place, record)
    requires Search(io, reversed, volume, InFront(io, identifier, tail), turns) == Some(collected)
    ensures EntryByIdentifier(io, table, reversed, volume, identifier, turns) == Named(entry, identifier, collected)
  {
    SearchFromFront(io, reversed, volume, identifier, tail, turns);
  }

  lemma NamedByTail(entry: Entry, identifier: nat, tail: seq<LongPart>)
    requires IsTail(tail) && entry.name.None?
    ensures Named(entry, identifier, Ended(Highest(tail), tail)) == Found(ListedAs(entry, identifier, NameText(tail)))
  {
    if tail != [] {
      NamedByText(entry, identifier, Ended(Highest(tail), tail));
    }
  }

  lemma SearchEndsAt(io: IoHandle, reversed: seq<nat>, volume: seq<byte>, s: Position, turns: nat, record: Entry,
                     ended: Collected)
    requires 2 < s.cluster && s.offset <= s.end && 1 <= turns && ReadAt(io.format, volume, s.offset) == Some(record)
    requires record.kind.ShortName? || record.kind.Terminator?
    requires ended == Ended(s.last, s.parts)
    ensures Search(io, reversed, volume, s, turns) == Some(ended)
  {
  }

  /** With another short record or a terminator in front of the last records of a run, the lookup finds the short
      record with the name that these records alone spell. */
  lemma TailIsFound(io: IoHandle, table: seq<nat>, reversed: seq<nat>, volume: seq<byte>, identifier: nat, entry: Entry,
                    tail: seq<LongPart>, place: int, record: Entry, turns: nat)
    requires Fronted(io, volume, identifier, entry, tail, place, record) && 1 <= turns
    requires record.kind.ShortName? || record.kind.Terminator?
    ensures EntryByIdentifier(io, table, reversed, volume, identifier, turns)
            == Found(ListedAs(entry, identifier, NameText(tail)))
  {
    var ended := Ended(Highest(tail), tail);
    SearchEndsAt(io, reversed, volume, InFront(io, identifier, tail), turns, record, ended);
    LookupOfSearch(io, table, reversed, volume, identifier, entry, tail, place, record, turns, ended);
    NamedByTail(entry, identifier, tail);
  }

  /** That is the name of the run exactly when these records hold its end; otherwise the name is cut short. */
  lemma TailIsCutIff(io: IoHandle, table: seq<nat>, reversed: seq<nat>, volume: seq<byte>, identifier: nat,
                     entry: Entry,
                     front: seq<LongPart>, tail: seq<LongPart>, place: int, record: Entry, turns: nat)
    requires Fronted(io, volume, identifier, entry, tail, place, record) && Sized(front) && 1 <= turns
    requires record.kind.ShortName? || record.kind.Terminator?
    ensures var lookup := EntryByIdentifier(io, table, reversed, volume, identifier, turns);
            lookup == Found(ListedAs(entry, identifier, NameText(front + tail))) <==> SpellsAll(front, tail)
  {
    TailIsFound(io, table, reversed, volume, identifier, entry, tail, place, record, turns);
    SpellsAllIff(front, tail);
  }

  /** A long-name record with any number but the next one in front of the last records of a run makes the lookup
      fail. */
  lemma OrphanRejects(io: IoHandle, table: seq<nat>, reversed: seq<nat>, volume: seq<byte>, identifier: nat,
                      entry: Entry,
                      tail: seq<LongPart>, place: int, record: Entry, turns: nat)
    requires Fronted(io, volume, identifier, entry, tail, place, record) && 1 <= turns && tail != []
    requires record.kind.VfatLongName? && SequenceNumber(record.sequence) != Highest(tail) + 1
    ensures EntryByIdentifier(io, table, reversed, volume, identifier, turns) == Rejected
  {
    assert 0 < Highest(tail);
    SearchTakesPart(io, reversed, volume, InFront(io, identifier, tail), turns, record);
    LookupOfSearch(io, table, reversed, volume, identifier, entry, tail, place, record, turns, Stuck);
  }

  /** A long-name record with the next number is taken: the lookup finds the name of the run exactly when the record
      is the next piece of the name, or the name has ended, and the records in front of it spell the rest. */
  lemma NextNumberInFront(io: IoHandle, table: seq<nat>, reversed: seq<nat>, volume: seq<byte>, identifier: nat,
                          entry: Entry, front: seq<LongPart>, tail: seq<LongPart>, place: int, record: Entry,
                          turns: nat)
    requires Fronted(io, volume, identifier, entry, tail, place, record) && EmptyOrRun(front + tail)
    requires 1 <= turns && tail != []
    requires record.kind.VfatLongName? && SequenceNumber(record.sequence) == Highest(tail) + 1
    ensures var lookup := EntryByIdentifier(io, table, reversed, volume, identifier, turns);
            lookup == Found(ListedAs(entry, identifier, NameText(front + tail))) <==>
              && Behind(record.nameData, LeftOf(front, tail)).Some?
              && Spells(io, reversed, volume, StartCluster(io, identifier), place - RECORD_SIZE, Highest(tail) + 1,
                        Behind(record.nameData, LeftOf(front, tail)), turns)
  {
    FrontIff(io, table, reversed, volume, identifier, entry, front, tail, place, turns);
    SpellsPiece(io, reversed, volume, StartCluster(io, identifier), place, Highest(tail), LeftOf(front, tail), turns,
                record);
  }

  lemma SpellsPiece(io: IoHandle, reversed: seq<nat>, volume: seq<byte>, cluster: nat, offset: int, last: nat,
                    left: seq<byte>, turns: nat, record: Entry)
    requires 2 < cluster && 1 <= turns && ReadAt(io.format, volume, offset) == Some(record)
    requires record.kind.VfatLongName? && SequenceNumber(record.sequence) == last + 1
    ensures Spells(io, reversed, volume, cluster, offset, last, Some(left), turns) <==>
              && Behind(record.nameData, left).Some?
              && Spells(io, reversed, volume, cluster, offset - RECORD_SIZE, last + 1,
                        Behind(record.nameData, left), turns)
  {
  }

  /** An unallocated record in front of the last records of a run: the lookup fails if the reversed table has no
      entry for the cluster; finds the name that these records spell if it leads to no further cluster; and
      otherwise finds the name of the run exactly when the records of that cluster spell the rest. */
  lemma DeletedInFront(io: IoHandle, table: seq<nat>, reversed: seq<nat>, volume: seq<byte>, identifier: nat,
                       entry: Entry,
                       front: seq<LongPart>, tail: seq<LongPart>, place: int, record: Entry, turns: nat)
    requires Fronted(io, volume, identifier, entry, tail, place, record) && EmptyOrRun(front + tail)
    requires 1 <= turns && record.kind.Unallocated?
    ensures var cluster := StartCluster(io, identifier);
            var lookup := EntryByIdentifier(io, table, reversed, volume, identifier, turns);
            && (|reversed| <= cluster ==> lookup == Rejected)
            && (cluster < |reversed| && reversed[cluster] <= 2 ==>
                  lookup == Found(ListedAs(entry, identifier, NameText(tail))))
            && (cluster < |reversed| ==>
                  (lookup == Found(ListedAs(entry, identifier, NameText(front + tail))) <==>
                   SpellsFrom(io, reversed, volume, reversed[cluster], Highest(tail), LeftBehind(front, tail),
                              turns - 1)))
  {
    if |reversed| <= StartCluster(io, identifier) {
      DeletedRejects(io, table, reversed, volume, identifier, entry, tail, place, record, turns);
    } else {
      DeletedGoesOn(io, table, reversed, volume, identifier, entry, front, tail, place, record, turns);
      if reversed[StartCluster(io, identifier)] <= 2 {
        DeletedEnds(io, table, reversed, volume, identifier, entry, tail, place, record, turns);
      }
    }
  }

  lemma DeletedRejects(io: IoHandle, table: seq<nat>, reversed: seq<nat>, volume: seq<byte>, identifier: nat,
                       entry: Entry, tail: seq<LongPart>, place: int, record: Entry, turns: nat)
    requires Fronted(io, volume, identifier, entry, tail, place, record) && 1 <= turns && record.kind.Unallocated?
    requires |reversed| <= StartCluster(io, identifier)
    ensures EntryByIdentifier(io, table, reversed, volume, identifier, turns) == Rejected
  {
    SearchPasses(io, reversed, volume, InFront(io, identifier, tail), turns, record);
    LookupOfSearch(io, table, reversed, volume, identifier, entry, tail, place, record, turns, Stuck);
  }

  lemma DeletedEnds(io: IoHandle, table: seq<nat>, reversed: seq<nat>, volume: seq<byte>, identifier: nat,
                    entry: Entry, tail: seq<LongPart>, place: int, record: Entry, turns: nat)
    requires Fronted(io, volume, identifier, entry, tail, place, record) && 1 <= turns && record.kind.Unallocated?
    requires StartCluster(io, identifier) < |reversed| && reversed[StartCluster(io, identifier)] <= 2
    ensures EntryByIdentifier(io, table, reversed, volume, identifier, turns)
            == Found(ListedAs(entry, identifier, NameText(tail)))
  {
    var ended := Ended(Highest(tail), tail);
    SearchPasses(io, reversed, volume, InFront(io, identifier, tail), turns, record);
    LookupOfSearch(io, table, reversed, volume, identifier, entry, tail, place, record, turns, ended);
    NamedByTail(entry, identifier, tail);
  }

  lemma DeletedGoesOn(io: IoHandle, table: seq<nat>, reversed: seq<nat>, volume: seq<byte>, identifier: nat,
                      entry: Entry, front: seq<LongPart>, tail: seq<LongPart>, place: int, record: Entry, turns: nat)
    requires Fronted(io, volume, identifier, entry, tail, place, record) && EmptyOrRun(front + tail)
    requires 1 <= turns && record.kind.Unallocated? && StartCluster(io, identifier) < |reversed|
    ensures EntryByIdentifier(io, table, reversed, volume, identifier, turns)
            == Found(ListedAs(entry, identifier, NameText(front + tail)))
            <==> SpellsFrom(io, reversed, volume, reversed[StartCluster(io, identifier)], Highest(tail),
                            LeftBehind(front, tail), turns - 1)
  {
    FrontIff(io, table, reversed, volume, identifier, entry, front, tail, place, turns);
    SpellsOn(io, reversed, volume, StartCluster(io, identifier), place, Highest(tail), LeftBehind(front, tail), turns,
             record);
  }

  lemma SpellsOn(io: IoHandle, reversed: seq<nat>, volume: seq<byte>, cluster: nat, offset: int, last: nat,
                 left: Option<seq<byte>>, turns: nat, record: Entry)
    requires 2 < cluster < |reversed| && 1 <= turns && ReadAt(io.format, volume, offset) == Some(record)
    requires record.kind.Unallocated?
    ensures Spells(io, reversed, volume, cluster, offset, last, left, turns) <==>
            SpellsFrom(io, reversed, volume, reversed[cluster], last, left, turns - 1)
  {
  }

  lemma SearchPasses(io: IoHandle, reversed: seq<nat>, volume: seq<byte>, s: Position, turns: nat, record: Entry)
    requires 2 < s.cluster && s.offset <= s.end && 1 <= turns && ReadAt(io.format, volume, s.offset) == Some(record)
    requires record.kind.Unallocated?
    ensures Search(io, reversed, volume, s, turns) ==
            if |reversed| <= s.cluster then Some(Stuck)
            else Search(io, reversed, volume, AtCluster(io, reversed[s.cluster], s.last, s.parts), turns - 1)
  {
  }
}

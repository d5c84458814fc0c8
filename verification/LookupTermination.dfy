/** When the lookup by an identifier ends: the code does not bound its search. */
module LookupTermination {
  import opened AllocationTable
  import opened Common
  import opened DirectoryEntry
  import opened DirectoryScan
  import opened IdentifierLookup

  // ----- links

  /** The cluster k links on in a table, which is a reversed table in the case of FAT; 0 behind the table. */
  function Linked(links: seq<nat>, cluster: nat, k: nat): nat
    decreases k
  {
    if k == 0 then cluster
    else Linked(links, if cluster < |links| then links[cluster] else 0, k - 1)
  }

  lemma {:induction false} LinkedSum(links: seq<nat>, cluster: nat, j: nat, k: nat)
    ensures Linked(links, cluster, j + k) == Linked(links, Linked(links, cluster, j), k)
    decreases j
  {
    if j != 0 {
      LinkedSum(links, if cluster < |links| then links[cluster] else 0, j - 1, k);
    }
  }

  /** A cluster that the search goes on from. */
  predicate Searched(reversed: seq<nat>, cluster: nat) {
    2 < cluster < |reversed|
  }

  /** The reversed table leads from a cluster back to it in p steps. */
  ghost predicate OnCycle(reversed: seq<nat>, cluster: nat, p: nat) {
    && 0 < p && Linked(reversed, cluster, p) == cluster
    && forall k :: 0 <= k < p ==> Searched(reversed, Linked(reversed, cluster, k))
  }

  /** The first record of a cluster is unallocated. */
  predicate StartsUnallocated(io: IoHandle, volume: seq<byte>, cluster: nat) {
    var first := ReadAt(io.format, volume, io.ClusterOffset(cluster));
    first.Some? && first.value.kind.Unallocated?
  }

  /** A cycle of clusters that all start with an unallocated record. */
  ghost predicate UnallocatedCycle(io: IoHandle, reversed: seq<nat>, volume: seq<byte>, cluster: nat, p: nat) {
    && OnCycle(reversed, cluster, p)
    && forall k :: 0 <= k < p ==> StartsUnallocated(io, volume, Linked(reversed, cluster, k))
  }

  /** The cycle is also one from the next cluster on. */
  lemma CycleTurns(io: IoHandle, reversed: seq<nat>, volume: seq<byte>, cluster: nat, p: nat)
    requires UnallocatedCycle(io, reversed, volume, cluster, p)
    ensures Searched(reversed, cluster) && StartsUnallocated(io, volume, cluster)
    ensures UnallocatedCycle(io, reversed, volume, reversed[cluster], p)
  {
    assert Linked(reversed, cluster, 0) == cluster;
    LinkedSum(reversed, cluster, 1, p);
    LinkedSum(reversed, cluster, p, 1);
    assert Linked(reversed, cluster, 1) == reversed[cluster];
    forall k | 0 <= k < p
      ensures Searched(reversed, Linked(reversed, reversed[cluster], k))
      ensures StartsUnallocated(io, volume, Linked(reversed, reversed[cluster], k))
    {
      LinkedSum(reversed, cluster, 1, k);
      assert Linked(reversed, reversed[cluster], k) == Linked(reversed, cluster, if k + 1 == p then 0 else k + 1);
    }
  }

  // ----- the turns of the search

  /** The position after a turn that does not end the search. */
  function Next(io: IoHandle, reversed: seq<nat>, volume: seq<byte>, s: Position): Option<Position> {
    var collected := CollectAt(io, volume, s);
    if Searched(reversed, s.cluster) && collected.GoesOn? then
      Some(AtCluster(io, reversed[s.cluster], collected.last, collected.parts))
    else None
  }

  function After(io: IoHandle, reversed: seq<nat>, volume: seq<byte>, s: Position, n: nat): Option<Position>
    decreases n
  {
    if n == 0 then Some(s)
    else
      match Next(io, reversed, volume, s)
      case None => None
      case Some(next) => After(io, reversed, volume, next, n - 1)
  }

  /** A search is unfinished as long as its turns lead to a cluster above 2. */
  lemma {:induction false} UnfinishedIff(io: IoHandle, reversed: seq<nat>, volume: seq<byte>, s: Position, turns: nat)
    ensures Search(io, reversed, volume, s, turns).None? <==>
              After(io, reversed, volume, s, turns).Some? && 2 < After(io, reversed, volume, s, turns).value.cluster
    decreases turns
  {
    var next := Next(io, reversed, volume, s);
    if turns != 0 && next.Some? {
      UnfinishedIff(io, reversed, volume, next.value, turns - 1);
    }
  }

  lemma {:induction false} AfterSum(io: IoHandle, reversed: seq<nat>, volume: seq<byte>, s: Position, m: nat, n: nat)
    ensures After(io, reversed, volume, s, m + n) ==
            match After(io, reversed, volume, s, m) {
              case None => None
              case Some(t) => After(io, reversed, volume, t, n)
            }
    decreases m
  {
    var next := Next(io, reversed, volume, s);
    if m != 0 && next.Some? {
      AfterSum(io, reversed, volume, next.value, m - 1, n);
    }
  }

  /** Turns take one step back each. */
  lemma {:induction false} AfterIsLinked(io: IoHandle, reversed: seq<nat>, volume: seq<byte>, s: Position, n: nat)
    requires After(io, reversed, volume, s, n).Some?
    ensures var t := After(io, reversed, volume, s, n).value;
            && t.cluster == Linked(reversed, s.cluster, n) && s.last <= t.last
            && (0 < n ==> t == AtCluster(io, t.cluster, t.last, t.parts))
    decreases n
  {
    if n != 0 {
      var next := Next(io, reversed, volume, s).value;
      CollectRises(io.format, volume, s.offset, s.last, s.parts);
      AfterIsLinked(io, reversed, volume, next, n - 1);
    }
  }

  /** Collecting goes on only behind an unallocated record, with numbers that rise from the first record's. */
  lemma {:induction false} CollectRises(format: Format, volume: seq<byte>, offset: int, last: nat, parts: seq<LongPart>)
    ensures var collected := Collect(format, volume, offset, last, parts);
            collected.GoesOn? ==>
              && last <= collected.last && ReadAt(format, volume, offset).Some?
              && var entry := ReadAt(format, volume, offset).value;
                 if entry.kind.VfatLongName? then
                   var number := SequenceNumber(entry.sequence);
                   0 < number <= collected.last && (last == 0 || number == last + 1)
                 else !entry.kind.ShortName? && !entry.kind.Terminator? && collected == GoesOn(last, parts)
    decreases offset
  {
    var read := ReadAt(format, volume, offset);
    if read.Some? && read.value.kind.VfatLongName? {
      var number := SequenceNumber(read.value.sequence);
      assert IsSequence(read.value.sequence);
      if last == 0 || last + 1 == number {
        CollectRises(format, volume, offset - RECORD_SIZE, number,
                     [LongPart(read.value.sequence, read.value.nameData)] + parts);
      }
    }
  }

  lemma FatKinds(format: Format, volume: seq<byte>, offset: int)
    requires format != ExFat && ReadAt(format, volume, offset).Some?
    ensures var kind := ReadAt(format, volume, offset).value.kind;
            FatKind(kind) || kind.Terminator?
  {
  }

  // ----- a cycle of unallocated clusters is never left

  lemma {:induction false} CycleNeverLeft(io: IoHandle, reversed: seq<nat>, volume: seq<byte>, s: Position, p: nat,
                                          n: nat)
    requires UnallocatedCycle(io, reversed, volume, s.cluster, p) && s == AtCluster(io, s.cluster, s.last, s.parts)
    ensures After(io, reversed, volume, s, n).Some? && 2 < After(io, reversed, volume, s, n).value.cluster
    decreases n
  {
    CycleTurns(io, reversed, volume, s.cluster, p);
    if n != 0 {
      CollectPasses(io.format, volume, s.offset, s.last, s.parts);
      CycleNeverLeft(io, reversed, volume, AtCluster(io, reversed[s.cluster], s.last, s.parts), p, n - 1);
    }
  }

  lemma CollectPasses(format: Format, volume: seq<byte>, offset: int, last: nat, parts: seq<LongPart>)
    requires ReadAt(format, volume, offset).Some? && ReadAt(format, volume, offset).value.kind.Unallocated?
    ensures Collect(format, volume, offset, last, parts) == GoesOn(last, parts)
  {
  }

  // ----- a search that goes on for long is on such a cycle

  /** A cluster that is left twice starts with an unallocated record: a long-name record would have to have a
      number above its own the second time. */
  lemma LeftTwice(io: IoHandle, reversed: seq<nat>, volume: seq<byte>, s: Position, t: Position)
    requires io.format != ExFat && s == AtCluster(io, s.cluster, s.last, s.parts)
             && t == AtCluster(io, s.cluster, t.last, t.parts)
    requires Next(io, reversed, volume, s).Some? && Next(io, reversed, volume, t).Some?
    requires Next(io, reversed, volume, s).value.last <= t.last
    ensures StartsUnallocated(io, volume, s.cluster)
  {
    CollectRises(io.format, volume, s.offset, s.last, s.parts);
    CollectRises(io.format, volume, t.offset, t.last, t.parts);
    FatKinds(io.format, volume, s.offset);
  }

  /** Two laps on a cycle show that its clusters start with unallocated records. */
  lemma TwoLaps(io: IoHandle, reversed: seq<nat>, volume: seq<byte>, s: Position, p: nat)
    requires io.format != ExFat && s == AtCluster(io, s.cluster, s.last, s.parts)
    requires OnCycle(reversed, s.cluster, p) && After(io, reversed, volume, s, p + p).Some?
    ensures UnallocatedCycle(io, reversed, volume, s.cluster, p)
  {
    forall k | 0 <= k < p
      ensures StartsUnallocated(io, volume, Linked(reversed, s.cluster, k))
    {
      OneLapLater(io, reversed, volume, s, p, k);
    }
  }

  lemma LapFromAnywhere(links: seq<nat>, cluster: nat, p: nat, k: nat)
    requires Linked(links, cluster, p) == cluster
    ensures Linked(links, Linked(links, cluster, k), p) == Linked(links, cluster, k)
  {
    LinkedSum(links, cluster, k, p);
    LinkedSum(links, cluster, p, k);
  }

  lemma OneLapLater(io: IoHandle, reversed: seq<nat>, volume: seq<byte>, s: Position, p: nat, k: nat)
    requires io.format != ExFat && s == AtCluster(io, s.cluster, s.last, s.parts) && k < p
    requires OnCycle(reversed, s.cluster, p) && After(io, reversed, volume, s, p + p).Some?
    ensures StartsUnallocated(io, volume, Linked(reversed, s.cluster, k))
  {
    var rest := p - 1 - k;
    assert k + (p + 1 + rest) == p + p;
    AfterSplit(io, reversed, volume, s, k, p + 1 + rest);
    AfterIsLinked(io, reversed, volume, s, k);
    LapFromAnywhere(reversed, s.cluster, p, k);
    var t := After(io, reversed, volume, s, k).value;
    LapIsTaken(io, reversed, volume, t, p, rest);
  }

  lemma LapIsTaken(io: IoHandle, reversed: seq<nat>, volume: seq<byte>, s: Position, p: nat, rest: nat)
    requires io.format != ExFat && s == AtCluster(io, s.cluster, s.last, s.parts)
    requires 0 < p && Linked(reversed, s.cluster, p) == s.cluster && After(io, reversed, volume, s, p + 1 + rest).Some?
    ensures StartsUnallocated(io, volume, s.cluster)
  {
    AfterSplit(io, reversed, volume, s, p + 1, rest);
    OneLap(io, reversed, volume, s, p);
  }

  lemma OneLap(io: IoHandle, reversed: seq<nat>, volume: seq<byte>, s: Position, p: nat)
    requires io.format != ExFat && s == AtCluster(io, s.cluster, s.last, s.parts)
    requires 0 < p && Linked(reversed, s.cluster, p) == s.cluster && After(io, reversed, volume, s, p + 1).Some?
    ensures StartsUnallocated(io, volume, s.cluster)
  {
    AfterSplit(io, reversed, volume, s, p, 1);
    AfterSplit(io, reversed, volume, s, 1, p - 1);
    AfterIsLinked(io, reversed, volume, s, p);
    var next, t := Next(io, reversed, volume, s).value, After(io, reversed, volume, s, p).value;
    assert After(io, reversed, volume, s, 1) == Some(next);
    assert After(io, reversed, volume, t, 1).Some?;
    AfterIsLinked(io, reversed, volume, next, p - 1);
    LeftTwice(io, reversed, volume, s, t);
  }

  /** The position after some of the turns, from which the rest of them leads on. */
  lemma AfterSplit(io: IoHandle, reversed: seq<nat>, volume: seq<byte>, s: Position, m: nat, n: nat)
    requires After(io, reversed, volume, s, m + n).Some?
    ensures After(io, reversed, volume, s, m).Some?
    ensures After(io, reversed, volume, After(io, reversed, volume, s, m).value, n) ==
            After(io, reversed, volume, s, m + n)
  {
    AfterSum(io, reversed, volume, s, m, n);
  }

  lemma {:induction false} DistinctIsShort(s: seq<nat>, m: nat)
    requires forall i :: 0 <= i < |s| ==> s[i] < m
    requires forall i, j :: 0 <= i < j < |s| ==> s[i] != s[j]
    ensures |s| <= m
    decreases m
  {
    if s != [] {
      assert s[0] < m;
      if i :| 0 <= i < |s| && s[i] == m - 1 {
        DistinctIsShort(s[..i] + s[i + 1..], m - 1);
      } else {
        DistinctIsShort(s, m - 1);
      }
    }
  }

  /** Among more links than the table has entries, two lead to the same cluster. */
  lemma LinksRepeat(links: seq<nat>, cluster: nat, first: nat) returns (i: nat, p: nat)
    requires forall k :: first <= k <= first + |links| ==> Linked(links, cluster, k) < |links|
    ensures first <= i && 0 < p && i + p <= first + |links|
    ensures Linked(links, cluster, i) == Linked(links, cluster, i + p)
  {
    var clusters := seq(|links| + 1, k requires 0 <= k => Linked(links, cluster, first + k));
    if forall i, j :: 0 <= i < j < |clusters| ==> clusters[i] != clusters[j] {
      DistinctIsShort(clusters, |links|);
      assert false;
    }
    var a, b :| 0 <= a < b < |clusters| && clusters[a] == clusters[b];
    i, p := first + a, b - a;
  }

  lemma StepsRepeat(reversed: seq<nat>, cluster: nat) returns (i: nat, p: nat)
    requires forall k :: 1 <= k <= |reversed| + 1 ==> Searched(reversed, Linked(reversed, cluster, k))
    ensures 1 <= i && 0 < p && i + p <= |reversed| + 1
    ensures OnCycle(reversed, Linked(reversed, cluster, i), p)
  {
    i, p := LinksRepeat(reversed, cluster, 1);
    LinkedSum(reversed, cluster, i, p);
    forall k | 0 <= k < p
      ensures Searched(reversed, Linked(reversed, Linked(reversed, cluster, i), k))
    {
      LinkedSum(reversed, cluster, i, k);
    }
  }

  /** The turns lead to a cycle of unallocated clusters. */
  ghost predicate Circles(io: IoHandle, reversed: seq<nat>, volume: seq<byte>, s: Position) {
    exists n, p ::
      && 1 <= n && After(io, reversed, volume, s, n).Some?
      && UnallocatedCycle(io, reversed, volume, After(io, reversed, volume, s, n).value.cluster, p)
  }

  lemma LongSearchCircles(io: IoHandle, reversed: seq<nat>, volume: seq<byte>, s: Position)
    requires io.format != ExFat && Search(io, reversed, volume, s, 2 * |reversed| + 1).None?
    ensures Circles(io, reversed, volume, s)
  {
    var turns := 2 * |reversed| + 1;
    UnfinishedIff(io, reversed, volume, s, turns);
    forall k | 1 <= k <= |reversed| + 1
      ensures Searched(reversed, Linked(reversed, s.cluster, k))
    {
      StaysInTable(io, reversed, volume, s, k, turns);
    }
    var i, p := StepsRepeat(reversed, s.cluster);
    AfterSplit(io, reversed, volume, s, i + p + p, turns - (i + p + p));
    AfterSplit(io, reversed, volume, s, i, p + p);
    AfterIsLinked(io, reversed, volume, s, i);
    TwoLaps(io, reversed, volume, After(io, reversed, volume, s, i).value, p);
  }

  lemma StaysInTable(io: IoHandle, reversed: seq<nat>, volume: seq<byte>, s: Position, k: nat, turns: nat)
    requires 1 <= k <= |reversed| + 1 && turns == 2 * |reversed| + 1
    requires After(io, reversed, volume, s, turns).Some? && 2 < After(io, reversed, volume, s, turns).value.cluster
    ensures Searched(reversed, Linked(reversed, s.cluster, k))
  {
    if k < turns {
      AfterSplit(io, reversed, volume, s, k, turns - k);
    }
    AfterIsLinked(io, reversed, volume, s, k);
  }

  ghost predicate NeverFinished(io: IoHandle, reversed: seq<nat>, volume: seq<byte>, s: Position) {
    forall turns: nat {:trigger Search(io, reversed, volume, s, turns)} :: Search(io, reversed, volume, s, turns).None?
  }

  /**
    For any reversed table, a search is unfinished after every number of turns exactly when its turns lead to
    a cycle of clusters that start with unallocated records; otherwise it is finished after at most
    2 * |reversed| + 1 turns.
   */
  lemma SearchEndsIff(io: IoHandle, reversed: seq<nat>, volume: seq<byte>, s: Position)
    requires io.format != ExFat
    ensures Circles(io, reversed, volume, s) <==> NeverFinished(io, reversed, volume, s)
    ensures !Circles(io, reversed, volume, s) ==> Search(io, reversed, volume, s, 2 * |reversed| + 1).Some?
  {
    if Circles(io, reversed, volume, s) {
      forall turns: nat
        ensures Search(io, reversed, volume, s, turns).None?
      {
        CirclesForever(io, reversed, volume, s, turns);
      }
    } else {
      var turns: nat := 2 * |reversed| + 1;
      if Search(io, reversed, volume, s, turns).None? {
        LongSearchCircles(io, reversed, volume, s);
      }
      assert Search(io, reversed, volume, s, turns).Some?;
    }
  }

  lemma CirclesForever(io: IoHandle, reversed: seq<nat>, volume: seq<byte>, s: Position, turns: nat)
    requires Circles(io, reversed, volume, s)
    ensures Search(io, reversed, volume, s, turns).None?
  {
    var n, p :|
      && 1 <= n && After(io, reversed, volume, s, n).Some?
      && UnallocatedCycle(io, reversed, volume, After(io, reversed, volume, s, n).value.cluster, p);
    var t := After(io, reversed, volume, s, n).value;
    AfterIsLinked(io, reversed, volume, s, n);
    CycleNeverLeft(io, reversed, volume, t, p, turns);
    AfterSum(io, reversed, volume, s, n, turns);
    assert After(io, reversed, volume, s, turns + n).Some?;
    AfterSplit(io, reversed, volume, s, turns, n);
    AfterIsLinked(io, reversed, volume, s, turns);
    UnfinishedIff(io, reversed, volume, s, turns);
  }

  /** A finished search stays as it is with more turns. */
  lemma {:induction false} SearchSettles(io: IoHandle, reversed: seq<nat>, volume: seq<byte>, s: Position, turns: nat,
                                         more: nat)
    requires Search(io, reversed, volume, s, turns).Some? && turns <= more
    ensures Search(io, reversed, volume, s, more) == Search(io, reversed, volume, s, turns)
    decreases turns
  {
    var next := Next(io, reversed, volume, s);
    if turns != 0 && next.Some? {
      SearchSettles(io, reversed, volume, next.value, turns - 1, more - 1);
    }
  }

  // ----- tables that were decoded

  /** No two clusters have the same cluster in front of them. */
  ghost predicate OneSuccessor(reversed: seq<nat>) {
    forall a, b :: 0 <= a < |reversed| && 0 <= b < |reversed| && reversed[a] == reversed[b] != 0 ==> a == b
  }

  /** A reversed table made from an allocation table, in which a cluster has one successor. */
  lemma FilledHasOneSuccessor(entries: seq<Decoded>, table: array<nat>, reversed: array<nat>)
    requires Filled(entries, table, reversed)
    ensures OneSuccessor(reversed[..])
  {
    ReversedPointsBack(entries, table, reversed);
  }

  /** A cluster in front of a cycle is on it. */
  lemma FrontIsOnCycle(io: IoHandle, reversed: seq<nat>, volume: seq<byte>, cluster: nat, p: nat)
    requires OneSuccessor(reversed) && Searched(reversed, cluster)
    requires UnallocatedCycle(io, reversed, volume, reversed[cluster], p)
    ensures UnallocatedCycle(io, reversed, volume, cluster, p)
  {
    var before := Linked(reversed, reversed[cluster], p - 1);
    LinkedSum(reversed, reversed[cluster], p - 1, 1);
    assert Searched(reversed, before);
    assert Linked(reversed, before, 1) == reversed[before];
    assert Linked(reversed, reversed[cluster], 0) == reversed[cluster];
    assert before == cluster;
    LinkedSum(reversed, cluster, 1, p - 1);
    assert Linked(reversed, cluster, 1) == reversed[cluster];
    forall k | 0 <= k < p
      ensures Searched(reversed, Linked(reversed, cluster, k))
      ensures StartsUnallocated(io, volume, Linked(reversed, cluster, k))
    {
      if k != 0 {
        LinkedSum(reversed, cluster, 1, k - 1);
        assert Linked(reversed, cluster, k) == Linked(reversed, reversed[cluster], k - 1);
      } else {
        assert Linked(reversed, cluster, 0) == Linked(reversed, reversed[cluster], p - 1);
      }
    }
  }

  lemma {:induction false} StartIsOnCycle(io: IoHandle, reversed: seq<nat>, volume: seq<byte>, s: Position, n: nat,
                                          p: nat)
    requires OneSuccessor(reversed) && After(io, reversed, volume, s, n).Some?
    requires UnallocatedCycle(io, reversed, volume, After(io, reversed, volume, s, n).value.cluster, p)
    ensures UnallocatedCycle(io, reversed, volume, s.cluster, p)
    decreases n
  {
    if n != 0 {
      var next := Next(io, reversed, volume, s).value;
      StartIsOnCycle(io, reversed, volume, next, n - 1, p);
      FrontIsOnCycle(io, reversed, volume, s.cluster, p);
    }
  }

  /** On a decoded table the search circles exactly when its first records end at an unallocated one and its
      first cluster is on a cycle of unallocated clusters. */
  lemma CirclesIff(io: IoHandle, reversed: seq<nat>, volume: seq<byte>, s: Position)
    requires OneSuccessor(reversed)
    ensures Circles(io, reversed, volume, s) <==>
              CollectAt(io, volume, s).GoesOn? && exists p :: UnallocatedCycle(io, reversed, volume, s.cluster, p)
  {
    if Circles(io, reversed, volume, s) {
      var n, p :|
        && 1 <= n && After(io, reversed, volume, s, n).Some?
        && UnallocatedCycle(io, reversed, volume, After(io, reversed, volume, s, n).value.cluster, p);
      StartIsOnCycle(io, reversed, volume, s, n, p);
    }
    if p :| CollectAt(io, volume, s).GoesOn? && UnallocatedCycle(io, reversed, volume, s.cluster, p) {
      CycleTurns(io, reversed, volume, s.cluster, p);
      var next := Next(io, reversed, volume, s);
      assert After(io, reversed, volume, s, 1) == next;
    }
  }

  /** The records in front of a short record come to an end, without a failure, at an unallocated record, or
      are not looked at, and its cluster number is on a cycle of clusters that start with unallocated records. */
  ghost predicate LookupCircles(io: IoHandle, reversed: seq<nat>, volume: seq<byte>, identifier: nat)
    requires 0 < io.clusterBlockSize
  {
    && ReadAt(io.format, volume, identifier).Some?
    && ReadAt(io.format, volume, identifier).value.kind.ShortName?
    && CollectAt(io, volume, StartPosition(io, identifier)).GoesOn?
    && exists p :: UnallocatedCycle(io, reversed, volume, StartCluster(io, identifier), p)
  }

  ghost predicate LookupNeverEnds(io: IoHandle, table: seq<nat>, reversed: seq<nat>, volume: seq<byte>, identifier: nat)
    requires 0 < io.clusterBlockSize
  {
    forall turns: nat {:trigger EntryByIdentifier(io, table, reversed, volume, identifier, turns)} ::
      EntryByIdentifier(io, table, reversed, volume, identifier, turns) == Unfinished
  }

  /**
    On a FAT volume with a reversed table that was decoded, the lookup does not end exactly when it circles;
    otherwise it ends within 2 * |reversed| + 1 turns.
   */
  lemma LookupEndsIff(io: IoHandle, entries: seq<Decoded>, table: array<nat>, reversed: array<nat>, volume: seq<byte>,
                      identifier: nat)
    requires 0 < io.clusterBlockSize && io.format != ExFat && Filled(entries, table, reversed)
    ensures LookupCircles(io, reversed[..], volume, identifier)
            <==> LookupNeverEnds(io, table[..], reversed[..], volume, identifier)
    ensures !LookupCircles(io, reversed[..], volume, identifier) ==>
              EntryByIdentifier(io, table[..], reversed[..], volume, identifier, 2 * reversed.Length + 1) != Unfinished
  {
    FilledHasOneSuccessor(entries, table, reversed);
    EndsIff(io, table[..], reversed[..], volume, identifier);
  }

  lemma EndsIff(io: IoHandle, table: seq<nat>, reversed: seq<nat>, volume: seq<byte>, identifier: nat)
    requires 0 < io.clusterBlockSize && io.format != ExFat && OneSuccessor(reversed)
    ensures LookupCircles(io, reversed, volume, identifier) <==>
            LookupNeverEnds(io, table, reversed, volume, identifier)
    ensures !LookupCircles(io, reversed, volume, identifier) ==>
              EntryByIdentifier(io, table, reversed, volume, identifier, 2 * |reversed| + 1) != Unfinished
  {
    var s, bound: nat := StartPosition(io, identifier), 2 * |reversed| + 1;
    SearchEndsIff(io, reversed, volume, s);
    CirclesIff(io, reversed, volume, s);
    UnfinishedLookup(io, table, reversed, volume, identifier, bound);
    forall turns: nat
      ensures EntryByIdentifier(io, table, reversed, volume, identifier, turns) == Unfinished <==>
                && ReadAt(io.format, volume, identifier).Some?
                && ReadAt(io.format, volume, identifier).value.kind.ShortName?
                && Search(io, reversed, volume, s, turns).None?
    {
      UnfinishedLookup(io, table, reversed, volume, identifier, turns);
    }
  }

  lemma UnfinishedLookup(io: IoHandle, table: seq<nat>, reversed: seq<nat>, volume: seq<byte>, identifier: nat,
                         turns: nat)
    requires 0 < io.clusterBlockSize && io.format != ExFat
    ensures EntryByIdentifier(io, table, reversed, volume, identifier, turns) == Unfinished <==>
              && ReadAt(io.format, volume, identifier).Some?
              && ReadAt(io.format, volume, identifier).value.kind.ShortName?
              && Search(io, reversed, volume, StartPosition(io, identifier), turns).None?
  {
    if ReadAt(io.format, volume, identifier).Some? {
      FatKinds(io.format, volume, identifier);
    }
  }

  // ----- exFAT

  /** The search for the group of a file record goes on behind a cluster: it holds nothing but name records up
      to its end or to a record that belongs to no group. */
  predicate PassesOn(io: IoHandle, table: seq<nat>, volume: seq<byte>, cluster: nat) {
    var start := io.ClusterOffset(cluster);
    && cluster < |table| && ChainGoesOn(table[cluster])
    && Follow(volume, start, start + io.clusterBlockSize, EMPTY, [], false).Onward?
    && !Follow(volume, start, start + io.clusterBlockSize, EMPTY, [], false).stream
  }

  /** Where following the records ends does not depend on what was found before. */
  lemma {:induction false} FollowIsUniform(volume: seq<byte>, offset: int, end: int, entry: Entry,
                                           names: seq<seq<byte>>,
                                           other: Entry, others: seq<seq<byte>>, stream: bool)
    ensures var a := Follow(volume, offset, end, entry, names, stream);
            var b := Follow(volume, offset, end, other, others, stream);
            && a.Broken? == b.Broken? && a.Complete? == b.Complete? && a.Onward? == b.Onward?
            && (a.Onward? ==> a.stream == b.stream)
    decreases end - offset
  {
    if offset < end && !stream && ReadAt(ExFat, volume, offset).Some? {
      var next := ReadAt(ExFat, volume, offset).value;
      if next.kind.ExFatDataStream? {
        FollowIsUniform(volume, offset + RECORD_SIZE, end, WithStream(entry, next), names, WithStream(other, next),
                        others, true);
      } else if next.kind.ExFatFileEntryName? {
        FollowIsUniform(volume, offset + RECORD_SIZE, end, entry, names + [next.nameData], other,
                        others + [next.nameData], false);
      }
    }
  }

  function FollowFrom(io: IoHandle, table: seq<nat>, volume: seq<byte>, cluster: nat, entry: Entry,
                      names: seq<seq<byte>>,
                      stream: bool, turns: nat): Option<Followed>
  {
    var start := io.ClusterOffset(cluster);
    FollowChain(io, table, volume, cluster, start, start + io.clusterBlockSize, entry, names, stream, turns)
  }

  ghost predicate AllPassOn(io: IoHandle, table: seq<nat>, volume: seq<byte>, cluster: nat, count: nat) {
    forall k :: 0 <= k < count ==> PassesOn(io, table, volume, Linked(table, cluster, k))
  }

  lemma AllPassOnNext(io: IoHandle, table: seq<nat>, volume: seq<byte>, cluster: nat, count: nat)
    requires 0 < count
    ensures AllPassOn(io, table, volume, cluster, count) <==>
              PassesOn(io, table, volume, cluster) && AllPassOn(io, table, volume, table[cluster], count - 1)
  {
    assert Linked(table, cluster, 0) == cluster;
    if PassesOn(io, table, volume, cluster) {
      assert Linked(table, cluster, 1) == table[cluster];
      forall k | 0 <= k < count - 1
        ensures Linked(table, table[cluster], k) == Linked(table, cluster, k + 1)
      {
        LinkedSum(table, cluster, 1, k);
      }
      if AllPassOn(io, table, volume, table[cluster], count - 1) {
        forall k | 0 <= k < count
          ensures PassesOn(io, table, volume, Linked(table, cluster, k))
        {
          if k != 0 {
            assert Linked(table, cluster, k) == Linked(table, table[cluster], k - 1);
          }
        }
      }
    }
  }

  /** A data stream that was found is not followed by anything. */
  lemma StreamStops(io: IoHandle, table: seq<nat>, volume: seq<byte>, cluster: nat, entry: Entry, names: seq<seq<byte>>,
                    turns: nat)
    requires 0 < io.clusterBlockSize && 0 < turns
    ensures FollowFrom(io, table, volume, cluster, entry, names, true, turns) == Some(Broken)
  {
  }

  /** The search is unfinished as long as the clusters pass it on; one turn may pass without. */
  lemma {:induction false} FollowUnfinished(io: IoHandle, table: seq<nat>, volume: seq<byte>, cluster: nat,
                                            entry: Entry,
                                            names: seq<seq<byte>>, turns: nat)
    requires 0 < io.clusterBlockSize
    ensures var found := FollowFrom(io, table, volume, cluster, entry, names, false, turns);
            && (AllPassOn(io, table, volume, cluster, turns) ==> found.None?)
            && (found.None? && 0 < turns ==> AllPassOn(io, table, volume, cluster, turns - 1))
    decreases turns
  {
    if turns != 0 {
      var start := io.ClusterOffset(cluster);
      var followed := Follow(volume, start, start + io.clusterBlockSize, entry, names, false);
      FollowIsUniform(volume, start, start + io.clusterBlockSize, entry, names, EMPTY, [], false);
      AllPassOnNext(io, table, volume, cluster, turns);
      if PassesOn(io, table, volume, cluster) {
        FollowUnfinished(io, table, volume, table[cluster], followed.entry, followed.names, turns - 1);
        if 1 < turns {
          AllPassOnNext(io, table, volume, cluster, turns - 1);
        }
      } else if 1 < turns && followed.Onward? && cluster < |table| {
        StreamStops(io, table, volume, table[cluster], followed.entry, followed.names, turns - 1);
      }
    }
  }

  /** The clusters that follow lead to a cycle, and all of them pass the search on. */
  ghost predicate PassedAround(io: IoHandle, table: seq<nat>, volume: seq<byte>, cluster: nat) {
    exists n, p :: PassesRound(io, table, volume, cluster, n, p)
  }

  ghost predicate PassesRound(io: IoHandle, table: seq<nat>, volume: seq<byte>, cluster: nat, n: nat, p: nat) {
    && 0 < p && Linked(table, cluster, n) == Linked(table, cluster, n + p)
    && AllPassOn(io, table, volume, cluster, n + p)
  }

  lemma {:induction false} PassesAlways(io: IoHandle, table: seq<nat>, volume: seq<byte>, cluster: nat, n: nat, p: nat,
                                        k: nat)
    requires PassesRound(io, table, volume, cluster, n, p)
    ensures PassesOn(io, table, volume, Linked(table, cluster, k))
    decreases k
  {
    if n + p <= k {
      PassesAlways(io, table, volume, cluster, n, p, k - p);
      LinkedSum(table, cluster, n + p, k - p - n);
      LinkedSum(table, cluster, n, k - p - n);
    }
  }

  lemma LongFollowPassesAround(io: IoHandle, table: seq<nat>, volume: seq<byte>, cluster: nat)
    requires AllPassOn(io, table, volume, cluster, |table| + 1)
    ensures PassedAround(io, table, volume, cluster)
  {
    forall k | 0 <= k <= |table|
      ensures Linked(table, cluster, k) < |table|
    {
      assert PassesOn(io, table, volume, Linked(table, cluster, k));
    }
    var n, p := LinksRepeat(table, cluster, 0);
    assert PassesRound(io, table, volume, cluster, n, p);
  }

  /** What follows a file record in its part of the volume. */
  function FollowFirst(io: IoHandle, volume: seq<byte>, identifier: nat, entry: Entry): Followed
    requires 0 < io.clusterBlockSize
  {
    Follow(volume, identifier + RECORD_SIZE, StartEnd(io, identifier), entry, [], false)
  }

  /** The records behind a file record come to an end with no data stream among them, and the clusters that
      follow in the allocation table pass the search around. */
  ghost predicate GroupCircles(io: IoHandle, table: seq<nat>, volume: seq<byte>, identifier: nat)
    requires 0 < io.clusterBlockSize
  {
    var read, cluster := ReadAt(io.format, volume, identifier), StartCluster(io, identifier);
    && read.Some? && read.value.kind.ExFatFileEntry?
    && FollowFirst(io, volume, identifier, read.value).Onward?
    && !FollowFirst(io, volume, identifier, read.value).stream
    && cluster < |table| && ChainGoesOn(table[cluster]) && PassedAround(io, table, volume, table[cluster])
  }

  function FollowGroup(io: IoHandle, table: seq<nat>, volume: seq<byte>, identifier: nat, entry: Entry,
                       turns: nat): Option<Followed>
    requires 0 < io.clusterBlockSize
  {
    FollowChain(io, table, volume, StartCluster(io, identifier), identifier + RECORD_SIZE, StartEnd(io, identifier),
                entry, [], false, turns)
  }

  lemma UnfinishedGroup(io: IoHandle, table: seq<nat>, reversed: seq<nat>, volume: seq<byte>, identifier: nat,
                        turns: nat)
    requires 0 < io.clusterBlockSize && io.format == ExFat
    ensures var read := ReadAt(io.format, volume, identifier);
            EntryByIdentifier(io, table, reversed, volume, identifier, turns) == Unfinished <==>
              read.Some? && read.value.kind.ExFatFileEntry?
              && FollowGroup(io, table, volume, identifier, read.value, turns).None?
  {
  }

  lemma FirstTurn(io: IoHandle, table: seq<nat>, volume: seq<byte>, identifier: nat, entry: Entry, turns: nat)
    requires 0 < io.clusterBlockSize && 0 < turns
    ensures var cluster, first := StartCluster(io, identifier), FollowFirst(io, volume, identifier, entry);
            FollowGroup(io, table, volume, identifier, entry, turns).None? <==>
              && first.Onward? && cluster < |table| && ChainGoesOn(table[cluster])
              && FollowFrom(io, table, volume, table[cluster], first.entry, first.names, first.stream, turns - 1).None?
  {
  }

  lemma GroupUnfinished(io: IoHandle, table: seq<nat>, reversed: seq<nat>, volume: seq<byte>, identifier: nat,
                        turns: nat)
    requires 0 < io.clusterBlockSize && io.format == ExFat
    ensures GroupCircles(io, table, volume, identifier) ==>
              EntryByIdentifier(io, table, reversed, volume, identifier, turns) == Unfinished
    ensures EntryByIdentifier(io, table, reversed, volume, identifier, turns) == Unfinished && |table| + 3 <= turns ==>
              GroupCircles(io, table, volume, identifier)
  {
    UnfinishedGroup(io, table, reversed, volume, identifier, turns);
    var read, cluster := ReadAt(io.format, volume, identifier), StartCluster(io, identifier);
    if read.Some? && turns != 0 {
      FirstTurn(io, table, volume, identifier, read.value, turns);
      var first := FollowFirst(io, volume, identifier, read.value);
      if first.Onward? && cluster < |table| {
        AfterFirst(io, table, volume, table[cluster], first, turns - 1);
      }
    }
  }

  lemma AfterFirst(io: IoHandle, table: seq<nat>, volume: seq<byte>, cluster: nat, followed: Followed, turns: nat)
    requires 0 < io.clusterBlockSize && followed.Onward?
    ensures var found := FollowFrom(io, table, volume, cluster, followed.entry, followed.names, followed.stream, turns);
            && (!followed.stream && PassedAround(io, table, volume, cluster) ==> found.None?)
            && (found.None? && |table| + 2 <= turns ==> !followed.stream && PassedAround(io, table, volume, cluster))
  {
    if followed.stream {
      if 0 < turns {
        StreamStops(io, table, volume, cluster, followed.entry, followed.names, turns);
      }
    } else {
      FollowUnfinished(io, table, volume, cluster, followed.entry, followed.names, turns);
      if PassedAround(io, table, volume, cluster) {
        AroundPassesAll(io, table, volume, cluster, turns);
      } else if |table| + 2 <= turns && AllPassOn(io, table, volume, cluster, turns - 1) {
        LongFollowPassesAround(io, table, volume, cluster);
      }
    }
  }

  lemma AroundPassesAll(io: IoHandle, table: seq<nat>, volume: seq<byte>, cluster: nat, count: nat)
    requires PassedAround(io, table, volume, cluster)
    ensures AllPassOn(io, table, volume, cluster, count)
  {
    var n, p :| PassesRound(io, table, volume, cluster, n, p);
    forall k | 0 <= k < count
      ensures PassesOn(io, table, volume, Linked(table, cluster, k))
    {
      PassesAlways(io, table, volume, cluster, n, p, k);
    }
  }

  /** On an exFAT volume the lookup of a file record does not end exactly when it is passed around; otherwise
      it ends within |table| + 3 turns. */
  lemma GroupLookupEndsIff(io: IoHandle, table: seq<nat>, reversed: seq<nat>, volume: seq<byte>, identifier: nat)
    requires 0 < io.clusterBlockSize && io.format == ExFat
    ensures GroupCircles(io, table, volume, identifier) <==> LookupNeverEnds(io, table, reversed, volume, identifier)
    ensures !GroupCircles(io, table, volume, identifier) ==>
              EntryByIdentifier(io, table, reversed, volume, identifier, |table| + 3) != Unfinished
  {
    var bound: nat := |table| + 3;
    GroupUnfinished(io, table, reversed, volume, identifier, bound);
    if GroupCircles(io, table, volume, identifier) {
      forall turns: nat
        ensures EntryByIdentifier(io, table, reversed, volume, identifier, turns) == Unfinished
      {
        GroupUnfinished(io, table, reversed, volume, identifier, turns);
      }
    } else {
      assert EntryByIdentifier(io, table, reversed, volume, identifier, bound) != Unfinished;
    }
  }

  // ----- a volume on which the lookup of a listed file does not end

  /** A FAT12 volume of eight sectors: the boot record, the allocation table, the root directory, and from
      1536 on clusters of one sector. */
  const SMALL: IoHandle := IoHandle(Fat12, 512, 512, 4096, 1536, 1024)

  /** Zeros but for the number 4 in entry 4 of the allocation table, a short record at 1056 behind an
      unallocated record, and an unallocated record at the start of cluster 4. */
  function CycleVolume(): (volume: seq<byte>)
    ensures IsCycleVolume(volume)
  {
    seq(4096, i => CycleByte(i))
  }

  function CycleByte(i: int): byte {
    if i == 518 then 4 else if i == 1024 || i == 2560 then 0xe5 else if i == 1056 then 0x41 else 0
  }

  ghost predicate IsCycleVolume(volume: seq<byte>) {
    |volume| == 4096 && forall i :: 0 <= i < 4096 ==> volume[i] == CycleByte(i)
  }

  /** The three records in the root directory and the first one of cluster 4. */
  lemma CycleRecords(volume: seq<byte>)
    requires IsCycleVolume(volume)
    ensures StartsAs(volume, 1024, 0xe5) && StartsAs(volume, 1056, 0x41) && StartsAs(volume, 2560, 0xe5)
    ensures ReadAt(Fat12, volume, 1088) == Some(EMPTY)
  {
    assert RecordAt(volume, 1088) == seq(32, _ => 0);
    FirstByteTells(volume, 1024);
    FirstByteTells(volume, 1056);
    FirstByteTells(volume, 2560);
  }

  /** An unallocated record, or a short one without attributes. */
  predicate StartsAs(volume: seq<byte>, offset: int, first: byte) {
    var read := ReadAt(Fat12, volume, offset);
    && read.Some?
    && (first == 0xe5 ==> read.value.kind.Unallocated?)
    && (first == 0x41 ==> read.value.kind.ShortName? && read.value.attributes == 0)
  }

  lemma FirstByteTells(volume: seq<byte>, offset: nat)
    requires Inside(volume, offset) && volume[offset + 11] == 0 && (volume[offset] == 0xe5 || volume[offset] == 0x41)
    ensures StartsAs(volume, offset, volume[offset])
  {
    var record := RecordAt(volume, offset);
    assert record[0] == volume[offset] && record[11] == volume[offset + 11];
  }

  ghost predicate IsCycleData(data: seq<byte>) {
    |data| == 512 && forall p :: 0 <= p < 512 ==> data[p] == if p == 6 then 4 else 0
  }

  /** The table that the volume's own allocation table is decoded to, and its reverse. */
  lemma CycleTable(data: seq<byte>, table: array<nat>, reversed: array<nat>)
    requires IsCycleData(data) && 5 <= table.Length <= 0x1000 && FilledFrom(SMALL, data, table, reversed)
    ensures table[4] == 4 && reversed.Length == table.Length && reversed[4] == 4
  {
    var all := TableEntries(SMALL, data);
    PackedInFirstSector(SMALL, data, 5);
    TableIsPaired(SMALL, data);
    CycleEntry(data, 4);
    CycleEntry(data, 5);
    assert PairedAt(all, 4);
    var entries := all[..Min(table.Length, |all|)];
    LastLinkIsGreatest(entries, table.Length, 4);
    CycleEntry(data, LastLink(entries, table.Length, 4));
  }

  lemma CycleEntry(data: seq<byte>, i: nat)
    requires IsCycleData(data) && i < |TableEntries(SMALL, data)|
    ensures TableEntries(SMALL, data)[i].number == if i == 4 then 4 else 0
  {
    OneSectorEntries(SMALL, data, i);
    CyclePacked(data + [0, 0], i);
  }

  lemma CyclePacked(data: seq<byte>, i: nat)
    requires |data| == 514 && forall p :: 0 <= p < 514 ==> data[p] == if p == 6 then 4 else 0
    requires LastPackedByte(i) < 514
    ensures Packed12(data, i) == if i == 4 then 4 else 0
  {
  }

  /** With the tables decoded from the volume itself, the file that the root directory lists is not found in
      any number of turns. */
  lemma CycleNeverEnds(table: array<nat>, reversed: array<nat>)
    requires 5 <= table.Length <= 0x1000 && FilledFrom(SMALL, CycleVolume()[512..1024], table, reversed)
    ensures LookupNeverEnds(SMALL, table[..], reversed[..], CycleVolume(), 1056)
    ensures ListsOne(RangeListing(Fat12, CycleVolume(), 1024, 512), 1056)
  {
    CycleBytes(CycleVolume());
    NeverEndsOn(CycleVolume(), CycleVolume()[512..1024], table, reversed);
  }

  lemma CycleBytes(volume: seq<byte>)
    requires IsCycleVolume(volume)
    ensures IsCycleData(volume[512..1024])
  {
  }

  lemma NeverEndsOn(volume: seq<byte>, data: seq<byte>, table: array<nat>, reversed: array<nat>)
    requires IsCycleVolume(volume) && IsCycleData(data)
    requires 5 <= table.Length <= 0x1000 && FilledFrom(SMALL, data, table, reversed)
    ensures LookupNeverEnds(SMALL, table[..], reversed[..], volume, 1056)
    ensures ListsOne(RangeListing(Fat12, volume, 1024, 512), 1056)
  {
    var all := TableEntries(SMALL, data);
    CycleTable(data, table, reversed);
    CycleCircles(volume, reversed[..]);
    LookupEndsIff(SMALL, all[..Min(table.Length, |all|)], table, reversed, volume, 1056);
    CycleIsListed(volume);
  }

  lemma CycleCircles(volume: seq<byte>, reversed: seq<nat>)
    requires IsCycleVolume(volume) && 5 <= |reversed| && reversed[4] == 4
    ensures LookupCircles(SMALL, reversed, volume, 1056)
  {
    CycleRecords(volume);
    assert StartPosition(SMALL, 1056) == Position(4, 1024, 1536, 0, []);
    CollectPasses(Fat12, volume, 1024, 0, []);
    assert SMALL.ClusterOffset(4) == 2560;
    assert Linked(reversed, 4, 0) == 4 && Linked(reversed, 4, 1) == 4;
    assert UnallocatedCycle(SMALL, reversed, volume, 4, 1);
  }

  /** A directory with one file, at a place. */
  predicate ListsOne(listing: Option<Listing>, identifier: nat) {
    listing.Some? && |listing.value.files| == 1 && listing.value.files[0].identifier == identifier
  }

  lemma CycleIsListed(volume: seq<byte>)
    requires IsCycleVolume(volume)
    ensures ListsOne(RangeListing(Fat12, volume, 1024, 512), 1056)
  {
    CycleRecords(volume);
    ScanFirst(ByRange, Fat12, volume, 1024, 16, START);
    ScanFirst(ByRange, Fat12, volume, 1056, 15, START);
    ScanFirst(ByRange, Fat12, volume, 1088, 14, StepAt(ByRange, Fat12, volume, 1056, START).scan);
  }
}

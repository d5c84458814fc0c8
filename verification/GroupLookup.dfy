/** When the lookup by identifier finds an exFAT file: hardly ever, because a data stream stops it. */
module GroupLookup {
  import opened Common
  import opened DirectoryEntry
  import opened DirectoryScan
  import opened IdentifierLookup
  import G = ExFatGroups
  import T = LookupTermination

  // ----- ordinary groups are not found

  /** A file record, its data stream and a name record in a row, as exFAT has them, with the data stream in the
      part of the volume in which the lookup starts. */
  ghost predicate IsGroup(io: IoHandle, volume: seq<byte>, identifier: nat, file: Entry, stream: Entry, name: Entry) {
    && 0 < io.clusterBlockSize && io.format == ExFat && identifier + RECORD_SIZE < StartEnd(io, identifier)
    && ReadAt(ExFat, volume, identifier) == Some(file) && file.kind.ExFatFileEntry?
    && ReadAt(ExFat, volume, identifier + RECORD_SIZE) == Some(stream) && stream.kind.ExFatDataStream?
    && ReadAt(ExFat, volume, identifier + 2 * RECORD_SIZE) == Some(name) && name.kind.ExFatFileEntryName?
    && !IsSelf(name.nameData) && !IsParent(name.nameData)
  }

  /** The lookup of a group is rejected whatever the tables hold, although the directory scan lists it with its
      name: the data stream keeps the variable that the record behind it needs, and where there is none,
      no name was found. */
  lemma GroupListedButRejected(io: IoHandle, table: seq<nat>, reversed: seq<nat>, volume: seq<byte>, identifier: nat,
                               file: Entry, stream: Entry, name: Entry, s: Scan, turns: nat)
    requires IsGroup(io, volume, identifier, file, stream, name) && 2 <= turns
    ensures EntryByIdentifier(io, table, reversed, volume, identifier, turns) == Rejected
    ensures GroupIsListed(volume, identifier, stream, name, s)
  {
    GroupIsScanned(io, volume, identifier, file, stream, name, s);
    GroupIsRejected(io, table, reversed, volume, identifier, file, stream, name, turns);
  }

  lemma GroupIsRejected(io: IoHandle, table: seq<nat>, reversed: seq<nat>, volume: seq<byte>, identifier: nat,
                        file: Entry, stream: Entry, name: Entry, turns: nat)
    requires IsGroup(io, volume, identifier, file, stream, name) && 2 <= turns
    ensures EntryByIdentifier(io, table, reversed, volume, identifier, turns) == Rejected
  {
    var cluster := StartCluster(io, identifier);
    var named := WithStream(file, stream);
    StreamIsFollowed(volume, identifier + RECORD_SIZE, StartEnd(io, identifier), file, stream);
    if cluster < |table| && ChainGoesOn(table[cluster]) {
      T.StreamStops(io, table, volume, table[cluster], named, [], turns - 1);
    }
  }

  lemma StreamIsFollowed(volume: seq<byte>, offset: int, end: int, file: Entry, stream: Entry)
    requires offset < end && ReadAt(ExFat, volume, offset) == Some(stream) && stream.kind.ExFatDataStream?
    ensures Follow(volume, offset, end, file, [], false) ==
            if offset + RECORD_SIZE < end then Broken else Onward(WithStream(file, stream), [], true)
  {
  }

  /** The last file of the scan is that of the group, with a name. */
  ghost predicate GroupIsListed(volume: seq<byte>, identifier: nat, stream: Entry, name: Entry, s: Scan) {
    var outcome := ScanRecords(ByCluster, ExFat, volume, Offsets(identifier, 3), s);
    && outcome.Running? && |outcome.scan.listing.files| == |s.listing.files| + 1
    && var listed := outcome.scan.listing.files[|s.listing.files|];
       listed.identifier == identifier && listed.size == stream.size && listed.nameEntries == Some([name.nameData])
       && WellFormed(listed) && NameOf(listed) == ExFatName([name.nameData]) && NameOf(listed).Some?
  }

  lemma GroupIsScanned(io: IoHandle, volume: seq<byte>, identifier: nat, file: Entry, stream: Entry, name: Entry,
                       s: Scan)
    requires IsGroup(io, volume, identifier, file, stream, name)
    ensures GroupIsListed(volume, identifier, stream, name, s)
  {
    var listed := file.(identifier := identifier, nameEntries := Some([]));
    var a := Scan(s.listing.(files := s.listing.files + [listed]), s.progress.(stream := false));
    var b := Scan(s.listing.(files := s.listing.files + [WithStream(listed, stream)]), s.progress.(stream := true));
    var c := b.(listing := s.listing.(files := s.listing.files + [WithChunk(WithStream(listed, stream),
                                                                            name.nameData)]));
    FileIsScanned(volume, identifier, file, s, a);
    StreamIsScanned(volume, identifier + RECORD_SIZE, stream, a, b, s.listing.files, listed);
    NameIsScanned(volume, identifier + 2 * RECORD_SIZE, name, b, c, s.listing.files, WithStream(listed, stream));
    assert Offsets(identifier, 3) == [identifier, identifier + RECORD_SIZE, identifier + 2 * RECORD_SIZE];
    ScanChain(ByCluster, ExFat, volume, [identifier, identifier + RECORD_SIZE, identifier + 2 * RECORD_SIZE],
              [s, a, b, c]);
    assert [] + [name.nameData] == [name.nameData];
  }

  lemma FileIsScanned(volume: seq<byte>, offset: nat, file: Entry, s: Scan, next: Scan)
    requires ReadAt(ExFat, volume, offset) == Some(file) && file.kind.ExFatFileEntry?
    requires next == Scan(s.listing.(files := s.listing.files + [file.(identifier := offset, nameEntries := Some([]))]),
                          s.progress.(stream := false))
    ensures StepAt(ByCluster, ExFat, volume, offset, s) == Running(next)
  {
  }

  lemma StreamIsScanned(volume: seq<byte>, offset: nat, stream: Entry, s: Scan, next: Scan, files: seq<Entry>,
                        file: Entry)
    requires ReadAt(ExFat, volume, offset) == Some(stream) && stream.kind.ExFatDataStream?
    requires s.listing.files == files + [file] && !s.progress.stream
    requires next == Scan(s.listing.(files := files + [WithStream(file, stream)]), s.progress.(stream := true))
    ensures StepAt(ByCluster, ExFat, volume, offset, s) == Running(next)
  {
    assert ReplaceLast(files + [file], WithStream(file, stream)) == files + [WithStream(file, stream)];
  }

  lemma NameIsScanned(volume: seq<byte>, offset: nat, name: Entry, s: Scan, next: Scan, files: seq<Entry>, file: Entry)
    requires ReadAt(ExFat, volume, offset) == Some(name) && name.kind.ExFatFileEntryName?
    requires !IsSelf(name.nameData) && !IsParent(name.nameData) && s.listing.files == files + [file]
    requires next == s.(listing := s.listing.(files := files + [WithChunk(file, name.nameData)]))
    ensures StepAt(ByCluster, ExFat, volume, offset, s) == Running(next)
  {
    assert ReplaceLast(files + [file], WithChunk(file, name.nameData)) == files + [WithChunk(file, name.nameData)];
  }

  // ----- which groups are found

  /**
    The records that the lookup reads from a place on are a body of names, and the group ends there: at another
    file record or a terminator; or at a record that belongs to no group, or the end of the cluster, if the
    chain ends with the cluster.  A data stream can only be the last record of the last cluster.
   */
  predicate Gathers(io: IoHandle, table: seq<nat>, volume: seq<byte>, cluster: nat, offset: int, end: int,
                    body: seq<Entry>, turns: nat)
    decreases turns, Max(0, end - offset) + 1
  {
    if turns == 0 then false
    else if end <= offset then GathersOn(io, table, volume, cluster, body, turns)
    else
      match ReadAt(ExFat, volume, offset)
      case None => false
      case Some(next) =>
        if G.IsName(next) then
          body != [] && body[0] == next
          && Gathers(io, table, volume, cluster, offset + RECORD_SIZE, end, body[1..], turns)
        else if G.IsStream(next) then
          body == [next] && end <= offset + RECORD_SIZE && cluster < |table| && !ChainGoesOn(table[cluster])
        else if G.IsFile(next) || next.kind.Terminator? then body == []
        else GathersOn(io, table, volume, cluster, body, turns)
  }

  /** The same behind a cluster. */
  predicate GathersOn(io: IoHandle, table: seq<nat>, volume: seq<byte>, cluster: nat, body: seq<Entry>, turns: nat)
    requires 0 < turns
    decreases turns, 0
  {
    && cluster < |table|
    && if ChainGoesOn(table[cluster]) then
         var start := io.ClusterOffset(table[cluster]);
         Gathers(io, table, volume, table[cluster], start, start + io.clusterBlockSize, body, turns - 1)
       else body == []
  }

  /** What the search comes to when it has gathered a body. */
  function WithBody(entry: Entry, names: seq<seq<byte>>, body: seq<Entry>): Followed {
    Complete(if G.StreamOf(body).Some? then WithStream(entry, G.StreamOf(body).value) else entry,
             names + G.NameChunks(body))
  }

  lemma WithName(entry: Entry, names: seq<seq<byte>>, body: seq<Entry>)
    requires body != [] && G.IsName(body[0])
    ensures WithBody(entry, names, body) == WithBody(entry, names + [body[0].nameData], body[1..])
  {
    Reassociate(names, [body[0].nameData], G.NameChunks(body[1..]));
  }

  lemma WithNothing(entry: Entry, names: seq<seq<byte>>)
    ensures WithBody(entry, names, []) == Complete(entry, names)
  {
    assert names + [] == names;
  }

  lemma WithStreamOnly(entry: Entry, names: seq<seq<byte>>, stream: Entry)
    requires G.IsStream(stream)
    ensures WithBody(entry, names, [stream]) == Complete(WithStream(entry, stream), names)
  {
    assert [stream][1..] == [];
    assert G.NameChunks([stream]) == [];
    assert names + [] == names;
  }

  lemma FollowTakes(io: IoHandle, table: seq<nat>, volume: seq<byte>, cluster: nat, offset: int, end: int,
                    entry: Entry, names: seq<seq<byte>>, turns: nat, next: Entry)
    requires 0 < turns && offset < end && ReadAt(ExFat, volume, offset) == Some(next)
    ensures G.IsName(next) ==>
              FollowChain(io, table, volume, cluster, offset, end, entry, names, false, turns) ==
              FollowChain(io, table, volume, cluster, offset + RECORD_SIZE, end, entry, names + [next.nameData], false,
                          turns)
    ensures G.IsStream(next) ==>
              FollowChain(io, table, volume, cluster, offset, end, entry, names, false, turns) ==
              FollowChain(io, table, volume, cluster, offset + RECORD_SIZE, end, WithStream(entry, next), names, true,
                          turns)
  {
  }

  /** With a data stream taken, the search completes only at the end of the last cluster. */
  lemma StreamEndsSearch(io: IoHandle, table: seq<nat>, volume: seq<byte>, cluster: nat, offset: int, end: int,
                         entry: Entry, names: seq<seq<byte>>, turns: nat)
    requires 0 < turns && 0 < io.clusterBlockSize
    ensures var found := FollowChain(io, table, volume, cluster, offset, end, entry, names, true, turns);
            if end <= offset && cluster < |table| && !ChainGoesOn(table[cluster]) then
              found == Some(Complete(entry, names))
            else found.None? || found.value.Broken?
  {
    if end <= offset && cluster < |table| && ChainGoesOn(table[cluster]) && 1 < turns {
      T.StreamStops(io, table, volume, table[cluster], entry, names, turns - 1);
    }
  }

  /** The search from a place on completes exactly with the bodies that it can gather. */
  lemma {:induction false} CompletesIff(io: IoHandle, table: seq<nat>, volume: seq<byte>, cluster: nat, offset: int,
                                        end: int, entry: Entry, names: seq<seq<byte>>, turns: nat)
    returns (body: seq<Entry>)
    requires 0 < io.clusterBlockSize
    ensures var found := FollowChain(io, table, volume, cluster, offset, end, entry, names, false, turns);
            if found.Some? && found.value.Complete? then
              && Gathers(io, table, volume, cluster, offset, end, body, turns)
              && found.value == WithBody(entry, names, body)
            else forall other :: !Gathers(io, table, volume, cluster, offset, end, other, turns)
    decreases turns, Max(0, end - offset) + 1
  {
    body := [];
    WithNothing(entry, names);
    if turns != 0 {
      if offset < end && ReadAt(ExFat, volume, offset).Some? {
        var next := ReadAt(ExFat, volume, offset).value;
        FollowTakes(io, table, volume, cluster, offset, end, entry, names, turns, next);
        if G.IsName(next) {
          var rest := CompletesIff(io, table, volume, cluster, offset + RECORD_SIZE, end, entry,
                                   names + [next.nameData], turns);
          body := [next] + rest;
          WithName(entry, names, body);
        } else if G.IsStream(next) {
          body := [next];
          WithStreamOnly(entry, names, next);
          StreamEndsSearch(io, table, volume, cluster, offset + RECORD_SIZE, end, WithStream(entry, next), names,
                           turns);
        } else if !G.IsFile(next) && !next.kind.Terminator? {
          body := CompletesOnIff(io, table, volume, cluster, entry, names, turns);
        }
      } else if end <= offset {
        body := CompletesOnIff(io, table, volume, cluster, entry, names, turns);
      }
    }
  }

  lemma {:induction false} CompletesOnIff(io: IoHandle, table: seq<nat>, volume: seq<byte>, cluster: nat,
                                          entry: Entry, names: seq<seq<byte>>, turns: nat)
    returns (body: seq<Entry>)
    requires 0 < io.clusterBlockSize && 0 < turns
    ensures var found := BehindCluster(io, table, volume, cluster, entry, names, turns);
            if found.Some? && found.value.Complete? then
              GathersOn(io, table, volume, cluster, body, turns) && found.value == WithBody(entry, names, body)
            else forall other :: !GathersOn(io, table, volume, cluster, other, turns)
    decreases turns, 0
  {
    body := [];
    WithNothing(entry, names);
    if cluster < |table| && ChainGoesOn(table[cluster]) {
      var start := io.ClusterOffset(table[cluster]);
      body := CompletesIff(io, table, volume, table[cluster], start, start + io.clusterBlockSize, entry, names,
                           turns - 1);
    }
  }

  /** How the search goes on behind a cluster without a data stream. */
  function BehindCluster(io: IoHandle, table: seq<nat>, volume: seq<byte>, cluster: nat,
                         entry: Entry, names: seq<seq<byte>>, turns: nat): Option<Followed>
    requires 0 < turns
  {
    if |table| <= cluster then Some(Broken)
    else if !ChainGoesOn(table[cluster]) then Some(Complete(entry, names))
    else T.FollowFrom(io, table, volume, table[cluster], entry, names, false, turns - 1)
  }

  /** A body is made of names, and possibly a data stream as its last record. */
  lemma {:induction false} BodyShape(io: IoHandle, table: seq<nat>, volume: seq<byte>, cluster: nat, offset: int,
                                     end: int,
                                     body: seq<Entry>, turns: nat)
    requires Gathers(io, table, volume, cluster, offset, end, body, turns)
    ensures forall i :: 0 <= i < |body| ==> G.IsName(body[i]) || (i == |body| - 1 && G.IsStream(body[i]))
    decreases turns, Max(0, end - offset) + 1
  {
    if offset < end && G.IsName(ReadAt(ExFat, volume, offset).value) {
      BodyShape(io, table, volume, cluster, offset + RECORD_SIZE, end, body[1..], turns);
    } else if body != [] && !(offset < end && G.IsStream(ReadAt(ExFat, volume, offset).value)) {
      var start := io.ClusterOffset(table[cluster]);
      BodyShape(io, table, volume, table[cluster], start, start + io.clusterBlockSize, body, turns - 1);
    }
  }

  /** The file record with its group, as it is listed, and with the name that it gets when it is asked for. */
  function FoundAs(file: Entry, identifier: nat, body: seq<Entry>): Entry {
    G.Completed(G.NewFile(file, identifier), body).(nameEntries := None, name := ExFatName(G.NameChunks(body)))
  }

  ghost predicate GathersGroup(io: IoHandle, table: seq<nat>, volume: seq<byte>, identifier: nat, body: seq<Entry>,
                               turns: nat)
    requires 0 < io.clusterBlockSize
  {
    Gathers(io, table, volume, StartCluster(io, identifier), identifier + RECORD_SIZE, StartEnd(io, identifier), body,
            turns)
  }

  /** The lookup of a file record finds an entry exactly when it is the file record completed by a body with one to
      nine names that the records behind it are. */
  lemma GroupFoundIff(io: IoHandle, table: seq<nat>, reversed: seq<nat>, volume: seq<byte>, identifier: nat,
                      file: Entry, found: Entry, turns: nat)
    requires 0 < io.clusterBlockSize && io.format == ExFat
    requires ReadAt(ExFat, volume, identifier) == Some(file) && G.IsFile(file)
    ensures EntryByIdentifier(io, table, reversed, volume, identifier, turns) == Found(found) <==>
            exists body :: && GathersGroup(io, table, volume, identifier, body, turns)
                           && 1 <= |G.NameChunks(body)| <= 9 && found == FoundAs(file, identifier, body)
  {
    var body := CompletesIff(io, table, volume, StartCluster(io, identifier), identifier + RECORD_SIZE,
                             StartEnd(io, identifier), file, [], turns);
    var followed := T.FollowGroup(io, table, volume, identifier, file, turns);
    LookupOfGroup(io, table, reversed, volume, identifier, file, turns, followed);
    if followed.Some? && followed.value.Complete? {
      BodyIsNamed(file, identifier, body);
      BodyIsUnique(io, table, volume, StartCluster(io, identifier), identifier + RECORD_SIZE, StartEnd(io, identifier),
                   body, turns);
      assert GathersGroup(io, table, volume, identifier, body, turns);
    }
  }

  lemma LookupOfGroup(io: IoHandle, table: seq<nat>, reversed: seq<nat>, volume: seq<byte>, identifier: nat,
                      file: Entry,
                      turns: nat, followed: Option<Followed>)
    requires 0 < io.clusterBlockSize && io.format == ExFat
    requires ReadAt(ExFat, volume, identifier) == Some(file) && G.IsFile(file)
    requires followed == T.FollowGroup(io, table, volume, identifier, file, turns)
    ensures followed.Some? ==> !followed.value.Onward?
    ensures EntryByIdentifier(io, table, reversed, volume, identifier, turns) ==
            if followed.None? then Unfinished else NamedByChunks(followed.value, identifier)
    ensures file.name.None? && file.nameEntries.None?
  {
    FollowChainStops(io, table, volume, StartCluster(io, identifier), identifier + RECORD_SIZE,
                     StartEnd(io, identifier), file, [], false, turns);
  }

  lemma BodyIsNamed(file: Entry, identifier: nat, body: seq<Entry>)
    requires file.nameEntries.None?
    ensures NamedByChunks(WithBody(file, [], body), identifier) ==
            if 1 <= |G.NameChunks(body)| <= 9 then Found(FoundAs(file, identifier, body)) else Rejected
  {
    assert [] + G.NameChunks(body) == G.NameChunks(body);
  }

  lemma {:induction false} BodyIsUnique(io: IoHandle, table: seq<nat>, volume: seq<byte>, cluster: nat, offset: int,
                                        end: int, body: seq<Entry>, turns: nat)
    ensures Gathers(io, table, volume, cluster, offset, end, body, turns) ==>
              forall other :: Gathers(io, table, volume, cluster, offset, end, other, turns) ==> other == body
    decreases turns, Max(0, end - offset) + 1
  {
    forall other | && Gathers(io, table, volume, cluster, offset, end, body, turns)
                   && Gathers(io, table, volume, cluster, offset, end, other, turns)
      ensures other == body
    {
      SameBody(io, table, volume, cluster, offset, end, body, other, turns);
    }
  }

  lemma {:induction false} SameBody(io: IoHandle, table: seq<nat>, volume: seq<byte>, cluster: nat, offset: int,
                                    end: int,
                                    body: seq<Entry>, other: seq<Entry>, turns: nat)
    requires Gathers(io, table, volume, cluster, offset, end, body, turns)
    requires Gathers(io, table, volume, cluster, offset, end, other, turns)
    ensures other == body
    decreases turns, Max(0, end - offset) + 1
  {
    if offset < end && G.IsName(ReadAt(ExFat, volume, offset).value) {
      SameBody(io, table, volume, cluster, offset + RECORD_SIZE, end, body[1..], other[1..], turns);
      assert body == [body[0]] + body[1..] && other == [other[0]] + other[1..];
    } else if body != other {
      var start := io.ClusterOffset(table[cluster]);
      SameBody(io, table, volume, table[cluster], start, start + io.clusterBlockSize, body, other, turns - 1);
    }
  }
}

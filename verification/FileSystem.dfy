/**
  The path lookup as the library runs it: directories are cached by their cluster, entries keep the names
  they were asked for, and neither changes what is found.
 */
module FileSystem {
  import opened Common
  import opened DirectoryEntry
  import opened DirectoryReader
  import opened DirectoryScan
  import opened PathLookup
  import B = BlockTree
  import P = PathEscape

  // ----- names are determined when they are needed

  /** The entry as read, or with the name it gives. */
  ghost predicate Refill(read: Entry, entry: Entry) {
    entry == read || (WellFormed(read) && entry == read.(name := NameOf(read)))
  }

  ghost predicate Refilled(read: Listing, listing: Listing) {
    && listing == read.(files := listing.files)
    && |listing.files| == |read.files|
    && forall i :: 0 <= i < |read.files| ==> Refill(read.files[i], listing.files[i])
  }

  lemma RefillKeepsName(read: Entry, entry: Entry)
    requires WellFormed(read) && Refill(read, entry)
    ensures WellFormed(entry) && NameOf(entry) == NameOf(read)
  {
  }

  lemma RefilledTwice(read: Listing, listing: Listing, more: Listing)
    requires AllWellFormed(read.files) && Refilled(read, listing) && Refilled(listing, more)
    ensures Refilled(read, more) && AllWellFormed(listing.files)
  {
    forall i | 0 <= i < |read.files|
      ensures Refill(read.files[i], more.files[i]) && WellFormed(listing.files[i])
    {
      RefillKeepsName(read.files[i], listing.files[i]);
      assert Refill(listing.files[i], more.files[i]);
    }
  }

  /** The directory object holds a directory as it was read, but for names determined since. */
  ghost predicate Represents(directory: Directory, read: Listing)
    reads directory, directory.fileEntries
  {
    AllWellFormed(read.files) && directory.Valid() && Refilled(read, directory.content)
  }

  /** Determines the name of one file entry of a directory, which is then kept. */
  method DetermineName(directory: Directory, index: nat, ghost read: Listing) returns (name: Option<Name>)
    requires index < |directory.fileEntries| && Represents(directory, read)
    modifies directory`content, directory.fileEntries
    ensures Represents(directory, read)
    ensures name == NameOf(read.files[index])
  {
    var entry := directory.fileEntries[index];
    ghost var before := directory.content;
    RefillKeepsName(read.files[index], before.files[index]);
    if entry.name.None? {
      var _ := entry.GetName();
    }
    name := entry.name;
    directory.content := directory.content.(files := directory.content.files[index := entry.Value()]);
    assert Refill(before.files[index], directory.content.files[index]);
    RefilledTwice(read, before, directory.content);
  }

  /** Compares a name with one file entry of a directory; none when the entry's name cannot be determined. */
  method CompareEntry(directory: Directory, index: nat, locale: Locale, component: Text, ghost read: Listing)
    returns (comparison: Option<Comparison>)
    requires index < |directory.fileEntries| && Represents(directory, read)
    modifies directory`content, directory.fileEntries
    ensures Represents(directory, read)
    ensures comparison == Compared(locale, read.files[index], component)
  {
    var name := DetermineName(directory, index, read);
    if name.None? {
      return None;
    }
    var result := CompareWithString(locale, name.value, component);
    comparison := Some(result);
  }

  lemma FindStep(locale: Locale, files: seq<Entry>, component: Text, index: nat)
    requires index <= |files| && AllWellFormed(files)
    ensures index == |files| ==> FindFrom(locale, files, component, index) == Missing
    ensures index < |files| ==>
              var comparison := Compared(locale, files[index], component);
              && (comparison == None ==> FindFrom(locale, files, component, index) == Broken)
              && (comparison == Some(Equal) ==> FindFrom(locale, files, component, index) == At(index))
              && (comparison.Some? && comparison != Some(Equal) ==>
                    FindFrom(locale, files, component, index) == FindFrom(locale, files, component, index + 1))
  {
  }

  /** One turn of the search: the entry has the name, or ends the search, or the next one is looked at. */
  method SearchEntry(directory: Directory, index: nat, locale: Locale, component: Text, ghost read: Listing)
    returns (found: Search)
    requires index < |read.files| && Represents(directory, read)
    modifies directory`content, directory.fileEntries
    ensures Represents(directory, read)
    ensures FindFrom(locale, read.files, component, index) ==
            if found.Missing? then FindFrom(locale, read.files, component, index + 1) else found
  {
    FindStep(locale, read.files, component, index);
    var comparison := CompareEntry(directory, index, locale, component, read);
    found := if comparison.None? then Broken else if comparison.value == Equal then At(index) else Missing;
  }

  /** Searches a directory for the first file entry with a name, determining names on the way. */
  method GetFileEntryByName(directory: Directory, locale: Locale, component: Text, ghost read: Listing)
    returns (found: Search)
    requires Represents(directory, read)
    modifies directory`content, directory.fileEntries
    ensures Represents(directory, read)
    ensures found == Find(locale, read.files, component)
  {
    var index, count := 0, |directory.fileEntries|;
    ghost var goal := Find(locale, read.files, component);
    while index < count
      invariant index <= count == |read.files| && Represents(directory, read)
      invariant goal == FindFrom(locale, read.files, component, index)
    {
      found := SearchEntry(directory, index, locale, component, read);
      if !found.Missing? {
        return;
      }
      index := index + 1;
    }
    FindStep(locale, read.files, component, index);
    found := Missing;
  }

  /** The place and the start cluster of a file entry. */
  method EntryAt(directory: Directory, index: nat, ghost read: Listing) returns (step: Step)
    requires index < |read.files| && Represents(directory, read)
    ensures step == Reaches(read.files[index].identifier, read.files[index].startCluster)
  {
    var entry := directory.fileEntries[index];
    assert Refill(read.files[index], entry.Value());
    step := Reaches(entry.identifier, entry.startCluster);
  }

  // ----- the cache

  lemma OneMore(rest: Text, component: Text)
    requires rest != []
    ensures IsBreak(rest[0]) ==> Component(rest) == [] && Rest(rest) == rest[1..]
    ensures !IsBreak(rest[0]) ==> component + Component(rest) == component + [rest[0]] + Component(rest[1..])
    ensures !IsBreak(rest[0]) ==> Rest(rest) == Rest(rest[1..])
  {
  }

  /** Takes the next component of a path. */
  method NextComponent(path: Text, index0: nat) returns (component: Text, index: nat)
    requires index0 < |path|
    ensures component == Component(path[index0..])
    ensures index0 < index <= |path| && path[index..] == Rest(path[index0..])
  {
    component, index := [], index0;
    ghost var whole, behind := Component(path[index0..]), Rest(path[index0..]);
    while index < |path|
      invariant index0 <= index <= |path|
      invariant whole == component + Component(path[index..])
      invariant behind == Rest(path[index..])
      invariant index == index0 + |component|
    {
      var character := path[index];
      OneMore(path[index..], component);
      assert path[index..][1..] == path[index + 1..];
      index := index + 1;
      if IsBreak(character) {
        return;
      }
      component := component + [character];
    }
  }

  /** What one component of a path leads to. */
  datatype Step = Fails | Stays | Misses | Reaches(identifier: nat, startCluster: nat)

  /** A directory and its entries. */
  ghost function Objects(directory: Directory): (objects: set<object>)
    reads directory
  {
    (set e: DirectoryEntry | e in directory.fileEntries :: e as object) + {directory}
  }

  class FileSystem {
    const io: IoHandle
    const table: seq<nat>
    const volume: seq<byte>
    const locale: Locale
    const rootDirectory: Directory
    var directoryCache: map<nat, Directory>
    /** The root directory as it was read, and the directories that the volume holds. */
    ghost const rootListing: Listing
    ghost const directories: Directories
    /** The directories read so far and their entries. */
    ghost var repr: set<object>

    constructor (io: IoHandle, table: seq<nat>, volume: seq<byte>, locale: Locale, rootDirectory: Directory)
      requires io.Valid() && io.clusterBlockSize <= B.UINT64_MAX
      requires Represents(rootDirectory, rootDirectory.content)
      ensures Valid() && ReadsVolume()
      ensures this.io == io && this.table == table && this.volume == volume && this.locale == locale
      ensures this.rootDirectory == rootDirectory && rootListing == rootDirectory.content
    {
      this.io, this.table, this.volume, this.locale := io, table, volume, locale;
      this.rootDirectory, directoryCache := rootDirectory, map[];
      repr := Objects(rootDirectory);
      rootListing, directories := rootDirectory.content, DirectoriesOf(io, table, volume);
      VolumeIsReadable(io, table, volume);
    }

    ghost predicate ReadsVolume() {
      io.Valid() && io.clusterBlockSize <= B.UINT64_MAX && directories == DirectoriesOf(io, table, volume)
    }

    ghost predicate InRepr(directory: Directory)
      reads this, directory
    {
      directory in repr && forall e :: e in directory.fileEntries ==> e in repr
    }

    /** Every cached directory is the one that reading its cluster gives. */
    ghost predicate Valid()
      reads *
    {
      && Readable(directories)
      && Represents(rootDirectory, rootListing) && InRepr(rootDirectory)
      && (forall c :: c in directoryCache ==>
            directoryCache[c] != rootDirectory && InRepr(directoryCache[c])
            && directories(c).Some? && Represents(directoryCache[c], directories(c).value))
      && (forall c, d :: c in directoryCache && d in directoryCache && c != d ==>
            directoryCache[c] != directoryCache[d])
    }

    method Forget(clusters: set<nat>)
      requires Valid()
      modifies `directoryCache
      ensures Valid() && directoryCache == old(directoryCache) - clusters
    {
      directoryCache := directoryCache - clusters;
    }

    method Remember(cluster: nat, directory: Directory)
      requires Valid()
      requires directory != rootDirectory && forall c :: c in directoryCache ==> directoryCache[c] != directory
      requires directories(cluster).Some? && Represents(directory, directories(cluster).value)
      modifies `directoryCache, `repr
      ensures Valid() && directoryCache == old(directoryCache)[cluster := directory]
      ensures repr == old(repr) + Objects(directory)
    {
      repr := repr + Objects(directory);
      directoryCache := directoryCache[cluster := directory];
    }

    method ReadFromVolume(cluster: nat) returns (directory: Directory?)
      requires ReadsVolume() && Readable(directories)
      ensures directory == null <==> directories(cluster).None?
      ensures directory != null ==> fresh(directory) && Represents(directory, directories(cluster).value)
      ensures directory != null ==> forall e :: e in directory.fileEntries ==> fresh(e)
    {
      directory := ReadDirectory(io, table, volume, cluster);
    }

    /** The directory of a cluster, from the cache or from the volume; the cache may forget before. */
    method GetDirectory(cluster: nat, forgotten: set<nat>) returns (directory: Directory?)
      requires Valid() && ReadsVolume()
      modifies `directoryCache, `repr
      ensures Valid() && fresh(repr - old(repr))
      ensures directory == null <==> directories(cluster).None?
      ensures directory != null ==>
                cluster in directoryCache && directoryCache[cluster] == directory
                && Represents(directory, directories(cluster).value)
    {
      Forget(forgotten);
      if cluster in directoryCache {
        return directoryCache[cluster];
      }
      directory := ReadFromVolume(cluster);
      if directory != null {
        Remember(cluster, directory);
      }
    }

    /** The directory object is the root or a cached directory, and this is what was read of it. */
    ghost predicate Holds(directory: Directory, read: Listing)
      reads *
    {
      || (directory == rootDirectory && read == rootListing)
      || (exists c :: c in directoryCache && directory == directoryCache[c] && Some(read) == directories(c))
    }

    /** A search determines names in one directory and leaves every other as it is. */
    method SearchDirectory(directory: Directory, component: Text, ghost read: Listing) returns (found: Search)
      requires Valid() && Holds(directory, read)
      modifies directory`content, directory.fileEntries
      ensures Valid() && Represents(directory, read)
      ensures found == Find(locale, read.files, component)
    {
      assert Represents(directory, read);
      forall d: Directory, e | e in d.fileEntries && d.Valid() && d != directory
        ensures e !in directory.fileEntries
      {
        assert e.owner == d;
      }
      found := GetFileEntryByName(directory, locale, component, read);
    }

    // ----- the path lookup

    function IdentifierOf(entry: Option<Entry>): nat {
      if entry.None? then io.rootDirectoryOffset else entry.value.identifier
    }

    /** What the rest of a path leads to, from the directory of a cluster or else from the root. */
    ghost function Onward(cluster: Option<nat>, rest: Text, reached: Option<Entry>): Lookup
      requires Readable(directories) && AllWellFormed(rootListing.files)
    {
      if rest == [] then Result(true, reached)
      else
        match if cluster.None? then Some(rootListing) else directories(cluster.value)
        case None => Failure
        case Some(read) => Walk(locale, directories, read.files, rest, reached)
    }

    /** The outcome of a lookup as the caller sees it: a failure, or whether the entry was found and the
        identifier of the entry reached. */
    function Reported(lookup: Lookup): Option<(bool, nat)> {
      match lookup
      case Failure => None
      case Result(found, entry) => Some((found, IdentifierOf(entry)))
    }

    /** The directory in which the next component is looked for. */
    method CurrentDirectory(cluster: Option<nat>, forgotten: set<nat>)
      returns (directory: Directory?, ghost read: Listing)
      requires Valid() && ReadsVolume()
      modifies `directoryCache, `repr
      ensures Valid() && fresh(repr - old(repr))
      ensures directory == null <==> cluster.Some? && directories(cluster.value).None?
      ensures directory != null ==> Holds(directory, read) && InRepr(directory)
      ensures directory != null ==> read == if cluster.None? then rootListing else directories(cluster.value).value
    {
      if cluster.None? {
        return rootDirectory, rootListing;
      }
      directory := GetDirectory(cluster.value, forgotten);
      read := if directory == null then rootListing else directories(cluster.value).value;
    }

    /** What one component of a path leads to, in the directory of a cluster or else in the root. */
    ghost function StepFrom(cluster: Option<nat>, component: Text): Step
      requires Readable(directories) && AllWellFormed(rootListing.files)
    {
      match if cluster.None? then Some(rootListing) else directories(cluster.value)
      case None => Fails
      case Some(read) =>
        if component == [] then Stays
        else
          match Find(locale, read.files, component)
          case Broken => Fails
          case Missing => Misses
          case At(index) => Reaches(read.files[index].identifier, read.files[index].startCluster)
    }

    lemma OnwardStep(cluster: Option<nat>, rest: Text, reached: Option<Entry>) returns (entry: Option<Entry>)
      requires Readable(directories) && AllWellFormed(rootListing.files) && rest != []
      ensures Onward(cluster, rest, reached) ==
              match StepFrom(cluster, Component(rest)) {
                case Fails => Failure
                case Stays => Result(false, reached)
                case Misses => Result(false, None)
                case Reaches(identifier, next) => Onward(Some(next), Rest(rest), entry)
              }
      ensures StepFrom(cluster, Component(rest)).Reaches? ==>
                entry.Some? && entry.value.identifier == StepFrom(cluster, Component(rest)).identifier
    {
      entry := None;
      var listing := if cluster.None? then Some(rootListing) else directories(cluster.value);
      if listing.Some? && Component(rest) != [] {
        var found := Find(locale, listing.value.files, Component(rest));
        if found.At? {
          entry := Some(listing.value.files[found.index]);
        }
      }
    }

    /** Looks for one component of a path. */
    method TakeStep(cluster: Option<nat>, component: Text, forgotten: set<nat>) returns (step: Step)
      requires Valid() && ReadsVolume()
      modifies this, repr
      ensures Valid() && fresh(repr - old(repr))
      ensures step == StepFrom(cluster, component)
    {
      var directory;
      ghost var read;
      directory, read := CurrentDirectory(cluster, forgotten);
      if directory == null {
        return Fails;
      }
      if component == [] {
        return Stays;
      }
      var found := SearchDirectory(directory, component, read);
      match found {
        case Broken => step := Fails;
        case Missing => step := Misses;
        case At(index) =>
          step := EntryAt(directory, index, read);
      }
    }

    /** Finds the file entry of a path, whatever the cache forgets meanwhile. */
    method GetFileEntryByPath(path: Text, encoding: Encoding, forgotten: nat -> set<nat>)
      returns (result: Option<(bool, nat)>)
      requires Valid() && ReadsVolume()
      modifies this, repr
      ensures Valid() && fresh(repr - old(repr))
      ensures result == match EntryByPath(locale, directories, rootListing.files, path, encoding) {
                          case Failure => None
                          case Result(found, None) => Some((found, io.rootDirectoryOffset))
                          case Result(found, Some(entry)) => Some((found, entry.identifier))
                        }
    {
      ghost var goal := EntryByPath(locale, directories, rootListing.files, path, encoding);
      if encoding.Length(path) <= 1 {
        return Some((true, io.rootDirectoryOffset));
      }
      var index := if path != [] && path[0] == P.FAT_SEPARATOR then 1 else 0;
      var identifier, cluster := io.rootDirectoryOffset, None;
      ghost var reached: Option<Entry> := None;
      while index < |path|
        invariant Valid() && fresh(repr - old(repr))
        invariant 0 <= index <= |path|
        invariant goal == Onward(cluster, path[index..], reached)
        invariant identifier == IdentifierOf(reached)
      {
        ghost var next := OnwardStep(cluster, path[index..], reached);
        var component, step;
        component, index := NextComponent(path, index);
        step := TakeStep(cluster, component, forgotten(index));
        match step {
          case Fails => return None;
          case Stays => return Some((false, identifier));
          case Misses => return Some((false, io.rootDirectoryOffset));
          case Reaches(found, start) => identifier, cluster := found, Some(start);
        }
        reached := next;
      }
      result := Some((true, identifier));
    }
  }
}

/** Finding a file entry by its path: name comparison, search in a directory, and the walk along a path. */
module PathLookup {
  import opened ClusterChain
  import opened Common
  import opened DirectoryEntry
  import opened DirectoryScan
  import P = PathEscape

  type Text = P.Text

  /** The external libraries: how a stored name is decoded, and how case is folded. */
  datatype Locale = Locale(decode: Name -> Text, fold: P.CodePoint -> P.CodePoint)

  /** The encoding of a path, which counts in the number of its units only. */
  datatype Encoding = Utf8 | Utf16 {
    function Units(c: P.CodePoint): nat {
      if Utf8? then P.Platform.Posix.Units(c) else P.Platform.Windows.Units(c)
    }

    function Length(text: Text): nat {
      if text == [] then 0 else Units(text[0]) + Length(text[1..])
    }
  }

  // ----- comparing names

  datatype Comparison = Less | Equal | Greater

  /** A stored name without its terminator. */
  function Stripped(name: Name): Name {
    var size := |name.text|;
    if name.unicode && 2 <= size && name.text[size - 2] == 0 && name.text[size - 1] == 0 then
      name.(text := name.text[..size - 2])
    else if !name.unicode && 1 <= size && name.text[size - 1] == 0 then name.(text := name.text[..size - 1])
    else name
  }

  function WithoutNul(text: Text): Text {
    if text != [] && text[|text| - 1] == 0 then text[..|text| - 1] else text
  }

  /** The order of a string and a name, code point by code point, after case folding. */
  function Compare(locale: Locale, text: Text, name: Text): Comparison {
    if text == [] then (if name == [] then Equal else Less)
    else if name == [] then Greater
    else if locale.fold(text[0]) < locale.fold(name[0]) then Less
    else if locale.fold(text[0]) > locale.fold(name[0]) then Greater
    else Compare(locale, text[1..], name[1..])
  }

  function Folded(locale: Locale, text: Text): Text {
    if text == [] then [] else [locale.fold(text[0])] + Folded(locale, text[1..])
  }

  /** Names compare equal exactly when they are the same after case folding. */
  lemma {:induction false} EqualIffFolded(locale: Locale, text: Text, name: Text)
    ensures Compare(locale, text, name) == Equal <==> Folded(locale, text) == Folded(locale, name)
    decreases |text|
  {
    if text != [] && name != [] {
      EqualIffFolded(locale, text[1..], name[1..]);
      assert Folded(locale, text)[1..] == Folded(locale, text[1..]);
      assert Folded(locale, name)[1..] == Folded(locale, name[1..]);
      assert Folded(locale, text)[0] == locale.fold(text[0]) && Folded(locale, name)[0] == locale.fold(name[0]);
    }
  }

  /** The comparison is an order: turned around it gives the opposite, and it is transitive. */
  lemma {:induction false} CompareIsOrder(locale: Locale, a: Text, b: Text, c: Text)
    ensures Compare(locale, a, b) == Less <==> Compare(locale, b, a) == Greater
    ensures Compare(locale, a, b) != Greater && Compare(locale, b, c) != Greater ==> Compare(locale, a, c) != Greater
    decreases |a|
  {
    if a != [] && b != [] {
      CompareIsOrder(locale, a[1..], b[1..], if c == [] then [] else c[1..]);
    }
  }

  method CompareWithString(locale: Locale, name: Name, text: Text) returns (result: Comparison)
    ensures result == Compare(locale, WithoutNul(text), locale.decode(Stripped(name)))
  {
    var characters, wanted := locale.decode(Stripped(name)), WithoutNul(text);
    var nameIndex, textIndex := 0, 0;
    while nameIndex < |characters| && textIndex < |wanted|
      invariant nameIndex == textIndex <= |characters| && textIndex <= |wanted|
      invariant Compare(locale, wanted, characters) == Compare(locale, wanted[textIndex..], characters[nameIndex..])
    {
      var nameCharacter := locale.fold(characters[nameIndex]);
      var textCharacter := locale.fold(wanted[textIndex]);
      nameIndex, textIndex := nameIndex + 1, textIndex + 1;
      if textCharacter < nameCharacter {
        return Less;
      } else if textCharacter > nameCharacter {
        return Greater;
      }
    }
    if textIndex < |wanted| {
      return Greater;
    } else if nameIndex < |characters| {
      return Less;
    }
    return Equal;
  }

  // ----- searching a directory

  datatype Search = Broken | Missing | At(index: nat)

  predicate Matches(locale: Locale, name: Name, component: Text) {
    Folded(locale, WithoutNul(component)) == Folded(locale, locale.decode(Stripped(name)))
  }

  /** How a component compares with the name of an entry, if the entry's name can be determined. */
  function Compared(locale: Locale, entry: Entry, component: Text): Option<Comparison>
    requires WellFormed(entry)
  {
    match NameOf(entry)
    case None => None
    case Some(name) => Some(Compare(locale, WithoutNul(component), locale.decode(Stripped(name))))
  }

  /** The first entry with the name, looked for from an index on; an entry whose name cannot be determined
      ends the search with an error. */
  function FindFrom(locale: Locale, files: seq<Entry>, component: Text, index: nat): (found: Search)
    requires index <= |files| && AllWellFormed(files)
    ensures found.At? ==> index <= found.index < |files|
    decreases |files| - index
  {
    if index == |files| then Missing
    else
      match Compared(locale, files[index], component)
      case None => Broken
      case Some(comparison) =>
        if comparison == Equal then At(index) else FindFrom(locale, files, component, index + 1)
  }

  function Find(locale: Locale, files: seq<Entry>, component: Text): (found: Search)
    requires AllWellFormed(files)
    ensures found.At? ==> found.index < |files|
  {
    FindFrom(locale, files, component, 0)
  }

  /** The entry is the first one with the name, and the names before it can be determined. */
  ghost predicate IsFirst(locale: Locale, files: seq<Entry>, component: Text, index: nat)
    requires AllWellFormed(files)
  {
    && index < |files|
    && NameOf(files[index]).Some? && Matches(locale, NameOf(files[index]).value, component)
    && forall j :: 0 <= j < index ==> NameOf(files[j]).Some? && !Matches(locale, NameOf(files[j]).value, component)
  }

  lemma {:induction false} FindsFirst(locale: Locale, files: seq<Entry>, component: Text, from: nat, index: nat)
    requires from <= |files| && AllWellFormed(files)
    requires forall j :: 0 <= j < from ==> NameOf(files[j]).Some? && !Matches(locale, NameOf(files[j]).value, component)
    ensures FindFrom(locale, files, component, from) == At(index) <==> IsFirst(locale, files, component, index)
    decreases |files| - from
  {
    if from < |files| && NameOf(files[from]).Some? {
      var name := NameOf(files[from]).value;
      EqualIffFolded(locale, WithoutNul(component), locale.decode(Stripped(name)));
      if !Matches(locale, name, component) {
        FindsFirst(locale, files, component, from + 1, index);
      }
    }
  }

  // ----- the parts of a path

  predicate IsBreak(c: P.CodePoint) {
    c == P.FAT_SEPARATOR || c == 0
  }

  /** Up to the first separator or NUL. */
  function Component(path: Text): Text {
    if path == [] || IsBreak(path[0]) then [] else [path[0]] + Component(path[1..])
  }

  /** Behind the first separator or NUL. */
  function Rest(path: Text): (rest: Text)
    ensures path != [] ==> |rest| < |path|
  {
    if path == [] then [] else if IsBreak(path[0]) then path[1..] else Rest(path[1..])
  }

  function SkipSeparator(path: Text): Text {
    if path != [] && path[0] == P.FAT_SEPARATOR then path[1..] else path
  }

  // ----- the walk

  /** The directories of a volume by the number of their first cluster; none where reading fails. */
  type Directories = nat -> Option<Listing>

  ghost predicate Readable(directories: Directories) {
    forall c: nat {:trigger directories(c)} :: directories(c).Some? ==> AllWellFormed(directories(c).value.files)
  }

  ghost function DirectoriesOf(io: IoHandle, table: seq<nat>, volume: seq<byte>): Directories
    requires io.Valid()
  {
    (c: nat) => ClusterListing(io, table, volume, c)
  }

  /** The directories of every volume are fit to be searched. */
  lemma VolumeIsReadable(io: IoHandle, table: seq<nat>, volume: seq<byte>)
    requires io.Valid()
    ensures Readable(DirectoriesOf(io, table, volume))
  {
    forall c: nat
      ensures ClusterListing(io, table, volume, c).Some? ==>
                AllWellFormed(ClusterListing(io, table, volume, c).value.files)
    {
      ListingIsWellFormed(io, table, volume, c);
    }
  }

  /** The result of a lookup: whether the entry was found, and the entry reached, which is the root if none. */
  datatype Lookup = Failure | Result(found: bool, entry: Option<Entry>)

  ghost function Walk(locale: Locale, directories: Directories, files: seq<Entry>, path: Text,
                      entry: Option<Entry>): Lookup
    requires Readable(directories) && AllWellFormed(files)
    decreases |path|
  {
    if path == [] then Result(true, entry)
    else if Component(path) == [] then Result(false, entry)
    else
      match Find(locale, files, Component(path))
      case Broken => Failure
      case Missing => Result(false, None)
      case At(index) =>
        if Rest(path) == [] then Result(true, Some(files[index]))
        else
          match directories(files[index].startCluster)
          case None => Failure
          case Some(listing) => Walk(locale, directories, listing.files, Rest(path), Some(files[index]))
  }

  /** The lookup of a path; a path of at most one unit is the root. */
  ghost function EntryByPath(locale: Locale, directories: Directories, root: seq<Entry>, path: Text,
                             encoding: Encoding): Lookup
    requires Readable(directories) && AllWellFormed(root)
  {
    if encoding.Length(path) <= 1 then Result(true, None)
    else Walk(locale, directories, root, SkipSeparator(path), None)
  }

  // ----- the recursive lookup it refines

  predicate IsComponent(text: Text) {
    text != [] && forall i :: 0 <= i < |text| ==> !IsBreak(text[i])
  }

  function JoinedPath(components: seq<Text>): Text {
    if components == [] then []
    else if |components| == 1 then components[0]
    else components[0] + [P.FAT_SEPARATOR] + JoinedPath(components[1..])
  }

  /** Each component is the name of the first such entry in the directory reached so far, and the last one
      is the name of the given entry. */
  ghost predicate Resolves(locale: Locale, directories: Directories, files: seq<Entry>, components: seq<Text>,
                           entry: Entry)
    requires Readable(directories) && AllWellFormed(files) && components != []
    decreases |components|
  {
    exists index :: 0 <= index < |files| && IsFirst(locale, files, components[0], index)
      && if |components| == 1 then entry == files[index]
         else
           var listing := directories(files[index].startCluster);
           listing.Some? && Resolves(locale, directories, listing.value.files, components[1..], entry)
  }

  lemma {:induction false} SplitComponent(component: Text, rest: Text)
    requires forall i :: 0 <= i < |component| ==> !IsBreak(component[i])
    requires rest != [] ==> IsBreak(rest[0])
    ensures Component(component + rest) == component
    ensures Rest(component + rest) == if rest == [] then [] else rest[1..]
    decreases |component|
  {
    if component == [] {
      assert component + rest == rest;
    } else {
      assert (component + rest)[1..] == component[1..] + rest;
      SplitComponent(component[1..], rest);
    }
  }

  /** The walk along joined components finds an entry exactly when they resolve to it. */
  lemma {:induction false} WalkResolves(locale: Locale, directories: Directories, files: seq<Entry>,
                                        components: seq<Text>, reached: Option<Entry>, entry: Entry)
    requires Readable(directories) && AllWellFormed(files) && components != []
    requires forall i :: 0 <= i < |components| ==> IsComponent(components[i])
    ensures var result := Walk(locale, directories, files, JoinedPath(components), reached);
            && (result == Result(true, Some(entry)) <==> Resolves(locale, directories, files, components, entry))
            && (result.Result? ==> result.found == result.entry.Some?)
    decreases |components|
  {
    var path, first := JoinedPath(components), components[0];
    var rest := if |components| == 1 then [] else [P.FAT_SEPARATOR] + JoinedPath(components[1..]);
    SplitComponent(first, rest);
    assert path == first + rest;
    var found := Find(locale, files, first);
    forall index | 0 <= index < |files|
      ensures found == At(index) <==> IsFirst(locale, files, first, index)
    {
      FindsFirst(locale, files, first, 0, index);
    }
    if found.At? && 1 < |components| {
      var listing := directories(files[found.index].startCluster);
      if listing.Some? {
        assert JoinedPath(components[1..]) != [];
        WalkResolves(locale, directories, listing.value.files, components[1..], Some(files[found.index]), entry);
      }
    }
  }

  lemma {:induction false} LengthAtLeast(encoding: Encoding, text: Text)
    ensures |text| <= encoding.Length(text)
  {
    if text != [] {
      LengthAtLeast(encoding, text[1..]);
    }
  }

  /** A path of components behind a leading separator is found exactly when the components resolve, and then
      the entry is the one they resolve to; when the lookup finds nothing it reports the root. */
  lemma LookupRefinesResolving(locale: Locale, directories: Directories, root: seq<Entry>, components: seq<Text>,
                               entry: Entry, encoding: Encoding)
    requires Readable(directories) && AllWellFormed(root) && components != []
    requires forall i :: 0 <= i < |components| ==> IsComponent(components[i])
    ensures var result := EntryByPath(locale, directories, root, [P.FAT_SEPARATOR] + JoinedPath(components), encoding);
            && (result == Result(true, Some(entry)) <==> Resolves(locale, directories, root, components, entry))
            && (result.Result? ==> result.found == result.entry.Some?)
  {
    var path := [P.FAT_SEPARATOR] + JoinedPath(components);
    LengthAtLeast(encoding, path);
    assert IsComponent(components[0]);
    assert path[1..] == JoinedPath(components);
    WalkResolves(locale, directories, root, components, None, entry);
  }

  lemma {:induction false} WalkReaches(locale: Locale, directories: Directories, files: seq<Entry>, path: Text,
                                       reached: Option<Entry>)
    requires Readable(directories) && AllWellFormed(files) && path != []
    ensures Walk(locale, directories, files, path, reached) != Result(true, None)
    decreases |path|
  {
    if Component(path) != [] {
      var found := Find(locale, files, Component(path));
      if found.At? && Rest(path) != [] {
        var listing := directories(files[found.index].startCluster);
        if listing.Some? {
          WalkReaches(locale, directories, listing.value.files, Rest(path), Some(files[found.index]));
        }
      }
    }
  }

  /** The same text is looked up alike in UTF-8 and in UTF-16, unless it is a single code point that takes
      one unit in UTF-16 and more in UTF-8: then UTF-16 means the root and UTF-8 does not. */
  lemma EncodingsAgreeIff(locale: Locale, directories: Directories, root: seq<Entry>, path: Text)
    requires Readable(directories) && AllWellFormed(root)
    ensures EntryByPath(locale, directories, root, path, Utf8) == EntryByPath(locale, directories, root, path, Utf16)
            <==> !(|path| == 1 && 0x80 <= path[0] <= 0xffff)
  {
    LengthAtLeast(Utf8, path);
    LengthAtLeast(Utf16, path);
    if |path| == 1 {
      assert path[1..] == [];
      assert Utf8.Length(path) == Utf8.Units(path[0]) && Utf16.Length(path) == Utf16.Units(path[0]);
      WalkReaches(locale, directories, root, path, None);
    }
  }

  // ----- the path a mount tool hands over

  /** The path that the mount tool parses back is the one that is looked up: its components are the names,
      when none of them is empty or holds a separator. */
  lemma {:induction false} MountedPathJoins(names: seq<Text>)
    requires names != []
    ensures P.FileEntryPath(names) == [P.FAT_SEPARATOR] + JoinedPath(names)
    decreases |names|
  {
    if |names| == 1 {
      assert P.FileEntryPath(names[1..]) == [];
      assert [P.FAT_SEPARATOR] + names[0] + [] == [P.FAT_SEPARATOR] + names[0];
    } else {
      MountedPathJoins(names[1..]);
      Reassociate([P.FAT_SEPARATOR] + names[0], [P.FAT_SEPARATOR], JoinedPath(names[1..]));
      Reassociate([P.FAT_SEPARATOR], names[0], [P.FAT_SEPARATOR] + JoinedPath(names[1..]));
      Reassociate(names[0], [P.FAT_SEPARATOR], JoinedPath(names[1..]));
    }
  }

  /** From the printed mount path to the file entry: printing, parsing and looking up finds exactly the entry
      that the names resolve to. */
  lemma MountedLookup(platform: P.Platform, locale: Locale, directories: Directories, root: seq<Entry>,
                      names: seq<Text>, entry: Entry, encoding: Encoding)
    requires Readable(directories) && AllWellFormed(root) && names != []
    requires forall i :: 0 <= i < |names| ==> IsComponent(names[i])
    ensures var parsed := P.Parse(platform, P.MountPath(platform, names));
            && parsed.Some?
            && (EntryByPath(locale, directories, root, parsed.value, encoding) == Result(true, Some(entry))
                <==> Resolves(locale, directories, root, names, entry))
  {
    forall i | 0 <= i < |names|
      ensures P.NulFree(names[i])
    {
      assert IsComponent(names[i]);
      assert forall j :: 0 <= j < |names[i]| ==> !IsBreak(names[i][j]);
    }
    P.MountPathRoundTrip(platform, names);
    MountedPathJoins(names);
    LookupRefinesResolving(locale, directories, root, names, entry, encoding);
  }
}

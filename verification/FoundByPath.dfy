/** Which file a path means: by the names that the directories hold, without their terminators. */
module FoundByPath {
  import opened Common
  import opened DirectoryEntry
  import opened DirectoryScan
  import opened PathLookup
  import L = LongName
  import R = RecordLayout

  // ----- comparing

  /** A name with its terminator: a NUL byte, or a NUL unit in UTF-16. */
  function Terminated(bare: Name): Name {
    bare.(text := bare.text + if bare.unicode then [0, 0] else [0])
  }

  /** Two texts are in order by the first code point in which they differ after case folding; a text comes before
      its continuations. */
  ghost predicate DifferAt(locale: Locale, a: Text, b: Text, k: int) {
    && 0 <= k <= |a| && k <= |b| && Folded(locale, a[..k]) == Folded(locale, b[..k])
    && if k == |a| then k < |b| else k < |b| && locale.fold(a[k]) < locale.fold(b[k])
  }

  lemma {:induction false} CompareIsLexicographic(locale: Locale, a: Text, b: Text)
    ensures Compare(locale, a, b) == Less <==> exists k :: DifferAt(locale, a, b, k)
    ensures Compare(locale, a, b) == Greater <==> exists k :: DifferAt(locale, b, a, k)
    ensures Compare(locale, a, b) == Equal <==>
              |a| == |b| && forall i :: 0 <= i < |a| ==> locale.fold(a[i]) == locale.fold(b[i])
    decreases |a|
  {
    if a == [] || b == [] || locale.fold(a[0]) != locale.fold(b[0]) {
      EmptyOrFirst(locale, a, b);
      EmptyOrFirst(locale, b, a);
    } else {
      CompareIsLexicographic(locale, a[1..], b[1..]);
      DifferLater(locale, a, b);
      DifferLater(locale, b, a);
      FoldsLater(locale, a, b);
    }
  }

  lemma EmptyOrFirst(locale: Locale, a: Text, b: Text)
    requires a == [] || b == [] || locale.fold(a[0]) != locale.fold(b[0])
    ensures (exists k :: DifferAt(locale, a, b, k)) <==> b != [] && (a == [] || locale.fold(a[0]) < locale.fold(b[0]))
  {
    assert a[..0] == [] && b[..0] == [];
    if b != [] && (a == [] || locale.fold(a[0]) < locale.fold(b[0])) {
      assert DifferAt(locale, a, b, 0);
    }
    forall k: int
      ensures DifferAt(locale, a, b, k) && 0 < k ==> a != [] && b != [] && locale.fold(a[0]) == locale.fold(b[0])
    {
      DifferBehindFirst(locale, a, b, k);
    }
  }

  lemma DifferBehindFirst(locale: Locale, a: Text, b: Text, k: int)
    ensures DifferAt(locale, a, b, k) && 0 < k ==> a != [] && b != [] && locale.fold(a[0]) == locale.fold(b[0])
  {
    if DifferAt(locale, a, b, k) && 0 < k {
      assert Folded(locale, a[..k])[0] == locale.fold(a[0]) && Folded(locale, b[..k])[0] == locale.fold(b[0]);
    }
  }

  lemma DifferLater(locale: Locale, a: Text, b: Text)
    requires a != [] && b != [] && locale.fold(a[0]) == locale.fold(b[0])
    ensures (exists k :: DifferAt(locale, a, b, k)) <==> exists k :: DifferAt(locale, a[1..], b[1..], k)
  {
    if k :| DifferAt(locale, a, b, k) {
      assert 0 < k;
      FoldedTail(locale, a, k);
      FoldedTail(locale, b, k);
      assert DifferAt(locale, a[1..], b[1..], k - 1);
    }
    if k :| DifferAt(locale, a[1..], b[1..], k) {
      FoldedTail(locale, a, k + 1);
      FoldedTail(locale, b, k + 1);
      assert DifferAt(locale, a, b, k + 1);
    }
  }

  lemma FoldedTail(locale: Locale, a: Text, k: int)
    requires 0 < k <= |a|
    ensures Folded(locale, a[..k]) == [locale.fold(a[0])] + Folded(locale, a[1..][..k - 1])
    ensures Folded(locale, a[..k])[1..] == Folded(locale, a[1..][..k - 1])
  {
    assert a[..k][1..] == a[1..][..k - 1];
  }

  lemma FoldsLater(locale: Locale, a: Text, b: Text)
    requires a != [] && b != [] && locale.fold(a[0]) == locale.fold(b[0])
    ensures (|a| == |b| && forall i :: 0 <= i < |a| ==> locale.fold(a[i]) == locale.fold(b[i])) <==>
            (|a[1..]| == |b[1..]| && forall i :: 0 <= i < |a[1..]| ==> locale.fold(a[1..][i]) == locale.fold(b[1..][i]))
  {
    if |a| == |b| && forall i :: 0 <= i < |a[1..]| ==> locale.fold(a[1..][i]) == locale.fold(b[1..][i]) {
      forall i | 0 <= i < |a|
        ensures locale.fold(a[i]) == locale.fold(b[i])
      {
        if 0 < i {
          assert a[i] == a[1..][i - 1] && b[i] == b[1..][i - 1];
        }
      }
    }
  }

  /** An entry is compared by its name without the terminator, with the whole of a text that has none. */
  lemma TerminatorsDoNotCount(locale: Locale, entry: Entry, bare: Name, text: Text)
    requires WellFormed(entry) && NameOf(entry) == Some(Terminated(bare))
    requires text == [] || text[|text| - 1] != 0
    ensures Compared(locale, entry, text) == Some(Compare(locale, text, locale.decode(bare)))
    ensures Compared(locale, entry, text + [0]) == Some(Compare(locale, text, locale.decode(bare)))
  {
    BareIsLeft(bare);
    assert (text + [0])[..|text|] == text;
  }

  lemma BareIsLeft(bare: Name)
    ensures Terminated(bare).text[..|bare.text|] == bare.text
  {
  }

  // ----- one directory

  /** The entry has a name that is the text, up to case. */
  ghost predicate IsNamed(locale: Locale, entry: Entry, text: Text)
    requires WellFormed(entry)
  {
    exists bare :: NameOf(entry) == Some(Terminated(bare)) && SameText(locale, text, locale.decode(bare))
  }

  predicate SameText(locale: Locale, a: Text, b: Text) {
    |a| == |b| && forall i :: 0 <= i < |a| ==> locale.fold(a[i]) == locale.fold(b[i])
  }

  /** The entry has another name. */
  ghost predicate IsNamedOtherwise(locale: Locale, entry: Entry, text: Text)
    requires WellFormed(entry)
  {
    exists bare :: NameOf(entry) == Some(Terminated(bare)) && !SameText(locale, text, locale.decode(bare))
  }

  /** The first entry with a name. */
  ghost predicate IsFirstNamed(locale: Locale, files: seq<Entry>, text: Text, i: int)
    requires AllWellFormed(files)
  {
    && 0 <= i < |files| && IsNamed(locale, files[i], text)
    && forall j :: 0 <= j < i ==> IsNamedOtherwise(locale, files[j], text)
  }

  /** Text that a path can hold between its separators. */
  predicate IsPart(text: Text) {
    text != [] && forall i :: 0 <= i < |text| ==> text[i] != 0 && text[i] != 0x5c
  }

  lemma ComparedIff(locale: Locale, entry: Entry, bare: Name, text: Text)
    requires WellFormed(entry) && NameOf(entry) == Some(Terminated(bare)) && IsPart(text)
    ensures Compared(locale, entry, text) == Some(Equal) <==> SameText(locale, text, locale.decode(bare))
    ensures Compared(locale, entry, text).Some?
  {
    TerminatorsDoNotCount(locale, entry, bare, text);
    CompareIsLexicographic(locale, text, locale.decode(bare));
  }

  /** The search goes on behind an entry with another name. */
  lemma NextIsSearched(locale: Locale, files: seq<Entry>, text: Text, from: nat)
    requires AllWellFormed(files) && IsPart(text) && from < |files| && IsNamedOtherwise(locale, files[from], text)
    ensures FindFrom(locale, files, text, from) == FindFrom(locale, files, text, from + 1)
  {
    var bare :| NameOf(files[from]) == Some(Terminated(bare)) && !SameText(locale, text, locale.decode(bare));
    ComparedIff(locale, files[from], bare, text);
  }

  lemma ThisIsFound(locale: Locale, files: seq<Entry>, text: Text, i: nat)
    requires AllWellFormed(files) && IsPart(text) && i < |files| && IsNamed(locale, files[i], text)
    ensures FindFrom(locale, files, text, i) == At(i)
  {
    var bare :| NameOf(files[i]) == Some(Terminated(bare)) && SameText(locale, text, locale.decode(bare));
    ComparedIff(locale, files[i], bare, text);
  }

  ghost predicate IsPassed(locale: Locale, files: seq<Entry>, text: Text, j: nat)
    requires AllWellFormed(files) && j < |files|
  {
    FindFrom(locale, files, text, j) == FindFrom(locale, files, text, j + 1)
  }

  lemma {:induction false} AllArePassed(locale: Locale, files: seq<Entry>, text: Text, from: nat, i: nat)
    requires AllWellFormed(files) && from <= i <= |files|
    requires forall j :: from <= j < i ==> IsPassed(locale, files, text, j)
    ensures FindFrom(locale, files, text, from) == FindFrom(locale, files, text, i)
    decreases i - from
  {
    if from < i {
      assert IsPassed(locale, files, text, from);
      AllArePassed(locale, files, text, from + 1, i);
    }
  }

  lemma OthersAreSearched(locale: Locale, files: seq<Entry>, text: Text, i: nat)
    requires AllWellFormed(files) && IsPart(text) && i <= |files|
    requires forall j :: 0 <= j < i ==> IsNamedOtherwise(locale, files[j], text)
    ensures Find(locale, files, text) == FindFrom(locale, files, text, i)
  {
    forall j | 0 <= j < i
      ensures IsPassed(locale, files, text, j)
    {
      NextIsSearched(locale, files, text, j);
    }
    AllArePassed(locale, files, text, 0, i);
  }

  lemma FirstIsFound(locale: Locale, files: seq<Entry>, text: Text, i: nat)
    requires AllWellFormed(files) && IsPart(text) && IsFirstNamed(locale, files, text, i)
    ensures Find(locale, files, text) == At(i)
  {
    OthersAreSearched(locale, files, text, i);
    ThisIsFound(locale, files, text, i);
  }

  // ----- paths

  lemma PartIsComponent(text: Text, rest: Text)
    requires IsPart(text) && (rest == [] || rest[0] == 0x5c)
    ensures Component(text + rest) == text && Rest(text + rest) == if rest == [] then [] else rest[1..]
  {
    SplitComponent(text, rest);
  }

  lemma LeadingSeparator(encoding: Encoding, text: Text)
    requires text != []
    ensures encoding.Length([0x5c] + text) > 1 && SkipSeparator([0x5c] + text) == text
  {
    LengthAtLeast(encoding, [0x5c] + text);
    assert ([0x5c] + text)[1..] == text;
  }

  lemma WalkLast(locale: Locale, directories: Directories, root: seq<Entry>, text: Text, i: nat, end: Text)
    requires Readable(directories) && AllWellFormed(root) && IsPart(text) && (end == [] || end == [0x5c])
    requires i < |root| && Find(locale, root, text) == At(i)
    ensures Walk(locale, directories, root, text + end, None) == Result(true, Some(root[i]))
  {
    PartIsComponent(text, end);
  }

  /** A path of one name, with a separator behind it or without, means the first file with that name in the root
      directory. */
  lemma FileIsFound(locale: Locale, directories: Directories, root: seq<Entry>, text: Text, i: nat, end: Text,
                    encoding: Encoding)
    requires Readable(directories) && AllWellFormed(root) && IsPart(text) && IsFirstNamed(locale, root, text, i)
    requires end == [] || end == [0x5c]
    ensures EntryByPath(locale, directories, root, [0x5c] + (text + end), encoding) == Result(true, Some(root[i]))
  {
    FirstIsFound(locale, root, text, i);
    WalkLast(locale, directories, root, text, i, end);
    LeadingSeparator(encoding, text + end);
  }

  /** A path of two names means the first file with the second name in the directory that starts at the cluster of
      the first file with the first name; a doubled separator stops at that directory, without success. */
  lemma FileInDirectoryIsFound(locale: Locale, directories: Directories, root: seq<Entry>, first: Text, i: nat,
                               listing: Listing, second: Text, k: nat, encoding: Encoding)
    requires Readable(directories) && AllWellFormed(root)
    requires IsPart(first) && IsFirstNamed(locale, root, first, i)
    requires directories(root[i].startCluster) == Some(listing)
    requires AllWellFormed(listing.files) && IsPart(second) && IsFirstNamed(locale, listing.files, second, k)
    ensures EntryByPath(locale, directories, root, [0x5c] + (first + ([0x5c] + second)), encoding)
            == Result(true, Some(listing.files[k]))
    ensures EntryByPath(locale, directories, root, [0x5c] + (first + ([0x5c] + ([0x5c] + second))), encoding)
            == Result(false, Some(root[i]))
  {
    FirstIsFound(locale, root, first, i);
    FirstIsFound(locale, listing.files, second, k);
    WalkOne(locale, directories, root, first, i, listing, second);
    WalkOne(locale, directories, root, first, i, listing, [0x5c] + second);
    PartIsComponent(second, []);
    assert second + [] == second;
    LeadingSeparator(encoding, first + ([0x5c] + second));
    LeadingSeparator(encoding, first + ([0x5c] + ([0x5c] + second)));
    assert Component([0x5c] + second) == [];
  }

  lemma WalkOne(locale: Locale, directories: Directories, root: seq<Entry>, first: Text, i: nat, listing: Listing,
                rest: Text)
    requires Readable(directories) && AllWellFormed(root) && IsPart(first) && rest != []
    requires i < |root| && Find(locale, root, first) == At(i) && directories(root[i].startCluster) == Some(listing)
    requires AllWellFormed(listing.files)
    ensures Walk(locale, directories, root, first + ([0x5c] + rest), None) ==
            Walk(locale, directories, listing.files, rest, Some(root[i]))
  {
    PartIsComponent(first, [0x5c] + rest);
    assert ([0x5c] + rest)[1..] == rest;
  }

  /** A name that is not in the directory is not found, and then the root is reported. */
  lemma FileIsNotFound(locale: Locale, directories: Directories, root: seq<Entry>, text: Text, rest: Text,
                       encoding: Encoding)
    requires Readable(directories) && AllWellFormed(root) && IsPart(text) && (rest == [] || rest[0] == 0x5c)
    requires forall j :: 0 <= j < |root| ==> IsNamedOtherwise(locale, root[j], text)
    ensures EntryByPath(locale, directories, root, [0x5c] + (text + rest), encoding) == Result(false, None)
  {
    OthersAreSearched(locale, root, text, |root|);
    LeadingSeparator(encoding, text + rest);
    PartIsComponent(text, rest);
  }

  /** An entry without a name that can be determined, in front of the first match, makes the lookup fail. */
  lemma NamelessFails(locale: Locale, directories: Directories, root: seq<Entry>, text: Text, i: nat, rest: Text,
                      encoding: Encoding)
    requires Readable(directories) && AllWellFormed(root) && IsPart(text) && (rest == [] || rest[0] == 0x5c)
    requires i < |root| && NameOf(root[i]).None?
    requires forall j :: 0 <= j < i ==> IsNamedOtherwise(locale, root[j], text)
    ensures EntryByPath(locale, directories, root, [0x5c] + (text + rest), encoding) == Failure
  {
    OthersAreSearched(locale, root, text, i);
    LeadingSeparator(encoding, text + rest);
    PartIsComponent(text, rest);
  }

  /** A directory that cannot be read makes the lookup of what is in it fail. */
  lemma UnreadableFails(locale: Locale, directories: Directories, root: seq<Entry>, first: Text, i: nat, rest: Text,
                        encoding: Encoding)
    requires Readable(directories) && AllWellFormed(root) && IsPart(first) && IsFirstNamed(locale, root, first, i)
    requires directories(root[i].startCluster).None? && rest != []
    ensures EntryByPath(locale, directories, root, [0x5c] + (first + ([0x5c] + rest)), encoding) == Failure
  {
    FirstIsFound(locale, root, first, i);
    LeadingSeparator(encoding, first + ([0x5c] + rest));
    PartIsComponent(first, [0x5c] + rest);
  }

  /** The empty path and a path of one unit mean the root. */
  lemma ShortPathIsRoot(locale: Locale, directories: Directories, root: seq<Entry>, c: int, encoding: Encoding)
    requires Readable(directories) && AllWellFormed(root) && 0 <= c < 0x80
    ensures EntryByPath(locale, directories, root, [], encoding) == Result(true, None)
    ensures EntryByPath(locale, directories, root, [c], encoding) == Result(true, None)
  {
    assert [c][1..] == [];
    assert encoding.Length([c]) == encoding.Units(c) + encoding.Length([]);
  }

  // ----- the names that the directories hold

  /** A file with a short record, whose base and extension are padded with spaces, is found by them. */
  lemma ShortFileIsFound(locale: Locale, directories: Directories, root: seq<Entry>, i: nat, base: seq<byte>,
                         extension: seq<byte>, text: Text, encoding: Encoding)
    requires Readable(directories) && AllWellFormed(root) && i < |root|
    requires |base| <= 8 && |extension| <= 3 && R.NoSpace(base) && R.NoSpace(extension)
    requires root[i].kind.ShortName? && root[i].attributes % 16 < 8
    requires root[i].name.None? && root[i].nameEntries.None?
    requires root[i].nameData == R.Spaced(base, 8) + R.Spaced(extension, 3)
    requires var dot := if extension == [] then [] else [0x2e];
             SameText(locale, text, locale.decode(Name(base + dot + extension, false)))
    requires IsPart(text) && forall j :: 0 <= j < i ==> IsNamedOtherwise(locale, root[j], text)
    ensures EntryByPath(locale, directories, root, [0x5c] + text, encoding) == Result(true, Some(root[i]))
  {
    var bare := Name(base + (if extension == [] then [] else [0x2e]) + extension, false);
    R.ShortNameRoundTrip(base, extension, false);
    assert NameOf(root[i]) == Some(Terminated(bare));
    assert text + [] == text;
    FileIsFound(locale, directories, root, text, i, [], encoding);
  }

  /** A file with a long name in UTF-16 is found by its units. */
  lemma LongFileIsFound(locale: Locale, directories: Directories, root: seq<Entry>, i: nat, units: seq<L.Unit>,
                        text: Text, encoding: Encoding)
    requires Readable(directories) && AllWellFormed(root) && i < |root|
    requires NameOf(root[i]) == Some(Name(L.Bytes(units) + [0, 0], true))
    requires SameText(locale, text, locale.decode(Name(L.Bytes(units), true)))
    requires IsPart(text) && forall j :: 0 <= j < i ==> IsNamedOtherwise(locale, root[j], text)
    ensures EntryByPath(locale, directories, root, [0x5c] + text, encoding) == Result(true, Some(root[i]))
  {
    assert NameOf(root[i]) == Some(Terminated(Name(L.Bytes(units), true)));
    assert text + [] == text;
    FileIsFound(locale, directories, root, text, i, [], encoding);
  }

  /** From the records on disk: a file written with a long name is listed, and found by that name, if no file listed
      before it has the same name. */
  lemma WrittenFileIsFound(reader: Reader, format: Format, volume: seq<byte>, offsets: seq<int>, s: Scan,
                           name: seq<L.Unit>, checksum: byte, locale: Locale, directories: Directories, text: Text,
                           encoding: Encoding)
    requires format != ExFat && L.CanEncode(name)
    requires |offsets| == L.Count(name) + 1 && L.Stored(volume, offsets, L.Encode(name, checksum))
    requires L.NoDots(reader, L.Bytes(L.Padded(name)), L.Count(name))
    requires ReadAt(format, volume, offsets[L.Count(name)]).Some?
    requires IsPlain(reader, ReadAt(format, volume, offsets[L.Count(name)]).value)
    requires Readable(directories) && AllWellFormed(s.listing.files)
    requires SameText(locale, text, locale.decode(Name(L.Bytes(name), true))) && IsPart(text)
    requires forall j :: 0 <= j < |s.listing.files| ==> IsNamedOtherwise(locale, s.listing.files[j], text)
    ensures var outcome := ScanRecords(reader, format, volume, offsets, s);
            && outcome.Running? && |outcome.scan.listing.files| == |s.listing.files| + 1
            && var files := outcome.scan.listing.files;
               AllWellFormed(files) && files[|files| - 1].identifier == offsets[L.Count(name)]
               && EntryByPath(locale, directories, files, [0x5c] + text, encoding) ==
                  Result(true, Some(files[|files| - 1]))
  {
    L.LongNameRoundTrip(reader, format, volume, offsets, s, name, checksum);
    ScanKeepsWellFormed(reader, format, volume, offsets, s);
    var files := ScanRecords(reader, format, volume, offsets, s).scan.listing.files;
    var last := files[|files| - 1];
    assert NameOf(last) == Some(Name(L.Bytes(name) + [0, 0], true));
    LongFileIsFound(locale, directories, files, |files| - 1, name, text, encoding);
  }
}

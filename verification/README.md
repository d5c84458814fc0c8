# A verified model of the libfsfat volume reader

libfsfat reads FAT12, FAT16, FAT32 and exFAT volumes.  This Dafny project models the parts of it in
which state, arithmetic and on-disk data meet, and proves what they promise:

- `BlockTree`: the sparse radix tree over byte offsets that remembers which clusters a walk has seen.
- `ClusterChain`: walks of any allocation table, cyclic or broken, guarded by that tree.
- `DataStream`: the merging of a chain into runs, and of runs into extents and stream segments.
- `AllocationTable`: the sector-wise decoding of the table and of its inverse.
- `DirectoryEntry`, `RecordLayout`: 32-byte records, what is read from them, and the names they make.
- `DirectoryScan`, `DirectoryReader`: the state machine that collects long-name runs and exFAT record
  groups, and the two loops that feed it, by cluster chain and by range.
- `LongName`: the VFAT encoding of names, which the scan undoes.
- `ExFatGroups`: which exFAT directories are accepted, and what is listed.
- `IdentifierLookup`: the search from an identifier, backwards for FAT and forwards for exFAT.
- `LookupAgreement`, `GroupLookup`, `LookupTermination`: when that search finds what the directory lists, on FAT
  and on exFAT volumes, and when it ends; `LookupExamples`: volumes on which it goes wrong.
- `NamePieces`: names put together from pieces, and what is left of a name behind a piece.
- `PathLookup`, `FileSystem`: name comparison, path walks, and the directory cache.
- `PathEscape`: the mount tool's printer and parser of escaped paths.
- `RecordSteps`, `FileChains`, `GroupLayout`, `FoundByPath`, `PrintedNames`, `LookupStart`: what all of this comes to
  in terms of bytes on disk and of literal numbers, without the definitions that the loops are proved against.

Data that the source keeps in objects and updates in place is kept in classes here (`BlockTree`,
`BlockTreeNode`, `DirectoryEntry`, `Directory`, `FileSystem`) or in arrays (the allocation tables, the
name buffers); loops of the source are loops here.  Each is proved against a function over values, and
the properties are proved about those functions.

## Assumptions

- The volume is an immutable sequence of bytes; reading outside it fails.
- The I/O handle has what the boot record reader accepts: cluster blocks are whole multiples of 512
  bytes, the first cluster lies behind offset 0, and sectors have 512, 1024, 2048 or 4096 bytes.
- Unicode codecs are lossless functions over code points; case folding is an arbitrary function.
- The directory cache is a map that may forget any cluster before each access.
- Block tree nodes have 256 slots (`libfsfat/libfsfat_definitions.h.in:123`).

## Where the code does not do what one would expect

Each of these is a lemma: the failing inputs are exhibited, and where the table below says "exactly" the
condition is proved in both directions.

- A chain that steps back to a lower cluster is not read in chain order (`BackwardStepMisread`,
  `StreamReadsChainIffForward`).
- Offsets behind the 256th slot of the root, and a last root slot that ends at 2^63, are refused by the
  block tree (`TailNotAddressable`, `LastSlotRefused`, `CapacityIsSize`).
- FAT12 entries behind the first sector are decoded from the wrong bytes, because the 3-byte groups
  restart at every sector (`Fat12DecodedIffFirstSector`).
- A link from a lower FAT12 entry reaches the reversed table only if the upper entry of its group is zero,
  because the whole group is compared before it is masked (`LowerEntryRecorded`, `LinkLost`).
- The upper half of a FAT32 start cluster is not read (`StartClusterReadsIff`).
- The cluster reader files records that look like dot entries apart, long-name records included, and
  takes any record with the label attribute for the label; the range reader does neither
  (`AgreeIffNeutral`, `DotPiece`, `LongNameReadsIff`).
- The lookup of a short record fails, or finds another name, unless the records that it reads spell the name that
  is listed (`LookupAgreesIff`, `OrphanRejects`, `ListedButRejected`).
- A long name whose records lie in two clusters that are not neighbours is cut short without an error: the lookup
  takes the records in front of the short record for the whole name (`StraddledRunIff`, `TailIsCutIff`,
  `NameIsCutShort`).
- The lookup of an exFAT file record fails whenever its data stream follows in the same part of the volume,
  whatever the tables hold (`GroupListedButRejected`); it succeeds only for groups without a data stream, or
  with one at the very end of a chain (`GroupFoundIff`).
- The lookup does not end when the table leads it around a cycle of clusters that it passes over, and a small
  volume with one listed file has such a table (`LookupEndsIff`, `GroupLookupEndsIff`, `CycleNeverEnds`).
- The table has no entries for the last two clusters of a FAT32 or exFAT volume, so that not even a file of one
  cluster can be read there (`OneClusterStreamIff`).
- A path of one unit is the root, so that a single code point from U+0080 to U+FFFF means something else
  in UTF-8 than in UTF-16 (`EncodingsAgreeIff`).

## Model

| member | source | states |
|---|---|---|
| `BlockTree.SubNodeSize` | libfsfat/libfsfat_block_tree_node.c:147-152 | The size loop ends with the least leaf * 256^k of which at most 256 cover the size, and never leaves 64 bits. |
| `BlockTree.BlockTreeNode.Initialize` | libfsfat/libfsfat_block_tree_node.c:34-173 | A node exists exactly when its range is not empty and ends within 63 bits; it is a leaf node exactly at height 0, and its slots are empty. |
| `BlockTree.BlockTreeNode.GetSubNodeAtOffset` | libfsfat/libfsfat_block_tree_node.c:284-358 | Succeeds exactly on a branch whose slot index for the offset is below 256. |
| `BlockTree.BlockTreeNode.SetLeafValueAtOffset` | libfsfat/libfsfat_block_tree_node.c:538-612 | Overwrites exactly the slot of the offset, and nothing on failure. |
| `BlockTree.IndexIsDigit` | libfsfat/libfsfat_block_tree.c:374-377 | A node covers an offset exactly when its prefix is the key's, and the computed slot index is then the next base-256 digit of the key. |
| `BlockTree.HeightOfSlot` | libfsfat/libfsfat_block_tree.c:379-384 | A node created for one slot of a node of height h gets height h - 1, so descent ends. |
| `BlockTree.CapacityIsSize` | libfsfat/libfsfat_block_tree_node.c:147-152 | The whole range is addressable exactly when fewer than 256 root slots are full or they divide it evenly. |
| `BlockTree.SmallTreesAcceptAll` | libfsfat/libfsfat_block_tree.c:353-416 | Below 62 bits an insert is accepted exactly for the addressable offsets. |
| `BlockTree.TailNotAddressable` | libfsfat/libfsfat_block_tree_node.c:147-152 | A volume of 65537 clusters of 1024 bytes has a whole cluster without a slot. |
| `BlockTree.LastSlotRefused` | libfsfat/libfsfat_block_tree_node.c:77-78 | With the largest clusters exFAT accepts, an offset below 2^63 is refused because its sub node would end at 2^63. |
| `BlockTree.BlockTree.Initialize` | libfsfat/libfsfat_block_tree.c:39-131 | A new tree is valid and maps nothing. |
| `BlockTree.BlockTree.GetBlockDescriptorByOffset` | libfsfat/libfsfat_block_tree.c:187-284 | The tree is a map from offset / leaf value size to descriptors; a hit also returns offset mod leaf value size; it fails exactly out of range. |
| `BlockTree.BlockTree.AttachSubNode` | libfsfat/libfsfat_block_tree.c:372-416 | Putting an empty node into an empty slot keeps the shape invariant of every node and the map. |
| `BlockTree.BlockTree.StoreLeafValue` | libfsfat/libfsfat_block_tree.c:417-462 | Writing a leaf slot adds exactly one binding. |
| `BlockTree.BlockTree.InsertBlockDescriptorByOffset` | libfsfat/libfsfat_block_tree.c:289-473 | Adds the binding when the key is absent, returns the old descriptor unchanged when present, fails exactly when not insertable, and leaves every other key alone; the shape invariant is kept. |
| `ClusterChain.ChainIsWalk` | libfsfat/libfsfat_file_system.c:626-656 | For any table: the clusters of a walk are linked, differ from each other, and the walk ends for the reason stated: no cluster, a repeat or no slot, or no entry. |
| `ClusterChain.ChainIsShort` | libfsfat/libfsfat_file_system.c:2191-2304 | A walk takes no more turns than the table has entries, the failing turn included. |
| `ClusterChain.KeysDiffer` | libfsfat/libfsfat_file_system.c:301-385 | Clusters have the same tree key exactly when they are the same, even if the first cluster is not aligned. |
| `ClusterChain.CheckIfClusterBlockFirstRead` | libfsfat/libfsfat_file_system.c:301-385 | Refuses a cluster exactly when it was visited in this walk or the tree has no slot for it, and marks it otherwise. |
| `DataStream.GetDataStream` | libfsfat/libfsfat_file_system.c:2051-2405 | Succeeds exactly when the walk ends or has enough data before a cluster stops it; appends the extents and segments of the runs of the walked clusters. |
| `DataStream.LayOutCluster` | libfsfat/libfsfat_file_system.c:2217-2286 | One turn keeps the relation between the walked clusters, the runs and the open segment. |
| `DataStream.StreamReadsChainIffForward` | libfsfat/libfsfat_file_system.c:2191-2365 | Reading the segments gives the first bytes of the chain's blocks in chain order exactly when the clusters those bytes touch ascend; either way the stream has the same length. |
| `DataStream.BackwardStepMisread` | libfsfat/libfsfat_file_system.c:2217-2218 | A concrete chain with a backward step whose stream does not read the chain. |
| `DataStream.OneClusterStreamIff` | libfsfat/libfsfat_file_system.c:432-435 | A file of one cluster can be read exactly when the table, which has one entry per cluster, has one with the cluster's number. |
| `DataStream.Conservation` | libfsfat/libfsfat_file_system.c:2217-2365 | Forward or not, segment sizes add up to the smaller of the data size and the clusters' bytes, and each cluster is counted in one run. |
| `DataStream.ExtentsAndSegments` | libfsfat/libfsfat_file_system.c:2217-2364 | Extents ascend with gaps, are positive multiples of the block size, pair with segments at equal offsets, and only the last segment may be shorter. |
| `FileChains.WholeChainIsWalked` | libfsfat/libfsfat_file_system.c:2191-2304 | Distinct linked clusters from 2 up to 0xfef, 0xffef, 0xfffffef or 0xffffffef, with slots and entries, of which the last one has an end mark, are walked whole. |
| `FileChains.EndsWalkIff` | libfsfat/libfsfat_file_system.c:555-627 | A number ends every walk exactly when it is below 2 or at least 0xff0, 0xfff0, 0xffffff0 or 0xfffffff0, by format. |
| `FileChains.WholeFileIsRead` | libfsfat/libfsfat_file_system.c:2100-2365 | A file in ascending clusters of such a chain reads as the first bytes of its clusters, as many as its size says: byte r of cluster c is at first cluster + (c - 2) * block size + r. |
| `FileChains.WholeExtentsAreSegments` | libfsfat/libfsfat_file_system.c:2217-2365 | If it is as long as its clusters, the extents are the segments. |
| `FileChains.TailMayBeBroken` | libfsfat/libfsfat_file_system.c:2191-2304 | A file within its first cluster is read whatever follows the second one, if that is not its neighbour; a longer one in a cycle is not. |
| `FileChains.WholeDirectoryIsListed` | libfsfat/libfsfat_file_system.c:555-1064 | A directory in such a chain is what the records of its clusters list, record r of cluster c being at first cluster + (c - 2) * block size + 32 * r. |
| `FileChains.RangeHoldsRecords` | libfsfat/libfsfat_file_system.c:1210-1233 | A range holds the records that start in it, at every 32nd byte. |
| `AllocationTable.ReadFileIoHandle` | libfsfat/libfsfat_allocation_table.c:202-487 | Succeeds exactly when the table lies inside the volume; then both tables hold what the decoded entries say, and zeros elsewhere. For a table of whole sectors these are the entries of its bytes; otherwise the last one may take bytes that were in the buffer before. |
| `AllocationTable.StoreEntry` | libfsfat/libfsfat_allocation_table.c:458-465 | Storing an entry extends what both tables hold by that entry. |
| `AllocationTable.WideEntries` | libfsfat/libfsfat_allocation_table.c:274-467 | FAT16, FAT32 and exFAT: entry i of the whole table is the little-endian number at byte width * i, across sectors of any accepted size. |
| `AllocationTable.Fat12DecodedIffFirstSector` | libfsfat/libfsfat_allocation_table.c:305-375 | A FAT12 entry is decoded as it is packed, for every table, exactly when its last byte lies in the first sector. |
| `AllocationTable.LastLinkIsGreatest` | libfsfat/libfsfat_allocation_table.c:458-465 | A reversed entry is the greatest index that links to its cluster. |
| `AllocationTable.ReversedPointsBack` | libfsfat/libfsfat_allocation_table.c:458-465 | A set reversed entry points to an entry that points back, and every entry that is compared as it is stored is recorded, the greatest one winning. |
| `AllocationTable.LinkRecordedIff` | libfsfat/libfsfat_allocation_table.c:342-348 | A link to a cluster that no other entry leads to is in the reversed table exactly when its tested number is below the number of entries. |
| `AllocationTable.ReversedRetracesChain` | libfsfat/libfsfat_allocation_table.c:458-465 | For a chain of any format whose successors are shared with no other entry, walking the reversed table retraces exactly the links whose tested number is below the number of entries. |
| `AllocationTable.WideChainsRetraced` | libfsfat/libfsfat_allocation_table.c:377-465 | FAT16, FAT32 and exFAT: all links of such a chain are retraced. |
| `AllocationTable.LowerEntryRecorded` | libfsfat/libfsfat_allocation_table.c:305-375 | FAT12: a link of such a chain is retraced exactly when its entry is the upper one of its group or the upper entry of the group is zero. |
| `AllocationTable.LinkLost` | libfsfat/libfsfat_allocation_table.c:342-348 | A concrete FAT12 table with a chain of two clusters that the reversed table does not lead back. |
| `DirectoryEntry.DirectoryEntry.ReadData` | libfsfat/libfsfat_directory_entry.c:317-1109 | The object holds the entry its record stands for, dates and times included; terminators and oversized exFAT labels are told apart. |
| `DirectoryEntry.DirectoryEntry.GetName` | libfsfat/libfsfat_directory_entry.c:1393-1573 | Sets the name that the entry's data spell and changes nothing else. |
| `DirectoryEntry.DirectoryEntry.GetNameFromExFatFileNameEntries` | libfsfat/libfsfat_directory_entry.c:1578-1746 | One to nine chunks in order, cut behind the first NUL unit. |
| `DirectoryEntry.DirectoryEntry.GetNameFromVfatLongFileNameEntries` | libfsfat/libfsfat_directory_entry.c:1751-1921 | One to twenty chunks, last one first, cut behind the first NUL unit. |
| `DirectoryEntry.TerminateAndCut` | libfsfat/libfsfat_directory_entry.c:1877-1893 | The search of the name buffer stops behind the first aligned NUL unit. |
| `RecordLayout.ShortNameRoundTrip` | libfsfat/libfsfat_directory_entry.c:1441-1494 | A space-padded base and extension read back with a dot in between, without one for a volume label. |
| `RecordLayout.ShortEntryIsNamed` | libfsfat/libfsfat_directory_entry.c:1441-1494 | An entry without a long name is named by base and extension, with a full stop in between unless bit 3 of its attributes makes it a label. |
| `RecordLayout.ShortNameStops` | libfsfat/libfsfat_directory_entry.c:1441-1494 | Base and extension each end at their first space, whatever is behind it. |
| `RecordLayout.ShortRecordReads` | libfsfat/libfsfat_directory_entry.c:447-507 | Name, attributes, times and 32-bit size of a record as laid out on disk are read back, and the lower half of the start cluster. |
| `RecordLayout.StartClusterReadsIff` | libfsfat/libfsfat_directory_entry.c:501-503 | A FAT32 start cluster is read back exactly when it is below 0x10000. |
| `RecordLayout.StreamRecordReads` | libfsfat/libfsfat_directory_entry.c:775-862 | Valid size, start cluster and size of an exFAT stream record are read back. |
| `RecordLayout.FileRecordReads` | libfsfat/libfsfat_directory_entry.c:863-1001 | An exFAT file record is classified as such and its attributes, times and UTC offsets are read back. |
| `RecordLayout.NameRecordReads` | libfsfat/libfsfat_directory_entry.c:1002-1042 | The fifteen units of an exFAT name record are read back. |
| `DirectoryScan.ScanConcat` | libfsfat/libfsfat_file_system.c:658-1043 | Scanning records is scanning the first part and then the second, wherever they are cut. |
| `DirectoryScan.ScanKeepsRun` | libfsfat/libfsfat_file_system.c:846-914 | At every record boundary the pending array is absent or a run of 1 to 20 records that starts with the flagged one and descends by one to the last number. |
| `DirectoryScan.StepKeepsRun` | libfsfat/libfsfat_directory_entry.c:1799-1811 | One record keeps that invariant, and under it the bounds check on the number of name records never rejects a file. |
| `DirectoryScan.ScanKeepsWellFormed` | libfsfat/libfsfat_file_system.c:777-1009 | Every listed file entry has the data its name is made of. |
| `DirectoryScan.AgreeIffNeutral` | libfsfat/libfsfat_file_system.c:727-792 | The two readers do the same with a FAT record in every state exactly when it matches no dot test and does not have the label attribute among others. |
| `DirectoryScan.ClusterScanIsRangeScan` | libfsfat/libfsfat_file_system.c:626-1064 | Reading neutral FAT records cluster by cluster gives the same directory, identifiers aside, or the same failure, as the range of the concatenated clusters; only a chain cut short without a terminator fails alone. |
| `RecordSteps.FatRecordReads` | libfsfat/libfsfat_directory_entry.c:412-507 | Every 32 bytes of a FAT directory, by their values: zeros end it, 0xe5 first is free, a long-name record has the stated numbers and zeros, and all others are short records with the stated fields. |
| `RecordSteps.DeletedIsPassedOver` | libfsfat/libfsfat_directory_entry.c:438-441 | A record that starts with 0xe5 leaves both readers as they were, whatever its other bytes are. |
| `RecordSteps.DeletedDoNotCount` | libfsfat/libfsfat_file_system.c:658-1043 | Such records do not change the outcome, wherever they are in a directory. |
| `RecordSteps.FirstPiece` | libfsfat/libfsfat_file_system.c:846-914 | A record with a first byte from 0x41 to 0x54 starts a run, whatever run is pending. |
| `RecordSteps.NextPiece` | libfsfat/libfsfat_file_system.c:846-914 | One with a first byte from 1 to 19 continues the run just above it, or fails the reader. |
| `RecordSteps.FileIsListed` | libfsfat/libfsfat_file_system.c:796-845 | Any other record without the label attribute and dot name is listed at its place with its fields and the name of the pending run. |
| `RecordSteps.ClusterLabel` | libfsfat/libfsfat_file_system.c:777-795 | The cluster reader takes a short record with the label attribute for the label, and fails at a second one. |
| `RecordSteps.RangeLabel` | libfsfat/libfsfat_file_system.c:1281-1300 | The range reader takes one with no other attribute, with its place. |
| `RecordSteps.ClusterDots` | libfsfat/libfsfat_file_system.c:727-776 | The cluster reader keeps one entry named by a full stop and one by two apart, and fails at a second one. |
| `RecordSteps.FileRecordStep` | libfsfat/libfsfat_file_system.c:945-980 | Type 0x85 adds a file at its place, with its attributes and times. |
| `RecordSteps.StreamRecordStep` | libfsfat/libfsfat_file_system.c:915-944 | Type 0xc0 gives its start cluster and both sizes to the last file, or fails the reader if there is none or it has them. |
| `RecordSteps.NameRecordStep` | libfsfat/libfsfat_file_system.c:981-1009 | Type 0xc1 gives its 30 bytes to the last file. |
| `RecordSteps.LabelRecordStep` | libfsfat/libfsfat_directory_entry.c:1043-1105 | Type 0x83 is the label with at most eleven units, which are its name; more units or a second label fail the reader. |
| `RecordSteps.OtherTypesPass` | libfsfat/libfsfat_directory_entry.c:385-410 | Types 0x81, 0x82 and all others are passed over. |
| `DirectoryReader.Directory.AddFileEntry` | libfsfat/libfsfat_file_system.c:796-845 | A short record gets the pending run as its name and ends the run. |
| `DirectoryReader.Directory.AddLongNameEntry` | libfsfat/libfsfat_file_system.c:846-914 | A long-name record starts or continues the run, or is rejected. |
| `DirectoryReader.Directory.AddExFatEntry` | libfsfat/libfsfat_file_system.c:915-1024 | File, stream, name and label records change the directory object as the machine says. |
| `DirectoryReader.Directory.ReadRecord` | libfsfat/libfsfat_file_system.c:658-1043 | One turn of the record loop is one step of the machine. |
| `DirectoryReader.ReadDirectory` | libfsfat/libfsfat_file_system.c:504-1128 | Yields the directory that the machine lists for the chain, or fails with it; the tree stops cycles. |
| `DirectoryReader.ReadDirectoryByRange` | libfsfat/libfsfat_file_system.c:1133-1480 | Yields the directory that the machine lists for the range, or fails with it. |
| `LongName.EncodedIsClassified` | libfsfat/libfsfat_directory_entry.c:423-442 | Every record of every encoded name of 1 to 260 units is classified as a long-name record. |
| `LongName.LongRecordReads` | libfsfat/libfsfat_directory_entry.c:625-672 | The three name segments of a record read back as the piece it was written from. |
| `LongName.LongNameRoundTrip` | libfsfat/libfsfat_file_system.c:777-914 | From any state, the records of a name and a plain short record yield one file entry named exactly by the name and its terminator. |
| `LongName.LongNameReadsIff` | libfsfat/libfsfat_file_system.c:727-914 | They add exactly that entry to the directory exactly when no piece of the name meets a dot test; otherwise the scan fails or sets a dot entry. |
| `LongName.CutBehind` | libfsfat/libfsfat_directory_entry.c:1877-1893 | Text is cut exactly where its NUL, or the appended one, stands. |
| `LongName.DotPiece` | libfsfat/libfsfat_file_system.c:727-762 | A piece of a name matches a dot test exactly when it starts with the stated units. |
| `ExFatGroups.AcceptedIffGrouped` | libfsfat/libfsfat_file_system.c:915-1024 | Records without dot names are accepted exactly when streams and names follow a file, no file has two streams, and there is at most one label. |
| `ExFatGroups.GroupsAreListed` | libfsfat/libfsfat_file_system.c:915-1009 | The file records are listed in order, each with its place, the start cluster and sizes of its group's only stream, and its group's names; otherwise the scan fails. |
| `GroupLayout.StreamGivesFields` | libfsfat/libfsfat_file_system.c:941-943 | A listed exFAT file has the start cluster, size and valid size of the first data stream of its group, and nothing else of it. |
| `GroupLayout.NoStreamKeepsFields` | libfsfat/libfsfat_file_system.c:941-943 | Without a data stream it keeps its own. |
| `GroupLayout.GroupIsListed` | libfsfat/libfsfat_file_system.c:915-1009 | A group on disk is listed in any state with exactly the attributes, times, cluster, size, valid size and units that it was written with. |
| `ExFatGroups.GroupNameRoundTrip` | libfsfat/libfsfat_directory_entry.c:1626-1719 | A group whose name records were written from 1 to 135 units has exactly that name. |
| `IdentifierLookup.ReadDirectoryEntryByIdentifier` | libfsfat/libfsfat_file_system.c:1485-1936 | For every volume and both kinds of record, the loops compute the backward or forward search, turn by turn. |
| `IdentifierLookup.CollectBackwards` | libfsfat/libfsfat_file_system.c:1637-1727 | The inner loop prepends long-name records with rising numbers until another record, a gap in the numbers or the end of the volume. |
| `IdentifierLookup.FollowRecords` | libfsfat/libfsfat_file_system.c:1783-1877 | The inner loop appends names and takes the first data stream, which no record can follow. |
| `LookupStart.SearchStartsAt` | libfsfat/libfsfat_file_system.c:1599-1621 | A place in part q of the volume starts the search with cluster (q + 2) mod 2^32, at the record in front of it, up to the end of part q mod 2^32. |
| `LookupStart.DeletedInPart` | libfsfat/libfsfat_file_system.c:1619-1768 | For volumes of any size, behind a deleted record entry q + 2 of the reversed table decides. |
| `LookupStart.FatPlaces` | libfsfat/libfsfat_file_system.c:1542-1596 | A place outside the volume, of a deleted record or of a piece of a long name is rejected, and zeros are told apart. |
| `LookupStart.ExFatPlaces` | libfsfat/libfsfat_file_system.c:1542-1596 | On exFAT only records of type 0x85 are looked up. |
| `LookupAgreement.LookupAgreesIff` | libfsfat/libfsfat_file_system.c:1619-1768 | In any state the scan may have, wherever the records of the pending run are: the short record is listed, and the lookup finds the very entry listed exactly when the records it reads spell the listed name, piece by piece and cluster by cluster. |
| `LookupAgreement.SpellsIff` | libfsfat/libfsfat_file_system.c:1623-1750 | The same for a search at any position that has the beginning of a name. |
| `LookupAgreement.StraddledRunIff` | libfsfat/libfsfat_file_system.c:1637-1727 | A run whose first records are anywhere and whose last records are in front of the short record is listed with its whole name, and found exactly when the records in front of the last ones spell the rest. |
| `LookupAgreement.TailIsFound` | libfsfat/libfsfat_file_system.c:1700-1727 | Behind another short record or a terminator, the entry is found with the name that the records directly in front of it spell. |
| `LookupAgreement.TailIsCutIff` | libfsfat/libfsfat_file_system.c:1700-1768 | That is the name of the whole run exactly when no record of it is elsewhere, or those in front hold a NUL unit, or the next one starts with it. |
| `LookupAgreement.OrphanRejects` | libfsfat/libfsfat_file_system.c:1675-1692 | A long-name record with any number but the next in front of the last records makes the lookup fail. |
| `LookupAgreement.NextNumberInFront` | libfsfat/libfsfat_file_system.c:1675-1711 | A long-name record with the next number leaves the name right exactly when it is the next piece of it, or the name has ended, and the records in front of it spell the rest. |
| `LookupAgreement.DeletedInFront` | libfsfat/libfsfat_file_system.c:1700-1749 | Behind an unallocated record the lookup fails if the reversed table has no entry for the cluster; otherwise the records of the cluster it leads to decide. |
| `LookupAgreement.SplitRunDisagrees` | libfsfat/libfsfat_file_system.c:1619-1768 | Where a run is pending and the lookup reads no long-name record, the file is listed with a name and found without one. |
| `LookupExamples.ListedButRejected` | libfsfat/libfsfat_file_system.c:1675-1692 | A volume on which a file is listed with its long name and its lookup fails. |
| `LookupExamples.NameIsCutShort` | libfsfat/libfsfat_file_system.c:1637-1727 | A directory in two clusters that are not neighbours: the file is listed with a name of two pieces and found with the first piece as its name. |
| `GroupLookup.GroupListedButRejected` | libfsfat/libfsfat_file_system.c:1785-1798 | A file record, its data stream and its name in a row are listed with the name, and rejected by the lookup whatever the tables hold. |
| `GroupLookup.GroupFoundIff` | libfsfat/libfsfat_file_system.c:1770-1917 | The lookup of an exFAT file record finds an entry exactly when it is the file completed by one to nine names that are read from it on, along the allocation table. |
| `GroupLookup.BodyShape` | libfsfat/libfsfat_file_system.c:1783-1877 | Records that can be gathered are names, but for a data stream as the last one. |
| `LookupTermination.SearchEndsIff` | libfsfat/libfsfat_file_system.c:1623-1750 | For any reversed table: the search is unfinished after every number of turns exactly when its turns lead to a cycle of clusters that start with unallocated records; otherwise 2n + 1 turns suffice for a table of n entries. |
| `LookupTermination.LookupEndsIff` | libfsfat/libfsfat_file_system.c:1623-1750 | For a reversed table that was decoded: the lookup does not end exactly when the first records end at an unallocated one and the first cluster is on such a cycle. |
| `LookupTermination.LeftTwice` | libfsfat/libfsfat_file_system.c:1675-1692 | A cluster that the search leaves twice starts with an unallocated record, because the numbers rise. |
| `LookupTermination.SearchSettles` | libfsfat/libfsfat_file_system.c:1623-1750 | More turns do not change a finished search. |
| `LookupTermination.GroupLookupEndsIff` | libfsfat/libfsfat_file_system.c:1772-1902 | The exFAT lookup does not end exactly when the allocation table leads through clusters without a data stream into a cycle of them; otherwise n + 3 turns suffice. |
| `LookupTermination.CycleNeverEnds` | libfsfat/libfsfat_file_system.c:1623-1750 | A FAT12 volume whose own tables, as decoded, keep the lookup of its one listed file unfinished after any number of turns. |
| `PathLookup.CompareWithString` | libfsfat/libfsfat_name.c:36-215 | The two-index loop computes the folded lexicographic comparison without terminators. |
| `PathLookup.EqualIffFolded` | libfsfat/libfsfat_name.c:132-214 | Names compare equal exactly when they are the same after case folding. |
| `PathLookup.CompareIsOrder` | libfsfat/libfsfat_name.c:132-214 | The comparison is antisymmetric and transitive. |
| `FoundByPath.CompareIsLexicographic` | libfsfat/libfsfat_name.c:132-214 | The first code points that differ after case folding decide; a text comes before its continuations. |
| `FoundByPath.TerminatorsDoNotCount` | libfsfat/libfsfat_name.c:107-131 | A NUL byte, or a NUL unit in UTF-16, at the end of a name is not compared, nor is one at the end of the string. |
| `PathLookup.FindsFirst` | libfsfat/libfsfat_directory.c:287-373 | The search finds an entry exactly when it is the first with the name and every name before it can be determined. |
| `PathLookup.WalkResolves` | libfsfat/libfsfat_file_system.c:2765-2864 | A walk along components reaches an entry exactly when they resolve to it, directory by directory. |
| `PathLookup.LookupRefinesResolving` | libfsfat/libfsfat_file_system.c:2749-2864 | The lookup of a path with a leading separator succeeds with an entry exactly when its components resolve to it, and reports the root when it finds none. |
| `PathLookup.EncodingsAgreeIff` | libfsfat/libfsfat_file_system.c:2990-3105 | UTF-8 and UTF-16 paths of the same text are looked up alike exactly when the text is not a single code point from U+0080 to U+FFFF. |
| `PathLookup.MountedLookup` | fsfattools/mount_path_string.c:528-774 | Printing names, parsing the mount path and looking it up finds exactly the entry the names resolve to. |
| `FoundByPath.FileIsFound` | libfsfat/libfsfat_file_system.c:2749-2864 | A backslash and a name, with a backslash behind it or without, mean the first file of the root directory that has the name up to case. |
| `FoundByPath.FileInDirectoryIsFound` | libfsfat/libfsfat_file_system.c:2765-2864 | With a second name it is the first such file in the directory at the start cluster of the first; an empty name in between stops there, without success. |
| `FoundByPath.FileIsNotFound` | libfsfat/libfsfat_directory.c:287-373 | A name that no file has is not found, and the root is reported. |
| `FoundByPath.NamelessFails` | libfsfat/libfsfat_directory.c:287-373 | A file without a name in front of the first match makes the lookup fail. |
| `FoundByPath.UnreadableFails` | libfsfat/libfsfat_file_system.c:2765-2864 | So does a directory on the way that cannot be read. |
| `FoundByPath.ShortFileIsFound` | libfsfat/libfsfat_directory_entry.c:1441-1494 | A short record with padded base and extension is found by them, with a full stop in between. |
| `FoundByPath.WrittenFileIsFound` | libfsfat/libfsfat_file_system.c:2749-2864 | A file written with a long name is listed, and found by exactly that name, if no file before it has it. |
| `FoundByPath.ShortPathIsRoot` | libfsfat/libfsfat_file_system.c:2990-3105 | The empty path and a path of one ASCII character mean the root. |
| `FileSystem.GetFileEntryByName` | libfsfat/libfsfat_directory.c:287-373 | The search loop returns the first match and only fills in names on the way. |
| `FileSystem.DetermineName` | libfsfat/libfsfat_directory_entry.c:2073-2132 | Determining a name lazily changes the entry to one that gives the same name. |
| `FileSystem.FileSystem.GetDirectory` | libfsfat/libfsfat_file_system.c:2410-2542 | From the cache or from the volume, the directory is the one its cluster holds, whatever was forgotten. |
| `FileSystem.FileSystem.SearchDirectory` | libfsfat/libfsfat_file_system.c:2822-2830 | A search leaves every other cached directory as it is. |
| `FileSystem.FileSystem.GetFileEntryByPath` | libfsfat/libfsfat_file_system.c:2696-2932 | For every state of the cache and everything it forgets meanwhile, the result and the identifier are those of the lookup without a cache. |
| `PathEscape.CopyHexadecimalToInteger32Bit` | fsfattools/mount_path_string.c:44-131 | The loop computes the 32-bit value of the digits, or fails on the first character that is none. |
| `PathEscape.CopyFromFileEntryPath` | fsfattools/mount_path_string.c:136-423 | Fails exactly on an empty or over-long string; otherwise prints every code point before the first NUL, untruncated, and no bounds check fires. |
| `PrintedNames.PrintedUnchangedIff` | fsfattools/mount_path_string.c:250-397 | A name is printed unchanged exactly when it holds no control character, separator or escape character, none of eight characters on Windows, and none of the listed code points. |
| `PrintedNames.OneIsPrinted` | fsfattools/mount_path_string.c:250-397 | The first kinds are printed with x and two lower-case digits, the listed ones with U and eight, the escape character twice. |
| `PrintedNames.Limits` | fsfattools/mount_path_string.c:179-208 | The lengths that the printer and the parser accept, in numbers. |
| `PathEscape.CopyToFileEntryPath` | fsfattools/mount_path_string.c:428-800 | Fails exactly on a path that is not absolute, too long or malformed; otherwise returns what it parses to, within the length of its input. |
| `PrintedNames.TwoDigitEscape` | fsfattools/mount_path_string.c:591-654 | x and two digits, on Windows also X and upper-case digits, are read exactly for the code points that are printed so. |
| `PrintedNames.EightDigitEscape` | fsfattools/mount_path_string.c:667-731 | U and eight digits, on Windows also u, likewise. |
| `PrintedNames.OtherEscapes` | fsfattools/mount_path_string.c:732-744 | Any other character behind the escape character is an error. |
| `PathEscape.ParseEscaped` | fsfattools/mount_path_string.c:528-774 | Parsing undoes escaping, whatever follows, on both platforms. |
| `PathEscape.MountPathRoundTrip` | fsfattools/mount_path_string.c:528-774 | Printed names, each behind a separator, parse to the FAT path of the names. |
| `PathEscape.EscapeInjective` | fsfattools/mount_path_string.c:226-397 | Different names are printed differently. |
| `PathEscape.EscapedIsOneComponent` | fsfattools/mount_path_string.c:226-397 | A printed name holds no separator and no control character. |

## Left out

- Allocation failures, NULL and "already set" argument checks, error backtraces and read/write locks: no state beyond the objects modelled.
- libbfio reads, libfdata streams, libfcache eviction, libuna codecs and towupper: modelled as stated under Assumptions; a codec that rejects a string makes the source fail where the model goes on.
- libfsfat_date_time.c: the loops of the conversion add month and year lengths that are not a calendar count; records keep dates and times as they are stored.
- libfsfat_boot_record.c: its accepted geometry is an assumption.
- The entries array of a directory, which only owns memory; the label, self and parent entries and pending long-name records are kept as values, file entries as objects.
- The out-parameter of the tree that returns the leaf node, which no caller uses.
- A node of the block tree has two sequences of slots, for sub nodes and for leaf values, where the source has one array of pointers.
- MEMORY_MAXIMUM limits on the tables.
- The lifetime of a directory that the cache frees while an entry of it is in use.
- Tools, mount callbacks, debug output and file entry getters: user interface and thin delegation.
- ReadDirectoryEntryByIdentifier: the number of turns of its outer loops is a parameter, because the source does not bound it; with too few turns the result says that the search is unfinished.
- EncodingsAgreeIff: both encodings are decoded without loss, so that malformed UTF-8 or UTF-16 is not modelled.
- ReversedPointsBack: index 0 stands for no entry in the reversed table, so that a link from entry 0 cannot be told from none.

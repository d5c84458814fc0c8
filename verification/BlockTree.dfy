/**
  The sparse block tree: a radix tree with 256 slots per node, keyed by byte offset, whose nodes are
  created when an insert first passes through them.  The tree is proved to be a map from
  offset / leafValueSize to block descriptors.
 */
module BlockTree {
  import opened Arithmetic
  import opened Common

  const NUMBER_OF_SUB_NODES: nat := 256
  const INT64_MAX: nat := 0x7fff_ffff_ffff_ffff
  const UINT64_MAX: nat := 0xffff_ffff_ffff_ffff

  type Positive = x: int | 0 < x witness 1

  datatype BlockDescriptor = BlockDescriptor(clusterNumber: nat)

  datatype GetResult =
    | Found(descriptor: BlockDescriptor, blockOffset: nat)
    | NotFound
    | GetError

  datatype InsertResult =
    | Inserted(leafValueIndex: nat)
    | AlreadySet(existing: BlockDescriptor)
    | InsertError

  // ----- sizes: leafValueSize * 256^k

  /** Bytes covered by one slot of a node at height k: leaf * 256^k. */
  ghost function SlotSize(leaf: Positive, k: nat): Positive {
    if k == 0 then leaf else NUMBER_OF_SUB_NODES * SlotSize(leaf, k - 1)
  }

  /** Height of a node of `size` bytes: the least h >= k for which size / (leaf * 256^h) is at most 256. */
  ghost function Height(size: nat, leaf: Positive, k: nat): (h: nat)
    decreases size / SlotSize(leaf, k)
  {
    if size / SlotSize(leaf, k) <= NUMBER_OF_SUB_NODES then k
    else
      DivSmaller(size, SlotSize(leaf, k));
      Height(size, leaf, k + 1)
  }

  lemma DivSmaller(size: nat, s: nat)
    requires 0 < s
    requires size / s > NUMBER_OF_SUB_NODES
    ensures NUMBER_OF_SUB_NODES * s < size
    ensures size / (NUMBER_OF_SUB_NODES * s) < size / s
  {
    MulMonotonic(NUMBER_OF_SUB_NODES + 1, size / s, s);
    DivDiv(size, s, NUMBER_OF_SUB_NODES);
  }

  // ----- keys: the leaf value an offset falls in, and its base-256 digits

  /** The leaf value an offset falls in. */
  function KeyOf(offset: nat, leaf: Positive): nat {
    offset / leaf
  }

  /** The key without its k lowest base-256 digits: names the slot of height k that covers the key. */
  ghost function Prefix(key: nat, k: nat): nat {
    if k == 0 then key else Prefix(key, k - 1) / NUMBER_OF_SUB_NODES
  }

  lemma {:induction false} PrefixIsQuotient(offset: nat, leaf: Positive, k: nat)
    ensures Prefix(KeyOf(offset, leaf), k) == offset / SlotSize(leaf, k)
  {
    if k != 0 {
      PrefixIsQuotient(offset, leaf, k - 1);
      DivDiv(offset, SlotSize(leaf, k - 1), NUMBER_OF_SUB_NODES);
    }
  }

  /** The index computed from an offset is the next base-256 digit of its key. */
  lemma IndexIsDigit(offset: nat, leaf: Positive, k: nat, prefix: nat, start: nat)
    requires start == Times(NUMBER_OF_SUB_NODES * prefix, SlotSize(leaf, k))
    ensures Prefix(KeyOf(offset, leaf), k + 1) == prefix
        <==> start <= offset < start + NUMBER_OF_SUB_NODES * SlotSize(leaf, k)
    ensures start <= offset ==>
        (offset - start) / SlotSize(leaf, k) == Prefix(KeyOf(offset, leaf), k) - NUMBER_OF_SUB_NODES * prefix
  {
    var s := SlotSize(leaf, k);
    TimesIsProduct(NUMBER_OF_SUB_NODES * prefix, s);
    PrefixIsQuotient(offset, leaf, k);
    PrefixIsQuotient(offset, leaf, k + 1);
    assert start == prefix * (NUMBER_OF_SUB_NODES * s);
    DivInterval(offset, NUMBER_OF_SUB_NODES * s, prefix);
    if start <= offset {
      DivShift(offset, s, NUMBER_OF_SUB_NODES * prefix);
    }
  }

  /** Offset of the last byte (exclusive) that a tree of this size can address. */
  ghost function Capacity(size: nat, leaf: Positive): nat {
    Min(size, NUMBER_OF_SUB_NODES * SlotSize(leaf, Height(size, leaf, 0)))
  }

  /** The offsets an insert accepts: those below the capacity, unless the slot of the root that holds
      the offset ends beyond 63 bits, in which case its sub node cannot be created. */
  ghost predicate Accepts(size: nat, leaf: Positive, offset: int) {
    var slot := SlotSize(leaf, Height(size, leaf, 0));
    && 0 <= offset < Capacity(size, leaf)
    && (Height(size, leaf, 0) != 0 ==> (offset / slot) * slot + slot <= INT64_MAX)
  }

  /** The whole range is addressable exactly when no part of it lies behind the last root slot. */
  lemma CapacityIsSize(size: nat, leaf: Positive)
    ensures Capacity(size, leaf) == size <==>
              var slot := SlotSize(leaf, Height(size, leaf, 0));
              size / slot < NUMBER_OF_SUB_NODES || size % slot == 0
  {
    var slot := SlotSize(leaf, Height(size, leaf, 0));
    HeightIsEnough(size, leaf, 0);
    SlotsHold(size, slot, size / slot, size % slot);
  }

  /** A number of slots holds the size exactly when it does not leave a remainder behind all of them. */
  lemma SlotsHold(size: nat, slot: nat, q: nat, r: nat)
    requires size == q * slot + r && r < slot && q <= NUMBER_OF_SUB_NODES
    ensures size <= NUMBER_OF_SUB_NODES * slot <==> q < NUMBER_OF_SUB_NODES || r == 0
  {
    if q < NUMBER_OF_SUB_NODES {
      MulMonotonic(q + 1, NUMBER_OF_SUB_NODES, slot);
      Distribute(q, 1, slot);
    }
  }

  lemma {:induction false} HeightIsEnough(size: nat, leaf: Positive, k: nat)
    ensures size / SlotSize(leaf, Height(size, leaf, k)) <= NUMBER_OF_SUB_NODES
    ensures Height(size, leaf, k) > k ==> SlotSize(leaf, Height(size, leaf, k)) < size
    decreases size / SlotSize(leaf, k)
  {
    if size / SlotSize(leaf, k) > NUMBER_OF_SUB_NODES {
      DivSmaller(size, SlotSize(leaf, k));
      HeightIsEnough(size, leaf, k + 1);
    }
  }

  /** Below 62 bits, every addressable offset can be inserted. */
  lemma SmallTreesAcceptAll(size: nat, leaf: Positive, offset: int)
    requires 2 * size <= INT64_MAX
    ensures Accepts(size, leaf, offset) <==> 0 <= offset < Capacity(size, leaf)
  {
    var slot := SlotSize(leaf, Height(size, leaf, 0));
    HeightIsEnough(size, leaf, 0);
    if 0 <= offset {
      SlotHolds(offset, slot, offset / slot);
    }
  }

  /** A cluster that lies in the volume and that the tree refuses: 65537 clusters of 1024 bytes leave a remainder of
      one cluster behind 256 slots of 256 clusters each. */
  lemma TailNotAddressable()
    ensures 65536 * 1024 + 1024 <= 65537 * 1024 && !Accepts(65537 * 1024, 1024, 65536 * 1024)
  {
    assert Height(65537 * 1024, 1024, 1) == 1;
    assert Height(65537 * 1024, 1024, 0) == 1;
  }

  /** The largest range of whole sectors with the largest exFAT clusters, 2^25 sectors of 4096 bytes: the
      last slot is refused because its sub node would end at 2^63. */
  lemma LastSlotRefused()
    ensures Capacity(0x7fff_ffff_ffff_f000, 0x20_0000_0000) == 0x7fff_ffff_ffff_f000
    ensures !Accepts(0x7fff_ffff_ffff_f000, 0x20_0000_0000, 0x6000_0000_0000_0000)
  {
    var leaf: Positive := 0x20_0000_0000;
    assert Height(0x7fff_ffff_ffff_f000, leaf, 3) == 3;
    assert Height(0x7fff_ffff_ffff_f000, leaf, 2) == 3;
    assert Height(0x7fff_ffff_ffff_f000, leaf, 1) == 3;
    assert Height(0x7fff_ffff_ffff_f000, leaf, 0) == 3;
    assert SlotSize(leaf, 2) == 0x20_0000_0000_0000;
    assert SlotSize(leaf, 3) == 0x2000_0000_0000_0000;
  }

  lemma {:induction false} SlotSizeGrows(leaf: Positive, k: nat, h: nat)
    requires k < h
    ensures NUMBER_OF_SUB_NODES * SlotSize(leaf, k) <= SlotSize(leaf, h)
    decreases h
  {
    if k + 1 < h {
      SlotSizeGrows(leaf, k, h - 1);
    }
  }

  /** A node that fills one slot of height h has height h - 1. */
  lemma {:induction false} HeightOfSlot(leaf: Positive, h: nat, k: nat)
    requires k < h
    ensures Height(SlotSize(leaf, h), leaf, k) == h - 1
    decreases h - k
  {
    if k == h - 1 {
      DivInterval(SlotSize(leaf, h), SlotSize(leaf, k), NUMBER_OF_SUB_NODES);
    } else {
      SlotSizeGrows(leaf, k + 1, h);
      DivAbove(SlotSize(leaf, h), SlotSize(leaf, k));
      HeightOfSlot(leaf, h, k + 1);
    }
  }

  lemma DivAbove(size: nat, s: Positive)
    requires NUMBER_OF_SUB_NODES * NUMBER_OF_SUB_NODES * s <= size
    ensures size / s > NUMBER_OF_SUB_NODES
  {
    MulMonotonic(Min(size / s, NUMBER_OF_SUB_NODES), NUMBER_OF_SUB_NODES, s);
  }

  lemma TimesSplit(p: nat, d: nat, s: nat)
    ensures Times(NUMBER_OF_SUB_NODES * (NUMBER_OF_SUB_NODES * p + d), s)
         == Times(NUMBER_OF_SUB_NODES * p, NUMBER_OF_SUB_NODES * s) + d * (NUMBER_OF_SUB_NODES * s)
  {
    var t := NUMBER_OF_SUB_NODES * s;
    TimesIsProduct(NUMBER_OF_SUB_NODES * (NUMBER_OF_SUB_NODES * p + d), s);
    TimesIsProduct(NUMBER_OF_SUB_NODES * p, t);
    assert (NUMBER_OF_SUB_NODES * p + d) * t == (NUMBER_OF_SUB_NODES * p) * t + d * t;
  }

  lemma SlotHolds(a: nat, s: Positive, d: nat)
    requires a / s == d
    ensures d * s <= a < d * s + s
    ensures d < NUMBER_OF_SUB_NODES ==> d * s + s <= NUMBER_OF_SUB_NODES * s
  {
    if d < NUMBER_OF_SUB_NODES {
      MulMonotonic(d + 1, NUMBER_OF_SUB_NODES, s);
    }
  }

  lemma ModShift(a: nat, b: Positive, d: nat)
    requires Times(d, b) <= a
    ensures (a - Times(d, b)) % b == a % b
  {
    TimesIsProduct(d, b);
    DivShift(a, b, d);
    var q := a / b;
    assert (q - d) * b == q * b - d * b;
  }

  /** The sub node size of a new node: the loop multiplies by the number of slots, and never leaves
      64 bits. */
  method SubNodeSize(size: nat, leafValueSize: Positive) returns (subNodeSize: Positive)
    requires size <= INT64_MAX
    requires leafValueSize <= UINT64_MAX
    ensures subNodeSize == SlotSize(leafValueSize, Height(size, leafValueSize, 0))
    ensures subNodeSize <= UINT64_MAX
  {
    subNodeSize := leafValueSize;
    ghost var k := 0;
    while size / subNodeSize > NUMBER_OF_SUB_NODES
      invariant subNodeSize == SlotSize(leafValueSize, k) <= UINT64_MAX
      invariant Height(size, leafValueSize, k) == Height(size, leafValueSize, 0)
      decreases size / subNodeSize
    {
      DivSmaller(size, subNodeSize);
      subNodeSize := subNodeSize * NUMBER_OF_SUB_NODES;
      k := k + 1;
    }
  }

  /** One node: a branch uses subNodes, a leaf uses leafValues. */
  class BlockTreeNode {
    const startOffset: nat
    const endOffset: nat
    const size: nat
    const subNodeSize: Positive
    const isLeafNode: bool
    var subNodes: seq<BlockTreeNode?>
    var leafValues: seq<Option<BlockDescriptor>>

    ghost const height: nat
    ghost const prefix: nat
    ghost const parent: BlockTreeNode?

    constructor (offset: nat, size: nat, leafValueSize: nat, subNodeSize: Positive,
                 ghost height: nat, ghost prefix: nat, ghost parent: BlockTreeNode?)
      ensures startOffset == offset && this.size == size && endOffset == offset + size
      ensures this.subNodeSize == subNodeSize && isLeafNode == (subNodeSize == leafValueSize)
      ensures subNodes == seq(NUMBER_OF_SUB_NODES, _ => null)
      ensures leafValues == seq(NUMBER_OF_SUB_NODES, _ => None)
      ensures this.height == height && this.prefix == prefix && this.parent == parent
    {
      this.startOffset := offset;
      this.size := size;
      this.endOffset := offset + size;
      this.subNodeSize := subNodeSize;
      this.isLeafNode := subNodeSize == leafValueSize;
      this.subNodes := seq(NUMBER_OF_SUB_NODES, _ => null);
      this.leafValues := seq(NUMBER_OF_SUB_NODES, _ => None);
      this.height := height;
      this.prefix := prefix;
      this.parent := parent;
    }

    /** Creates a node, or returns null for an empty or too large range. */
    static method Initialize(offset: nat, size: nat, leafValueSize: nat,
                             ghost prefix: nat, ghost parent: BlockTreeNode?)
      returns (node: BlockTreeNode?)
      requires leafValueSize <= UINT64_MAX
      ensures node == null <==> size == 0 || size > INT64_MAX - offset || leafValueSize == 0
      ensures node != null ==>
                && fresh(node)
                && node.startOffset == offset && node.size == size && node.endOffset == offset + size
                && node.height == Height(size, leafValueSize, 0)
                && node.subNodeSize == SlotSize(leafValueSize, node.height)
                && (node.isLeafNode <==> node.height == 0)
                && node.prefix == prefix && node.parent == parent
                && node.subNodes == seq(NUMBER_OF_SUB_NODES, _ => null)
                && node.leafValues == seq(NUMBER_OF_SUB_NODES, _ => None)
    {
      if size == 0 || size > INT64_MAX - offset || leafValueSize == 0 {
        return null;
      }
      var subNodeSize := SubNodeSize(size, leafValueSize);
      ghost var h := Height(size, leafValueSize, 0);
      if h != 0 {
        SlotSizeGrows(leafValueSize, 0, h);
      }
      node := new BlockTreeNode(offset, size, leafValueSize, subNodeSize, h, prefix, parent);
    }

    /** Index of the slot for an offset, or None when the offset or the index is out of bounds. */
    function SlotIndex(offset: int): (index: Option<nat>)
    {
      if offset < startOffset || offset >= endOffset then None
      else
        var i := (offset - startOffset) / subNodeSize;
        if i < NUMBER_OF_SUB_NODES then Some(i) else None
    }

    method GetSubNodeAtOffset(offset: int) returns (ok: bool, subNode: BlockTreeNode?)
      requires |subNodes| == NUMBER_OF_SUB_NODES
      ensures ok <==> !isLeafNode && SlotIndex(offset).Some?
      ensures ok ==> subNode == subNodes[SlotIndex(offset).value]
      ensures !ok ==> subNode == null
    {
      var index := SlotIndex(offset);
      if isLeafNode || index.None? {
        return false, null;
      }
      return true, subNodes[index.value];
    }

    method SetSubNodeAtOffset(offset: int, subNode: BlockTreeNode) returns (ok: bool)
      requires |subNodes| == NUMBER_OF_SUB_NODES
      modifies this`subNodes
      ensures ok <==> !isLeafNode && SlotIndex(offset).Some?
      ensures ok ==> subNodes == old(subNodes)[SlotIndex(offset).value := subNode]
      ensures !ok ==> subNodes == old(subNodes)
    {
      var index := SlotIndex(offset);
      if isLeafNode || index.None? {
        return false;
      }
      subNodes := subNodes[index.value := subNode];
      return true;
    }

    /** The slot's value, and the position of the offset inside the slot. */
    method GetLeafValueAtOffset(offset: int)
      returns (ok: bool, value: Option<BlockDescriptor>, blockOffset: nat)
      requires |leafValues| == NUMBER_OF_SUB_NODES
      ensures ok <==> isLeafNode && SlotIndex(offset).Some?
      ensures ok ==> value == leafValues[SlotIndex(offset).value]
      ensures ok ==> blockOffset == (offset - startOffset) % subNodeSize
    {
      var index := SlotIndex(offset);
      if !isLeafNode || index.None? {
        return false, None, 0;
      }
      return true, leafValues[index.value], (offset - startOffset) - index.value * subNodeSize;
    }

    method SetLeafValueAtOffset(offset: int, descriptor: BlockDescriptor) returns (ok: bool)
      requires |leafValues| == NUMBER_OF_SUB_NODES
      modifies this`leafValues
      ensures ok <==> isLeafNode && SlotIndex(offset).Some?
      ensures ok ==> leafValues == old(leafValues)[SlotIndex(offset).value := Some(descriptor)]
      ensures !ok ==> leafValues == old(leafValues)
    {
      var index := SlotIndex(offset);
      if !isLeafNode || index.None? {
        return false;
      }
      leafValues := leafValues[index.value := Some(descriptor)];
      return true;
    }
  }

  class BlockTree {
    const leafValueSize: Positive
    const root: BlockTreeNode

    /** Every node of the tree, and the map the tree stands for, keyed by KeyOf(offset, leafValueSize). */
    ghost var nodes: set<BlockTreeNode>
    ghost var contents: map<nat, BlockDescriptor>

    /** Sizes and position of one node.  A node of height h and prefix p covers the keys whose digits
        above h are p; slot i covers those whose next digit is i. */
    ghost predicate NodeShape(n: BlockTreeNode)
      reads n
    {
      && leafValueSize <= UINT64_MAX
      && n.subNodeSize == SlotSize(leafValueSize, n.height)
      && n.startOffset == Times(NUMBER_OF_SUB_NODES * n.prefix, n.subNodeSize)
      && n.endOffset <= INT64_MAX
      && (n.isLeafNode <==> n.height == 0)
      && |n.subNodes| == |n.leafValues| == NUMBER_OF_SUB_NODES
      && (n != root ==>
            && n.height < root.height
            && n.endOffset == n.startOffset + NUMBER_OF_SUB_NODES * n.subNodeSize)
    }

    ghost predicate NodeParent(n: BlockTreeNode)
      reads this`nodes, nodes
    {
      n != root ==>
        && n.parent != null && n.parent in nodes
        && n.parent.height == n.height + 1
        && n.parent.prefix == n.prefix / NUMBER_OF_SUB_NODES
        && |n.parent.subNodes| == NUMBER_OF_SUB_NODES
        && n.parent.subNodes[n.prefix % NUMBER_OF_SUB_NODES] == n
    }

    ghost predicate NodeLinks(n: BlockTreeNode)
      reads this`nodes, n
    {
      forall i :: 0 <= i < |n.subNodes| && n.subNodes[i] != null ==>
        && n.subNodes[i] in nodes
        && n.subNodes[i].height + 1 == n.height
        && n.subNodes[i].prefix == NUMBER_OF_SUB_NODES * n.prefix + i
    }

    /** What the slots of one node say about the map. */
    ghost predicate NodeContents(n: BlockTreeNode)
      reads this`contents, n
    {
      && |n.subNodes| == |n.leafValues| == NUMBER_OF_SUB_NODES
      && forall key: nat {:trigger Covers(n, key)} | Covers(n, key) ::
           if n.height == 0 then
             n.leafValues[Digit(n, key)] == (if key in contents then Some(contents[key]) else None)
           else
             key in contents ==> n.subNodes[Digit(n, key)] != null
    }

    static ghost predicate SamePlace(n: BlockTreeNode, m: BlockTreeNode) {
      n.height == m.height && n.prefix == m.prefix
    }

    static ghost predicate Covers(n: BlockTreeNode, key: nat) {
      Prefix(key, n.height + 1) == n.prefix
    }

    static ghost function Digit(n: BlockTreeNode, key: nat): (d: nat)
      requires Covers(n, key)
      ensures d < NUMBER_OF_SUB_NODES
    {
      Prefix(key, n.height) - NUMBER_OF_SUB_NODES * n.prefix
    }

    ghost predicate Valid()
      reads this, nodes
    {
      && root in nodes && root.prefix == 0 && root.startOffset == 0
      && root.endOffset == root.size
      && root.height == Height(root.size, leafValueSize, 0)
      && (forall n {:trigger NodeShape(n)} :: n in nodes ==> NodeShape(n))
      && (forall n {:trigger NodeParent(n)} :: n in nodes ==> NodeParent(n))
      && (forall n {:trigger NodeLinks(n)} :: n in nodes ==> NodeLinks(n))
      && (forall n {:trigger NodeContents(n)} :: n in nodes ==> NodeContents(n))
      && (forall n, m {:trigger SamePlace(n, m)} :: n in nodes && m in nodes && SamePlace(n, m) ==> n == m)
    }

    /** The offsets the tree can address. */
    ghost predicate InRange(offset: int)
      reads this, nodes
      requires Valid()
    {
      0 <= offset < Capacity(root.size, leafValueSize)
    }

    lemma RootCovers(offset: int)
      requires Valid()
      ensures InRange(offset) <==> root.SlotIndex(offset).Some?
      ensures InRange(offset) ==>
                && Covers(root, KeyOf(offset, leafValueSize))
                && root.SlotIndex(offset) == Some(Digit(root, KeyOf(offset, leafValueSize)))
    {
      assert NodeShape(root);
      if 0 <= offset {
        IndexIsDigit(offset, leafValueSize, root.height, 0, 0);
        DivInterval(offset, root.subNodeSize, offset / root.subNodeSize);
        if offset / root.subNodeSize < NUMBER_OF_SUB_NODES {
          MulMonotonic(offset / root.subNodeSize + 1, NUMBER_OF_SUB_NODES, root.subNodeSize);
        } else {
          MulMonotonic(NUMBER_OF_SUB_NODES, offset / root.subNodeSize, root.subNodeSize);
        }
      }
    }

    /** On the way down, the slot computed from the offset is the next digit of its key. */
    lemma SlotIsDigit(n: BlockTreeNode, offset: nat)
      requires n in nodes && NodeShape(n)
      requires n == root ==> offset < n.endOffset
      requires Covers(n, KeyOf(offset, leafValueSize))
      ensures n.SlotIndex(offset) == Some(Digit(n, KeyOf(offset, leafValueSize)))
      ensures n.height == 0 ==> (offset - n.startOffset) % n.subNodeSize == offset % leafValueSize
    {
      IndexIsDigit(offset, leafValueSize, n.height, n.prefix, n.startOffset);
      if n.height == 0 {
        ModShift(offset, leafValueSize, NUMBER_OF_SUB_NODES * n.prefix);
      }
    }

    /** One step down towards a key. */
    lemma Descend(n: BlockTreeNode, key: nat)
      requires Valid() && n in nodes && Covers(n, key)
      ensures NodeShape(n)
      ensures n.height == 0 ==>
                n.leafValues[Digit(n, key)] == (if key in contents then Some(contents[key]) else None)
      ensures n.height != 0 ==>
                var subNode := n.subNodes[Digit(n, key)];
                if subNode == null then key !in contents
                else subNode in nodes && subNode.height + 1 == n.height && subNode != root && Covers(subNode, key)
    {
      assert NodeShape(n) && NodeLinks(n) && NodeContents(n);
    }

    /** Where the slot of a covered offset starts: at a multiple of the sub node's own node size. */
    lemma SlotStart(n: BlockTreeNode, offset: nat)
      requires n in nodes && NodeShape(n) && n.height != 0
      requires n == root ==> offset < n.endOffset
      requires Covers(n, KeyOf(offset, leafValueSize))
      ensures
        var digit := Digit(n, KeyOf(offset, leafValueSize));
        && SlotOffset(n, digit) ==
           Times(NUMBER_OF_SUB_NODES * (NUMBER_OF_SUB_NODES * n.prefix + digit), SlotSize(leafValueSize, n.height - 1))
        && SlotOffset(n, digit) <= offset < SlotOffset(n, digit) + n.subNodeSize
        && (n != root ==> SlotOffset(n, digit) + n.subNodeSize <= INT64_MAX)
    {
      var digit := Digit(n, KeyOf(offset, leafValueSize));
      TimesSplit(n.prefix, digit, SlotSize(leafValueSize, n.height - 1));
      IndexIsDigit(offset, leafValueSize, n.height, n.prefix, n.startOffset);
      SlotHolds(offset - n.startOffset, n.subNodeSize, digit);
    }

    static function SlotOffset(n: BlockTreeNode, index: nat): nat {
      n.startOffset + index * n.subNodeSize
    }

    constructor (root: BlockTreeNode, leafValueSize: Positive)
      requires leafValueSize <= UINT64_MAX
      requires root.prefix == 0 && root.startOffset == 0 && root.endOffset == root.size <= INT64_MAX
      requires root.height == Height(root.size, leafValueSize, 0)
      requires root.subNodeSize == SlotSize(leafValueSize, root.height)
      requires root.isLeafNode <==> root.height == 0
      requires root.subNodes == seq(NUMBER_OF_SUB_NODES, _ => null)
      requires root.leafValues == seq(NUMBER_OF_SUB_NODES, _ => None)
      ensures Valid()
      ensures nodes == {root} && contents == map[]
      ensures this.root == root && this.leafValueSize == leafValueSize
    {
      this.root := root;
      this.leafValueSize := leafValueSize;
      nodes := {root};
      contents := map[];
      new;
      assert NodeContents(root);
    }

    /** Creates an empty tree, or returns null when the size or the leaf value size is unusable. */
    static method Initialize(size: nat, leafValueSize: nat) returns (tree: BlockTree?)
      requires leafValueSize <= UINT64_MAX
      ensures tree == null <==> size == 0 || size > INT64_MAX || leafValueSize == 0
      ensures tree != null ==>
                && fresh(tree) && fresh(tree.nodes)
                && tree.Valid() && tree.contents == map[]
                && tree.root.size == size && tree.leafValueSize == leafValueSize
    {
      var root := BlockTreeNode.Initialize(0, size, leafValueSize, 0, null);
      if root == null {
        return null;
      }
      tree := new BlockTree(root, leafValueSize);
    }

    /** Looks an offset up: the tree is a map, and says where in its leaf value the offset falls. */
    method GetBlockDescriptorByOffset(offset: int) returns (result: GetResult)
      requires Valid()
      ensures InRange(offset) <==> !result.GetError?
      ensures InRange(offset) ==>
                var key := KeyOf(offset, leafValueSize);
                result == if key in contents then Found(contents[key], offset % leafValueSize) else NotFound
    {
      RootCovers(offset);
      ghost var inRange := InRange(offset);
      ghost var key: nat := if inRange then KeyOf(offset, leafValueSize) else 0;
      var node: BlockTreeNode := root;
      assert NodeShape(node);
      while !node.isLeafNode
        invariant node in nodes && NodeShape(node)
        invariant inRange ==> Covers(node, key) && node.SlotIndex(offset) == Some(Digit(node, key))
        invariant !inRange ==> node.SlotIndex(offset) == None
        decreases node.height
      {
        var ok, subNode := node.GetSubNodeAtOffset(offset);
        if !ok {
          return GetError;
        }
        assert inRange;
        Descend(node, key);
        if subNode == null {
          return NotFound;
        }
        node := subNode;
        Descend(node, key);
        SlotIsDigit(node, offset);
      }
      var ok, value, blockOffset := node.GetLeafValueAtOffset(offset);
      if !ok {
        return GetError;
      }
      assert inRange;
      Descend(node, key);
      SlotIsDigit(node, offset);
      match value
      case None => return NotFound;
      case Some(descriptor) => return Found(descriptor, blockOffset);
    }

    /** Every node above `height` that covers the key already has a sub node for it. */
    ghost predicate PathSet(height: nat, key: nat)
      reads this, nodes
    {
      forall n {:trigger Covers(n, key)} :: n in nodes && height < n.height && Covers(n, key) ==>
        |n.subNodes| == NUMBER_OF_SUB_NODES && n.subNodes[Digit(n, key)] != null
    }

    /** No node stands yet where a missing sub node belongs, and nothing is stored below it. */
    lemma EmptySlot(node: BlockTreeNode, digit: nat, subNode: BlockTreeNode)
      requires Valid() && node in nodes && NodeShape(node)
      requires node.height == subNode.height + 1 && digit < NUMBER_OF_SUB_NODES
      requires node.subNodes[digit] == null
      requires subNode.prefix == NUMBER_OF_SUB_NODES * node.prefix + digit
      requires subNode.subNodes == seq(NUMBER_OF_SUB_NODES, _ => null)
      requires subNode.leafValues == seq(NUMBER_OF_SUB_NODES, _ => None)
      ensures forall n {:trigger SamePlace(n, subNode)} {:trigger SamePlace(subNode, n)} ::
                n in nodes ==> !SamePlace(n, subNode)
      ensures NodeContents(subNode)
      ensures subNode.prefix / NUMBER_OF_SUB_NODES == node.prefix
      ensures subNode.prefix % NUMBER_OF_SUB_NODES == digit
    {
      DivInterval(subNode.prefix, NUMBER_OF_SUB_NODES, node.prefix);
      forall n | n in nodes && SamePlace(n, subNode)
        ensures false
      {
        assert NodeShape(n) && NodeParent(n);
        assert SamePlace(n.parent, node);
      }
      assert NodeContents(node);
      forall key: nat | Covers(subNode, key)
        ensures key !in contents
      {
        assert Covers(node, key);
      }
    }

    /** Puts a new, empty node into an empty slot. */
    method AttachSubNode(node: BlockTreeNode, offset: nat, subNode: BlockTreeNode, ghost digit: nat)
      requires Valid() && node in nodes && NodeShape(node) && node.height != 0
      requires digit < NUMBER_OF_SUB_NODES && node.SlotIndex(offset) == Some(digit)
      requires node.subNodes[digit] == null
      requires subNode !in nodes && subNode.parent == node && subNode.height + 1 == node.height
      requires subNode.prefix == NUMBER_OF_SUB_NODES * node.prefix + digit
      requires subNode.subNodeSize == SlotSize(leafValueSize, subNode.height)
      requires subNode.startOffset == Times(NUMBER_OF_SUB_NODES * subNode.prefix, subNode.subNodeSize)
      requires subNode.endOffset == subNode.startOffset + NUMBER_OF_SUB_NODES * subNode.subNodeSize <= INT64_MAX
      requires subNode.isLeafNode <==> subNode.height == 0
      requires subNode.subNodes == seq(NUMBER_OF_SUB_NODES, _ => null)
      requires subNode.leafValues == seq(NUMBER_OF_SUB_NODES, _ => None)
      modifies this`nodes, node`subNodes
      ensures Valid() && contents == old(contents)
      ensures nodes == old(nodes) + {subNode}
      ensures node.subNodes == old(node.subNodes)[digit := subNode]
    {
      EmptySlot(node, digit, subNode);
      assert node != root ==> node.height < root.height;
      var ok := node.SetSubNodeAtOffset(offset, subNode);
      nodes := nodes + {subNode};
      forall n | n in old(nodes)
        ensures NodeShape(n)
      {
        assert old(NodeShape(n));
      }
      forall n | n in old(nodes)
        ensures NodeParent(n) && NodeLinks(n)
      {
        assert old(NodeParent(n)) && old(NodeLinks(n));
      }
      forall n | n in old(nodes)
        ensures NodeContents(n)
      {
        assert old(NodeContents(n));
      }
      assert NodeShape(subNode) && NodeParent(subNode) && NodeLinks(subNode);
    }

    /** Creates the missing sub node of a branch on the way to an offset; fails when the sub node
        would reach beyond 63 bits. */
    method CreateSubNode(node: BlockTreeNode, offset: nat) returns (subNode: BlockTreeNode?)
      requires Valid() && node in nodes && NodeShape(node) && node.height != 0 && InRange(offset)
      requires Covers(node, KeyOf(offset, leafValueSize))
      requires node.subNodes[Digit(node, KeyOf(offset, leafValueSize))] == null
      modifies this`nodes, node`subNodes
      ensures Valid() && contents == old(contents)
      ensures var digit := Digit(node, KeyOf(offset, leafValueSize));
        if subNode == null then
          nodes == old(nodes) && node.subNodes == old(node.subNodes)
          && SlotOffset(node, digit) + node.subNodeSize > INT64_MAX
        else
          nodes == old(nodes) + {subNode} && fresh(subNode)
          && node.subNodes == old(node.subNodes)[digit := subNode]
    {
      ghost var key := KeyOf(offset, leafValueSize);
      ghost var digit := Digit(node, key);
      SlotIsDigit(node, offset);
      var subNodeOffset := offset - node.startOffset;
      var subNodeIndex := subNodeOffset / node.subNodeSize;
      subNodeOffset := SlotOffset(node, subNodeIndex);
      SlotStart(node, offset);
      HeightOfSlot(leafValueSize, node.height, 0);
      subNode := BlockTreeNode.Initialize(subNodeOffset, node.subNodeSize, leafValueSize,
                                          NUMBER_OF_SUB_NODES * node.prefix + digit, node);
      if subNode == null {
        return;
      }
      AttachSubNode(node, offset, subNode, digit);
    }

    /** Whether the tree accepts an insert here: the offset can be addressed, and the sub node of the
        root that holds it ends within 63 bits. */
    ghost predicate Insertable(offset: int)
      reads this, nodes
      requires Valid()
    {
      InRange(offset) && Accepts(root.size, leafValueSize, offset)
    }

    lemma RootAccepts(offset: int)
      requires Valid() && InRange(offset) && root.height != 0
      requires Covers(root, KeyOf(offset, leafValueSize))
      requires root.SlotIndex(offset) == Some(Digit(root, KeyOf(offset, leafValueSize)))
      ensures Insertable(offset)
         <==> SlotOffset(root, Digit(root, KeyOf(offset, leafValueSize))) + root.subNodeSize <= INT64_MAX
    {
      assert NodeShape(root);
    }

    /** Stores a descriptor in an empty slot of the leaf that covers the key. */
    method StoreLeafValue(node: BlockTreeNode, offset: nat, descriptor: BlockDescriptor, ghost key: nat)
      requires Valid() && node in nodes && NodeShape(node) && node.height == 0
      requires Covers(node, key) && node.SlotIndex(offset) == Some(Digit(node, key))
      requires PathSet(0, key) && key !in contents
      modifies this`contents, node`leafValues
      ensures Valid() && contents == old(contents)[key := descriptor]
    {
      var ok := node.SetLeafValueAtOffset(offset, descriptor);
      contents := contents[key := descriptor];
      forall n | n in nodes
        ensures NodeShape(n) && NodeContents(n)
      {
        assert old(NodeShape(n)) && old(NodeContents(n));
        assert n.height == 0 && Covers(n, key) ==> SamePlace(n, node);
      }
      forall n | n in nodes
        ensures NodeParent(n) && NodeLinks(n)
      {
        assert old(NodeParent(n)) && old(NodeLinks(n));
      }
    }

    /** The sub node on the way to an offset, created if it is missing. */
    method NextNode(node: BlockTreeNode, offset: nat, ghost key: nat) returns (subNode: BlockTreeNode?)
      requires Valid() && node in nodes && NodeShape(node) && node.height != 0
      requires InRange(offset) && key == KeyOf(offset, leafValueSize)
      requires Covers(node, key) && node.SlotIndex(offset) == Some(Digit(node, key)) && PathSet(node.height, key)
      modifies this`nodes, node`subNodes
      ensures Valid() && contents == old(contents) && fresh(nodes - old(nodes)) && old(nodes) <= nodes
      ensures subNode == null <==> SlotOffset(node, Digit(node, key)) + node.subNodeSize > INT64_MAX
      ensures node != root ==> subNode != null
      ensures subNode != null ==>
                && subNode in nodes && NodeShape(subNode) && subNode != root
                && subNode.height + 1 == node.height
                && Covers(subNode, key) && subNode.SlotIndex(offset) == Some(Digit(subNode, key))
                && PathSet(subNode.height, key)
    {
      SlotStart(node, offset);
      var ok, found := node.GetSubNodeAtOffset(offset);
      subNode := found;
      if subNode == null {
        subNode := CreateSubNode(node, offset);
        if subNode == null {
          return;
        }
      }
      Descend(node, key);
      Descend(subNode, key);
      SlotIsDigit(subNode, offset);
      forall n | n in nodes && subNode.height < n.height && Covers(n, key)
        ensures |n.subNodes| == NUMBER_OF_SUB_NODES && n.subNodes[Digit(n, key)] != null
      {
        assert NodeShape(n);
        if n.height == node.height {
          assert SamePlace(n, node);
        } else {
          assert n in old(nodes);
        }
      }
    }

    /** Inserts a descriptor unless one is set: the map gains exactly one binding, or nothing changes. */
    method InsertBlockDescriptorByOffset(offset: int, descriptor: BlockDescriptor) returns (result: InsertResult)
      requires Valid()
      modifies this, nodes
      ensures Valid() && fresh(nodes - old(nodes))
      ensures result.InsertError? <==> !Insertable(offset)
      ensures result.InsertError? ==> contents == old(contents)
      ensures Insertable(offset) ==>
                var key := KeyOf(offset, leafValueSize);
                if key in old(contents) then
                  result == AlreadySet(old(contents)[key]) && contents == old(contents)
                else
                  result == Inserted(key) && contents == old(contents)[key := descriptor]
    {
      RootCovers(offset);
      ghost var inRange := InRange(offset);
      ghost var insertable := Insertable(offset);
      ghost var key: nat := if inRange then KeyOf(offset, leafValueSize) else 0;
      var node: BlockTreeNode := root;
      forall n | n in nodes
        ensures n.height <= root.height
      {
        assert NodeShape(n);
      }
      assert NodeShape(node);
      if inRange && node.height != 0 {
        RootAccepts(offset);
      }
      while !node.isLeafNode
        invariant Valid() && contents == old(contents)
        invariant fresh(nodes - old(nodes))
        invariant node in nodes && NodeShape(node)
        invariant inRange ==> Covers(node, key) && node.SlotIndex(offset) == Some(Digit(node, key))
        invariant !inRange ==> node.SlotIndex(offset) == None
        invariant node != root ==> insertable
        invariant inRange ==> PathSet(node.height, key)
        invariant inRange && node == root && node.height != 0 ==>
          (insertable <==> SlotOffset(node, Digit(node, key)) + node.subNodeSize <= INT64_MAX)
        decreases node.height
      {
        if node.SlotIndex(offset).None? {
          return InsertError;
        }
        assert inRange;
        var subNode := NextNode(node, offset, key);
        if subNode == null {
          return InsertError;
        }
        node := subNode;
      }
      var ok, value, blockOffset := node.GetLeafValueAtOffset(offset);
      if !ok {
        return InsertError;
      }
      assert inRange;
      Descend(node, key);
      if value.Some? {
        return AlreadySet(value.value);
      }
      StoreLeafValue(node, offset, descriptor, key);
      return Inserted(offset / leafValueSize);
    }
  }
}

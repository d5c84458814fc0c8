/** Values shared by the whole model. */
module Common {

  type byte = x: int | 0 <= x < 256

  datatype Option<+T> = None | Some(value: T)

  /** The four file system formats the library tells apart. */
  datatype Format = Fat12 | Fat16 | Fat32 | ExFat

  /** The part of the I/O handle that the readers use. */
  datatype IoHandle = IoHandle(
    format: Format,
    bytesPerSector: nat,
    clusterBlockSize: nat,
    volumeSize: nat,
    firstClusterOffset: nat,
    rootDirectoryOffset: nat)
  {
    /** What the boot record reader accepts: clusters are whole numbers of 512-byte units and
        the first cluster lies behind the boot record. */
    ghost predicate Valid() {
      && 0 < clusterBlockSize
      && clusterBlockSize % 512 == 0
      && 0 < firstClusterOffset
    }

    /** The sector sizes the boot record reader accepts. */
    predicate SectorSizeOk() {
      bytesPerSector == 512 || bytesPerSector == 1024 || bytesPerSector == 2048 || bytesPerSector == 4096
    }

    /** Cluster numbers from this one on end a chain. */
    function LastClusterNumber(): nat {
      match format
      case Fat12 => 0xff0
      case Fat16 => 0xfff0
      case Fat32 => 0xffffff0
      case ExFat => 0xfffffff0
    }

    function ClusterOffset(cluster: nat): int {
      firstClusterOffset + (cluster - 2) * clusterBlockSize
    }
  }

  function LittleEndian(bytes: seq<byte>): nat {
    if bytes == [] then 0 else (bytes[0] as nat) + 0x100 * LittleEndian(bytes[1..])
  }

  function Min(a: int, b: int): int {
    if a <= b then a else b
  }

  function Max(a: int, b: int): int {
    if a <= b then b else a
  }

  lemma TakeConcat<T>(a: seq<T>, b: seq<T>, n: nat)
    requires n <= |a| + |b|
    ensures n <= |a| ==> (a + b)[..n] == a[..n]
    ensures |a| <= n ==> (a + b)[..n] == a + b[..n - |a|]
  {
  }

  lemma Reassociate<T>(a: seq<T>, b: seq<T>, c: seq<T>)
    ensures a + b + c == a + (b + c)
  {
  }
}

/**
 * The volume report: the byte counts `display_drive_info` derives from a
 * `statvfs` result before it turns them into gigabytes. Block counts and the
 * fragment size are `unsigned long` on an LP64 system, so their product wraps
 * modulo 2^64.
 */
module VolumeReport {
  import opened Options

  const ULONG_MODULUS: nat := 0x1_0000_0000_0000_0000

  /** A 64-bit `unsigned long`. */
  type ULong = x: int | 0 <= x < ULONG_MODULUS

  /** The fields of `struct statvfs` the report reads. */
  datatype StatVfs = StatVfs(fBlocks: ULong, fBfree: ULong, fBavail: ULong, fFrsize: ULong)

  /** Total, free and available bytes of a volume. */
  datatype VolumeBytes = VolumeBytes(total: ULong, free: ULong, available: ULong)

  /** `unsigned long` multiplication. */
  function MulULong(a: ULong, b: ULong): (r: ULong)
    ensures a * b < ULONG_MODULUS ==> r == a * b
    ensures a * b >= ULONG_MODULUS ==> r < a * b
  {
    (a * b) % ULONG_MODULUS
  }

  /** The three products `display_drive_info` prints. */
  function BytesOf(st: StatVfs): VolumeBytes
  {
    VolumeBytes(MulULong(st.fBlocks, st.fFrsize), MulULong(st.fBfree, st.fFrsize), MulULong(st.fBavail, st.fFrsize))
  }

  /** The report for the current path: nothing when `statvfs` fails. */
  function DriveInfo(st: Option<StatVfs>): (r: Option<VolumeBytes>)
    ensures r.Some? <==> st.Some?
    ensures r.Some? ==> r.value.total == MulULong(st.value.fBlocks, st.value.fFrsize)
    ensures r.Some? ==> r.value.free == MulULong(st.value.fBfree, st.value.fFrsize)
    ensures r.Some? ==> r.value.available == MulULong(st.value.fBavail, st.value.fFrsize)
  {
    match st
    case None => None
    case Some(s) => Some(BytesOf(s))
  }

  /** What the operating system promises of a `statvfs` result: the blocks
      available to unprivileged users are among the free ones, which are among
      all blocks. */
  predicate Consistent(st: StatVfs)
  {
    st.fBavail <= st.fBfree <= st.fBlocks
  }

  /** The size of the volume in bytes fits an `unsigned long`. */
  predicate Fits(st: StatVfs)
  {
    st.fBlocks * st.fFrsize < ULONG_MODULUS
  }

  lemma MulMonotone(a: nat, b: nat, c: nat)
    requires a <= b
    ensures a * c <= b * c
  {
  }

  /** Without wrap-around the counts are the exact products, and available
      bytes never exceed free bytes, which never exceed the total. */
  lemma BytesOrdered(st: StatVfs)
    requires Consistent(st) && Fits(st)
    ensures BytesOf(st).total == st.fBlocks * st.fFrsize
    ensures BytesOf(st).free == st.fBfree * st.fFrsize
    ensures BytesOf(st).available == st.fBavail * st.fFrsize
    ensures BytesOf(st).available <= BytesOf(st).free <= BytesOf(st).total
  {
    MulMonotone(st.fBavail, st.fBfree, st.fFrsize);
    MulMonotone(st.fBfree, st.fBlocks, st.fFrsize);
  }

  /** 1000 blocks of 4096 bytes, 400 of them free and 350 available. */
  lemma ReportExample()
    ensures BytesOf(StatVfs(1000, 400, 350, 4096)) == VolumeBytes(4096000, 1638400, 1433600)
  {
  }
}

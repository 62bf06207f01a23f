/** The fixed parts of a table file: header, index region and footer (src/table.cpp:308-366, 398-520). */
module TableFormat {
  import opened Coding
  import opened Configuration
  import opened Keys
  import opened Layout
  import opened Regions
  import opened SparseIndex
  import Bloom

  const TABLE_MAGIC: nat := 0x54534B4D   // "MKST"
  const INDEX_MAGIC: nat := 0x58494B4D   // "MKIX"
  const FOOTER_MAGIC: nat := 0x46534B4D  // "MKSF"
  const TABLE_FORMAT: nat := 3
  const TABLE_HEADER_SIZE: nat := 32
  const TABLE_INDEX_HEADER_SIZE: nat := 20
  const TABLE_FOOTER_SIZE: nat := 104
  const MAXIMUM_INDEX_SIZE: nat := 64 * 1024 * 1024

  const TABLE_HEADER: Widths := [4, 1, 1, 2, 8, 8, 4]
  const INDEX_HEADER: Widths := [4, 4, 4, 4]
  const FOOTER_HEAD: Widths := [4, 1, 1, 2]
  const FOOTER_SUMMARY: Widths := [8, 8, 8, 8, 8]
  const FOOTER_REGIONS: Widths := [8, 8, 8, 8, 8, 8, 4]
  const FOOTER: Widths := FOOTER_HEAD + FOOTER_SUMMARY + FOOTER_REGIONS

  lemma FooterTotal()
    ensures Total(FOOTER) == TABLE_FOOTER_SIZE - 4 && |FOOTER| == 16
  {
    TotalConcat(FOOTER_HEAD, FOOTER_SUMMARY);
    TotalConcat(FOOTER_HEAD + FOOTER_SUMMARY, FOOTER_REGIONS);
  }

  // ----- Header -------------------------------------------------------------------------------

  datatype TableHeader = TableHeader(generation: nat, records: nat, blocks: nat)

  function TableHeaderFields(h: TableHeader): seq<nat> {
    [TABLE_MAGIC, TABLE_FORMAT, 0, TABLE_HEADER_SIZE, h.generation, h.records, h.blocks]
  }

  function HeaderBytes(h: TableHeader): (b: Bytes)
    ensures |b| == TABLE_HEADER_SIZE
  {
    Region(TableHeaderFields(h), TABLE_HEADER, [])
  }

  function ReadHeader(b: Bytes): (h: Option<TableHeader>)
    requires |b| == TABLE_HEADER_SIZE
  {
    var f := Unpack(b, TABLE_HEADER);
    if f[0] != TABLE_MAGIC || f[1] != TABLE_FORMAT || f[3] != TABLE_HEADER_SIZE then None
    else if f[4] == 0 || f[5] == 0 || f[6] == 0 || !Sealed(b, TABLE_HEADER) then None
    else Some(TableHeader(f[4], f[5], f[6]))
  }

  lemma HeaderFits(h: TableHeader)
    requires h.generation <= MAX64 && h.records <= MAX64 && h.blocks <= MAX32
    ensures Fits(TableHeaderFields(h), TABLE_HEADER)
  {
    Capacities();
    assert Capacity(1) == 256;
  }

  lemma HeaderFromFields(h: TableHeader, b: Bytes)
    requires |b| == TABLE_HEADER_SIZE && Unpack(b, TABLE_HEADER) == TableHeaderFields(h) && Sealed(b, TABLE_HEADER)
    requires h.generation != 0 && h.records != 0 && h.blocks != 0
    ensures ReadHeader(b) == Some(h)
  {
    hide Unpack, Sealed;
  }

  lemma ReadHeaderBytes(h: TableHeader)
    requires 0 < h.generation <= MAX64 && 0 < h.records <= MAX64 && 0 < h.blocks <= MAX32
    ensures ReadHeader(HeaderBytes(h)) == Some(h)
  {
    hide Unpack, Sealed, Region, ReadHeader;
    HeaderFits(h);
    RegionParts(TableHeaderFields(h), TABLE_HEADER, []);
    HeaderFromFields(h, HeaderBytes(h));
  }

  // ----- Footer --------------------------------------------------------------------------------

  datatype Footer = Footer(
    fileSize: nat, generation: nat, records: nat, minimumSequence: nat, maximumSequence: nat,
    dataOffset: nat, dataSize: nat, indexOffset: nat, indexSize: nat, bloomOffset: nat, bloomSize: nat, blocks: nat)

  function FooterFields(f: Footer): seq<nat> {
    [FOOTER_MAGIC, TABLE_FORMAT, 0, TABLE_FOOTER_SIZE,
     f.fileSize, f.generation, f.records, f.minimumSequence, f.maximumSequence,
     f.dataOffset, f.dataSize, f.indexOffset, f.indexSize, f.bloomOffset, f.bloomSize, f.blocks]
  }

  function FooterBytes(f: Footer): (b: Bytes)
    ensures |b| == TABLE_FOOTER_SIZE
  {
    FooterTotal();
    Region(FooterFields(f), FOOTER, [])
  }

  /** The footer if it agrees with the header and the file's size. */
  function ReadFooter(b: Bytes, fileSize: nat, h: TableHeader): (f: Option<Footer>)
    requires |b| == TABLE_FOOTER_SIZE
  {
    FooterTotal();
    var v := Unpack(b, FOOTER);
    if v[0] != FOOTER_MAGIC || v[1] != TABLE_FORMAT || v[3] != TABLE_FOOTER_SIZE || !Sealed(b, FOOTER) then None else
    var f := Footer(v[4], v[5], v[6], v[7], v[8], v[9], v[10], v[11], v[12], v[13], v[14], v[15]);
    if FooterAgrees(f, fileSize, h) then Some(f) else None
  }

  predicate FooterAgrees(f: Footer, fileSize: nat, h: TableHeader) {
    && f.fileSize == fileSize && f.generation == h.generation && f.records == h.records && f.blocks == h.blocks
    && 0 < f.minimumSequence <= f.maximumSequence
  }

  predicate FooterInWidth(f: Footer) {
    && f.fileSize <= MAX64 && f.generation <= MAX64 && f.records <= MAX64
    && f.minimumSequence <= MAX64 && f.maximumSequence <= MAX64
    && f.dataOffset <= MAX64 && f.dataSize <= MAX64 && f.indexOffset <= MAX64 && f.indexSize <= MAX64
    && f.bloomOffset <= MAX64 && f.bloomSize <= MAX64 && f.blocks <= MAX32
  }

  lemma FooterFits(f: Footer)
    requires FooterInWidth(f)
    ensures Fits(FooterFields(f), FOOTER)
  {
    Capacities();
    assert Capacity(1) == 256;
    hide Capacity, Total;
    var values := FooterFields(f);
    assert |FOOTER| == 16;
    forall i | 0 <= i < 16 ensures values[i] < Capacity(FOOTER[i]) {
      if i >= 9 {
        assert FOOTER[i] == FOOTER_REGIONS[i - 9];
      } else if i >= 4 {
        assert FOOTER[i] == FOOTER_SUMMARY[i - 4];
      } else {
        assert FOOTER[i] == FOOTER_HEAD[i];
      }
    }
  }

  lemma FooterFromFields(f: Footer, b: Bytes, h: TableHeader)
    requires |b| == Total(FOOTER) + 4 && |b| == TABLE_FOOTER_SIZE
    requires Unpack(b, FOOTER) == FooterFields(f) && Sealed(b, FOOTER)
    requires FooterAgrees(f, f.fileSize, h)
    ensures ReadFooter(b, f.fileSize, h) == Some(f)
  {
    hide Unpack, Sealed, FooterAgrees, Total;
  }

  lemma ReadFooterBytes(f: Footer, h: TableHeader)
    requires FooterInWidth(f) && FooterAgrees(f, f.fileSize, h)
    ensures ReadFooter(FooterBytes(f), f.fileSize, h) == Some(f)
  {
    hide Unpack, Sealed, Region, ReadFooter, FooterAgrees, Total;
    FooterTotal();
    FooterFits(f);
    RegionParts(FooterFields(f), FOOTER, []);
    FooterFromFields(f, FooterBytes(f), h);
  }

  /** The regions follow one another without gaps and end at the footer. */
  predicate RegionsOk(f: Footer, o: Options) {
    && f.dataOffset == TABLE_HEADER_SIZE && f.dataSize != 0
    && TABLE_INDEX_HEADER_SIZE <= f.indexSize <= MAXIMUM_INDEX_SIZE
    && (f.bloomSize != 0 ==> f.bloomSize >= Bloom.HEADER_SIZE)
    && f.bloomSize <= Bloom.HEADER_SIZE + MAXIMUM_BLOOM_FILTER_SIZE
    && f.indexOffset == f.dataOffset + f.dataSize && f.bloomOffset == f.indexOffset + f.indexSize
    && f.fileSize == f.bloomOffset + f.bloomSize + TABLE_FOOTER_SIZE
    && f.indexSize <= TABLE_INDEX_HEADER_SIZE + f.blocks * (ENTRY_FIXED_SIZE + o.maxKeySize)
  }

  // ----- Index region -----------------------------------------------------------------------------

  function IndexFields(payloadSize: nat, count: nat): seq<nat> {
    [INDEX_MAGIC, TABLE_INDEX_HEADER_SIZE + payloadSize, count, payloadSize]
  }

  function IndexBytes(payload: Bytes, count: nat): (b: Bytes)
    ensures |b| == TABLE_INDEX_HEADER_SIZE + |payload|
  {
    Region(IndexFields(|payload|, count), INDEX_HEADER, payload)
  }

  predicate IndexRegionOk(b: Bytes, count: nat)
    requires |b| >= TABLE_INDEX_HEADER_SIZE
  {
    var f := Unpack(b, INDEX_HEADER);
    && f[0] == INDEX_MAGIC && f[1] == |b| && f[2] == count && f[3] == |b| - TABLE_INDEX_HEADER_SIZE
    && Sealed(b, INDEX_HEADER)
  }

  lemma IndexFromFields(b: Bytes, payload: Bytes, count: nat)
    requires |b| == TABLE_INDEX_HEADER_SIZE + |payload| && Sealed(b, INDEX_HEADER)
    requires Unpack(b, INDEX_HEADER) == IndexFields(|payload|, count)
    ensures IndexRegionOk(b, count)
  {
    hide Unpack, Sealed;
  }

  lemma IndexBytesOk(payload: Bytes, count: nat)
    requires TABLE_INDEX_HEADER_SIZE + |payload| <= MAXIMUM_INDEX_SIZE && count <= MAX32
    ensures IndexRegionOk(IndexBytes(payload, count), count)
    ensures IndexBytes(payload, count)[TABLE_INDEX_HEADER_SIZE..] == payload
  {
    hide Unpack, Sealed, Region, IndexRegionOk, Capacity;
    Capacities();
    assert Fits(IndexFields(|payload|, count), INDEX_HEADER);
    RegionParts(IndexFields(|payload|, count), INDEX_HEADER, payload);
    IndexFromFields(IndexBytes(payload, count), payload, count);
  }
}

/** A small disk on which the update cycle may start, so that the theorems about such disks
    speak of something: blocks of 128 bytes, two entries, "abl" and "ablbak". */
module GptExample {
  import opened Bytes
  import opened BootChain
  import opened PentryArray
  import opened Gpt
  import opened GptImage
  import opened GptEngine

  const BLK := 128
  const DISK_SIZE := 896

  /** The checksum that finds everything in order. */
  const DEV := Device(BLK, true, (s: seq<Byte>) => 0)

  /** A header with a table of two entries at the given block. */
  function HeaderByte(i: nat, lba: Byte): Byte {
    if i < |GPT_SIGNATURE| then GPT_SIGNATURE[i]
    else if i == HEADER_SIZE_OFFSET then MIN_HEADER
    else if i == PENTRIES_OFFSET then lba
    else if i == PARTITION_COUNT_OFFSET then 2
    else if i == PENTRY_SIZE_OFFSET then PTN_ENTRY_SIZE
    else 0
  }

  const NAME := "abl"
  const BAK_NAME := "ablbak"

  /** An entry: its name, the high bytes zero. */
  function EntryByte(i: nat, name: string): Byte
    requires forall k :: 0 <= k < |name| ==> name[k] < 128 as char
  {
    if i >= PARTITION_NAME_OFFSET && i % 2 == 0 && (i - PARTITION_NAME_OFFSET) / 2 < |name|
    then name[(i - PARTITION_NAME_OFFSET) / 2] as int
    else 0
  }

  /** Block 1 the primary header, 2 and 3 its entries, 4 and 5 the secondary entries, 6 the
      secondary header. */
  function DiskByte(i: nat): Byte {
    if i < BLK then 0
    else if i < 2 * BLK then HeaderByte(i - BLK, 2)
    else if i < 3 * BLK then EntryByte(i - 2 * BLK, NAME)
    else if i < 4 * BLK then EntryByte(i - 3 * BLK, BAK_NAME)
    else if i < 5 * BLK then EntryByte(i - 4 * BLK, NAME)
    else if i < 6 * BLK then EntryByte(i - 5 * BLK, BAK_NAME)
    else HeaderByte(i - 6 * BLK, 4)
  }

  function Disk(): (d: seq<Byte>)
    ensures |d| == DISK_SIZE && forall i :: 0 <= i < DISK_SIZE ==> d[i] == DiskByte(i)
  {
    seq(DISK_SIZE, i requires 0 <= i < DISK_SIZE => DiskByte(i))
  }

  /** The fields of a header of this form. */
  lemma HeaderFields(h: Header, lba: Byte)
    requires |h| == BLK && forall i :: 0 <= i < BLK ==> h[i] == HeaderByte(i, lba)
    ensures HeaderSize(h) == MIN_HEADER && EntrySize(h) == PTN_ENTRY_SIZE && EntryCount(h) == 2
    ensures EntriesOffset(DEV, h) == lba * BLK && ArraySize(h) == 2 * PTN_ENTRY_SIZE && EntriesCrc(h) == 0
    ensures HeaderState(DEV, h) == GptOk
  {
    assert Get8(h, PENTRIES_OFFSET) == lba;
    assert Times(lba, BLK) == lba * BLK && Times(2, PTN_ENTRY_SIZE) == 2 * PTN_ENTRY_SIZE;
    assert h[..|GPT_SIGNATURE|] == GPT_SIGNATURE;
    assert Get4(h, HEADER_CRC_OFFSET) == 0;
  }

  lemma DiskWellFormed()
    ensures WellFormed(DEV, Disk())
    ensures EntriesOf(DEV, Disk(), Primary) == Disk()[2 * BLK..4 * BLK]
    ensures EntrySize(H1(DEV, Disk())) == PTN_ENTRY_SIZE && EntryCount(H1(DEV, Disk())) == 2
  {
    hide Get4, Get8, Put4, HeaderByte, EntryByte, HeaderState;
    var d := Disk();
    HeaderFields(HeaderOf(DEV, d, Primary), 2);
    HeaderFields(HeaderOf(DEV, d, Secondary), 4);
    assert Times(2, PTN_ENTRY_SIZE) == 2 * PTN_ENTRY_SIZE;
  }

  /** The name of an entry of this form. */
  lemma EntryMatches(e: Entry, name: string)
    requires |e| == PTN_ENTRY_SIZE && name in {NAME, BAK_NAME}
    requires forall i :: 0 <= i < PTN_ENTRY_SIZE ==> e[i] == EntryByte(i, name)
    ensures Matches(NAME, e)
  {
    var n8 := Name8(e);
    forall k | 0 <= k < |name| ensures n8[k] == name[k] as int { }
    assert n8[|name|] == 0;
    assert Agrees(NAME, n8, 3);
    assert Agrees(NAME, n8, 2);
    assert Agrees(NAME, n8, 1);
  }

  /** The starting disk of every theorem can exist, with something to swap. */
  lemma ReadyAndSwappable()
    ensures Ready(DEV, Disk()) && Swappable(DEV, Disk())
  {
    hide Get4, Get8, Put4, HeaderByte, EntryByte, HeaderState, WellFormed, EntriesOf, Times, Split, Matches, FirstMatch;
    var d := Disk();
    DiskWellFormed();
    HeadersGood();
    var a := P(DEV, d);
    assert |a| == 2 * BLK;
    TwoEntries();
    var es := Split(a, BLK, 2);
    SwapBufferSplit(true, a, BLK, 2);
    SwapListExclusive();
    SwapFound(true, PTN_SWAP_LIST, es);
    PairFound(es);
    assert HasPair(true, PTN_SWAP_LIST[1], es);
  }

  lemma HeadersGood()
    ensures Ready(DEV, Disk())
  {
    hide Get4, Get8, Put4, HeaderByte, EntryByte, HeaderState;
    var d := Disk();
    DiskWellFormed();
    HeaderFields(HeaderOf(DEV, d, Primary), 2);
    HeaderFields(HeaderOf(DEV, d, Secondary), 4);
  }

  lemma TwoEntries()
    ensures WellFormed(DEV, Disk()) && |P(DEV, Disk())| == Times(2, BLK)
    ensures var es := Split(P(DEV, Disk()), BLK, 2); Matches(NAME, es[0]) && Matches(NAME, es[1])
  {
    hide Get4, Get8, Put4, HeaderByte, EntryByte, HeaderState, WellFormed, EntriesOf, Split, Matches;
    DiskWellFormed();
    var a := P(DEV, Disk());
    SplitAt(a, BLK, 2, 0);
    SplitAt(a, BLK, 2, 1);
    EntryMatches(a[..BLK], NAME);
    var e := a[BLK..2 * BLK];
    forall i | 0 <= i < PTN_ENTRY_SIZE ensures e[i] == EntryByte(i, BAK_NAME) {
      assert e[i] == a[BLK + i] == Disk()[3 * BLK + i];
    }
    EntryMatches(e, BAK_NAME);
  }

  lemma PairFound(es: seq<Entry>)
    requires |es| == 2 && Matches(NAME, es[0]) && Matches(NAME, es[1])
    ensures HasPair(true, NAME, es)
  {
    hide Matches;
    assert FirstMatch(NAME, es, 0) == 0;
    assert FirstMatch(NAME, es, 1) == 1;
    assert NAME[0] != PTN_XBL[0];
  }
}

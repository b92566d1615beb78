/** The gpt_disk API: load the primary copy into memory, edit it, refresh the checksums,
    commit. The "backup" buffers of the structure are copies of the primary, as in the code. */
module GptDisk {
  import opened Bytes
  import opened BootChain
  import opened PentryArray
  import opened Gpt
  import opened GptForms
  import opened GptImage
  import opened GptDevice

  /** The writes of gpt_disk_commit: the primary header, then the primary entries. */
  function CommitPlan(dev: Device, h: Header, entries: seq<Byte>): Plan {
    Plan(0, [Write(dev.blk, h, true), Write(EntriesOffset(dev, h), entries, false)])
  }

  /** A header given a fresh entries checksum: layout kept, checksums right, signature as it was. */
  lemma RefreshedHeader(dev: Device, h: Header, crc: U32)
    requires Fits(h)
    ensures var r := WithEntriesCrc(dev, h, crc);
            && SameLayout(dev, r, h) && EntriesCrc(r) == crc
            && HeaderState(dev, r) == (if GoodSignature(h) then GptOk else BadSignature)
    ensures HeaderState(dev, h) != BadCrc && crc == EntriesCrc(h) ==> WithEntriesCrc(dev, h, crc) == h
  {
    hide Times;
    var b := Put4(h, PARTITION_CRC_OFFSET, crc);
    var r := Seal(dev, b);
    GetAfterPut(h, PARTITION_CRC_OFFSET, crc);
    assert HeaderSize(b) == HeaderSize(h);
    SealCleared(dev, b, b);
    GetAfterPut(b, HEADER_CRC_OFFSET, HeaderCrc(dev, b));
    assert HeaderSize(r) == HeaderSize(b);
    assert r[..|GPT_SIGNATURE|] == h[..|GPT_SIGNATURE|];
    PutOfGet(h, PARTITION_CRC_OFFSET);
    PutOfGet(h, HEADER_CRC_OFFSET);
  }

  /** The disk after an edit of the primary entries was committed. */
  function Committed(dev: Device, d: seq<Byte>, entries: seq<Byte>): (r: seq<Byte>)
    requires WellFormed(dev, d) && |entries| == ArraySize(HeaderOf(dev, d, Primary))
    ensures |r| == |d|
  {
    var h := HeaderOf(dev, d, Primary);
    Store(Store(d, dev.blk, WithEntriesCrc(dev, h, dev.crc(entries))), EntriesOffset(dev, h), entries)
  }

  /** It is what the writes of gpt_disk_commit leave, with the header that gpt_disk_update_crc made. */
  lemma CommitRuns(dev: Device, d: seq<Byte>, entries: seq<Byte>)
    requires WellFormed(dev, d) && |entries| == ArraySize(HeaderOf(dev, d, Primary))
    ensures var h := WithEntriesCrc(dev, HeaderOf(dev, d, Primary), dev.crc(entries));
            var ws := CommitPlan(dev, h, entries).writes;
            Inside(d, ws) && Run(d, ws) == Committed(dev, d, entries)
  {
    hide Times, Get4, Get8, Put4, EntriesOffset, ArraySize, Store, WithEntriesCrc, HeaderState;
    var h0 := HeaderOf(dev, d, Primary);
    PrimaryBounds(dev, d);
    RefreshedHeader(dev, h0, dev.crc(entries));
    var h := WithEntriesCrc(dev, h0, dev.crc(entries));
    RunTwo(d, Write(dev.blk, h, true), Write(EntriesOffset(dev, h0), entries, false));
  }

  /** A stretch of the disk apart from the primary header and the primary entries. */
  predicate Untouched(dev: Device, d: seq<Byte>, o: nat, len: nat)
    requires WellFormed(dev, d)
  {
    && o + len <= |d| && Apart(dev.blk, dev.blk, o, len)
    && Apart(EntriesOffset(dev, HeaderOf(dev, d, Primary)), ArraySize(HeaderOf(dev, d, Primary)), o, len)
  }

  lemma CommittedElsewhere(dev: Device, d: seq<Byte>, h: Header, entries: seq<Byte>, o: nat, len: nat)
    requires WellFormed(dev, d) && |entries| == ArraySize(HeaderOf(dev, d, Primary)) && |h| == dev.blk
    requires Untouched(dev, d, o, len)
    ensures var off := EntriesOffset(dev, HeaderOf(dev, d, Primary));
            var d1 := Store(d, dev.blk, h);
            && d1[o..o + len] == d[o..o + len]
            && Store(d1, off, entries)[o..o + len] == d[o..o + len]
  {
    hide Times, Get4, Get8, Put4, EntriesOffset, ArraySize;
    StoreElsewhere(d, dev.blk, h, o, len);
    StoreElsewhere(Store(d, dev.blk, h), EntriesOffset(dev, HeaderOf(dev, d, Primary)), entries, o, len);
  }

  /** Both headers after a disk was changed only in the primary header and primary entries. */
  lemma CommitHeaders(dev: Device, d: seq<Byte>, h: Header, entries: seq<Byte>)
    requires WellFormed(dev, d) && |entries| == ArraySize(HeaderOf(dev, d, Primary))
    requires |h| == dev.blk && SameLayout(dev, h, HeaderOf(dev, d, Primary))
    ensures var r := Store(Store(d, dev.blk, h), EntriesOffset(dev, HeaderOf(dev, d, Primary)), entries);
            && WellFormed(dev, r)
            && HeaderOf(dev, r, Primary) == h
            && HeaderOf(dev, r, Secondary) == HeaderOf(dev, d, Secondary)
            && EntriesOf(dev, r, Primary) == entries
            && EntriesOf(dev, r, Secondary) == EntriesOf(dev, d, Secondary)
  {
    hide Times, Get4, Get8, Put4, EntriesOffset, ArraySize, Store;
    var off := EntriesOffset(dev, HeaderOf(dev, d, Primary));
    var d1 := Store(d, dev.blk, h);
    var r := Store(d1, off, entries);
    StoreHeader(dev, d, Primary, h);
    StoreArray(dev, d1, off, entries);
    StoreSame(d1, off, entries);
    SizeOfLayout(dev, h, HeaderOf(dev, d, Primary));
    LayoutSelf(dev, d, r);
    LayoutDecides(dev, d, r);
    CommittedElsewhere(dev, d, h, entries, EntriesOffset(dev, HeaderOf(dev, d, Secondary)), |entries|);
  }

  lemma SizeOfLayout(dev: Device, g: Header, h: Header)
    requires SameLayout(dev, g, h)
    ensures ArraySize(g) == ArraySize(h)
  {
    hide Times;
  }

  lemma LayoutSelf(dev: Device, d: seq<Byte>, r: seq<Byte>)
    requires WellFormed(dev, d) && |r| == |d| && HasHeaders(dev, r)
    requires SameLayout(dev, HeaderOf(dev, r, Primary), HeaderOf(dev, d, Primary))
    requires HeaderOf(dev, r, Secondary) == HeaderOf(dev, d, Secondary)
    ensures forall i: Instance :: SameLayout(dev, HeaderOf(dev, r, i), HeaderOf(dev, d, i))
  {
    hide Times, Get4, Get8, Put4;
    assert Fits(HeaderOf(dev, d, Secondary));
    forall i: Instance ensures SameLayout(dev, HeaderOf(dev, r, i), HeaderOf(dev, d, i)) {
      assert i == Primary || i == Secondary;
    }
  }

  /** Edit and commit: the primary copy passes both checks with the edited entries (the header
      check up to the signature, which no step touches), the secondary copy is what it was, and
      committing without an edit on a valid primary copy changes nothing at all. */
  lemma EditAndCommit(dev: Device, d: seq<Byte>, entries: seq<Byte>)
    requires WellFormed(dev, d) && |entries| == ArraySize(HeaderOf(dev, d, Primary))
    ensures var r := Committed(dev, d, entries);
            && WellFormed(dev, r)
            && EntriesOf(dev, r, Primary) == entries
            && EntriesCrc(HeaderOf(dev, r, Primary)) == dev.crc(entries)
            && HeaderState(dev, HeaderOf(dev, r, Primary)) ==
                 (if GoodSignature(HeaderOf(dev, d, Primary)) then GptOk else BadSignature)
            && HeaderOf(dev, r, Secondary) == HeaderOf(dev, d, Secondary)
            && EntriesOf(dev, r, Secondary) == EntriesOf(dev, d, Secondary)
    ensures Usable(dev, d, Primary) && entries == EntriesOf(dev, d, Primary) ==> Committed(dev, d, entries) == d
  {
    hide Times, Get4, Get8, Put4, EntriesOffset, ArraySize, Store, WithEntriesCrc, HeaderState;
    var h := HeaderOf(dev, d, Primary);
    RefreshedHeader(dev, h, dev.crc(entries));
    CommitHeaders(dev, d, WithEntriesCrc(dev, h, dev.crc(entries)), entries);
    if Usable(dev, d, Primary) && entries == EntriesOf(dev, d, Primary) {
      StoreRead(d, dev.blk, dev.blk);
      StoreRead(d, EntriesOffset(dev, h), |entries|);
    }
  }

  /** Wherever a commit is cut short, the secondary copy is untouched, so if it was usable it
      still is, and some table stays in force: the primary entries as they are if their checksum
      is that of the edit and the primary signature is good, else the secondary ones. */
  lemma CommitCrash(dev: Device, d: seq<Byte>, entries: seq<Byte>, d': seq<Byte>)
    requires WellFormed(dev, d) && |entries| == ArraySize(HeaderOf(dev, d, Primary))
    requires var p := CommitPlan(dev, WithEntriesCrc(dev, HeaderOf(dev, d, Primary), dev.crc(entries)), entries);
             Inside(d, p.writes) && Crash(d, p.writes, d')
    ensures WellFormed(dev, d')
    ensures HeaderOf(dev, d', Secondary) == HeaderOf(dev, d, Secondary)
    ensures EntriesOf(dev, d', Secondary) == EntriesOf(dev, d, Secondary)
    ensures Usable(dev, d, Secondary) ==> InForce(dev, d') != NoTable
    ensures Usable(dev, d, Secondary) && d' != d ==>
              InForce(dev, d') ==
              if GoodSignature(HeaderOf(dev, d, Primary)) && dev.crc(EntriesOf(dev, d', Primary)) == dev.crc(entries)
              then Table(EntriesOf(dev, d', Primary)) else Table(EntriesOf(dev, d, Secondary))
  {
    hide Times, Get4, Get8, Put4, EntriesOffset, ArraySize, Store, WithEntriesCrc, HeaderState, WellFormed;
    BothFit(dev, d);
    var h0 := HeaderOf(dev, d, Primary);
    var h := WithEntriesCrc(dev, h0, dev.crc(entries));
    RefreshedHeader(dev, h0, dev.crc(entries));
    var junk := CommitCut(dev, d, h, entries, d');
    if d' != d {
      CommitHeaders(dev, d, h, junk);
    }
  }

  /** Cut short after the first write, the entries region holds some bytes or other. */
  lemma CommitCut(dev: Device, d: seq<Byte>, h: Header, entries: seq<Byte>, d': seq<Byte>) returns (junk: seq<Byte>)
    requires WellFormed(dev, d) && |entries| == ArraySize(HeaderOf(dev, d, Primary))
    requires |h| == dev.blk && SameLayout(dev, h, HeaderOf(dev, d, Primary))
    requires Inside(d, CommitPlan(dev, h, entries).writes) && Crash(d, CommitPlan(dev, h, entries).writes, d')
    ensures |junk| == |entries|
    ensures d' == d || d' == Store(Store(d, dev.blk, h), EntriesOffset(dev, HeaderOf(dev, d, Primary)), junk)
  {
    hide Times, Get4, Get8, Put4, EntriesOffset, ArraySize, Store;
    var ws := CommitPlan(dev, h, entries).writes;
    var off := EntriesOffset(dev, HeaderOf(dev, d, Primary));
    var d1 := Store(d, dev.blk, h);
    var rest := ws[1..];
    assert rest == [ws[1]] && rest[0] == ws[1] && rest[1..] == [];
    junk := entries;
    if d' != d {
      assert Crash(d1, rest, d');
      junk := CutArray(d1, ws[1], d');
    }
  }

  /** A single entries write, cut short or not, leaves some bytes or other in its region. */
  lemma CutArray(d: seq<Byte>, w: Write, d': seq<Byte>) returns (junk: seq<Byte>)
    requires !w.block && w.off + |w.data| <= |d| && Crash(d, [w], d')
    ensures |junk| == |w.data| && d' == Store(d, w.off, junk)
  {
    hide Store;
    var ws := [w];
    assert ws[0] == w && ws[1..] == [];
    if Torn(d, w, d') {
      if d' == d {
        junk := d[w.off..w.off + |w.data|];
        StoreRead(d, w.off, |w.data|);
      } else {
        junk :| |junk| == |w.data| && d' == Store(d, w.off, junk);
      }
    } else {
      junk := w.data;
    }
  }

  lemma PrimaryFits(dev: Device, d: seq<Byte>)
    requires WellFormed(dev, d)
    ensures HasHeaders(dev, d)
    ensures Fits(HeaderOf(dev, d, Primary))
    ensures HeaderSize(HeaderOf(dev, d, Primary)) <= |HeaderOf(dev, d, Primary)|
  {
    hide Get4, Get8, Put4, Times;
  }

  /** Where the primary copy lies. */
  lemma PrimaryBounds(dev: Device, d: seq<Byte>)
    requires WellFormed(dev, d)
    ensures HasHeaders(dev, d)
    ensures var h := HeaderOf(dev, d, Primary);
            && h == d[dev.blk..dev.blk + dev.blk] && Fits(h)
            && EntriesOffset(dev, h) + ArraySize(h) <= |d|
            && EntriesOf(dev, d, Primary) == d[EntriesOffset(dev, h)..EntriesOffset(dev, h) + ArraySize(h)]
  {
    hide Get4, Get8, Put4, Times;
  }

  const GPT_DISK_INIT_MAGIC := 0xABCD

  /** gpt_get_header for the primary copy. */
  method GetHeader(bd: BlockDevice) returns (r: int, hdr: array<Byte>)
    requires HasHeaders(bd.dev, bd.Contents())
    ensures fresh(hdr) && (r == 0 || r == -1)
    ensures r == 0 ==> hdr[..] == HeaderOf(bd.dev, bd.Contents(), Primary)
    ensures bd.reliable ==> r == 0
  {
    hdr := new Byte[bd.dev.blk];
    r := bd.BlkRead(bd.dev.blk, hdr);
  }

  /** gpt_get_pentry_arr with the primary header. */
  method GetPentryArr(bd: BlockDevice, hdr: array<Byte>) returns (r: int, arr: array<Byte>)
    requires WellFormed(bd.dev, bd.Contents()) && hdr[..] == HeaderOf(bd.dev, bd.Contents(), Primary)
    ensures fresh(arr) && (r == 0 || r == -1)
    ensures r == 0 ==> arr[..] == EntriesOf(bd.dev, bd.Contents(), Primary)
    ensures bd.reliable ==> r == 0
  {
    hide Get4, Get8, Put4, Times, WellFormed;
    PrimaryBounds(bd.dev, bd.Contents());
    arr := new Byte[ArraySize(hdr[..])];
    r := bd.BlkRead(EntriesOffset(bd.dev, hdr[..]), arr);
  }

  predicate Different(h: array<Byte>, b: array<Byte>, p: array<Byte>, q: array<Byte>) {
    h != b && h != p && h != q && b != p && b != q && p != q
  }

  lemma AreDifferent(h: array<Byte>, b: array<Byte>, p: array<Byte>, q: array<Byte>)
    requires Different(h, b, p, q)
    ensures h != b && h != p && h != q && b != p && b != q && p != q
  {
  }

  /** The reads of gpt_disk_get_disk_info: both "copies" come from the primary. */
  method ReadPrimaryTwice(bd: BlockDevice)
      returns (r: int, h: array<Byte>, b: array<Byte>, p: array<Byte>, q: array<Byte>)
    requires WellFormed(bd.dev, bd.Contents())
    ensures r == 0 || r == -1
    ensures bd.reliable ==> r == 0
    ensures fresh(h) && fresh(b) && fresh(p) && fresh(q)
    ensures Different(h, b, p, q)
    ensures r == 0 ==>
              && h[..] == HeaderOf(bd.dev, bd.Contents(), Primary) && b[..] == h[..]
              && p[..] == EntriesOf(bd.dev, bd.Contents(), Primary) && q[..] == p[..]
              && h.Length == b.Length == bd.dev.blk && h.Length >= MIN_HEADER
              && Fits(h[..]) && HeaderSize(h[..]) <= h.Length
              && p.Length == q.Length == ArraySize(h[..])
  {
    hide Get4, Get8, Put4, Times, WellFormed, EntriesOf, HeaderOf, HeaderSize, ArraySize, Fits;
    PrimaryFits(bd.dev, bd.Contents());
    r, h := GetHeader(bd);
    b, p, q := h, h, h;
    if r == 0 {
      r, b := GetHeader(bd);
    } else {
      b := new Byte[0];
    }
    if r == 0 {
      r, p := GetPentryArr(bd, h);
    } else {
      p := new Byte[0];
    }
    if r == 0 {
      r, q := GetPentryArr(bd, b);
    } else {
      q := new Byte[0];
    }
  }

  /** struct gpt_disk. Buffers of length 0 stand for the null pointers of gpt_disk_alloc. */
  class GptDiskInfo {
    var hdr: array<Byte>
    var hdrCrc: U32
    var hdrBak: array<Byte>
    var hdrBakCrc: U32
    var pentryArr: array<Byte>
    var pentryArrBak: array<Byte>
    var pentryArrSize: nat
    var pentrySize: nat
    var pentryArrCrc: U32
    var pentryArrBakCrc: U32
    var isInitialized: int

    constructor ()
      ensures isInitialized == 0
      ensures fresh(hdr) && fresh(hdrBak) && fresh(pentryArr) && fresh(pentryArrBak)
    {
      hdr, hdrBak, pentryArr, pentryArrBak := new Byte[0], new Byte[0], new Byte[0], new Byte[0];
      hdrCrc, hdrBakCrc, pentryArrCrc, pentryArrBakCrc := 0, 0, 0, 0;
      pentryArrSize, pentrySize := 0, 0;
      isInitialized := 0;
    }

    /** Once initialized: four different buffers, two header blocks and two arrays of the recorded size. */
    ghost predicate Loaded()
      reads this, hdr, hdrBak
    {
      && isInitialized == GPT_DISK_INIT_MAGIC
      && Different(hdr, hdrBak, pentryArr, pentryArrBak)
      && hdr.Length >= MIN_HEADER && hdrBak.Length == hdr.Length
      && Fits(hdr[..]) && HeaderSize(hdrBak[..]) == HeaderSize(hdr[..])
      && pentryArr.Length == pentryArrSize && pentryArrBak.Length == pentryArrSize
    }

    /** The fields filled in from the buffers read: header g and its copy, the entries and their copy. */
    method Fill(dev: Device, h: array<Byte>, b: array<Byte>, p: array<Byte>, q: array<Byte>, ghost g: Header)
      requires Different(h, b, p, q)
      requires h[..] == g && b[..] == g && Fits(g) && HeaderSize(g) <= |g|
      requires p.Length == q.Length == ArraySize(g)
      modifies this
      ensures Loaded() && hdr == h && hdrBak == b && pentryArr == p && pentryArrBak == q
      ensures hdrCrc == hdrBakCrc == dev.crc(g[..HeaderSize(g)])
      ensures pentrySize == EntrySize(g) && pentryArrSize == ArraySize(g)
      ensures pentryArrCrc == pentryArrBakCrc == EntriesCrc(g)
    {
      hide Different, Get4, Get8, Put4, Times, HeaderSize, ArraySize, EntrySize, EntriesCrc, Fits;
      var header, backup: Header := h[..], b[..];
      var size := HeaderSize(header);
      hdr, hdrBak, pentryArr, pentryArrBak := h, b, p, q;
      hdrCrc, hdrBakCrc := dev.crc(header[..size]), dev.crc(backup[..size]);
      pentrySize, pentryArrSize := EntrySize(header), ArraySize(header);
      pentryArrCrc, pentryArrBakCrc := EntriesCrc(header), EntriesCrc(backup);
      isInitialized := GPT_DISK_INIT_MAGIC;
    }

    /** Everything comes from the primary copy of the disk, the "backup" buffers too. */
    ghost predicate LoadedFrom(dev: Device, d: seq<Byte>)
      requires WellFormed(dev, d)
      reads this, hdr, hdrBak, pentryArr, pentryArrBak
    {
      var h := HeaderOf(dev, d, Primary);
      && Loaded() && hdr[..] == h && hdrBak[..] == h
      && pentryArr[..] == EntriesOf(dev, d, Primary) && pentryArrBak[..] == EntriesOf(dev, d, Primary)
      && hdrCrc == hdrBakCrc == dev.crc(h[..HeaderSize(h)])
      && pentrySize == EntrySize(h) && pentryArrSize == ArraySize(h)
      && pentryArrCrc == pentryArrBakCrc == EntriesCrc(h)
    }

    /** gpt_disk_get_disk_info on the device holding the named partition: 0 and everything
        loaded from the primary copy, or -1 when a read fails. */
    method GetDiskInfo(bd: BlockDevice) returns (r: int)
      requires WellFormed(bd.dev, bd.Contents())
      modifies this
      ensures r == 0 || (r == -1 && isInitialized == old(isInitialized))
      ensures bd.reliable ==> r == 0
      ensures r == 0 ==> fresh(hdr) && fresh(hdrBak) && fresh(pentryArr) && fresh(pentryArrBak)
      ensures r == 0 ==> LoadedFrom(bd.dev, bd.Contents())
    {
      hide Get4, Get8, Put4, Times, WellFormed, EntriesOf, HeaderOf, HeaderSize, ArraySize, EntrySize, EntriesCrc,
           Fits, HasHeaders, Loaded;
      var h, b, p, q;
      r, h, b, p, q := ReadPrimaryTwice(bd);
      if r != 0 {
        return;
      }
      PrimaryFits(bd.dev, bd.Contents());
      ghost var g := HeaderOf(bd.dev, bd.Contents(), Primary);
      Fill(bd.dev, h, b, p, q, g);
    }

    /** gpt_disk_get_pentry: where the named entry starts in the chosen buffer, -1 for NULL. */
    method GetPentry(partname: string, instance: Instance, ghost n: nat) returns (at: int)
      requires isInitialized == GPT_DISK_INIT_MAGIC ==>
                 && Loaded() && pentrySize >= PTN_ENTRY_SIZE && pentryArrSize == Times(n, pentrySize)
                 && var a := if instance == Primary then pentryArr else pentryArrBak;
                 ReadsInside(partname, Split(a[..], pentrySize, n), 0)
      ensures isInitialized != GPT_DISK_INIT_MAGIC ==> at == -1
      ensures isInitialized == GPT_DISK_INIT_MAGIC ==>
                var a := if instance == Primary then pentryArr else pentryArrBak;
                var k := FirstMatch(partname, Split(a[..], pentrySize, n), 0);
                at == if k == -1 then -1 else Times(k, pentrySize)
    {
      if isInitialized != GPT_DISK_INIT_MAGIC {
        return -1;
      }
      var ptnArr := if instance == Primary then pentryArr else pentryArrBak;
      TimesZero(pentrySize);
      at := PentrySeek(partname, ptnArr, 0, pentrySize, 0, n);
    }

    /** Both headers refreshed, from h and b, with the checksums of the entries buffers. */
    ghost predicate Updated(dev: Device, h: Header, b: Header)
      reads this, hdr, hdrBak, pentryArr, pentryArrBak
    {
      && Loaded() && Fits(h) && Fits(b)
      && hdr[..] == WithEntriesCrc(dev, h, dev.crc(pentryArr[..]))
      && hdrBak[..] == WithEntriesCrc(dev, b, dev.crc(pentryArrBak[..]))
      && pentryArrCrc == dev.crc(pentryArr[..]) && pentryArrBakCrc == dev.crc(pentryArrBak[..])
      && hdrCrc == Get4(hdr[..], HEADER_CRC_OFFSET) && hdrBakCrc == Get4(hdrBak[..], HEADER_CRC_OFFSET)
    }

    /** gpt_disk_update_crc: both headers get the checksum of their own array and are resealed. */
    method UpdateCrc(dev: Device) returns (r: int)
      requires isInitialized == GPT_DISK_INIT_MAGIC ==> Loaded()
      modifies this`hdrCrc, this`hdrBakCrc, this`pentryArrCrc, this`pentryArrBakCrc, hdr, hdrBak
      ensures r == if isInitialized == GPT_DISK_INIT_MAGIC then 0 else -1
      ensures r == -1 ==>
                && hdr[..] == old(hdr[..]) && hdrBak[..] == old(hdrBak[..])
                && hdrCrc == old(hdrCrc) && hdrBakCrc == old(hdrBakCrc)
                && pentryArrCrc == old(pentryArrCrc) && pentryArrBakCrc == old(pentryArrBakCrc)
      ensures r == 0 ==> old(Loaded()) && Updated(dev, old(hdr[..]), old(hdrBak[..]))
    {
      if isInitialized != GPT_DISK_INIT_MAGIC {
        return -1;
      }
      hide Updated;
      UpdateLoaded(dev);
      r := 0;
    }

    /** The same once initialized. */
    method UpdateLoaded(dev: Device)
      requires Loaded()
      modifies this`hdrCrc, this`hdrBakCrc, this`pentryArrCrc, this`pentryArrBakCrc, hdr, hdrBak
      ensures Updated(dev, old(hdr[..]), old(hdrBak[..]))
    {
      hide Different, Get4, Put4, Seal, WithEntriesCrc, HeaderSize;
      AreDifferent(hdr, hdrBak, pentryArr, pentryArrBak);
      var crc, bakCrc := dev.crc(pentryArr[..]), dev.crc(pentryArrBak[..]);
      var h, b := RefreshBoth(dev, hdr, hdrBak, crc, bakCrc);
      pentryArrCrc, pentryArrBakCrc, hdrCrc, hdrBakCrc := crc, bakCrc, h, b;
    }
  }

  /** Both headers, over the header size of the first. */
  method RefreshBoth(dev: Device, hdr: array<Byte>, bak: array<Byte>, crc: U32, bakCrc: U32) returns (h: U32, b: U32)
    requires hdr != bak && hdr.Length >= MIN_HEADER && bak.Length == hdr.Length
    requires Fits(hdr[..]) && HeaderSize(bak[..]) == HeaderSize(hdr[..])
    modifies hdr, bak
    ensures hdr[..] == WithEntriesCrc(dev, old(hdr[..]), crc) && bak[..] == WithEntriesCrc(dev, old(bak[..]), bakCrc)
    ensures HeaderSize(hdr[..]) == old(HeaderSize(hdr[..])) == HeaderSize(bak[..]) && Fits(hdr[..])
    ensures h == Get4(hdr[..], HEADER_CRC_OFFSET) && b == Get4(bak[..], HEADER_CRC_OFFSET)
  {
    hide Get4, Put4, Seal, WithEntriesCrc, HeaderSize;
    var size := HeaderSize(hdr[..]);
    h := Refresh(dev, hdr, size, crc);
    ghost var done := hdr[..];
    b := Refresh(dev, bak, size, bakCrc);
    assert hdr[..] == done;
  }

  /** One header: the new entries checksum, then the header checksum over the given size. */
  method Refresh(dev: Device, a: array<Byte>, size: nat, arrCrc: U32) returns (crc: U32)
    requires a.Length >= MIN_HEADER && Fits(a[..]) && size == HeaderSize(a[..])
    modifies a
    ensures a[..] == WithEntriesCrc(dev, old(a[..]), arrCrc)
    ensures HeaderSize(a[..]) == size && Fits(a[..]) && crc == Get4(a[..], HEADER_CRC_OFFSET)
  {
    hide Get4, Put4, Seal;
    ghost var h: Header := a[..];
    CrcFits(h, arrCrc);
    PutInto(a, PARTITION_CRC_OFFSET, arrCrc);
    ghost var b: Header := a[..];
    CrcKeepsSize(h, arrCrc);
    SealKeepsSize(dev, b);
    crc := Reseal(dev, a, size);
  }

  lemma CrcKeepsSize(h: Header, crc: U32)
    ensures HeaderSize(Put4(h, PARTITION_CRC_OFFSET, crc)) == HeaderSize(h)
  {
  }

  /** The header checksum of one buffer, recomputed in place over the given size. */
  method Reseal(dev: Device, a: array<Byte>, size: nat) returns (crc: U32)
    requires a.Length >= MIN_HEADER && Fits(a[..]) && size == HeaderSize(a[..])
    modifies a
    ensures a[..] == Seal(dev, old(a[..])) && crc == Get4(a[..], HEADER_CRC_OFFSET)
  {
    hide Get4, Put4;
    ghost var h: Header := a[..];
    PutInto(a, HEADER_CRC_OFFSET, 0);
    assert a[..size] == a[..][..size];
    crc := dev.crc(a[..size]);
    PutInto(a, HEADER_CRC_OFFSET, crc);
    PutPut(h, HEADER_CRC_OFFSET, 0, crc);
    GetAfterPut(h, HEADER_CRC_OFFSET, crc);
  }

  lemma SealKeepsSize(dev: Device, h: Header)
    requires Fits(h)
    ensures HeaderSize(Seal(dev, h)) == HeaderSize(h)
  {
  }

  lemma TornNone(d: seq<Byte>, w: Write)
    requires w.off + |w.data| <= |d|
    ensures Torn(d, w, d)
  {
  }

  /** gpt_disk_commit. */
  method Commit(disk: GptDiskInfo, bd: BlockDevice, openOk: bool) returns (r: int)
    requires disk.isInitialized == GPT_DISK_INIT_MAGIC ==> disk.Loaded()
    requires disk.hdr != bd.bytes && disk.pentryArr != bd.bytes
    requires bd.dev.blk > 0 && 2 * bd.dev.blk <= bd.bytes.Length
    requires disk.isInitialized == GPT_DISK_INIT_MAGIC ==>
               && disk.hdr.Length == bd.dev.blk && disk.pentryArrSize == ArraySize(disk.hdr[..])
               && EntriesOffset(bd.dev, disk.hdr[..]) + disk.pentryArrSize <= bd.bytes.Length
    modifies bd.bytes
    ensures disk.isInitialized != GPT_DISK_INIT_MAGIC ==> r == -1 && bd.Contents() == old(bd.Contents())
    ensures disk.isInitialized == GPT_DISK_INIT_MAGIC ==>
              var p := CommitPlan(bd.dev, disk.hdr[..], disk.pentryArr[..]);
              Inside(old(bd.Contents()), p.writes) && Outcome(old(bd.Contents()), p, r, bd.Contents())
    ensures !openOk ==> r == -1 && bd.Contents() == old(bd.Contents())
    ensures disk.isInitialized == GPT_DISK_INIT_MAGIC && bd.reliable && openOk ==> r == 0
  {
    hide Get4, Get8, Put4, Times, Store, Torn;
    if disk.isInitialized != GPT_DISK_INIT_MAGIC {
      return -1;
    }
    ghost var d := bd.Contents();
    ghost var v := Write(bd.dev.blk, disk.hdr[..], true);
    ghost var w := Write(EntriesOffset(bd.dev, disk.hdr[..]), disk.pentryArr[..], false);
    if !openOk {
      TornNone(d, v);
      TwoWrites(d, v, w, true, -1, d);
      return -1;
    }
    r := bd.BlkWrite(bd.dev.blk, disk.hdr, true);
    if r != 0 {
      TwoWrites(d, v, w, true, r, bd.Contents());
      return;
    }
    r := bd.BlkWrite(EntriesOffset(bd.dev, disk.hdr[..]), disk.pentryArr, false);
    TwoWrites(d, v, w, false, r, bd.Contents());
  }

  /** The whole use of the API: load, replace the primary entries, update_crc, commit. On success
      the disk is the one EditAndCommit speaks of; otherwise nothing was written, or a commit of
      it was cut short, of which CommitCrash speaks. */
  method EditPrimary(disk: GptDiskInfo, bd: BlockDevice, edit: seq<Byte>, openOk: bool) returns (r: int)
    requires WellFormed(bd.dev, bd.Contents()) && |edit| == ArraySize(HeaderOf(bd.dev, bd.Contents(), Primary))
    modifies disk, bd.bytes
    ensures r == 0 || r == -1
    ensures bd.reliable && openOk ==> r == 0
    ensures !openOk ==> r == -1 && bd.Contents() == old(bd.Contents())
    ensures r == 0 ==> bd.Contents() == Committed(bd.dev, old(bd.Contents()), edit)
    ensures var d := old(bd.Contents());
            r == -1 ==> bd.Contents() == d || CommitCutShort(bd.dev, d, edit, bd.Contents())
  {
    hide Get4, Get8, Put4, Times, WellFormed, HeaderOf, EntriesOf, EntriesOffset, ArraySize, HeaderSize, EntrySize,
         EntriesCrc, WithEntriesCrc, Crash, Run, Committed, Fits;
    ghost var d := bd.Contents();
    r := disk.GetDiskInfo(bd);
    if r != 0 {
      return;
    }
    LoadedBounds(bd.dev, d, edit);
    var arr := disk.pentryArr;
    forall i | 0 <= i < arr.Length { arr[i] := edit[i]; }
    assert arr[..] == edit;
    ghost var h := HeaderOf(bd.dev, d, Primary);
    assert disk.hdr[..] == h && disk.hdr.Length == bd.dev.blk;
    assert bd.Contents() == d;
    r := disk.UpdateCrc(bd.dev);
    assert r == 0;
    assert disk.pentryArr[..] == edit;
    assert disk.hdr[..] == WithEntriesCrc(bd.dev, h, bd.dev.crc(edit));
    assert bd.Contents() == d;
    assert disk.pentryArrSize == ArraySize(disk.hdr[..]);
    assert disk.pentryArr.Length == disk.pentryArrSize;
    r := Commit(disk, bd, openOk);
  }

  ghost predicate CommitCutShort(dev: Device, d: seq<Byte>, entries: seq<Byte>, d': seq<Byte>)
    requires WellFormed(dev, d)
  {
    PrimaryFits(dev, d);
    var p := CommitPlan(dev, WithEntriesCrc(dev, HeaderOf(dev, d, Primary), dev.crc(entries)), entries);
    Inside(d, p.writes) && Crash(d, p.writes, d')
  }

  /** What a commit after update_crc relies on. */
  lemma LoadedBounds(dev: Device, d: seq<Byte>, entries: seq<Byte>)
    requires WellFormed(dev, d) && |entries| == ArraySize(HeaderOf(dev, d, Primary))
    ensures HasHeaders(dev, d) && Fits(HeaderOf(dev, d, Primary))
    ensures var h := WithEntriesCrc(dev, HeaderOf(dev, d, Primary), dev.crc(entries));
            && ArraySize(h) == |entries| && EntriesOffset(dev, h) + |entries| <= |d|
            && Inside(d, CommitPlan(dev, h, entries).writes)
            && Run(d, CommitPlan(dev, h, entries).writes) == Committed(dev, d, entries)
  {
    hide Get4, Get8, Put4, Times, EntriesOffset, ArraySize, WithEntriesCrc, HeaderState, Run, Committed;
    PrimaryBounds(dev, d);
    RefreshedHeader(dev, HeaderOf(dev, d, Primary), dev.crc(entries));
    SizeOfLayout(dev, WithEntriesCrc(dev, HeaderOf(dev, d, Primary), dev.crc(entries)), HeaderOf(dev, d, Primary));
    CommitRuns(dev, d, entries);
  }
}

/** What the engine decides on any well-formed disk, told from the bytes of its headers: which
    disks it refuses, which stage it accepts, and what gpt2_set_boot_chain makes of them. */
module GptDecisions {
  import opened Bytes
  import opened BootChain
  import opened PentryArray
  import opened Gpt
  import opened GptForms
  import opened GptImage

  // ---------- The state of a header, from its bytes ----------

  function LittleEndian(s: seq<Byte>): nat {
    if s == [] then 0 else s[0] + 0x100 * LittleEndian(s[1..])
  }

  lemma LittleEndianFour(s: seq<Byte>, o: nat)
    requires o + 4 <= |s|
    ensures LittleEndian(s[o..o + 4]) == Get4(s, o)
  {
    var t := s[o..o + 4];
    var b1: int, b2: int, b3: int := s[o + 1], s[o + 2], s[o + 3];
    assert t[1..][1..][1..][1..] == [];
    assert LittleEndian(t[1..][1..][1..]) == b3;
    assert LittleEndian(t[1..][1..]) == b2 + 0x100 * b3;
    assert LittleEndian(t[1..]) == b1 + 0x100 * (b2 + 0x100 * b3);
  }

  lemma LittleEndianEight(s: seq<Byte>, o: nat)
    requires o + 8 <= |s|
    ensures LittleEndian(s[o..o + 8]) == Get8(s, o)
  {
    hide Get4;
    var t := s[o..o + 8];
    LittleEndianFour(s, o);
    LittleEndianFour(s, o + 4);
    LittleEndianSplit(s[o..o + 4], s[o + 4..o + 8]);
    assert t == s[o..o + 4] + s[o + 4..o + 8];
  }

  lemma {:induction false} LittleEndianSplit(a: seq<Byte>, b: seq<Byte>)
    requires |a| <= 4
    ensures LittleEndian(a + b) ==
            LittleEndian(a)
            + (if |a| == 4 then 0x1_0000_0000 else if |a| == 3 then 0x100_0000 else if |a| == 2 then 0x1_0000
               else if |a| == 1 then 0x100 else 1) * LittleEndian(b)
  {
    if a == [] {
      assert a + b == b;
    } else {
      var s := a + b;
      assert s[0] == a[0] && s[1..] == a[1..] + b;
      LittleEndianSplit(a[1..], b);
    }
  }

  /** The fields of a header, with the widths the products are cut to. */
  lemma FieldsExactly(dev: Device, h: Header)
    ensures EntriesOffset(dev, h) == LittleEndian(h[72..80]) * dev.blk % 0x1_0000_0000_0000_0000
    ensures EntryCount(h) == LittleEndian(h[80..84]) && EntrySize(h) == LittleEndian(h[84..88])
    ensures ArraySize(h) == LittleEndian(h[80..84]) * LittleEndian(h[84..88]) % 0x1_0000_0000
    ensures EntriesCrc(h) == LittleEndian(h[88..92])
  {
    hide Get4, Get8, LittleEndian;
    LittleEndianEight(h, 72);
    LittleEndianFour(h, 80);
    LittleEndianFour(h, 84);
    LittleEndianFour(h, 88);
  }

  /** The header with bytes 16 to 19, its own checksum, cleared. */
  function Blanked(h: Header): Header {
    h[..16] + [0, 0, 0, 0] + h[20..]
  }

  /** The checksum stored in bytes 16 to 19 is that of the first bytes, as many as bytes 12 to 15
      say, with these four cleared. */
  predicate ChecksumGood(dev: Device, h: Header)
    requires LittleEndian(h[12..16]) <= |h|
  {
    LittleEndian(h[16..20]) == dev.crc(Blanked(h)[..LittleEndian(h[12..16])])
  }

  /** "EFI PART" and a zero byte. */
  predicate SignatureGood(h: Header) {
    h[..9] == [0x45, 0x46, 0x49, 0x20, 0x50, 0x41, 0x52, 0x54, 0x00]
  }

  lemma BlankedIs(h: Header)
    ensures Blanked(h) == Put4(h, HEADER_CRC_OFFSET, 0)
  {
    assert Octet(0, 0) == Octet(0, 1) == Octet(0, 2) == Octet(0, 3) == 0;
  }

  lemma SizeIs(h: Header)
    ensures LittleEndian(h[12..16]) == HeaderSize(h)
    ensures Fits(h) <==> LittleEndian(h[12..16]) <= |h|
  {
    LittleEndianFour(h, 12);
  }

  /** gpt_get_state, from the bytes: a bad checksum first, then a bad signature. */
  lemma HeaderStateIs(dev: Device, h: Header)
    requires Fits(h)
    ensures LittleEndian(h[12..16]) <= |h|
    ensures HeaderState(dev, h) == BadCrc <==> !ChecksumGood(dev, h)
    ensures HeaderState(dev, h) == BadSignature <==> ChecksumGood(dev, h) && !SignatureGood(h)
    ensures HeaderState(dev, h) == GptOk <==> ChecksumGood(dev, h) && SignatureGood(h)
  {
    hide Get4, Put4, LittleEndian, Blanked;
    SizeIs(h);
    LittleEndianFour(h, 16);
    BlankedIs(h);
  }

  /** What gpt_set_state does to the bytes: the signature written, or its first byte cleared, and
      a checksum that is good; every other byte stays. */
  lemma SetStateBytes(dev: Device, h: Header, ok: bool)
    requires Fits(h)
    ensures var r := WithState(dev, h, ok);
            && |r| == |h| && Fits(r) && LittleEndian(r[12..16]) <= |r| && ChecksumGood(dev, r)
            && (if ok then SignatureGood(r) else r[0] == 0 && r[1..9] == h[1..9])
            && r[9..16] == h[9..16] && r[20..] == h[20..]
  {
    hide LittleEndian, Blanked;
    SetThenGet(dev, h, ok);
    var r := WithState(dev, h, ok);
    HeaderStateIs(dev, r);
    var b := Signed(h, ok);
    SignatureFits(h, ok);
    GetAfterPut(b, HEADER_CRC_OFFSET, HeaderCrc(dev, b));
    forall i | 0 <= i < |h| && !(16 <= i < 20) ensures r[i] == b[i] { }
    assert b[9..] == h[9..];
    if ok {
      assert b[..9] == GPT_SIGNATURE;
      assert r[..9] == b[..9];
    }
  }

  // ---------- Which disks are refused, which stages accepted ----------

  /** Both headers of a well-formed disk, with checksums that can be computed. */
  lemma BothHeaders(dev: Device, d: seq<Byte>)
    requires WellFormed(dev, d)
    ensures HasHeaders(dev, d)
    ensures forall i: Instance ::
              Fits(HeaderOf(dev, d, i)) && LittleEndian(HeaderOf(dev, d, i)[12..16]) <= |HeaderOf(dev, d, i)|
  {
    hide Get4, Get8, Put4, Times, LittleEndian, EntriesOffset, ArraySize;
    assert Fits(HeaderOf(dev, d, Primary)) && Fits(HeaderOf(dev, d, Secondary));
    forall i: Instance ensures Fits(HeaderOf(dev, d, i)) {
      assert i == Primary || i == Secondary;
    }
    SizeIs(HeaderOf(dev, d, Primary));
    SizeIs(HeaderOf(dev, d, Secondary));
  }

  /** A header whose checksum is wrong, or signatures broken in both. */
  predicate Corrupt(dev: Device, d: seq<Byte>)
    requires WellFormed(dev, d)
  {
    BothHeaders(dev, d);
    var h1, h2 := HeaderOf(dev, d, Primary), HeaderOf(dev, d, Secondary);
    !ChecksumGood(dev, h1) || !ChecksumGood(dev, h2) || (!SignatureGood(h1) && !SignatureGood(h2))
  }

  /** Such a disk is refused, whatever the stage: -1 and no writes. */
  lemma CorruptRefused(dev: Device, d: seq<Byte>, xbl: Xbl, stage: int)
    requires WellFormed(dev, d) && Corrupt(dev, d)
    ensures Prepare(dev, d, xbl, stage) == Plan(-1, [])
  {
    hide WellFormed, HeaderState, HeaderOf, ChecksumGood, SignatureGood, MainPlan, BackupPlan, FinalizePlan, Fits;
    BothHeaders(dev, d);
    HeaderStateIs(dev, HeaderOf(dev, d, Primary));
    HeaderStateIs(dev, HeaderOf(dev, d, Secondary));
  }

  /** Any other disk: the two signatures decide. Both good, MAIN is accepted and stage 0 is
      already set; the primary one broken, BACKUP is accepted and MAIN is already set; the
      secondary one broken, FINALIZE is accepted and BACKUP is already set. Every other stage is
      refused, and so are MAIN and BACKUP on UFS when switching the boot LUN failed. */
  lemma Decides(dev: Device, d: seq<Byte>, xbl: Xbl, stage: int)
    requires WellFormed(dev, d) && !Corrupt(dev, d)
    ensures var good1, good2 := SignatureGood(HeaderOf(dev, d, Primary)), SignatureGood(HeaderOf(dev, d, Secondary));
            var p, switched := Prepare(dev, d, xbl, stage), !dev.isUfs || xbl != XblFailed;
            && (good1 && good2 ==>
                  p == if stage == 0 then Plan(0, []) else if stage == 1 && switched then MainPlan(dev, d)
                       else Plan(-1, []))
            && (!good1 && good2 ==>
                  p == if stage == 1 then Plan(0, []) else if stage == 2 && switched then BackupPlan(dev, d)
                       else Plan(-1, []))
            && (good1 && !good2 ==>
                  p == if stage == 2 then Plan(0, []) else if stage == 3 then FinalizePlan(dev, d) else Plan(-1, []))
  {
    hide WellFormed, HeaderState, HeaderOf, ChecksumGood, SignatureGood, MainPlan, BackupPlan, FinalizePlan, Fits;
    BothHeaders(dev, d);
    HeaderStateIs(dev, HeaderOf(dev, d, Primary));
    HeaderStateIs(dev, HeaderOf(dev, d, Secondary));
  }

  // ---------- A damaged primary array ----------

  /** The primary entries do not have the checksum in bytes 88 to 91 of the primary header. */
  predicate Damaged(dev: Device, d: seq<Byte>)
    requires WellFormed(dev, d)
  {
    LittleEndian(HeaderOf(dev, d, Primary)[88..92]) != dev.crc(EntriesOf(dev, d, Primary))
  }

  /** gpt2_set_boot_chain on any well-formed disk: -1 exactly if the primary array is damaged, 1
      exactly if backups were asked for and there is no pair; in both cases nothing is written. */
  lemma SetBootChainExactly(dev: Device, d: seq<Byte>, chain: Chain)
    requires WellFormed(dev, d)
    ensures var p := SetBootChain(dev, d, chain);
            var h1 := HeaderOf(dev, d, Primary);
            var es := Split(EntriesOf(dev, d, Primary), EntrySize(h1), EntryCount(h1));
            && AllComparable(PTN_SWAP_LIST)
            && p.r in {-1, 0, 1}
            && (p.r == -1 <==> Damaged(dev, d))
            && (p.r == 1 <==> !Damaged(dev, d) && chain == BackupBoot && !AnyPair(dev.isUfs, PTN_SWAP_LIST, es))
            && (p.r != 0 ==> p.writes == [])
  {
    hide Get4, Get8, Put4, Times, LittleEndian, HeaderOf, EntriesOf, Split, AnyPair, WithEntriesCrc, EntriesOffset,
         SwapNames;
    LittleEndianFour(HeaderOf(dev, d, Primary), 88);
    SwapListExclusive();
    var h1 := HeaderOf(dev, d, Primary);
    var a, z, n := EntriesOf(dev, d, Primary), EntrySize(h1), EntryCount(h1);
    SwapFound(dev.isUfs, PTN_SWAP_LIST, Split(a, z, n));
  }

  /** With a damaged primary array MAIN and FINALIZE plan no writes on any disk, so that, complete
      or cut short, they leave it as it was and a usable secondary copy stays usable. */
  lemma DamagedUntouched(dev: Device, d: seq<Byte>, xbl: Xbl, stage: int, d': seq<Byte>)
    requires WellFormed(dev, d) && Damaged(dev, d) && stage != UPDATE_BACKUP
    ensures Prepare(dev, d, xbl, stage).writes == []
    ensures Crash(d, Prepare(dev, d, xbl, stage).writes, d') ==> d' == d
    ensures Prepare(dev, d, xbl, stage).r == 0 ==> InternalStage(dev, d) == stage + 1
  {
    hide WellFormed, HeaderState, HeaderOf, SetBootChain, Damaged, BackupPlan;
    SetBootChainExactly(dev, d, BackupBoot);
    SetBootChainExactly(dev, d, NormalBoot);
  }

  /** What a successful gpt2_set_boot_chain leaves, on any well-formed disk: the secondary entries
      are the primary ones, swapped for the backup chain; their checksum and that of the secondary
      header are right, its signature is what it was; nothing primary has changed. */
  lemma SetBootChainResult(dev: Device, d: seq<Byte>, chain: Chain)
    requires WellFormed(dev, d) && SetBootChain(dev, d, chain).r == 0
    ensures var r := Run(d, SetBootChain(dev, d, chain).writes);
            var h1 := HeaderOf(dev, d, Primary);
            var a, z, n := EntriesOf(dev, d, Primary), EntrySize(h1), EntryCount(h1);
            && WellFormed(dev, r)
            && HeaderOf(dev, r, Primary) == h1 && EntriesOf(dev, r, Primary) == a
            && EntriesOf(dev, r, Secondary) == (if chain == BackupBoot then SwapBuffer(dev.isUfs, a, z, n).0 else a)
            && LittleEndian(HeaderOf(dev, r, Secondary)[88..92]) == dev.crc(EntriesOf(dev, r, Secondary))
            && HeaderState(dev, HeaderOf(dev, r, Secondary)) ==
                 (if SignatureGood(HeaderOf(dev, d, Secondary)) then GptOk else BadSignature)
  {
    hide Get4, Get8, Put4, Times, LittleEndian, EntriesOffset, ArraySize, Store, WithEntriesCrc, HeaderState,
         SwapBuffer, Run, SignatureGood, EntrySize, EntryCount;
    var p := SetBootChain(dev, d, chain);
    var h2 := HeaderOf(dev, d, Secondary);
    var chained := p.writes[1].data;
    var g := WithEntriesCrc(dev, h2, dev.crc(chained));
    ChainedHeader(dev, h2, dev.crc(chained));
    SecondaryStored(dev, d, g, chained);
    RunTwo(d, p.writes[0], p.writes[1]);
    LittleEndianFour(g, 88);
  }

  /** A header given another entries checksum keeps its layout and signature and is sealed. */
  lemma ChainedHeader(dev: Device, h: Header, crc: U32)
    requires Fits(h)
    ensures var g := WithEntriesCrc(dev, h, crc);
            && SameLayout(dev, g, h) && EntriesCrc(g) == crc
            && HeaderState(dev, g) == (if SignatureGood(h) then GptOk else BadSignature)
  {
    hide Times, LittleEndian;
    var b := Put4(h, PARTITION_CRC_OFFSET, crc);
    var g := Seal(dev, b);
    GetAfterPut(h, PARTITION_CRC_OFFSET, crc);
    assert HeaderSize(b) == HeaderSize(h);
    SealCleared(dev, b, b);
    GetAfterPut(b, HEADER_CRC_OFFSET, HeaderCrc(dev, b));
    assert HeaderSize(g) == HeaderSize(b);
    assert g[..9] == h[..9];
  }

  /** The disk after the secondary header and entries were written. */
  lemma SecondaryStored(dev: Device, d: seq<Byte>, g: Header, entries: seq<Byte>)
    requires WellFormed(dev, d) && |g| == dev.blk && SameLayout(dev, g, HeaderOf(dev, d, Secondary))
    requires |entries| == ArraySize(HeaderOf(dev, d, Primary))
    ensures var r := Store(Store(d, |d| - dev.blk, g), EntriesOffset(dev, HeaderOf(dev, d, Secondary)), entries);
            && WellFormed(dev, r)
            && HeaderOf(dev, r, Primary) == HeaderOf(dev, d, Primary) && HeaderOf(dev, r, Secondary) == g
            && EntriesOf(dev, r, Primary) == EntriesOf(dev, d, Primary) && EntriesOf(dev, r, Secondary) == entries
  {
    hide Times, Get4, Get8, Put4, EntriesOffset, ArraySize, Store;
    var off, back := EntriesOffset(dev, HeaderOf(dev, d, Secondary)), |d| - dev.blk;
    var off1 := EntriesOffset(dev, HeaderOf(dev, d, Primary));
    var d1 := Store(d, back, g);
    var r := Store(d1, off, entries);
    StoreHeader(dev, d, Secondary, g);
    StoreArray(dev, d1, off, entries);
    StoreSame(d1, off, entries);
    StoreElsewhere(d, back, g, off1, |entries|);
    StoreElsewhere(d1, off, entries, off1, |entries|);
    SelfLayout(dev, HeaderOf(dev, d, Primary));
    forall i: Instance ensures SameLayout(dev, HeaderOf(dev, r, i), HeaderOf(dev, d, i)) {
      assert i == Primary || i == Secondary;
    }
    LayoutDecides(dev, d, r);
  }

  lemma SelfLayout(dev: Device, h: Header)
    requires Fits(h)
    ensures SameLayout(dev, h, h)
  {
    hide Times;
  }
}

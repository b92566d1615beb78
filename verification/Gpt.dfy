/** A disk with two GPT copies, and what each routine of the failsafe-update engine
    would write to it: header states, the boot-chain rewrite of the secondary copy, and
    the three stages of prepare_partitions as lists of writes. */
module Gpt {
  import opened Bytes
  import opened PentryArray

  const HEADER_SIZE_OFFSET := 12
  const HEADER_CRC_OFFSET := 16
  const PENTRIES_OFFSET := 72
  const PARTITION_COUNT_OFFSET := 80
  const PENTRY_SIZE_OFFSET := 84
  const PARTITION_CRC_OFFSET := 88
  const MIN_HEADER := 92
  /** "EFI PART" with the NUL that sizeof counts: nine bytes. */
  const GPT_SIGNATURE: seq<Byte> := [0x45, 0x46, 0x49, 0x20, 0x50, 0x41, 0x52, 0x54, 0]

  /** What the code asks the device: its block size, whether it is UFS, and the checksum. */
  datatype Device = Device(blk: nat, isUfs: bool, crc: seq<Byte> -> U32)

  datatype Instance = Primary | Secondary
  datatype GptState = GptOk | BadSignature | BadCrc
  datatype Chain = NormalBoot | BackupBoot

  const UPDATE_MAIN := 1
  const UPDATE_BACKUP := 2
  const UPDATE_FINALIZE := 3

  // ---------- Headers ----------

  /** One header block. */
  type Header = h: seq<Byte> | |h| >= MIN_HEADER witness seq(MIN_HEADER, _ => 0)

  function HeaderSize(h: Header): U32 { Get4(h, HEADER_SIZE_OFFSET) }

  /** The entries array starts at a 64-bit product, as a 64-bit unsigned value. */
  function EntriesOffset(dev: Device, h: Header): nat {
    var lba: nat := Get8(h, PENTRIES_OFFSET);
    Times(lba, dev.blk) % 0x1_0000_0000_0000_0000
  }

  function EntrySize(h: Header): U32 { Get4(h, PENTRY_SIZE_OFFSET) }

  function EntryCount(h: Header): U32 { Get4(h, PARTITION_COUNT_OFFSET) }

  /** Its size is a 32-bit product. */
  function ArraySize(h: Header): nat {
    var count: nat, size: nat := EntryCount(h), EntrySize(h);
    Times(count, size) % 0x1_0000_0000
  }

  function EntriesCrc(h: Header): U32 { Get4(h, PARTITION_CRC_OFFSET) }

  predicate Fits(h: Header) { HeaderSize(h) <= |h| }

  /** The header checksum, computed with its own field cleared. */
  function HeaderCrc(dev: Device, h: Header): U32
    requires Fits(h)
  {
    dev.crc(Put4(h, HEADER_CRC_OFFSET, 0)[..HeaderSize(h)])
  }

  function HeaderState(dev: Device, h: Header): GptState
    requires Fits(h)
  {
    if Get4(h, HEADER_CRC_OFFSET) != HeaderCrc(dev, h) then BadCrc
    else if h[..|GPT_SIGNATURE|] != GPT_SIGNATURE then BadSignature
    else GptOk
  }

  function Seal(dev: Device, h: Header): (r: Header)
    requires Fits(h)
    ensures |r| == |h|
  {
    Put4(h, HEADER_CRC_OFFSET, HeaderCrc(dev, h))
  }

  /** The header gpt_set_state writes back. */
  function WithState(dev: Device, h: Header, ok: bool): (r: Header)
    requires Fits(h)
    ensures |r| == |h|
  {
    SignatureFits(h, ok);
    Seal(dev, Signed(h, ok))
  }

  function Signed(h: Header, ok: bool): (r: Header)
    ensures |r| == |h|
  {
    if ok then GPT_SIGNATURE + h[|GPT_SIGNATURE|..] else h[0 := 0]
  }

  lemma SignatureFits(h: Header, ok: bool)
    ensures HeaderSize(Signed(h, ok)) == HeaderSize(h)
  {
  }

  // ---------- The disk ----------

  function HeaderOffset(dev: Device, d: seq<Byte>, inst: Instance): int {
    if inst == Primary then dev.blk else |d| - dev.blk
  }

  predicate HasHeaders(dev: Device, d: seq<Byte>) {
    MIN_HEADER <= dev.blk && 3 * dev.blk <= |d|
  }

  function HeaderOf(dev: Device, d: seq<Byte>, inst: Instance): (h: Header)
    requires HasHeaders(dev, d)
    ensures |h| == dev.blk
  {
    var o := HeaderOffset(dev, d, inst);
    d[o..o + dev.blk]
  }

  predicate Apart(x: nat, xLen: nat, y: nat, yLen: nat) {
    x + xLen <= y || y + yLen <= x
  }

  /** What every routine relies on: two headers that fit their block, describing arrays of the
      same whole number of entries of at least 128 bytes, and four regions that do not overlap. */
  predicate WellFormed(dev: Device, d: seq<Byte>) {
    && HasHeaders(dev, d)
    && var h1, h2 := HeaderOf(dev, d, Primary), HeaderOf(dev, d, Secondary);
    var o1, o2, len, back := EntriesOffset(dev, h1), EntriesOffset(dev, h2), ArraySize(h1), |d| - dev.blk;
    && Fits(h1) && Fits(h2)
    && EntrySize(h1) >= 128 && len == Times(EntryCount(h1), EntrySize(h1))
    && EntrySize(h2) == EntrySize(h1) && EntryCount(h2) == EntryCount(h1)
    && o1 + len <= |d| && o2 + len <= |d| && Apart(o1, len, o2, len)
    && Apart(o1, len, dev.blk, dev.blk) && Apart(o1, len, back, dev.blk)
    && Apart(o2, len, dev.blk, dev.blk) && Apart(o2, len, back, dev.blk)
  }

  function EntriesOf(dev: Device, d: seq<Byte>, inst: Instance): (a: seq<Byte>)
    requires WellFormed(dev, d)
    ensures |a| == ArraySize(HeaderOf(dev, d, Primary))
  {
    var o := EntriesOffset(dev, HeaderOf(dev, d, inst));
    d[o..o + ArraySize(HeaderOf(dev, d, Primary))]
  }

  /** Header valid and entries valid: the rule of section 5.3.2 of the UEFI Specification. */
  predicate Usable(dev: Device, d: seq<Byte>, inst: Instance)
    requires WellFormed(dev, d)
  {
    var h := HeaderOf(dev, d, inst);
    HeaderState(dev, h) == GptOk && dev.crc(EntriesOf(dev, d, inst)) == EntriesCrc(h)
  }

  datatype Table = NoTable | Table(entries: seq<Byte>)

  /** The table in force: the primary one if it is usable, else the secondary one. */
  function InForce(dev: Device, d: seq<Byte>): Table
    requires WellFormed(dev, d)
  {
    if Usable(dev, d, Primary) then Table(EntriesOf(dev, d, Primary))
    else if Usable(dev, d, Secondary) then Table(EntriesOf(dev, d, Secondary))
    else NoTable
  }

  // ---------- Writes ----------

  /** A write to the device; a header is one block and lands whole or not at all. */
  datatype Write = Write(off: nat, data: seq<Byte>, block: bool)

  function Store(d: seq<Byte>, off: nat, data: seq<Byte>): (r: seq<Byte>)
    requires off + |data| <= |d|
    ensures |r| == |d|
  {
    d[..off] + data + d[off + |data|..]
  }

  predicate Inside(d: seq<Byte>, ws: seq<Write>) {
    forall i :: 0 <= i < |ws| ==> ws[i].off + |ws[i].data| <= |d|
  }

  function Run(d: seq<Byte>, ws: seq<Write>): (r: seq<Byte>)
    requires Inside(d, ws)
    ensures |r| == |d|
    decreases |ws|
  {
    if ws == [] then d else Run(Store(d, ws[0].off, ws[0].data), ws[1..])
  }

  /** The disk after a write was cut short: a torn entries array is arbitrary. */
  ghost predicate Torn(d: seq<Byte>, w: Write, d': seq<Byte>)
    requires w.off + |w.data| <= |d|
  {
    d' == d || (!w.block && exists junk: seq<Byte> :: |junk| == |w.data| && d' == Store(d, w.off, junk))
  }

  /** The disks a power cut (or a failed write) can leave while "ws" is being issued in order,
      from nothing written to everything written. */
  ghost predicate Crash(d: seq<Byte>, ws: seq<Write>, d': seq<Byte>)
    requires Inside(d, ws)
    decreases |ws|
  {
    if ws == [] then d' == d
    else Torn(d, ws[0], d') || Crash(Store(d, ws[0].off, ws[0].data), ws[1..], d')
  }

  /** A return code and the writes issued before it. */
  datatype Plan = Plan(r: int, writes: seq<Write>)

  // ---------- The routines ----------

  /** gpt2_set_boot_chain: always from the primary array, always to the secondary copy. */
  function SetBootChain(dev: Device, d: seq<Byte>, chain: Chain): (p: Plan)
    requires WellFormed(dev, d)
    ensures Inside(d, p.writes)
  {
    var h1, h2 := HeaderOf(dev, d, Primary), HeaderOf(dev, d, Secondary);
    var pentries := EntriesOf(dev, d, Primary);
    if EntriesCrc(h1) != dev.crc(pentries) then Plan(-1, []) else
      var (chained, found) := if chain == BackupBoot
                              then SwapBuffer(dev.isUfs, pentries, EntrySize(h1), EntryCount(h1))
                              else (pentries, true);
      if !found then Plan(1, []) else
        Plan(0, [Write(|d| - dev.blk, WithEntriesCrc(dev, h2, dev.crc(chained)), true),
                 Write(EntriesOffset(dev, h2), chained, false)])
  }

  /** The header gpt2_set_boot_chain writes back. */
  function WithEntriesCrc(dev: Device, h: Header, crc: U32): (r: Header)
    requires Fits(h)
    ensures |r| == |h|
  {
    Seal(dev, Put4(h, PARTITION_CRC_OFFSET, crc))
  }

  /** gpt_set_state: read a header, fix or break its signature, write it back. */
  function SetState(dev: Device, d: seq<Byte>, inst: Instance, ok: bool): (w: Write)
    requires HasHeaders(dev, d) && Fits(HeaderOf(dev, d, inst))
    ensures w.off + |w.data| <= |d|
  {
    Write(HeaderOffset(dev, d, inst), WithState(dev, HeaderOf(dev, d, inst), ok), true)
  }

  /** What the XBL step on UFS did: nothing to switch, switched, or failed. */
  datatype Xbl = NoXbl | XblSwitched | XblFailed

  /** A plan that succeeded, followed by gpt_set_state on the disk it leaves. */
  function ThenSetState(dev: Device, d: seq<Byte>, ws: seq<Write>, inst: Instance, ok: bool): (p: Plan)
    requires Inside(d, ws) && HasHeaders(dev, Run(d, ws)) && Fits(HeaderOf(dev, Run(d, ws), inst))
    ensures Inside(d, p.writes)
  {
    Plan(0, ws + [SetState(dev, Run(d, ws), inst, ok)])
  }

  /** Stage MAIN: point the secondary copy at the backups, then break the primary header. */
  function MainPlan(dev: Device, d: seq<Byte>): (p: Plan)
    requires WellFormed(dev, d)
    ensures Inside(d, p.writes)
  {
    var p := SetBootChain(dev, d, BackupBoot);
    if p.r < 0 then p
    else if p.r > 0 then Plan(0, [])
    else
      SetBootChainFits(dev, d, BackupBoot);
      ThenSetState(dev, d, p.writes, Primary, false)
  }

  /** Stage BACKUP: fix the primary header, then break the secondary one. */
  function BackupPlan(dev: Device, d: seq<Byte>): (p: Plan)
    requires WellFormed(dev, d)
    ensures Inside(d, p.writes)
  {
    var fix := SetState(dev, d, Primary, true);
    SetStateFits(dev, d, Primary, true);
    RunOne(d, fix);
    ThenSetState(dev, d, [fix], Secondary, false)
  }

  /** Stage FINALIZE: point the secondary copy back, then fix its header. */
  function FinalizePlan(dev: Device, d: seq<Byte>): (p: Plan)
    requires WellFormed(dev, d)
    ensures Inside(d, p.writes)
  {
    var p := SetBootChain(dev, d, NormalBoot);
    if p.r < 0 then p
    else
      SetBootChainFits(dev, d, NormalBoot);
      ThenSetState(dev, d, p.writes, Secondary, true)
  }

  /** prepare_partitions: what stage the header states stand for, ... */
  function InternalStage(dev: Device, d: seq<Byte>): (stage: int)
    requires WellFormed(dev, d)
    ensures stage == -1 || UPDATE_MAIN <= stage <= UPDATE_FINALIZE
  {
    var prim := HeaderState(dev, HeaderOf(dev, d, Primary));
    var second := HeaderState(dev, HeaderOf(dev, d, Secondary));
    if prim == BadCrc || second == BadCrc then -1
    else if prim == BadSignature && second == BadSignature then -1
    else if prim == GptOk && second == GptOk then UPDATE_MAIN
    else if prim == BadSignature then UPDATE_BACKUP
    else UPDATE_FINALIZE
  }

  /** ... and the writes of a call for "stage". */
  function Prepare(dev: Device, d: seq<Byte>, xbl: Xbl, stage: int): (p: Plan)
    requires WellFormed(dev, d)
    ensures Inside(d, p.writes)
  {
    var internal := InternalStage(dev, d);
    if internal == -1 then Plan(-1, [])
    else if stage == internal - 1 then Plan(0, [])
    else if stage != internal then Plan(-1, [])
    else if stage != UPDATE_FINALIZE && dev.isUfs && xbl == XblFailed then Plan(-1, [])
    else if stage == UPDATE_MAIN then MainPlan(dev, d)
    else if stage == UPDATE_BACKUP then BackupPlan(dev, d)
    else FinalizePlan(dev, d)
  }

  // ---------- Reading back after a write ----------

  lemma StoreSame(d: seq<Byte>, off: nat, x: seq<Byte>)
    requires off + |x| <= |d|
    ensures Store(d, off, x)[off..off + |x|] == x
  {
  }

  lemma StoreElsewhere(d: seq<Byte>, off: nat, x: seq<Byte>, o: nat, len: nat)
    requires off + |x| <= |d| && o + len <= |d| && Apart(off, |x|, o, len)
    ensures Store(d, off, x)[o..o + len] == d[o..o + len]
  {
    var r := Store(d, off, x);
    forall i {:trigger r[i]} | o <= i < o + len ensures r[i] == d[i] { }
  }

  /** Rewriting a header block reaches that header only. */
  lemma StoreHeader(dev: Device, d: seq<Byte>, inst: Instance, h: Header)
    requires HasHeaders(dev, d) && |h| == dev.blk
    ensures var r := Store(d, HeaderOffset(dev, d, inst), h);
            && HasHeaders(dev, r)
            && HeaderOf(dev, r, inst) == h
            && (forall other: Instance :: other != inst ==> HeaderOf(dev, r, other) == HeaderOf(dev, d, other))
  {
    hide Times;
    var o := HeaderOffset(dev, d, inst);
    StoreSame(d, o, h);
    StoreElsewhere(d, o, h, if inst == Primary then |d| - dev.blk else dev.blk, dev.blk);
  }

  /** Rewriting something apart from both header blocks leaves the headers. */
  lemma StoreArray(dev: Device, d: seq<Byte>, off: nat, x: seq<Byte>)
    requires HasHeaders(dev, d) && off + |x| <= |d|
    requires Apart(off, |x|, dev.blk, dev.blk) && Apart(off, |x|, |d| - dev.blk, dev.blk)
    ensures HasHeaders(dev, Store(d, off, x))
    ensures forall i: Instance :: HeaderOf(dev, Store(d, off, x), i) == HeaderOf(dev, d, i)
  {
    hide Times;
    StoreElsewhere(d, off, x, dev.blk, dev.blk);
    StoreElsewhere(d, off, x, |d| - dev.blk, dev.blk);
  }

  lemma SealFits(dev: Device, h: Header)
    requires Fits(h)
    ensures Fits(Seal(dev, h))
  {
  }

  lemma SetStateFits(dev: Device, d: seq<Byte>, inst: Instance, ok: bool)
    requires HasHeaders(dev, d) && forall i: Instance :: Fits(HeaderOf(dev, d, i))
    ensures var w := SetState(dev, d, inst, ok);
            var r := Store(d, w.off, w.data);
            HasHeaders(dev, r) && forall i: Instance :: Fits(HeaderOf(dev, r, i))
  {
    hide Times;
    var h := HeaderOf(dev, d, inst);
    SignatureFits(h, ok);
    SealFits(dev, Signed(h, ok));
    StoreHeader(dev, d, inst, WithState(dev, h, ok));
  }

  lemma RunOne(d: seq<Byte>, v: Write)
    requires v.off + |v.data| <= |d|
    ensures Inside(d, [v]) && Run(d, [v]) == Store(d, v.off, v.data)
  {
    var ws := [v];
    assert ws[1..] == [];
  }

  lemma RunTwo(d: seq<Byte>, v: Write, w: Write)
    requires v.off + |v.data| <= |d| && w.off + |w.data| <= |d|
    ensures Inside(d, [v, w]) && Run(d, [v, w]) == Store(Store(d, v.off, v.data), w.off, w.data)
  {
    var ws := [v, w];
    assert ws[1..] == [w];
    RunOne(Store(d, v.off, v.data), w);
  }

  lemma SetBootChainFits(dev: Device, d: seq<Byte>, chain: Chain)
    requires WellFormed(dev, d)
    ensures var r := Run(d, SetBootChain(dev, d, chain).writes);
            HasHeaders(dev, r) && forall i: Instance :: Fits(HeaderOf(dev, r, i))
  {
    hide Times, Get4, Get8, Put4, Store, Run, Seal, SwapBuffer;
    var p := SetBootChain(dev, d, chain);
    NoWrites(d);
    if p.r == 0 {
      SetBootChainHeader(dev, d, chain);
      SetBootChainFitsOne(dev, d, p.writes[0].data, p.writes[1].off, p.writes[1].data);
      RunTwo(d, p.writes[0], p.writes[1]);
    }
  }

  lemma NoWrites(d: seq<Byte>)
    ensures Run(d, []) == d
  {
  }

  /** The header it writes still fits. */
  lemma SetBootChainHeader(dev: Device, d: seq<Byte>, chain: Chain)
    requires WellFormed(dev, d) && SetBootChain(dev, d, chain).r == 0
    ensures var ws := SetBootChain(dev, d, chain).writes;
            |ws| == 2 && |ws[0].data| == dev.blk && Fits(ws[0].data)
  {
    hide Times, Get8, SwapBuffer, EntriesOf;
  }

  lemma SetBootChainFitsOne(dev: Device, d: seq<Byte>, h: Header, off: nat, data: seq<Byte>)
    requires WellFormed(dev, d) && |h| == dev.blk && Fits(h) && off + |data| <= |d|
    requires Apart(off, |data|, dev.blk, dev.blk) && Apart(off, |data|, |d| - dev.blk, dev.blk)
    ensures var r := Store(Store(d, |d| - dev.blk, h), off, data);
            HasHeaders(dev, r) && forall i: Instance :: Fits(HeaderOf(dev, r, i))
  {
    hide Times;
    StoreHeader(dev, d, Secondary, h);
    StoreArray(dev, Store(d, |d| - dev.blk, h), off, data);
  }
}

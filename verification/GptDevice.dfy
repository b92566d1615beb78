/** The engine as the code runs it: buffers read from a block device, changed in place and
    written back, where any read or write may fail. Each routine is proved against the plan
    that specifies it. */
module GptDevice {
  import opened Bytes
  import opened BootChain
  import opened PentryArray
  import opened Gpt
  import opened GptDecisions
  import opened GptTheorems

  /** How a routine with plan p can end: done, or cut short by a failed transfer. */
  ghost predicate Outcome(d: seq<Byte>, p: Plan, r: int, d': seq<Byte>)
    requires Inside(d, p.writes)
  {
    (r == p.r && d' == Run(d, p.writes)) || (r == -1 && Crash(d, p.writes, d'))
  }

  /** How it ends on a device that does not fail. */
  predicate Done(d: seq<Byte>, p: Plan, r: int, d': seq<Byte>)
    requires Inside(d, p.writes)
  {
    r == p.r && d' == Run(d, p.writes)
  }

  lemma CrashNone(d: seq<Byte>, ws: seq<Write>)
    requires Inside(d, ws)
    ensures Crash(d, ws, d) && Inside(d, []) && Run(d, []) == d
  {
  }

  /** How issuing two writes in order can end. */
  lemma TwoWrites(d: seq<Byte>, v: Write, w: Write, first: bool, r: int, d': seq<Byte>)
    requires v.off + |v.data| <= |d| && w.off + |w.data| <= |d|
    requires var d1 := Store(d, v.off, v.data);
             if first then r == -1 && Torn(d, v, d')
             else (r == 0 && d' == Store(d1, w.off, w.data)) || (r == -1 && Torn(d1, w, d'))
    ensures Inside(d, [v, w]) && Outcome(d, Plan(0, [v, w]), r, d')
  {
    hide Store, Torn;
    RunTwo(d, v, w);
    assert [v, w][1..] == [w];
    if !first && r == -1 {
      assert Crash(Store(d, v.off, v.data), [w], d');
    }
  }

  /** How a single write of one block can end, or a routine that gave up before it. */
  lemma OneWrite(d: seq<Byte>, w: Write, r: int, d': seq<Byte>)
    requires w.block && w.off + |w.data| <= |d|
    requires (r == 0 && d' == Store(d, w.off, w.data)) || (r == -1 && d' == d)
    ensures Inside(d, [w]) && Outcome(d, Plan(0, [w]), r, d')
  {
    hide Store;
    RunOne(d, w);
    CrashNone(d, [w]);
  }

  lemma SetStateIs(dev: Device, d: seq<Byte>, inst: Instance, ok: bool)
    requires HasHeaders(dev, d) && Fits(HeaderOf(dev, d, inst))
    ensures var w := SetState(dev, d, inst, ok);
            w.block && w.off == HeaderOffset(dev, d, inst) && w.data == WithState(dev, HeaderOf(dev, d, inst), ok)
  {
    hide WithState, HeaderOf;
  }

  lemma {:induction false} CrashAll(d: seq<Byte>, ws: seq<Write>)
    requires Inside(d, ws)
    ensures Crash(d, ws, Run(d, ws))
    decreases |ws|
  {
    hide Store;
    if ws != [] {
      CrashAll(Store(d, ws[0].off, ws[0].data), ws[1..]);
    }
  }

  lemma TornBy(d: seq<Byte>, off: nat, data: seq<Byte>, junk: seq<Byte>, d': seq<Byte>)
    requires off + |data| <= |d| && |junk| == |data| && |d'| == |d|
    requires d'[..off] == d[..off] && d'[off..off + |data|] == junk && d'[off + |data|..] == d[off + |data|..]
    ensures Torn(d, Write(off, data, false), d')
  {
    assert d' == d'[..off] + d'[off..off + |data|] + d'[off + |data|..];
    assert d' == Store(d, off, junk);
  }

  /** A crash among the first writes is a crash of the longer list, ... */
  lemma {:induction false} CrashPrefix(d: seq<Byte>, ws: seq<Write>, vs: seq<Write>, d': seq<Byte>)
    requires Inside(d, ws + vs) && Inside(d, ws) && Crash(d, ws, d')
    ensures Crash(d, ws + vs, d')
    decreases |ws|
  {
    hide Store, Torn;
    if ws == [] {
      assert ws + vs == vs;
      CrashNone(d, vs);
    } else {
      assert (ws + vs)[0] == ws[0] && (ws + vs)[1..] == ws[1..] + vs;
      if !Torn(d, ws[0], d') {
        CrashPrefix(Store(d, ws[0].off, ws[0].data), ws[1..], vs, d');
      }
    }
  }

  /** ... and so is a crash among the last ones after the first are done. */
  lemma {:induction false} CrashSuffix(d: seq<Byte>, ws: seq<Write>, vs: seq<Write>, d': seq<Byte>)
    requires Inside(d, ws + vs) && Inside(d, ws) && Inside(d, vs) && Crash(Run(d, ws), vs, d')
    ensures Crash(d, ws + vs, d')
    decreases |ws|
  {
    hide Store, Torn;
    if ws == [] {
      assert ws + vs == vs;
    } else {
      assert (ws + vs)[0] == ws[0] && (ws + vs)[1..] == ws[1..] + vs;
      CrashSuffix(Store(d, ws[0].off, ws[0].data), ws[1..], vs, d');
    }
  }

  lemma {:induction false} RunAppend(d: seq<Byte>, ws: seq<Write>, vs: seq<Write>)
    requires Inside(d, ws + vs) && Inside(d, ws) && Inside(d, vs)
    ensures Run(d, ws + vs) == Run(Run(d, ws), vs)
    decreases |ws|
  {
    hide Store;
    if ws == [] {
      assert ws + vs == vs;
    } else {
      assert (ws + vs)[0] == ws[0] && (ws + vs)[1..] == ws[1..] + vs;
      RunAppend(Store(d, ws[0].off, ws[0].data), ws[1..], vs);
    }
  }

  /** Whatever the routine returned, the disk is one a step of the engine can leave. */
  lemma OutcomeIsStep(dev: Device, d: seq<Byte>, call: CallArgs, r: int, d': seq<Byte>)
    requires WellFormed(dev, d) && (Outcome(d, Prepare(dev, d, call.xbl, call.stage), r, d') || (r == 1 && d' == d))
    ensures Step(dev, d, call, d')
  {
    hide Prepare, WellFormed, Run, Crash;
    CrashAll(d, Prepare(dev, d, call.xbl, call.stage).writes);
    CrashNone(d, Prepare(dev, d, call.xbl, call.stage).writes);
  }

  /** A routine that ended, followed by one more write. */
  lemma OutcomeThen(dev: Device, d: seq<Byte>, ws: seq<Write>, inst: Instance, ok: bool, r: int, d': seq<Byte>)
    requires Inside(d, ws) && HasHeaders(dev, Run(d, ws)) && Fits(HeaderOf(dev, Run(d, ws), inst))
    requires var w := SetState(dev, Run(d, ws), inst, ok);
             Outcome(Run(d, ws), Plan(0, [w]), r, d')
    ensures Outcome(d, ThenSetState(dev, d, ws, inst, ok), r, d')
  {
    hide Run, Crash, SetState, HeaderOf, Times;
    var w := SetState(dev, Run(d, ws), inst, ok);
    RunAppend(d, ws, [w]);
    if r == -1 && Crash(Run(d, ws), [w], d') {
      CrashSuffix(d, ws, [w], d');
    }
  }

  class BlockDevice {
    const dev: Device
    const bytes: array<Byte>
    /** No transfer fails. */
    const reliable: bool

    constructor (dev: Device, bytes: array<Byte>, reliable: bool)
      ensures this.dev == dev && this.bytes == bytes && this.reliable == reliable
    {
      this.dev := dev;
      this.bytes := bytes;
      this.reliable := reliable;
    }

    ghost function Contents(): (s: seq<Byte>)
      reads bytes
      ensures |s| == bytes.Length
    {
      bytes[..]
    }

    /** blk_rw reading: fills the buffer, or fails. */
    method BlkRead(off: nat, buf: array<Byte>) returns (r: int)
      requires off + buf.Length <= bytes.Length && buf != bytes
      modifies buf
      ensures r == 0 || r == -1
      ensures r == 0 ==> buf[..] == Contents()[off..off + buf.Length]
      ensures reliable ==> r == 0
    {
      var fails: bool := *;
      if fails && !reliable {
        return -1;
      }
      forall i | 0 <= i < buf.Length { buf[i] := bytes[off + i]; }
      r := 0;
    }

    /** blk_rw writing: stores the buffer, or fails; a failed write that is not a single
        block may have replaced the region by anything. */
    method BlkWrite(off: nat, buf: array<Byte>, block: bool) returns (r: int)
      requires off + buf.Length <= bytes.Length && buf != bytes
      modifies bytes
      ensures r == 0 || r == -1
      ensures r == 0 ==> Contents() == Store(old(Contents()), off, buf[..])
      ensures r == -1 ==> Torn(old(Contents()), Write(off, buf[..], block), Contents())
      ensures reliable ==> r == 0
    {
      var fails: bool := *;
      if fails && !reliable {
        var torn: seq<Byte> := *;
        if !block && |torn| == buf.Length {
          ghost var was := bytes[..];
          forall i | 0 <= i < buf.Length { bytes[off + i] := torn[i]; }
          TornBy(was, off, buf[..], torn, bytes[..]);
        }
        return -1;
      }
      forall i | 0 <= i < buf.Length { bytes[off + i] := buf[i]; }
      r := 0;
    }

    function Offset(inst: Instance): int {
      if inst == Primary then dev.blk else bytes.Length - dev.blk
    }

    /** gpt_get_state. */
    method GptGetState(inst: Instance) returns (r: int, state: GptState)
      requires HasHeaders(dev, Contents()) && Fits(HeaderOf(dev, Contents(), inst))
      ensures r == 0 || r == -1
      ensures r == 0 ==> state == HeaderState(dev, HeaderOf(dev, Contents(), inst))
      ensures reliable ==> r == 0
    {
      hide Get4, Put4;
      state := GptOk;
      var gptHeader := new Byte[dev.blk];
      r := BlkRead(Offset(inst), gptHeader);
      if r != 0 {
        return -1, state;
      }
      ghost var h := HeaderOf(dev, Contents(), inst);
      assert gptHeader[..] == h;
      if gptHeader[..|GPT_SIGNATURE|] != GPT_SIGNATURE {
        state := BadSignature;
      }
      var size := Get4(gptHeader[..], HEADER_SIZE_OFFSET);
      var crc := Get4(gptHeader[..], HEADER_CRC_OFFSET);
      PutInto(gptHeader, HEADER_CRC_OFFSET, 0);
      assert gptHeader[..size] == gptHeader[..][..size];
      if dev.crc(gptHeader[..size]) != crc {
        state := BadCrc;
      }
      r := 0;
    }

    /** gpt_set_state. */
    method GptSetState(inst: Instance, ok: bool) returns (r: int)
      requires HasHeaders(dev, Contents()) && Fits(HeaderOf(dev, Contents(), inst))
      modifies bytes
      ensures Outcome(old(Contents()), Plan(0, [SetState(dev, old(Contents()), inst, ok)]), r, Contents())
      ensures reliable ==> r == 0
    {
      hide Get4, Put4, Store, Signed, Seal, SetState, Outcome, HeaderSize;
      ghost var d := Contents();
      ghost var w := SetState(dev, d, inst, ok);
      SetStateIs(dev, d, inst, ok);
      var gptHeader := new Byte[dev.blk];
      r := BlkRead(Offset(inst), gptHeader);
      if r != 0 {
        OneWrite(d, w, -1, d);
        return -1;
      }
      ghost var h := HeaderOf(dev, d, inst);
      assert gptHeader[..] == h;
      Sign(gptHeader, ok);
      SignatureFits(h, ok);
      SealBuffer(gptHeader);
      r := BlkWrite(Offset(inst), gptHeader, true);
      OneWrite(d, w, r, Contents());
    }

    /** The signature in a header buffer, fixed or broken. */
    method Sign(gptHeader: array<Byte>, ok: bool)
      requires gptHeader.Length >= MIN_HEADER
      modifies gptHeader
      ensures gptHeader[..] == Signed(old(gptHeader[..]), ok)
    {
      if ok {
        forall i | 0 <= i < |GPT_SIGNATURE| { gptHeader[i] := GPT_SIGNATURE[i]; }
      } else {
        gptHeader[0] := 0;
      }
    }

    /** The header checksum, recomputed in place with its own field cleared. */
    method SealBuffer(gptHeader: array<Byte>)
      requires gptHeader.Length >= MIN_HEADER && Fits(gptHeader[..]) && gptHeader != bytes
      modifies gptHeader
      ensures gptHeader[..] == Seal(dev, old(gptHeader[..]))
    {
      hide Get4, Put4;
      ghost var h: Header := gptHeader[..];
      var size := Get4(gptHeader[..], HEADER_SIZE_OFFSET);
      PutInto(gptHeader, HEADER_CRC_OFFSET, 0);
      assert gptHeader[..size] == gptHeader[..][..size];
      var crc := dev.crc(gptHeader[..size]);
      PutInto(gptHeader, HEADER_CRC_OFFSET, crc);
      PutPut(h, HEADER_CRC_OFFSET, 0, crc);
    }

    /** gpt2_set_boot_chain. */
    method Gpt2SetBootChain(chain: Chain) returns (r: int)
      requires WellFormed(dev, Contents())
      modifies bytes
      ensures Outcome(old(Contents()), SetBootChain(dev, old(Contents()), chain), r, Contents())
      ensures reliable ==> Done(old(Contents()), SetBootChain(dev, old(Contents()), chain), r, Contents())
      ensures old(Damaged(dev, Contents())) ==> r == -1 && Contents() == old(Contents())
    {
      hide Get4, Get8, Put4, Store, Torn, Times, SwapBuffer, Crash, Run;
      ghost var d := Contents();
      ghost var p := SetBootChain(dev, d, chain);
      DamagedRefused(dev, d, chain);
      CrashNone(d, p.writes);
      CrashNone(d, []);
      var gptHeader := new Byte[dev.blk];
      var pentries;
      r, pentries := ReadPrimary(gptHeader);
      if r != 0 {
        return -1;
      }
      ghost var h1 := HeaderOf(dev, d, Primary);
      var pentrySize := EntrySize(gptHeader[..]);
      if EntriesCrc(gptHeader[..]) != dev.crc(pentries[..]) {
        return -1;
      }
      r := BlkRead(bytes.Length - dev.blk, gptHeader);
      if r != 0 {
        return -1;
      }
      assert gptHeader[..] == HeaderOf(dev, d, Secondary);
      var pentriesStart := EntriesOffset(dev, gptHeader[..]);
      if chain == BackupBoot {
        r := BootChainSwap(dev.isUfs, pentries, pentrySize, EntryCount(h1));
        if r != 0 {
          return;
        }
      }
      r := WriteSecondary(gptHeader, pentriesStart, pentries);
    }

    /** The start of gpt2_set_boot_chain: the primary header, then the primary entries. */
    method ReadPrimary(gptHeader: array<Byte>) returns (r: int, pentries: array<Byte>)
      requires WellFormed(dev, Contents()) && gptHeader.Length == dev.blk && gptHeader != bytes
      modifies gptHeader
      ensures fresh(pentries) && (r == 0 || r == -1)
      ensures r == 0 ==> gptHeader[..] == HeaderOf(dev, Contents(), Primary)
      ensures r == 0 ==> pentries[..] == EntriesOf(dev, Contents(), Primary)
      ensures reliable ==> r == 0
    {
      hide Get4, Get8, Times;
      r := BlkRead(dev.blk, gptHeader);
      if r != 0 {
        return -1, new Byte[0];
      }
      assert gptHeader[..] == HeaderOf(dev, Contents(), Primary);
      pentries := new Byte[ArraySize(gptHeader[..])];
      r := BlkRead(EntriesOffset(dev, gptHeader[..]), pentries);
    }

    /** The end of gpt2_set_boot_chain: both checksums, the header, then the entries. */
    method WriteSecondary(gptHeader: array<Byte>, pentriesStart: nat, pentries: array<Byte>) returns (r: int)
      requires HasHeaders(dev, Contents()) && gptHeader.Length == dev.blk && Fits(gptHeader[..])
      requires gptHeader != bytes && pentries != bytes && gptHeader != pentries
      requires pentriesStart + pentries.Length <= bytes.Length
      modifies bytes, gptHeader
      ensures var header := WithEntriesCrc(dev, old(gptHeader[..]), dev.crc(old(pentries[..])));
              var ws := [Write(bytes.Length - dev.blk, header, true),
                         Write(pentriesStart, old(pentries[..]), false)];
              Inside(old(Contents()), ws) && Outcome(old(Contents()), Plan(0, ws), r, Contents())
      ensures reliable ==> r == 0
    {
      hide Get4, Get8, Put4, Store, Torn, Times;
      ghost var d := Contents();
      ghost var h: Header := gptHeader[..];
      var crc := dev.crc(pentries[..]);
      CrcFits(h, crc);
      PutInto(gptHeader, PARTITION_CRC_OFFSET, crc);
      SealBuffer(gptHeader);
      ghost var v := Write(bytes.Length - dev.blk, gptHeader[..], true);
      ghost var w := Write(pentriesStart, pentries[..], false);
      assert v.data == WithEntriesCrc(dev, h, crc);
      r := BlkWrite(bytes.Length - dev.blk, gptHeader, true);
      if r != 0 {
        TwoWrites(d, v, w, true, r, Contents());
        return;
      }
      r := BlkWrite(pentriesStart, pentries, false);
      TwoWrites(d, v, w, false, r, Contents());
    }

    /** prepare_partitions, which leaves a corrupt disk as it is and does not succeed, and with a
        damaged primary array writes in no stage but BACKUP. "openOk" and "xbl" are what opening
        the device and switching the XBL boot LUN returned. */
    method PreparePartitions(stage: int, openOk: bool, xbl: Xbl) returns (r: int)
      requires WellFormed(dev, Contents())
      modifies bytes
      ensures || Outcome(old(Contents()), Prepare(dev, old(Contents()), xbl, stage), r, Contents())
              || (r == 1 && Contents() == old(Contents()))
      ensures reliable && openOk ==> Done(old(Contents()), Prepare(dev, old(Contents()), xbl, stage), r, Contents())
      ensures !openOk ==> r == -1 && Contents() == old(Contents())
      ensures old(Corrupt(dev, Contents())) ==> r != 0 && Contents() == old(Contents())
      ensures old(Damaged(dev, Contents())) && stage != UPDATE_BACKUP ==> Contents() == old(Contents())
    {
      hide Get4, Get8, Put4, Store, Torn, Times, Crash, Run, SetBootChain, MainPlan, BackupPlan, FinalizePlan,
           HeaderState, HeaderOf;
      ghost var d := Contents();
      PrepareRefuses(dev, d, xbl, stage);
      CrashNone(d, Prepare(dev, d, xbl, stage).writes);
      if !openOk {
        return -1;
      }
      BothFit(dev, d);
      var prim, second;
      r, prim := GptGetState(Primary);
      if r == 0 {
        r, second := GptGetState(Secondary);
      }
      if r != 0 {
        return 1;
      }
      if prim == BadCrc || second == BadCrc {
        return -1;
      }
      if prim == BadSignature && second == BadSignature {
        return -1;
      }
      var internalStage := if prim == GptOk && second == GptOk then UPDATE_MAIN
                           else if prim == BadSignature then UPDATE_BACKUP else UPDATE_FINALIZE;
      assert internalStage == InternalStage(dev, d);
      if stage == internalStage - 1 {
        return 0;
      }
      if stage != internalStage {
        return -1;
      }
      if stage != UPDATE_FINALIZE && dev.isUfs && xbl == XblFailed {
        return -1;
      }
      if stage == UPDATE_MAIN {
        r := StageMain();
      } else if stage == UPDATE_BACKUP {
        r := StageBackup();
      } else {
        r := StageFinalize();
      }
    }

    /** The MAIN stage of prepare_partitions. */
    method StageMain() returns (r: int)
      requires WellFormed(dev, Contents())
      modifies bytes
      ensures Outcome(old(Contents()), MainPlan(dev, old(Contents())), r, Contents())
      ensures reliable ==> Done(old(Contents()), MainPlan(dev, old(Contents())), r, Contents())
    {
      hide Get4, Get8, Put4, Store, Torn, Times, Crash, Run, SetBootChain, SetState, HeaderOf;
      ghost var d := Contents();
      ghost var p := SetBootChain(dev, d, BackupBoot);
      SetBootChainCodes(dev, d, BackupBoot);
      r := Gpt2SetBootChain(BackupBoot);
      if r != 0 {
        NotDone(d, p, MainPlan(dev, d), r, Contents());
        return if r < 0 then r else 0;
      }
      SetBootChainFits(dev, d, BackupBoot);
      r := GptSetState(Primary, false);
      OutcomeThen(dev, d, p.writes, Primary, false, r, Contents());
    }

    /** The BACKUP stage. */
    method StageBackup() returns (r: int)
      requires WellFormed(dev, Contents())
      modifies bytes
      ensures Outcome(old(Contents()), BackupPlan(dev, old(Contents())), r, Contents())
      ensures reliable ==> Done(old(Contents()), BackupPlan(dev, old(Contents())), r, Contents())
    {
      hide Get4, Get8, Put4, Store, Torn, Times, Crash, Run, SetState, HeaderOf;
      ghost var d := Contents();
      BothFit(dev, d);
      ghost var fix := SetState(dev, d, Primary, true);
      SetStateFits(dev, d, Primary, true);
      RunOne(d, fix);
      r := GptSetState(Primary, true);
      if r != 0 {
        NotDone(d, Plan(0, [fix]), BackupPlan(dev, d), r, Contents());
        return;
      }
      r := GptSetState(Secondary, false);
      OutcomeThen(dev, d, [fix], Secondary, false, r, Contents());
    }

    /** The FINALIZE stage. */
    method StageFinalize() returns (r: int)
      requires WellFormed(dev, Contents())
      modifies bytes
      ensures Outcome(old(Contents()), FinalizePlan(dev, old(Contents())), r, Contents())
      ensures reliable ==> Done(old(Contents()), FinalizePlan(dev, old(Contents())), r, Contents())
    {
      hide Get4, Get8, Put4, Store, Torn, Times, Crash, Run, SetBootChain, SetState, HeaderOf;
      ghost var d := Contents();
      ghost var p := SetBootChain(dev, d, NormalBoot);
      SetBootChainCodes(dev, d, NormalBoot);
      r := Gpt2SetBootChain(NormalBoot);
      if r < 0 {
        NotDone(d, p, FinalizePlan(dev, d), r, Contents());
        return;
      }
      SetBootChainFits(dev, d, NormalBoot);
      r := GptSetState(Secondary, true);
      OutcomeThen(dev, d, p.writes, Secondary, true, r, Contents());
    }
  }

  /** Where the plan has no writes, every outcome leaves the disk. */
  lemma NoOutcome(d: seq<Byte>, p: Plan, r: int, d': seq<Byte>)
    requires p.writes == [] && Inside(d, p.writes) && Outcome(d, p, r, d')
    ensures d' == d && r in {p.r, -1}
  {
  }

  lemma PrepareRefuses(dev: Device, d: seq<Byte>, xbl: Xbl, stage: int)
    requires WellFormed(dev, d)
    ensures var p := Prepare(dev, d, xbl, stage);
            && (Corrupt(dev, d) ==> forall r, d' :: Outcome(d, p, r, d') ==> r == -1 && d' == d)
            && (Damaged(dev, d) && stage != UPDATE_BACKUP ==> forall r, d' :: Outcome(d, p, r, d') ==> d' == d)
  {
    hide WellFormed, Prepare, Corrupt, Damaged, Outcome;
    var p := Prepare(dev, d, xbl, stage);
    if Corrupt(dev, d) {
      CorruptRefused(dev, d, xbl, stage);
      forall r, d' | Outcome(d, p, r, d') ensures r == -1 && d' == d {
        NoOutcome(d, p, r, d');
      }
    }
    if Damaged(dev, d) && stage != UPDATE_BACKUP {
      DamagedUntouched(dev, d, xbl, stage, d);
      forall r, d' | Outcome(d, p, r, d') ensures d' == d {
        NoOutcome(d, p, r, d');
      }
    }
  }

  lemma DamagedRefused(dev: Device, d: seq<Byte>, chain: Chain)
    requires WellFormed(dev, d)
    ensures Damaged(dev, d) ==>
              forall r, d' :: Outcome(d, SetBootChain(dev, d, chain), r, d') ==> r == -1 && d' == d
  {
    hide WellFormed, SetBootChain, Damaged, Outcome;
    SetBootChainExactly(dev, d, chain);
    if Damaged(dev, d) {
      forall r, d' | Outcome(d, SetBootChain(dev, d, chain), r, d') ensures r == -1 && d' == d {
        NoOutcome(d, SetBootChain(dev, d, chain), r, d');
      }
    }
  }

  /** A stage whose first routine did not succeed ends the way that routine ended. */
  lemma NotDone(d: seq<Byte>, p: Plan, whole: Plan, r: int, d': seq<Byte>)
    requires Inside(d, p.writes) && Inside(d, whole.writes) && Outcome(d, p, r, d') && r != 0
    requires p.r != 0 ==> p.writes == []
    requires if p.r == 0 then p.writes <= whole.writes
             else whole == (if p.r < 0 then p else Plan(0, [])) && p.r in {-1, 1}
    ensures Outcome(d, whole, if r < 0 then r else 0, d')
  {
    hide Torn, Store;
    if p.r == 0 {
      var vs := whole.writes[|p.writes|..];
      assert p.writes + vs == whole.writes;
      CrashPrefix(d, p.writes, vs, d');
    }
  }

  lemma CrcFits(h: Header, crc: U32)
    requires Fits(h)
    ensures Fits(Put4(h, PARTITION_CRC_OFFSET, crc))
  {
  }

  lemma BothFit(dev: Device, d: seq<Byte>)
    requires WellFormed(dev, d)
    ensures HasHeaders(dev, d) && forall i: Instance :: Fits(HeaderOf(dev, d, i))
  {
    hide Get4, Get8, Put4, Times;
    assert Fits(HeaderOf(dev, d, Primary)) && Fits(HeaderOf(dev, d, Secondary));
  }

  lemma SetBootChainCodes(dev: Device, d: seq<Byte>, chain: Chain)
    requires WellFormed(dev, d)
    ensures var p := SetBootChain(dev, d, chain);
            p.r in {-1, 0, 1} && (p.r != 0 ==> p.writes == []) && (chain == NormalBoot ==> p.r != 1)
  {
    hide Get4, Get8, Put4, Times, SwapBuffer;
  }
}

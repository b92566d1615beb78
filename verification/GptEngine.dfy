/** The failsafe-update engine on the disks it produces: it refines a machine over four
    values, and from that follow crash atomicity, the full-cycle round trip and recovery. */
module GptEngine {
  import opened Bytes
  import opened PentryArray
  import opened Gpt
  import opened GptForms
  import opened GptImage

  // ---------- The machine over configurations ----------

  datatype Change = SetPrim(ok: bool) | SetSec(ok: bool, crc: U32) | SetEntries(e: seq<Byte>)

  function Apply(c: Config, ch: Change): Config {
    match ch
    case SetPrim(ok) => c.(primOk := ok)
    case SetSec(ok, crc) => c.(secOk := ok, secCrc := crc)
    case SetEntries(e) => c.(sec := e)
  }

  function ApplyAll(c: Config, chs: seq<Change>): Config
    decreases |chs|
  {
    if chs == [] then c else ApplyAll(Apply(c, chs[0]), chs[1..])
  }

  /** The entries of the starting disk, ... */
  function P(dev: Device, d0: seq<Byte>): (p: seq<Byte>)
    requires WellFormed(dev, d0)
    ensures |p| == ArraySize(H1(dev, d0))
  {
    EntriesOf(dev, d0, Primary)
  }

  /** ... the same entries with every listed partition exchanged with its backup, ... */
  function S(dev: Device, d0: seq<Byte>): (s: seq<Byte>)
    requires WellFormed(dev, d0)
    ensures |s| == |P(dev, d0)|
  {
    SwapBuffer(dev.isUfs, P(dev, d0), EntrySize(H1(dev, d0)), EntryCount(H1(dev, d0))).0
  }

  /** ... and whether there is any pair to exchange. */
  predicate Swappable(dev: Device, d0: seq<Byte>)
    requires WellFormed(dev, d0)
  {
    SwapBuffer(dev.isUfs, P(dev, d0), EntrySize(H1(dev, d0)), EntryCount(H1(dev, d0))).1
  }

  /** The configurations of a running update: the primary copy is good, or the secondary one
      is complete and holds exactly the swapped entries. */
  ghost predicate Phase(dev: Device, d0: seq<Byte>, c: Config)
    requires WellFormed(dev, d0)
  {
    && Sized(dev, d0, c)
    && (c.primOk || (Swappable(dev, d0) && c.secOk && c.sec == S(dev, d0) && c.secCrc == dev.crc(S(dev, d0))))
  }

  function StageOf(c: Config): int {
    if c.primOk && c.secOk then UPDATE_MAIN else if c.primOk then UPDATE_FINALIZE else UPDATE_BACKUP
  }

  /** The changes one accepted stage makes. */
  function Changes(dev: Device, d0: seq<Byte>, c: Config): seq<Change>
    requires WellFormed(dev, d0)
  {
    if StageOf(c) == UPDATE_MAIN then
      if Swappable(dev, d0)
      then [SetSec(true, dev.crc(S(dev, d0))), SetEntries(S(dev, d0)), SetPrim(false)]
      else []
    else if StageOf(c) == UPDATE_BACKUP then
      [SetPrim(true), SetSec(false, c.secCrc)]
    else
      [SetSec(false, dev.crc(P(dev, d0))), SetEntries(P(dev, d0)), SetSec(true, dev.crc(P(dev, d0)))]
  }

  predicate Accepted(dev: Device, c: Config, xbl: Xbl, stage: int) {
    stage == StageOf(c) && !(stage != UPDATE_FINALIZE && dev.isUfs && xbl == XblFailed)
  }

  /** A call of prepare_partitions on the machine: return code and changes. */
  function Call(dev: Device, d0: seq<Byte>, c: Config, xbl: Xbl, stage: int): (int, seq<Change>)
    requires WellFormed(dev, d0)
  {
    if Accepted(dev, c, xbl, stage) then (0, Changes(dev, d0, c))
    else (if stage == StageOf(c) - 1 then 0 else -1, [])
  }

  // ---------- Refinement: stages on disks are calls on the machine ----------

  function WriteOf(dev: Device, d0: seq<Byte>, c: Config, ch: Change): Write
    requires WellFormed(dev, d0)
  {
    match ch
    case SetPrim(ok) => Write(dev.blk, Header1(dev, d0, Apply(c, ch)), true)
    case SetSec(ok, crc) => Write(|d0| - dev.blk, Header2(dev, d0, Apply(c, ch)), true)
    case SetEntries(e) => Write(EntriesOffset(dev, H2(dev, d0)), e, false)
  }

  function WritesOf(dev: Device, d0: seq<Byte>, c: Config, chs: seq<Change>): seq<Write>
    requires WellFormed(dev, d0)
    decreases |chs|
  {
    if chs == [] then [] else [WriteOf(dev, d0, c, chs[0])] + WritesOf(dev, d0, Apply(c, chs[0]), chs[1..])
  }

  predicate Fitting(dev: Device, d0: seq<Byte>, chs: seq<Change>)
    requires WellFormed(dev, d0)
  {
    forall i :: 0 <= i < |chs| && chs[i].SetEntries? ==> |chs[i].e| == ArraySize(H1(dev, d0))
  }

  lemma StoreChange(dev: Device, d0: seq<Byte>, c: Config, ch: Change)
    requires WellFormed(dev, d0) && Sized(dev, d0, c) && Fitting(dev, d0, [ch])
    ensures Sized(dev, d0, Apply(c, ch))
    ensures var w := WriteOf(dev, d0, c, ch);
            w.off + |w.data| <= |d0| && Store(Image(dev, d0, c), w.off, w.data) == Image(dev, d0, Apply(c, ch))
  {
    hide Times, Get4, Get8, Put4, Image, Store, Form;
    assert [ch][0] == ch;
    match ch
    case SetPrim(ok) => ImageSetPrimary(dev, d0, c, ok);
    case SetSec(ok, crc) => ImageSetSecondary(dev, d0, c, ok, crc);
    case SetEntries(e) => ImageSetEntries(dev, d0, c, e);
  }

  lemma {:induction false} WritesInside(dev: Device, d0: seq<Byte>, c: Config, chs: seq<Change>)
    requires WellFormed(dev, d0) && Sized(dev, d0, c) && Fitting(dev, d0, chs)
    ensures Inside(d0, WritesOf(dev, d0, c, chs))
    decreases |chs|
  {
    hide Times, Get4, Get8, Put4, Image, Store, Form;
    if chs != [] {
      StoreChange(dev, d0, c, chs[0]);
      WritesInside(dev, d0, Apply(c, chs[0]), chs[1..]);
    }
  }

  /** Completing the writes is applying the changes. */
  lemma {:induction false} RunRefines(dev: Device, d0: seq<Byte>, c: Config, chs: seq<Change>)
    requires WellFormed(dev, d0) && Sized(dev, d0, c) && Fitting(dev, d0, chs)
    ensures Inside(d0, WritesOf(dev, d0, c, chs)) && Sized(dev, d0, ApplyAll(c, chs))
    ensures Run(Image(dev, d0, c), WritesOf(dev, d0, c, chs)) == Image(dev, d0, ApplyAll(c, chs))
    decreases |chs|
  {
    hide Times, Get4, Get8, Put4, Image, Store, Form;
    WritesInside(dev, d0, c, chs);
    if chs != [] {
      var ws := WritesOf(dev, d0, c, chs);
      StoreChange(dev, d0, c, chs[0]);
      RunRefines(dev, d0, Apply(c, chs[0]), chs[1..]);
      assert ws[1..] == WritesOf(dev, d0, Apply(c, chs[0]), chs[1..]);
    }
  }

  /** Cutting the changes short: any prefix, and a torn entries array is arbitrary. */
  ghost predicate CutShort(c: Config, chs: seq<Change>, c': Config)
    decreases |chs|
  {
    c' == c ||
    (chs != [] && (
       (chs[0].SetEntries? && c' == c.(sec := c'.sec) && |c'.sec| == |chs[0].e|) ||
       CutShort(Apply(c, chs[0]), chs[1..], c')))
  }

  /** A crash while the writes are issued is a cut of the changes. */
  lemma {:induction false} CrashRefines(dev: Device, d0: seq<Byte>, c: Config, chs: seq<Change>, d': seq<Byte>)
    returns (c': Config)
    requires WellFormed(dev, d0) && Sized(dev, d0, c) && Fitting(dev, d0, chs)
    requires Inside(d0, WritesOf(dev, d0, c, chs)) && Crash(Image(dev, d0, c), WritesOf(dev, d0, c, chs), d')
    ensures Sized(dev, d0, c') && CutShort(c, chs, c') && d' == Image(dev, d0, c')
    decreases |chs|
  {
    hide Times, Get4, Get8, Put4, Image, Store, Form;
    if chs == [] {
      c' := c;
    } else {
      var ws := WritesOf(dev, d0, c, chs);
      StoreChange(dev, d0, c, chs[0]);
      assert ws[1..] == WritesOf(dev, d0, Apply(c, chs[0]), chs[1..]);
      if Torn(Image(dev, d0, c), ws[0], d') {
        if d' == Image(dev, d0, c) {
          c' := c;
        } else {
          var junk: seq<Byte> :| |junk| == |ws[0].data| && d' == Store(Image(dev, d0, c), ws[0].off, junk);
          c' := c.(sec := junk);
          ImageSetEntries(dev, d0, c, junk);
        }
      } else {
        WritesInside(dev, d0, Apply(c, chs[0]), chs[1..]);
        c' := CrashRefines(dev, d0, Apply(c, chs[0]), chs[1..], d');
      }
    }
  }

  lemma ReadyFacts(dev: Device, d0: seq<Byte>)
    requires Ready(dev, d0)
    ensures GoodSignature(H1(dev, d0)) && GoodSignature(H2(dev, d0))
    ensures EntriesCrc(H1(dev, d0)) == dev.crc(P(dev, d0))
  {
    hide Times, Get4, Get8, Put4;
  }

  /** Header states read from a disk of the family. */
  lemma ImageStates(dev: Device, d0: seq<Byte>, c: Config)
    requires WellFormed(dev, d0) && Sized(dev, d0, c)
    ensures WellFormed(dev, Image(dev, d0, c))
    ensures HeaderState(dev, HeaderOf(dev, Image(dev, d0, c), Primary)) == if c.primOk then GptOk else BadSignature
    ensures HeaderState(dev, HeaderOf(dev, Image(dev, d0, c), Secondary)) == if c.secOk then GptOk else BadSignature
  {
    hide Times, Get4, Get8, Put4, Image, Form, HeaderState;
    ImageIs(dev, d0, c);
    FormState(dev, H1(dev, d0), c.primOk, EntriesCrc(H1(dev, d0)));
    FormState(dev, H2(dev, d0), c.secOk, c.secCrc);
  }

  /** gpt_set_state on such a disk. */
  lemma SetStateRefines(dev: Device, d0: seq<Byte>, c: Config, ok: bool)
    requires Ready(dev, d0) && Sized(dev, d0, c)
    ensures WellFormed(dev, Image(dev, d0, c))
    ensures SetState(dev, Image(dev, d0, c), Primary, ok) == WriteOf(dev, d0, c, SetPrim(ok))
    ensures SetState(dev, Image(dev, d0, c), Secondary, ok) == WriteOf(dev, d0, c, SetSec(ok, c.secCrc))
  {
    hide Times, Get4, Get8, Put4, Image, Form, WithState, WellFormed;
    ReadyFacts(dev, d0);
    ImageWell(dev, d0, c);
    ImageIs(dev, d0, c);
    FormWithState(dev, H1(dev, d0), c.primOk, EntriesCrc(H1(dev, d0)), ok);
    FormWithState(dev, H2(dev, d0), c.secOk, c.secCrc, ok);
  }

  lemma ImageWell(dev: Device, d0: seq<Byte>, c: Config)
    requires WellFormed(dev, d0) && Sized(dev, d0, c)
    ensures WellFormed(dev, d0) && HasHeaders(dev, d0) && Fits(H1(dev, d0)) && Fits(H2(dev, d0))
    ensures var d := Image(dev, d0, c);
            WellFormed(dev, d) && HasHeaders(dev, d) && forall i: Instance :: Fits(HeaderOf(dev, d, i))
  {
    hide Times, Get4, Get8, Put4, Image, Form;
    ImageIs(dev, d0, c);
    assert Fits(HeaderOf(dev, Image(dev, d0, c), Primary));
    assert Fits(HeaderOf(dev, Image(dev, d0, c), Secondary));
  }

  /** gpt2_set_boot_chain on such a disk. */
  lemma BootChainRefines(dev: Device, d0: seq<Byte>, c: Config, chain: Chain)
    requires Ready(dev, d0) && Sized(dev, d0, c)
    ensures WellFormed(dev, Image(dev, d0, c))
    ensures var e := if chain == BackupBoot then S(dev, d0) else P(dev, d0);
            SetBootChain(dev, Image(dev, d0, c), chain) ==
            if chain == BackupBoot && !Swappable(dev, d0) then Plan(1, [])
            else Plan(0, WritesOf(dev, d0, c, [SetSec(c.secOk, dev.crc(e)), SetEntries(e)]))
  {
    hide Times, Get4, Get8, Put4, Image, Form, WithEntriesCrc, SwapBuffer;
    var d := Image(dev, d0, c);
    var e := if chain == BackupBoot then S(dev, d0) else P(dev, d0);
    ReadyFacts(dev, d0);
    ImageWell(dev, d0, c);
    ImageIs(dev, d0, c);
    FormFields(dev, H1(dev, d0), c.primOk, EntriesCrc(H1(dev, d0)));
    FormFields(dev, H2(dev, d0), c.secOk, c.secCrc);
    FormWithCrc(dev, H2(dev, d0), c.secOk, c.secCrc, dev.crc(e));
    WritesOfTwo(dev, d0, c, SetSec(c.secOk, dev.crc(e)), SetEntries(e));
  }

  lemma WritesOfTwo(dev: Device, d0: seq<Byte>, c: Config, x: Change, y: Change)
    requires WellFormed(dev, d0)
    ensures WritesOf(dev, d0, c, [x, y]) == [WriteOf(dev, d0, c, x), WriteOf(dev, d0, Apply(c, x), y)]
  {
    hide Times, Get4, Get8, Put4, WellFormed, Form;
    assert [x, y][1..] == [y] && [y][1..] == [];
    assert WritesOf(dev, d0, Apply(c, x), [y]) == [WriteOf(dev, d0, Apply(c, x), y)];
  }

  lemma WritesOfThree(dev: Device, d0: seq<Byte>, c: Config, x: Change, y: Change, z: Change)
    requires WellFormed(dev, d0)
    ensures WritesOf(dev, d0, c, [x, y, z]) ==
            WritesOf(dev, d0, c, [x, y]) + [WriteOf(dev, d0, Apply(Apply(c, x), y), z)]
  {
    hide Times, Get4, Get8, Put4, WellFormed, Form;
    assert [x, y, z][1..] == [y, z];
    WritesOfTwo(dev, d0, c, x, y);
    WritesOfTwo(dev, d0, Apply(c, x), y, z);
    var u, v, w := WriteOf(dev, d0, c, x), WriteOf(dev, d0, Apply(c, x), y), WriteOf(dev, d0, Apply(Apply(c, x), y), z);
    assert WritesOf(dev, d0, c, [x, y, z]) == [u] + [v, w];
    assert [u] + [v, w] == [u, v] + [w];
  }

  lemma WritesOfNone(dev: Device, d0: seq<Byte>, c: Config)
    requires WellFormed(dev, d0)
    ensures WritesOf(dev, d0, c, []) == []
  {
  }

  lemma ApplyOne(c: Config, x: Change)
    ensures ApplyAll(c, [x]) == Apply(c, x)
  {
    assert [x][1..] == [];
  }

  lemma ApplyTwo(c: Config, x: Change, y: Change)
    ensures ApplyAll(c, [x, y]) == Apply(Apply(c, x), y)
  {
    assert [x, y][1..] == [y];
    ApplyOne(Apply(c, x), y);
  }

  lemma ApplyThree(c: Config, x: Change, y: Change, z: Change)
    ensures ApplyAll(c, [x, y, z]) == Apply(Apply(Apply(c, x), y), z)
  {
    assert [x, y, z][1..] == [y, z];
    ApplyTwo(Apply(c, x), y, z);
  }

  /** gpt_set_state after the changes of "chs", read from the disk they leave. */
  lemma ThenSetStateRefines(dev: Device, d0: seq<Byte>, c: Config, chs: seq<Change>, ok: bool)
    requires Ready(dev, d0) && Sized(dev, d0, c) && Fitting(dev, d0, chs)
    ensures Inside(d0, WritesOf(dev, d0, c, chs)) && Sized(dev, d0, ApplyAll(c, chs))
    ensures var r := Run(Image(dev, d0, c), WritesOf(dev, d0, c, chs));
            var c' := ApplyAll(c, chs);
            && HasHeaders(dev, r) && Fits(HeaderOf(dev, r, Primary)) && Fits(HeaderOf(dev, r, Secondary))
            && SetState(dev, r, Primary, ok) == WriteOf(dev, d0, c', SetPrim(ok))
            && SetState(dev, r, Secondary, ok) == WriteOf(dev, d0, c', SetSec(ok, c'.secCrc))
  {
    hide Times, Get4, Get8, Put4, Image, Form, WithState, WriteOf, WritesOf, SetState;
    RunRefines(dev, d0, c, chs);
    ImageWell(dev, d0, ApplyAll(c, chs));
    SetStateRefines(dev, d0, ApplyAll(c, chs), ok);
  }

  lemma MainRefines(dev: Device, d0: seq<Byte>, c: Config)
    requires Ready(dev, d0) && Sized(dev, d0, c) && StageOf(c) == UPDATE_MAIN
    ensures WellFormed(dev, Image(dev, d0, c))
    ensures MainPlan(dev, Image(dev, d0, c)) == Plan(0, WritesOf(dev, d0, c, Changes(dev, d0, c)))
  {
    hide Times, Get4, Get8, Put4, Image, Form, WriteOf, WritesOf, SetState, SetBootChain, SwapBuffer, HeaderOf, Run;
    BootChainRefines(dev, d0, c, BackupBoot);
    var x, y := SetSec(true, dev.crc(S(dev, d0))), SetEntries(S(dev, d0));
    if Swappable(dev, d0) {
      ThenSetStateRefines(dev, d0, c, [x, y], false);
      ApplyTwo(c, x, y);
      WritesOfThree(dev, d0, c, x, y, SetPrim(false));
    } else {
      WritesOfNone(dev, d0, c);
    }
  }

  lemma BackupRefines(dev: Device, d0: seq<Byte>, c: Config)
    requires Ready(dev, d0) && Sized(dev, d0, c) && StageOf(c) == UPDATE_BACKUP
    ensures WellFormed(dev, Image(dev, d0, c))
    ensures BackupPlan(dev, Image(dev, d0, c)) == Plan(0, WritesOf(dev, d0, c, Changes(dev, d0, c)))
  {
    hide Times, Get4, Get8, Put4, Image, Form, WriteOf, WritesOf, SetState, HeaderOf, Run;
    ImageWell(dev, d0, c);
    SetStateRefines(dev, d0, c, true);
    WritesOfOne(dev, d0, c, SetPrim(true));
    ThenSetStateRefines(dev, d0, c, [SetPrim(true)], false);
    ApplyOne(c, SetPrim(true));
    WritesOfTwo(dev, d0, c, SetPrim(true), SetSec(false, c.secCrc));
  }

  lemma WritesOfOne(dev: Device, d0: seq<Byte>, c: Config, x: Change)
    requires WellFormed(dev, d0)
    ensures WritesOf(dev, d0, c, [x]) == [WriteOf(dev, d0, c, x)]
  {
    hide Times, Get4, Get8, Put4, WellFormed, Form;
    assert [x][1..] == [];
  }

  lemma FinalizeRefines(dev: Device, d0: seq<Byte>, c: Config)
    requires Ready(dev, d0) && Sized(dev, d0, c) && StageOf(c) == UPDATE_FINALIZE
    ensures WellFormed(dev, Image(dev, d0, c))
    ensures FinalizePlan(dev, Image(dev, d0, c)) == Plan(0, WritesOf(dev, d0, c, Changes(dev, d0, c)))
  {
    hide Times, Get4, Get8, Put4, Image, Form, WriteOf, WritesOf, SetState, SetBootChain, SwapBuffer, HeaderOf, Run;
    BootChainRefines(dev, d0, c, NormalBoot);
    var x, y := SetSec(false, dev.crc(P(dev, d0))), SetEntries(P(dev, d0));
    ThenSetStateRefines(dev, d0, c, [x, y], true);
    ApplyTwo(c, x, y);
    WritesOfThree(dev, d0, c, x, y, SetSec(true, dev.crc(P(dev, d0))));
  }

  /** Every call of prepare_partitions on a disk of the family is the call on its configuration. */
  lemma PrepareRefines(dev: Device, d0: seq<Byte>, c: Config, xbl: Xbl, stage: int)
    requires Ready(dev, d0) && Phase(dev, d0, c)
    ensures WellFormed(dev, Image(dev, d0, c))
    ensures var (r, chs) := Call(dev, d0, c, xbl, stage);
            Fitting(dev, d0, chs) && Prepare(dev, Image(dev, d0, c), xbl, stage) == Plan(r, WritesOf(dev, d0, c, chs))
  {
    hide Times, Get4, Get8, Put4, Image, Form, WriteOf, HeaderState, HeaderOf,
         MainPlan, BackupPlan, FinalizePlan, WellFormed, SwapBuffer, EntriesOf;
    ImageStates(dev, d0, c);
    assert InternalStage(dev, Image(dev, d0, c)) == StageOf(c);
    WritesOfNone(dev, d0, c);
    if Accepted(dev, c, xbl, stage) {
      if stage == UPDATE_MAIN {
        MainRefines(dev, d0, c);
      } else if stage == UPDATE_BACKUP {
        BackupRefines(dev, d0, c);
      } else {
        FinalizeRefines(dev, d0, c);
      }
    }
  }
}

/** What the failsafe update promises, on disks: never without a usable table, never a mix,
    a full cycle that returns to the start, and recovery after a crash. */
module GptTheorems {
  import opened Bytes
  import opened Gpt
  import opened GptForms
  import opened GptImage
  import opened GptEngine

  /** The disks a run of the engine can be on. */
  ghost predicate Reached(dev: Device, d0: seq<Byte>, d: seq<Byte>)
    requires WellFormed(dev, d0)
  {
    exists c :: Phase(dev, d0, c) && d == Image(dev, d0, c)
  }

  /** A call of prepare_partitions. */
  datatype CallArgs = CallArgs(stage: int, xbl: Xbl)

  /** A call that completed, or was cut short by a crash or a failed write. */
  ghost predicate Step(dev: Device, d: seq<Byte>, call: CallArgs, d': seq<Byte>) {
    WellFormed(dev, d) && Crash(d, Prepare(dev, d, call.xbl, call.stage).writes, d')
  }

  /** A call that returns r with all its writes done. */
  ghost predicate Returns(dev: Device, d: seq<Byte>, call: CallArgs, r: int, d': seq<Byte>) {
    WellFormed(dev, d) && Prepare(dev, d, call.xbl, call.stage).r == r
    && d' == Run(d, Prepare(dev, d, call.xbl, call.stage).writes)
  }

  /** A history: the disk before the first call and after each. */
  ghost predicate History(dev: Device, d0: seq<Byte>, calls: seq<CallArgs>, ds: seq<seq<Byte>>) {
    && |ds| == |calls| + 1 && ds[0] == d0
    && forall i :: 0 <= i < |calls| ==> Step(dev, ds[i], calls[i], ds[i + 1])
  }

  // ---------- On configurations ----------

  lemma CutTwo(c: Config, x: Change, y: Change, c': Config)
    requires !x.SetEntries? && !y.SetEntries? && CutShort(c, [x, y], c')
    ensures c' == c || c' == Apply(c, x) || c' == Apply(Apply(c, x), y)
  {
    assert [x, y][1..] == [y] && [y][1..] == [];
    if c' != c {
      assert CutShort(Apply(c, x), [y], c');
      if c' != Apply(c, x) {
        assert CutShort(Apply(Apply(c, x), y), [], c');
      }
    }
  }

  lemma CutThree(c: Config, x: Change, y: Change, z: Change, c': Config)
    requires !x.SetEntries? && y.SetEntries? && !z.SetEntries? && CutShort(c, [x, y, z], c')
    ensures || c' == c || (c' == Apply(c, x).(sec := c'.sec) && (|c'.sec| == |y.e| || c'.sec == c.sec))
            || c' == Apply(Apply(c, x), y) || c' == Apply(Apply(Apply(c, x), y), z)
  {
    assert [x, y, z][1..] == [y, z] && [y, z][1..] == [z] && [z][1..] == [];
    if c' != c {
      assert CutShort(Apply(c, x), [y, z], c');
      if c' != Apply(c, x) && !(c' == Apply(c, x).(sec := c'.sec) && |c'.sec| == |y.e|) {
        assert CutShort(Apply(Apply(c, x), y), [z], c');
        if c' != Apply(Apply(c, x), y) {
          assert CutShort(Apply(Apply(Apply(c, x), y), z), [], c');
        }
      }
    }
  }

  /** Where a call cut short can leave the machine. */
  lemma CallKeepsPhase(dev: Device, d0: seq<Byte>, c: Config, xbl: Xbl, stage: int, c': Config)
    requires WellFormed(dev, d0) && Phase(dev, d0, c)
    requires CutShort(c, Call(dev, d0, c, xbl, stage).1, c')
    ensures Phase(dev, d0, c')
  {
    hide Times, Get4, Get8, Put4, WellFormed, S, P, Swappable;
    var s, p := S(dev, d0), P(dev, d0);
    if Accepted(dev, c, xbl, stage) {
      if StageOf(c) == UPDATE_MAIN {
        if Swappable(dev, d0) {
          CutThree(c, SetSec(true, dev.crc(s)), SetEntries(s), SetPrim(false), c');
        }
      } else if StageOf(c) == UPDATE_BACKUP {
        CutTwo(c, SetPrim(true), SetSec(false, c.secCrc), c');
      } else {
        CutThree(c, SetSec(false, dev.crc(p)), SetEntries(p), SetSec(true, dev.crc(p)), c');
      }
    }
  }

  // ---------- On disks ----------

  /** Every step of the engine stays on the disks described by Phase. */
  lemma StepKeepsReached(dev: Device, d0: seq<Byte>, d: seq<Byte>, call: CallArgs, d': seq<Byte>)
    requires Ready(dev, d0) && Reached(dev, d0, d)
    requires Step(dev, d, call, d')
    ensures Reached(dev, d0, d')
  {
    hide Times, Get4, Get8, Put4, Image, Prepare, Crash, Call, CutShort;
    var c :| Phase(dev, d0, c) && d == Image(dev, d0, c);
    PrepareRefines(dev, d0, c, call.xbl, call.stage);
    var chs := Call(dev, d0, c, call.xbl, call.stage).1;
    WritesInside(dev, d0, c, chs);
    var c' := CrashRefines(dev, d0, c, chs, d');
    CallKeepsPhase(dev, d0, c, call.xbl, call.stage, c');
  }

  lemma StartReached(dev: Device, d0: seq<Byte>)
    requires Ready(dev, d0)
    ensures Reached(dev, d0, d0)
  {
    hide Times, Get4, Get8, Put4, Image;
    ImageOfStart(dev, d0);
    assert Phase(dev, d0, Start(dev, d0));
  }

  /** The table in force on a disk of the run: the old entries while the primary header is
      good, the swapped entries while it is broken; nothing else, and never none. */
  lemma ReachedTable(dev: Device, d0: seq<Byte>, d: seq<Byte>)
    requires Ready(dev, d0) && Reached(dev, d0, d)
    ensures WellFormed(dev, d) && |d| == |d0|
    ensures HeaderState(dev, HeaderOf(dev, d, Primary)) == GptOk ==> InForce(dev, d) == Table(P(dev, d0))
    ensures HeaderState(dev, HeaderOf(dev, d, Primary)) != GptOk ==>
              InForce(dev, d) == Table(S(dev, d0)) && Swappable(dev, d0)
    ensures Usable(dev, d, Primary) || Usable(dev, d, Secondary)
  {
    hide Times, Get4, Get8, Put4, Image, Form, HeaderState, S, Swappable, EntriesOffset;
    var c :| Phase(dev, d0, c) && d == Image(dev, d0, c);
    ImageStates(dev, d0, c);
    ImageIs(dev, d0, c);
    ReadyFacts(dev, d0);
    FormFields(dev, H1(dev, d0), c.primOk, EntriesCrc(H1(dev, d0)));
    FormFields(dev, H2(dev, d0), c.secOk, c.secCrc);
  }

  /** No stage ever writes the primary entries, or anything outside the two headers and the
      secondary entries. */
  lemma ReachedOutside(dev: Device, d0: seq<Byte>, d: seq<Byte>, o: nat, len: nat)
    requires Ready(dev, d0) && Reached(dev, d0, d) && Outside(dev, d0, o, len)
    ensures |d| == |d0| && d[o..o + len] == d0[o..o + len]
  {
    hide Times, Get4, Get8, Put4, Image;
    var c :| Phase(dev, d0, c) && d == Image(dev, d0, c);
    ImageOutside(dev, d0, c, o, len);
  }

  lemma {:induction false} HistoryReached(dev: Device, d0: seq<Byte>, calls: seq<CallArgs>, ds: seq<seq<Byte>>, i: nat)
    requires Ready(dev, d0) && History(dev, d0, calls, ds) && i < |ds|
    ensures Reached(dev, d0, ds[i])
  {
    hide Step, Reached, Ready;
    if i == 0 {
      StartReached(dev, d0);
    } else {
      HistoryReached(dev, d0, calls, ds, i - 1);
      StepKeepsReached(dev, d0, ds[i - 1], calls[i - 1], ds[i]);
    }
  }

  /** Crash atomicity: after any calls, each possibly cut short by a crash at any write, some
      copy is usable and the table in force is the old one or the swapped one, exactly. */
  lemma CrashAtomic(dev: Device, d0: seq<Byte>, calls: seq<CallArgs>, ds: seq<seq<Byte>>, i: nat)
    requires Ready(dev, d0) && History(dev, d0, calls, ds) && i < |ds|
    ensures WellFormed(dev, ds[i]) && |ds[i]| == |d0|
    ensures Usable(dev, ds[i], Primary) || Usable(dev, ds[i], Secondary)
    ensures InForce(dev, ds[i]) in {Table(P(dev, d0)), Table(S(dev, d0))}
    ensures EntriesOf(dev, ds[i], Primary) == P(dev, d0)
  {
    hide Step, Usable, InForce, Ready, HeaderState, P, S, EntriesOf, Reached;
    HistoryReached(dev, d0, calls, ds, i);
    ReachedTable(dev, d0, ds[i]);
    ReachedEntries(dev, d0, ds[i]);
  }

  lemma ReachedEntries(dev: Device, d0: seq<Byte>, d: seq<Byte>)
    requires Ready(dev, d0) && Reached(dev, d0, d)
    ensures WellFormed(dev, d) && EntriesOf(dev, d, Primary) == P(dev, d0)
  {
    hide Times, Get4, Get8, Put4, Image, EntriesOf;
    var c :| Phase(dev, d0, c) && d == Image(dev, d0, c);
    ImageIs(dev, d0, c);
  }

  // ---------- Complete calls, the full cycle, and recovery ----------

  /** The configuration after a call that runs to its end. */
  function After(dev: Device, d0: seq<Byte>, c: Config, xbl: Xbl, stage: int): Config
    requires WellFormed(dev, d0)
  {
    ApplyAll(c, Call(dev, d0, c, xbl, stage).1)
  }

  lemma StageRead(dev: Device, d0: seq<Byte>, c: Config)
    requires Ready(dev, d0) && Phase(dev, d0, c)
    ensures WellFormed(dev, Image(dev, d0, c)) && InternalStage(dev, Image(dev, d0, c)) == StageOf(c)
  {
    hide Times, Get4, Get8, Put4, Image, HeaderState, HeaderOf;
    ImageStates(dev, d0, c);
  }

  lemma AfterFits(dev: Device, d0: seq<Byte>, c: Config, xbl: Xbl, stage: int)
    requires Ready(dev, d0) && Phase(dev, d0, c)
    ensures Sized(dev, d0, After(dev, d0, c, xbl, stage))
  {
    hide Times, Get4, Get8, Put4, Image, Call;
    PrepareRefines(dev, d0, c, xbl, stage);
    RunRefines(dev, d0, c, Call(dev, d0, c, xbl, stage).1);
  }

  lemma CompleteCall(dev: Device, d0: seq<Byte>, c: Config, xbl: Xbl, stage: int)
    requires Ready(dev, d0) && Phase(dev, d0, c)
    ensures Sized(dev, d0, After(dev, d0, c, xbl, stage))
    ensures Returns(dev, Image(dev, d0, c), CallArgs(stage, xbl), Call(dev, d0, c, xbl, stage).0,
                    Image(dev, d0, After(dev, d0, c, xbl, stage)))
  {
    hide Times, Get4, Get8, Put4, Image, Prepare, Call, WritesOf, Run, Inside;
    AfterFits(dev, d0, c, xbl, stage);
    PrepareRefines(dev, d0, c, xbl, stage);
    RunRefines(dev, d0, c, Call(dev, d0, c, xbl, stage).1);
  }

  /** What an accepted stage makes of a configuration. */
  lemma AfterStage(dev: Device, d0: seq<Byte>, c: Config, xbl: Xbl)
    requires WellFormed(dev, d0) && Phase(dev, d0, c) && Accepted(dev, c, xbl, StageOf(c))
    ensures var s, p := S(dev, d0), P(dev, d0);
            After(dev, d0, c, xbl, StageOf(c)) ==
            if StageOf(c) == UPDATE_MAIN then (if Swappable(dev, d0) then Config(false, true, dev.crc(s), s) else c)
            else if StageOf(c) == UPDATE_BACKUP then c.(primOk := true, secOk := false)
            else Config(true, true, dev.crc(p), p)
    ensures Phase(dev, d0, After(dev, d0, c, xbl, StageOf(c)))
  {
    hide Times, Get4, Get8, Put4, WellFormed, S, P, Swappable;
    var s, p := S(dev, d0), P(dev, d0);
    if StageOf(c) == UPDATE_MAIN {
      ApplyThree(c, SetSec(true, dev.crc(s)), SetEntries(s), SetPrim(false));
    } else if StageOf(c) == UPDATE_BACKUP {
      ApplyTwo(c, SetPrim(true), SetSec(false, c.secCrc));
    } else {
      ApplyThree(c, SetSec(false, dev.crc(p)), SetEntries(p), SetSec(true, dev.crc(p)));
    }
  }

  /** An accepted stage that runs to its end, on the disk of a configuration. */
  lemma AcceptedCall(dev: Device, d0: seq<Byte>, c: Config, xbl: Xbl) returns (c': Config)
    requires Ready(dev, d0) && Phase(dev, d0, c) && Accepted(dev, c, xbl, StageOf(c))
    ensures c' == After(dev, d0, c, xbl, StageOf(c)) && Phase(dev, d0, c')
    ensures Returns(dev, Image(dev, d0, c), CallArgs(StageOf(c), xbl), 0, Image(dev, d0, c'))
  {
    hide Times, Get4, Get8, Put4, Image, Prepare, S, P, Swappable, Changes, WellFormed, Returns;
    AfterStage(dev, d0, c, xbl);
    c' := After(dev, d0, c, xbl, StageOf(c));
    CompleteCall(dev, d0, c, xbl, StageOf(c));
  }

  /** The table in force on the disk of a configuration. */
  lemma PhaseTable(dev: Device, d0: seq<Byte>, c: Config)
    requires Ready(dev, d0) && Phase(dev, d0, c)
    ensures WellFormed(dev, Image(dev, d0, c))
    ensures InForce(dev, Image(dev, d0, c)) == if c.primOk then Table(P(dev, d0)) else Table(S(dev, d0))
  {
    hide Times, Get4, Get8, Put4, Image, HeaderState, HeaderOf, InForce, S, P, Swappable;
    assert Reached(dev, d0, Image(dev, d0, c));
    ImageStates(dev, d0, c);
    ReachedTable(dev, d0, Image(dev, d0, c));
  }

  /** Some disk with this table in force. */
  ghost predicate HasTable(dev: Device, d: seq<Byte>, entries: seq<Byte>) {
    WellFormed(dev, d) && InForce(dev, d) == Table(entries)
  }

  /** Both copies usable and holding the same entries. */
  ghost predicate BothHold(dev: Device, d: seq<Byte>, entries: seq<Byte>) {
    && WellFormed(dev, d)
    && Usable(dev, d, Primary) && EntriesOf(dev, d, Primary) == entries
    && Usable(dev, d, Secondary) && EntriesOf(dev, d, Secondary) == entries
  }

  predicate XblFine(dev: Device, xbl: Xbl) {
    !(dev.isUfs && xbl == XblFailed)
  }

  /** From a ready disk with something to swap the three stages all return 0; the swapped table
      is in force after the first and the old one after the second; at the end both copies hold
      the old entries, and the disk is byte-identical to the start exactly when both copies
      held them to begin with. */
  lemma FullCycle(dev: Device, d0: seq<Byte>, x1: Xbl, x2: Xbl, x3: Xbl)
    returns (d1: seq<Byte>, d2: seq<Byte>, d3: seq<Byte>)
    requires Ready(dev, d0) && Swappable(dev, d0) && XblFine(dev, x1) && XblFine(dev, x2)
    ensures Returns(dev, d0, CallArgs(UPDATE_MAIN, x1), 0, d1) && HasTable(dev, d1, S(dev, d0))
    ensures Returns(dev, d1, CallArgs(UPDATE_BACKUP, x2), 0, d2) && HasTable(dev, d2, P(dev, d0))
    ensures Returns(dev, d2, CallArgs(UPDATE_FINALIZE, x3), 0, d3) && BothHold(dev, d3, P(dev, d0))
    ensures d3 == d0 <==> BothHold(dev, d0, P(dev, d0))
  {
    hide Times, Get4, Get8, Put4, Image, After, S, P, InForce, Usable, EntriesOf, WellFormed, Returns,
         BothHold, Swappable;
    var c0 := CycleStart(dev, d0);
    AfterStage(dev, d0, c0, x1);
    var c1 := AcceptedCall(dev, d0, c0, x1);
    d1 := Image(dev, d0, c1);
    PhaseTable(dev, d0, c1);
    AfterStage(dev, d0, c1, x2);
    var c2 := AcceptedCall(dev, d0, c1, x2);
    d2 := Image(dev, d0, c2);
    PhaseTable(dev, d0, c2);
    AfterStage(dev, d0, c2, x3);
    var c3 := AcceptedCall(dev, d0, c2, x3);
    d3 := Image(dev, d0, c3);
    CycleEnd(dev, d0, c3);
  }

  lemma CycleStart(dev: Device, d0: seq<Byte>) returns (c0: Config)
    requires Ready(dev, d0)
    ensures c0.primOk && c0.secOk && Phase(dev, d0, c0) && Image(dev, d0, c0) == d0
  {
    hide Times, Get4, Get8, Put4, Image;
    c0 := Start(dev, d0);
    ImageOfStart(dev, d0);
  }

  lemma CycleEnd(dev: Device, d0: seq<Byte>, c: Config)
    requires Ready(dev, d0) && c == Config(true, true, dev.crc(P(dev, d0)), P(dev, d0))
    ensures Sized(dev, d0, c) && BothHold(dev, Image(dev, d0, c), P(dev, d0))
    ensures Image(dev, d0, c) == d0 <==> BothHold(dev, d0, P(dev, d0))
  {
    hide Times, Get4, Get8, Put4, Image, EntriesOf, EntriesOffset, Form, HeaderState;
    ImageStates(dev, d0, c);
    ImageIs(dev, d0, c);
    ReadyFacts(dev, d0);
    FormFields(dev, H1(dev, d0), true, EntriesCrc(H1(dev, d0)));
    FormFields(dev, H2(dev, d0), true, c.secCrc);
    ImageOfStart(dev, d0);
    if BothHold(dev, d0, P(dev, d0)) {
      assert c == Start(dev, d0);
    }
  }

  // ---------- Recovery ----------

  lemma ReachedConfig(dev: Device, d0: seq<Byte>, d: seq<Byte>) returns (c: Config)
    requires Ready(dev, d0) && Reached(dev, d0, d)
    ensures Phase(dev, d0, c) && d == Image(dev, d0, c)
    ensures AtStage(dev, d, StageOf(c))
  {
    hide Times, Get4, Get8, Put4, Image, InternalStage;
    c :| Phase(dev, d0, c) && d == Image(dev, d0, c);
    StageRead(dev, d0, c);
  }

  /** The stage the headers stand for. */
  ghost predicate AtStage(dev: Device, d: seq<Byte>, stage: int) {
    WellFormed(dev, d) && InternalStage(dev, d) == stage
  }

  /** The configurations of a stage cut short. */
  lemma CrashConfig(dev: Device, d0: seq<Byte>, c: Config, xbl: Xbl, stage: int, d': seq<Byte>) returns (c': Config)
    requires Ready(dev, d0) && Phase(dev, d0, c)
    requires Step(dev, Image(dev, d0, c), CallArgs(stage, xbl), d')
    ensures Phase(dev, d0, c') && d' == Image(dev, d0, c') && CutShort(c, Call(dev, d0, c, xbl, stage).1, c')
    ensures AtStage(dev, d', StageOf(c'))
  {
    hide Times, Get4, Get8, Put4, Image, Prepare, Crash, Call, CutShort, HeaderState, InternalStage;
    PrepareRefines(dev, d0, c, xbl, stage);
    var chs := Call(dev, d0, c, xbl, stage).1;
    WritesInside(dev, d0, c, chs);
    c' := CrashRefines(dev, d0, c, chs, d');
    CallKeepsPhase(dev, d0, c, xbl, stage, c');
    StageRead(dev, d0, c');
  }

  /** A call of MAIN cut short anywhere: calling MAIN again returns 0 and ends on the very disk
      the uninterrupted call leaves. */
  lemma MainAgain(dev: Device, d0: seq<Byte>, d: seq<Byte>, x: Xbl, d': seq<Byte>, x': Xbl) returns (e: seq<Byte>)
    requires Ready(dev, d0) && Reached(dev, d0, d) && XblFine(dev, x) && XblFine(dev, x')
    requires AtStage(dev, d, UPDATE_MAIN) && Step(dev, d, CallArgs(UPDATE_MAIN, x), d')
    ensures Returns(dev, d, CallArgs(UPDATE_MAIN, x), 0, e)
    ensures Returns(dev, d', CallArgs(UPDATE_MAIN, x'), 0, e)
  {
    hide Times, Get4, Get8, Put4, Image, After, S, P, Swappable, InternalStage, Step, Changes, WellFormed,
         Returns, CutShort;
    var c := ReachedConfig(dev, d0, d);
    assert StageOf(c) == UPDATE_MAIN;
    var c' := CrashConfig(dev, d0, c, x, UPDATE_MAIN, d');
    MainCut(dev, d0, c, x, c');
    AfterStage(dev, d0, c, x);
    var e0 := AcceptedCall(dev, d0, c, x);
    e := Image(dev, d0, e0);
    if c'.primOk {
      AfterStage(dev, d0, c', x');
      var e1 := AcceptedCall(dev, d0, c', x');
    } else {
      IdleCall(dev, d0, c', x', UPDATE_MAIN);
    }
  }

  /** A call that is not accepted returns at once: 0 when the stage is already set, else -1. */
  lemma IdleCall(dev: Device, d0: seq<Byte>, c: Config, xbl: Xbl, stage: int)
    requires Ready(dev, d0) && Phase(dev, d0, c) && stage != StageOf(c)
    ensures Returns(dev, Image(dev, d0, c), CallArgs(stage, xbl), if stage == StageOf(c) - 1 then 0 else -1,
                    Image(dev, d0, c))
  {
    hide Times, Get4, Get8, Put4, Image, Returns, Changes, WellFormed, S, P, Swappable;
    CompleteCall(dev, d0, c, xbl, stage);
  }

  lemma MainCut(dev: Device, d0: seq<Byte>, c: Config, x: Xbl, c': Config)
    requires WellFormed(dev, d0) && Phase(dev, d0, c) && StageOf(c) == UPDATE_MAIN
    requires CutShort(c, Call(dev, d0, c, x, UPDATE_MAIN).1, c')
    ensures !Swappable(dev, d0) ==> c' == c
    ensures c'.secOk && (!c'.primOk ==> c' == Config(false, true, dev.crc(S(dev, d0)), S(dev, d0)))
  {
    hide Times, Get4, Get8, Put4, WellFormed, S, P, Swappable;
    var s := S(dev, d0);
    if Accepted(dev, c, x, UPDATE_MAIN) && Swappable(dev, d0) {
      CutThree(c, SetSec(true, dev.crc(s)), SetEntries(s), SetPrim(false), c');
    }
  }

  lemma FinalizeCut(dev: Device, d0: seq<Byte>, c: Config, x: Xbl, c': Config)
    requires WellFormed(dev, d0) && Phase(dev, d0, c) && StageOf(c) == UPDATE_FINALIZE
    requires CutShort(c, Call(dev, d0, c, x, UPDATE_FINALIZE).1, c')
    ensures c'.primOk && (c'.secOk ==> c' == Config(true, true, dev.crc(P(dev, d0)), P(dev, d0)))
  {
    hide Times, Get4, Get8, Put4, WellFormed, S, P, Swappable;
    var p := P(dev, d0);
    CutThree(c, SetSec(false, dev.crc(p)), SetEntries(p), SetSec(true, dev.crc(p)), c');
  }

  /** A call of FINALIZE cut short anywhere: calling it again ends on the very disk the
      uninterrupted call leaves; it returns 0, or -1 with nothing written when that call had
      in fact finished. */
  lemma FinalizeAgain(dev: Device, d0: seq<Byte>, d: seq<Byte>, x: Xbl, d': seq<Byte>, x': Xbl) returns (e: seq<Byte>)
    requires Ready(dev, d0) && Reached(dev, d0, d)
    requires AtStage(dev, d, UPDATE_FINALIZE) && Step(dev, d, CallArgs(UPDATE_FINALIZE, x), d')
    ensures Returns(dev, d, CallArgs(UPDATE_FINALIZE, x), 0, e)
    ensures if AtStage(dev, d', UPDATE_FINALIZE) then Returns(dev, d', CallArgs(UPDATE_FINALIZE, x'), 0, e)
            else d' == e && Returns(dev, e, CallArgs(UPDATE_FINALIZE, x'), -1, e)
  {
    hide Times, Get4, Get8, Put4, Image, After, S, P, Swappable, InternalStage, Step, Changes, WellFormed,
         Returns, CutShort;
    var c := ReachedConfig(dev, d0, d);
    assert StageOf(c) == UPDATE_FINALIZE;
    var c' := CrashConfig(dev, d0, c, x, UPDATE_FINALIZE, d');
    FinalizeCut(dev, d0, c, x, c');
    AfterStage(dev, d0, c, x);
    var e0 := AcceptedCall(dev, d0, c, x);
    e := Image(dev, d0, e0);
    if c'.secOk {
      IdleCall(dev, d0, c', x', UPDATE_FINALIZE);
    } else {
      AfterStage(dev, d0, c', x');
      var e1 := AcceptedCall(dev, d0, c', x');
    }
  }

  lemma BackupCut(dev: Device, d0: seq<Byte>, c: Config, x: Xbl, c': Config)
    requires WellFormed(dev, d0) && Phase(dev, d0, c) && StageOf(c) == UPDATE_BACKUP
    requires CutShort(c, Call(dev, d0, c, x, UPDATE_BACKUP).1, c')
    ensures c' == c || c' == c.(primOk := true) || c' == c.(primOk := true, secOk := false)
  {
    hide Times, Get4, Get8, Put4, WellFormed, S, P, Swappable;
    if Accepted(dev, c, x, UPDATE_BACKUP) {
      CutTwo(c, SetPrim(true), SetSec(false, c.secCrc), c');
    }
  }

  /** A call of BACKUP cut short. Before the first write BACKUP is accepted again. Between the
      two writes BACKUP is refused, but MAIN is accepted and restores the very disk on which
      BACKUP was called. After both writes BACKUP reports the stage as already set. */
  lemma BackupAgain(dev: Device, d0: seq<Byte>, d: seq<Byte>, x: Xbl, d': seq<Byte>, x': Xbl) returns (e: seq<Byte>)
    requires Ready(dev, d0) && Reached(dev, d0, d) && XblFine(dev, x) && XblFine(dev, x')
    requires AtStage(dev, d, UPDATE_BACKUP) && Step(dev, d, CallArgs(UPDATE_BACKUP, x), d')
    ensures Returns(dev, d, CallArgs(UPDATE_BACKUP, x), 0, e)
    ensures AtStage(dev, d', UPDATE_BACKUP) ==> d' == d
    ensures AtStage(dev, d', UPDATE_MAIN) ==>
              Returns(dev, d', CallArgs(UPDATE_BACKUP, x'), -1, d') && Returns(dev, d', CallArgs(UPDATE_MAIN, x'), 0, d)
    ensures AtStage(dev, d', UPDATE_FINALIZE) ==> d' == e && Returns(dev, e, CallArgs(UPDATE_BACKUP, x'), 0, e)
    ensures AtStage(dev, d', UPDATE_BACKUP) || AtStage(dev, d', UPDATE_MAIN) || AtStage(dev, d', UPDATE_FINALIZE)
  {
    hide Times, Get4, Get8, Put4, Image, After, S, P, Swappable, InternalStage, Step, Changes, WellFormed,
         Returns, CutShort;
    var c := ReachedConfig(dev, d0, d);
    assert StageOf(c) == UPDATE_BACKUP;
    var c' := CrashConfig(dev, d0, c, x, UPDATE_BACKUP, d');
    BackupCut(dev, d0, c, x, c');
    AfterStage(dev, d0, c, x);
    var e0 := AcceptedCall(dev, d0, c, x);
    e := Image(dev, d0, e0);
    if StageOf(c') == UPDATE_MAIN {
      AfterStage(dev, d0, c', x');
      var e1 := AcceptedCall(dev, d0, c', x');
      IdleCall(dev, d0, c', x', UPDATE_BACKUP);
    } else if StageOf(c') == UPDATE_FINALIZE {
      IdleCall(dev, d0, c', x', UPDATE_BACKUP);
    }
  }

  /** From any disk of the run, so also after any crashes, the update can be brought to its end.
      At stage FINALIZE one call does it, at stage BACKUP that call after BACKUP: all return 0
      and both copies hold the old entries. At stage MAIN the disk is one on which the cycle may
      start, with the same entries. */
  lemma Completes(dev: Device, d0: seq<Byte>, d: seq<Byte>, x: Xbl, y: Xbl) returns (m: seq<Byte>, e: seq<Byte>)
    requires Ready(dev, d0) && Reached(dev, d0, d) && XblFine(dev, x)
    ensures AtStage(dev, d, UPDATE_MAIN) || AtStage(dev, d, UPDATE_BACKUP) || AtStage(dev, d, UPDATE_FINALIZE)
    ensures AtStage(dev, d, UPDATE_MAIN) ==> Ready(dev, d) && P(dev, d) == P(dev, d0)
    ensures AtStage(dev, d, UPDATE_BACKUP) ==> Returns(dev, d, CallArgs(UPDATE_BACKUP, x), 0, m)
    ensures AtStage(dev, d, UPDATE_FINALIZE) ==> m == d
    ensures !AtStage(dev, d, UPDATE_MAIN) ==>
              Returns(dev, m, CallArgs(UPDATE_FINALIZE, y), 0, e) && BothHold(dev, e, P(dev, d0))
  {
    hide Times, Get4, Get8, Put4, Image, After, S, InternalStage, Changes, WellFormed, Usable, HeaderState,
         Returns, BothHold, P;
    var c := ReachedConfig(dev, d0, d);
    m, e := d, d;
    if StageOf(c) == UPDATE_MAIN {
      MainIsReady(dev, d0, d, c);
    } else {
      if StageOf(c) == UPDATE_BACKUP {
        AfterStage(dev, d0, c, x);
        c := AcceptedCall(dev, d0, c, x);
        m := Image(dev, d0, c);
      }
      AfterStage(dev, d0, c, y);
      c := AcceptedCall(dev, d0, c, y);
      e := Image(dev, d0, c);
      CycleEnd(dev, d0, c);
    }
  }

  lemma MainIsReady(dev: Device, d0: seq<Byte>, d: seq<Byte>, c: Config)
    requires Ready(dev, d0) && Phase(dev, d0, c) && d == Image(dev, d0, c) && StageOf(c) == UPDATE_MAIN
    ensures Ready(dev, d) && P(dev, d) == P(dev, d0)
  {
    hide Times, Get4, Get8, Put4, Image, Form, HeaderState, EntriesOffset, Swappable, S;
    ImageStates(dev, d0, c);
    ImageIs(dev, d0, c);
    ReadyFacts(dev, d0);
    FormFields(dev, H1(dev, d0), c.primOk, EntriesCrc(H1(dev, d0)));
    FormFields(dev, H2(dev, d0), c.secOk, c.secCrc);
  }

  /** On any well-formed disk: a call that does not return 0 writes nothing. */
  lemma RefusedWritesNothing(dev: Device, d: seq<Byte>, xbl: Xbl, stage: int)
    requires WellFormed(dev, d)
    ensures Prepare(dev, d, xbl, stage).r in {0, -1}
    ensures Prepare(dev, d, xbl, stage).r != 0 ==> Prepare(dev, d, xbl, stage).writes == []
  {
    hide Times, Get4, Get8, Put4, WellFormed, HeaderState, HeaderOf, EntriesOf;
  }
}

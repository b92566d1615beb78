/** The thread that hands notifications to the application: a queue of notifications, a queue
    of commands, and the snapshot counter. Every command is sent successfully. */
module Notifier {
  /** Snapshot counters are 32 bits wide. */
  const COUNTER_LIMIT := 0x1_0000_0000
  type U32 = n: nat | n < COUNTER_LIMIT

  datatype Kind = Notify | Data | Timestamp | Snapshot
  datatype Msg = PreviewFrame | VideoFrame | OtherMsg

  /** A notification; "serial" is the number of the accepted call it came from. */
  datatype Cb = Cb(kind: Kind, msg: Msg, serial: nat)

  datatype Cmd = StartDataProc | StopDataProc | DoNextJob | Exit

  datatype Match = SnapshotCbs | PreviewCbs | VideoCbs

  predicate Matches(m: Match, cb: Cb) {
    match m
    case SnapshotCbs => cb.kind == Snapshot
    case PreviewCbs => cb.kind == Data && cb.msg == PreviewFrame
    case VideoCbs => cb.kind == Timestamp && cb.msg == VideoFrame
  }

  /** flushNodes: what is left of a queue. */
  function Keep(q: seq<Cb>, m: Match): (r: seq<Cb>)
    ensures |r| <= |q|
  {
    if q == [] then []
    else if Matches(m, q[0]) then Keep(q[1..], m)
    else [q[0]] + Keep(q[1..], m)
  }

  /** The queues, the calls between enqueueing and sending the command, the thread's variables,
      and as history what became of the notifications and of the snapshots since the last start. */
  datatype State = State(
    queue: seq<Cb>, queueActive: bool, cmds: seq<Cmd>, inFlight: nat,
    running: bool, snapshotActive: bool, longshot: bool, expected: U32, rcvd: U32,
    accepted: nat, handled: seq<nat>, flushed: nat, idle: nat,
    wanted: U32, snaps: nat, raised: nat)

  function Init(): State {
    State([], true, [], 0, true, false, false, 0, 0, 0, [], 0, 0, 0, 0, 0)
  }

  /** What the thread finds when it handles a command: whether the message is enabled, whether
      the data callback is set, and what the parent answers at a start. */
  datatype Env = Env(enabled: bool, dataCb: bool, expected: U32, longshot: bool)

  datatype Event =
    | Enqueue(kind: Kind, msg: Msg)    // first half of notifyCallback
    | Send                             // second half
    | Start | Stop | Flush(m: Match) | SendExit
    | Handle(env: Env)

  // ---------- Steps ----------

  function Flushed(s: State, m: Match): State {
    var q := if s.queueActive then Keep(s.queue, m) else s.queue;
    s.(queue := q, flushed := s.flushed + (|s.queue| - |q|))
  }

  /** One snapshot outside longshot: counted, and reported when it is the expected one. */
  function CountSnapshot(s: State): State {
    var rcvd := (s.rcvd + 1) % COUNTER_LIMIT;
    s.(rcvd := rcvd, snaps := s.snaps + 1,
       raised := if s.expected > 0 && s.expected == rcvd then s.raised + 1 else s.raised)
  }

  function NextJob(s: State, env: Env): State {
    if !s.queueActive || s.queue == [] then s.(idle := s.idle + 1) else
      var cb := s.queue[0];
      var t := s.(queue := s.queue[1..], handled := s.handled + [cb.serial]);
      if env.enabled && cb.kind == Snapshot && s.snapshotActive && env.dataCb && !s.longshot
      then CountSnapshot(t) else t
  }

  /** cbNotifyRoutine: one command. */
  function HandleCmd(s: State, cmd: Cmd, env: Env): State {
    match cmd
    case StartDataProc =>
      s.(snapshotActive := true, longshot := env.longshot, expected := env.expected, rcvd := 0,
         wanted := env.expected, snaps := 0, raised := 0)
    case StopDataProc => Flushed(s, SnapshotCbs).(snapshotActive := false, expected := 0, rcvd := 0)
    case DoNextJob => NextJob(s, env)
    case Exit => s.(running := false, queue := [], queueActive := false, flushed := s.flushed + |s.queue|)
  }

  function Next(s: State, e: Event): State {
    match e
    case Enqueue(kind, msg) =>
      if !s.queueActive then s
      else s.(queue := s.queue + [Cb(kind, msg, s.accepted)], accepted := s.accepted + 1, inFlight := s.inFlight + 1)
    case Send => if s.inFlight == 0 then s else s.(inFlight := s.inFlight - 1, cmds := s.cmds + [DoNextJob])
    case Start => s.(cmds := [StartDataProc] + s.cmds)
    case Stop => s.(cmds := [StopDataProc] + s.cmds)
    case Flush(m) => Flushed(s, m)
    case SendExit => s.(cmds := [Exit] + s.cmds)
    case Handle(env) =>
      if !s.running || s.cmds == [] then s else HandleCmd(s.(cmds := s.cmds[1..]), s.cmds[0], env)
  }

  function Run(s: State, es: seq<Event>): State {
    if es == [] then s else Next(Run(s, es[..|es| - 1]), es[|es| - 1])
  }

  // ---------- In place ----------

  class CbNotifier {
    var dataQ: seq<Cb>
    var dataQActive: bool
    var cmdQueue: seq<Cmd>
    var isRunning: bool
    var isSnapshotActive: bool
    var longShotEnabled: bool
    var numOfSnapshotExpected: U32
    var numOfSnapshotRcvd: U32
    /** Calls of notifyCallback accepted so far, and those still to send their command. */
    var calls: nat
    var underWay: nat
    ghost var past: State

    constructor ()
      ensures View() == Init()
    {
      dataQ, dataQActive, cmdQueue, isRunning := [], true, [], true;
      isSnapshotActive, longShotEnabled, numOfSnapshotExpected, numOfSnapshotRcvd := false, false, 0, 0;
      calls, underWay := 0, 0;
      past := Init();
    }

    ghost function View(): State
      reads this
    {
      past.(queue := dataQ, queueActive := dataQActive, cmds := cmdQueue, running := isRunning,
            snapshotActive := isSnapshotActive, longshot := longShotEnabled,
            expected := numOfSnapshotExpected, rcvd := numOfSnapshotRcvd,
            accepted := calls, inFlight := underWay)
    }

    /** One turn of cbNotifyRoutine; "done" says whether SNAPSHOT_DONE was sent to the state machine. */
    method HandleNext(env: Env) returns (done: bool)
      modifies this
      ensures View() == Next(old(View()), Handle(env))
      ensures done ==> View().raised == old(View()).raised + 1
      ensures done ==> Eligible(old(View()), Handle(env)) && old(isSnapshotActive) && !old(longShotEnabled)
      ensures old(cmdQueue) != [] && old(cmdQueue[0]) == DoNextJob && !done ==> View().raised == old(View()).raised
    {
      hide HandleCmd;
      OnlyEligibleRaise(View(), Handle(env));
      done := false;
      if !isRunning || cmdQueue == [] {
        return;
      }
      var cmd := cmdQueue[0];
      cmdQueue := cmdQueue[1..];
      match cmd {
        case StartDataProc => HandleStart(env);
        case StopDataProc => HandleStop(env);
        case DoNextJob => done := HandleJob(env);
        case Exit => HandleExit(env);
      }
    }

    /** The branch for START_DATA_PROC. */
    method HandleStart(env: Env)
      modifies this
      ensures View() == HandleCmd(old(View()), StartDataProc, env)
    {
      past := HandleCmd(View(), StartDataProc, env);
      isSnapshotActive := true;
      numOfSnapshotExpected := env.expected;
      longShotEnabled := env.longshot;
      numOfSnapshotRcvd := 0;
    }

    /** The branch for STOP_DATA_PROC. */
    method HandleStop(env: Env)
      modifies this
      ensures View() == HandleCmd(old(View()), StopDataProc, env)
    {
      past := HandleCmd(View(), StopDataProc, env);
      if dataQActive {
        dataQ := Keep(dataQ, SnapshotCbs);
      }
      isSnapshotActive := false;
      numOfSnapshotExpected := 0;
      numOfSnapshotRcvd := 0;
    }

    /** The branch for EXIT. */
    method HandleExit(env: Env)
      modifies this
      ensures View() == HandleCmd(old(View()), Exit, env)
    {
      past := HandleCmd(View(), Exit, env);
      isRunning := false;
      dataQ, dataQActive := [], false;
    }

    /** The branch for DO_NEXT_JOB. */
    method HandleJob(env: Env) returns (done: bool)
      modifies this
      ensures View() == HandleCmd(old(View()), DoNextJob, env)
      ensures View().raised == old(View()).raised + if done then 1 else 0
    {
      past := NextJob(View(), env);
      done := false;
      if dataQActive && dataQ != [] {
        var cb := dataQ[0];
        dataQ := dataQ[1..];
        if env.enabled && cb.kind == Snapshot && isSnapshotActive && env.dataCb && !longShotEnabled {
          numOfSnapshotRcvd := (numOfSnapshotRcvd + 1) % COUNTER_LIMIT;
          if numOfSnapshotExpected > 0 && numOfSnapshotExpected == numOfSnapshotRcvd {
            done := true;
          }
        }
      }
    }

    /** The two halves of notifyCallback after its check of mActive; other threads may run in between. */
    method EnqueueCallback(kind: Kind, msg: Msg) returns (ok: bool)
      modifies this
      ensures View() == Next(old(View()), Enqueue(kind, msg)) && ok == old(dataQActive)
    {
      past := Next(View(), Enqueue(kind, msg));
      ok := dataQActive;
      if ok {
        dataQ := dataQ + [Cb(kind, msg, calls)];
        calls, underWay := calls + 1, underWay + 1;
      }
    }

    method SendNextJob()
      modifies this
      ensures View() == Next(old(View()), Send)
    {
      past := Next(View(), Send);
      if underWay > 0 {
        cmdQueue := cmdQueue + [DoNextJob];
        underWay := underWay - 1;
      }
    }

    /** startSnapshots: with priority. */
    method StartSnapshots()
      modifies this
      ensures View() == Next(old(View()), Start)
    {
      cmdQueue := [StartDataProc] + cmdQueue;
    }

    /** flushPreviewNotifications and flushVideoNotifications. */
    method FlushNotifications(m: Match)
      modifies this
      ensures View() == Next(old(View()), Flush(m))
    {
      past := Next(View(), Flush(m));
      if dataQActive {
        dataQ := Keep(dataQ, m);
      }
    }

    /** exit: with priority. */
    method SendExitCmd()
      modifies this
      ensures View() == Next(old(View()), SendExit)
    {
      cmdQueue := [Exit] + cmdQueue;
    }

    /** stopSnapshots: with priority. */
    method StopSnapshots()
      modifies this
      ensures View() == Next(old(View()), Stop)
    {
      cmdQueue := [StopDataProc] + cmdQueue;
    }
  }

  // ---------- Notifications ----------

  function Jobs(cmds: seq<Cmd>): nat {
    if cmds == [] then 0 else (if cmds[0] == DoNextJob then 1 else 0) + Jobs(cmds[1..])
  }

  lemma {:induction false} JobsAppend(a: seq<Cmd>, b: seq<Cmd>)
    ensures Jobs(a + b) == Jobs(a) + Jobs(b)
  {
    if a == [] {
      assert a + b == b;
    } else {
      var c := a + b;
      assert c[0] == a[0] && c[1..] == a[1..] + b;
      JobsAppend(a[1..], b);
    }
  }

  function Serials(q: seq<Cb>): (r: seq<nat>)
    ensures |r| == |q|
  {
    seq(|q|, i requires 0 <= i < |q| => q[i].serial)
  }

  /** Strictly ascending below a limit. */
  ghost predicate Ordered(s: seq<nat>, limit: nat) {
    && (forall i, j :: 0 <= i < j < |s| ==> s[i] < s[j])
    && (forall i :: 0 <= i < |s| ==> s[i] < limit)
  }

  /** Every accepted notification is handled, flushed or still queued, in the order of the calls,
      and every command for one meets it, except as many as were flushed. */
  ghost predicate Conserved(s: State) {
    && Jobs(s.cmds) + s.inFlight + s.idle == |s.queue| + s.flushed
    && |s.handled| + |s.queue| + s.flushed == s.accepted
    && Ordered(s.handled + Serials(s.queue), s.accepted)
    && (!s.queueActive ==> s.queue == [])
  }

  /** Flushing removes elements and keeps the order. */
  lemma {:induction false} KeepAscending(a: seq<nat>, q: seq<Cb>, m: Match, limit: nat)
    requires Ordered(a + Serials(q), limit)
    ensures Ordered(a + Serials(Keep(q, m)), limit)
    decreases |q|
  {
    hide Ordered;
    if q != [] {
      var x, rest := [q[0].serial], Serials(q[1..]);
      assert a + Serials(q) == (a + x) + rest;
      if Matches(m, q[0]) {
        SkipOrdered(a, q[0].serial, rest, limit);
        KeepAscending(a, q[1..], m, limit);
      } else {
        KeepAscending(a + x, q[1..], m, limit);
        assert a + Serials(Keep(q, m)) == (a + x) + Serials(Keep(q[1..], m));
      }
    }
  }

  lemma SkipOrdered(a: seq<nat>, x: nat, c: seq<nat>, limit: nat)
    requires Ordered(a + [x] + c, limit)
    ensures Ordered(a + c, limit)
  {
    var s, r := a + [x] + c, a + c;
    forall i | 0 <= i < |r| ensures r[i] == s[if i < |a| then i else i + 1] { }
  }

  lemma OrderedPrefix(a: seq<nat>, b: seq<nat>, limit: nat)
    requires Ordered(a + b, limit)
    ensures Ordered(a, limit)
  {
    forall i | 0 <= i < |a| ensures a[i] == (a + b)[i] { }
  }

  lemma FlushedKeeps(s: State, m: Match)
    requires Conserved(s)
    ensures Conserved(Flushed(s, m))
  {
    hide Ordered;
    KeepAscending(s.handled, s.queue, m, s.accepted);
  }

  lemma NextJobKeeps(s: State, env: Env)
    requires Conserved(s.(cmds := [DoNextJob] + s.cmds))
    ensures Conserved(NextJob(s, env))
  {
    var c := [DoNextJob] + s.cmds;
    assert c[1..] == s.cmds;
    hide Ordered;
    if s.queueActive && s.queue != [] {
      var t := NextJob(s, env);
      assert t.handled + Serials(t.queue) == s.handled + Serials(s.queue);
    }
  }

  lemma EnqueueConserves(s: State, kind: Kind, msg: Msg)
    requires Conserved(s)
    ensures Conserved(Next(s, Enqueue(kind, msg)))
  {
    if s.queueActive {
      var cb := Cb(kind, msg, s.accepted);
      assert s.handled + Serials(s.queue + [cb]) == (s.handled + Serials(s.queue)) + [s.accepted];
      OrderedAppend(s.handled + Serials(s.queue), s.accepted);
    }
  }

  lemma OrderedAppend(r: seq<nat>, limit: nat)
    requires Ordered(r, limit)
    ensures Ordered(r + [limit], limit + 1)
  {
  }

  /** Sending a command that is no job, at the head. */
  lemma PriorityConserves(s: State, cmd: Cmd)
    requires Conserved(s) && cmd != DoNextJob
    ensures Conserved(s.(cmds := [cmd] + s.cmds))
  {
    JobsAppend([cmd], s.cmds);
    assert [cmd][1..] == [];
  }

  lemma SendConserves(s: State)
    requires Conserved(s)
    ensures Conserved(Next(s, Send))
  {
    JobsAppend(s.cmds, [DoNextJob]);
    assert [DoNextJob][1..] == [];
  }

  lemma StepConserves(s: State, e: Event)
    requires Conserved(s)
    ensures Conserved(Next(s, e))
  {
    hide Conserved, HandleCmd, Flushed;
    match e
    case Enqueue(kind, msg) => EnqueueConserves(s, kind, msg);
    case Send => SendConserves(s);
    case Start => PriorityConserves(s, StartDataProc);
    case Stop => PriorityConserves(s, StopDataProc);
    case Flush(m) => FlushedKeeps(s, m);
    case SendExit => PriorityConserves(s, Exit);
    case Handle(env) =>
      if s.running && s.cmds != [] {
        assert s.cmds == [s.cmds[0]] + s.cmds[1..];
        assert s.(cmds := s.cmds[1..]).(cmds := [s.cmds[0]] + s.cmds[1..]) == s;
        HandleConserves(s.(cmds := s.cmds[1..]), s.cmds[0], env);
      }
  }

  lemma HandleConserves(s: State, cmd: Cmd, env: Env)
    requires Conserved(s.(cmds := [cmd] + s.cmds))
    ensures Conserved(HandleCmd(s, cmd, env))
  {
    hide Ordered, Keep, CountSnapshot;
    var c := [cmd] + s.cmds;
    assert c[1..] == s.cmds;
    match cmd
    case StartDataProc =>
    case StopDataProc => FlushedKeeps(s, SnapshotCbs);
    case DoNextJob => NextJobKeeps(s, env);
    case Exit =>
      OrderedPrefix(s.handled, Serials(s.queue), s.accepted);
      assert s.handled + Serials([]) == s.handled;
  }

  lemma NothingOrdered()
    ensures Ordered([] + Serials([]), 0)
  {
  }

  lemma {:induction false} RunConserves(es: seq<Event>)
    ensures Conserved(Run(Init(), es))
  {
    hide Next, Ordered;
    if es == [] {
      assert Ordered([] + Serials([]), 0) by { NothingOrdered(); }
    } else {
      RunConserves(es[..|es| - 1]);
      StepConserves(Run(Init(), es[..|es| - 1]), es[|es| - 1]);
    }
  }

  /** No notification is stranded: the commands still to come and the calls under way cover the
      queue, so when there are none the queue is empty. */
  lemma NoneStranded(es: seq<Event>)
    ensures var s := Run(Init(), es);
            && |s.queue| <= Jobs(s.cmds) + s.inFlight
            && s.idle <= s.flushed
  {
    RunConserves(es);
    RunIdle(es);
  }

  /** A command finds the queue empty only where a notification was flushed. */
  lemma {:induction false} RunIdle(es: seq<Event>)
    ensures Run(Init(), es).idle <= Run(Init(), es).flushed
  {
    hide Next, Conserved;
    if es != [] {
      RunIdle(es[..|es| - 1]);
      RunConserves(es[..|es| - 1]);
      StepIdle(Run(Init(), es[..|es| - 1]), es[|es| - 1]);
    }
  }

  lemma StepIdle(s: State, e: Event)
    requires Conserved(s) && s.idle <= s.flushed
    ensures Next(s, e).idle <= Next(s, e).flushed
  {
    hide Ordered, Keep;
    if e.Handle? && s.cmds != [] && s.cmds[0] == DoNextJob {
      assert Jobs(s.cmds) >= 1;
    }
  }

  /** A flush takes out the notifications it is for, all of them, and no other. */
  lemma {:induction false} KeepExactly(q: seq<Cb>, m: Match, cb: Cb)
    ensures multiset(Keep(q, m))[cb] == if Matches(m, cb) then 0 else multiset(q)[cb]
  {
    hide Matches;
    if q != [] {
      KeepExactly(q[1..], m, cb);
      CountHead(q[0], q[1..], cb);
      CountHead(q[0], Keep(q[1..], m), cb);
      assert q == [q[0]] + q[1..];
    }
  }

  lemma CountHead(x: Cb, rest: seq<Cb>, cb: Cb)
    ensures multiset([x] + rest)[cb] == multiset(rest)[cb] + if x == cb then 1 else 0
  {
  }

  /** After a flush of previews no preview frame is queued and no notification of another kind
      is missing; handling a stop does the same for snapshots. */
  lemma FlushesDiscriminate(s: State, env: Env, cb: Cb)
    requires s.queueActive
    ensures multiset(Next(s, Flush(PreviewCbs)).queue)[cb] ==
            if cb.kind == Data && cb.msg == PreviewFrame then 0 else multiset(s.queue)[cb]
    ensures multiset(Next(s, Flush(VideoCbs)).queue)[cb] ==
            if cb.kind == Timestamp && cb.msg == VideoFrame then 0 else multiset(s.queue)[cb]
    ensures s.running && s.cmds != [] && s.cmds[0] == StopDataProc ==>
              multiset(Next(s, Handle(env)).queue)[cb] == if cb.kind == Snapshot then 0 else multiset(s.queue)[cb]
  {
    hide Keep;
    KeepExactly(s.queue, PreviewCbs, cb);
    KeepExactly(s.queue, VideoCbs, cb);
    KeepExactly(s.queue, SnapshotCbs, cb);
  }

  // ---------- Snapshots ----------

  /** How often the snapshot counter, starting at 0 and 32 bits wide, has met a nonzero value. */
  function Meets(wanted: U32, snaps: nat): nat {
    if wanted == 0 || snaps < wanted then 0 else 1 + (snaps - wanted) / COUNTER_LIMIT
  }

  lemma MeetsStep(wanted: U32, snaps: nat)
    ensures Meets(wanted, snaps + 1) ==
            Meets(wanted, snaps) + if wanted > 0 && (snaps + 1) % COUNTER_LIMIT == wanted then 1 else 0
  {
    if wanted > 0 && snaps + 1 >= wanted {
      var k := snaps + 1 - wanted;
      DivStep(k, wanted);
    } else if wanted > 0 {
      assert (snaps + 1) % COUNTER_LIMIT == snaps + 1;
    }
  }

  lemma DivStep(k: nat, wanted: U32)
    ensures (k + wanted) % COUNTER_LIMIT == wanted <==> k % COUNTER_LIMIT == 0
    ensures k > 0 ==> k / COUNTER_LIMIT == (k - 1) / COUNTER_LIMIT + if k % COUNTER_LIMIT == 0 then 1 else 0
  {
    var q, r := k / COUNTER_LIMIT, k % COUNTER_LIMIT;
    assert k == q * COUNTER_LIMIT + r;
    if r + wanted < COUNTER_LIMIT {
      assert (k + wanted) / COUNTER_LIMIT == q;
    } else {
      assert (k + wanted) / COUNTER_LIMIT == q + 1;
    }
  }

  /** While snapshots are active the counter is the number handled since the start, and
      SNAPSHOT_DONE was raised as often as that number met the expected one. */
  ghost predicate Snapshots(s: State) {
    && (s.snapshotActive ==> s.expected == s.wanted && s.rcvd == s.snaps % COUNTER_LIMIT)
    && s.raised == Meets(s.wanted, s.snaps)
  }

  lemma CountKeeps(s: State)
    requires Snapshots(s) && s.snapshotActive
    ensures Snapshots(CountSnapshot(s))
  {
    hide Meets;
    MeetsStep(s.wanted, s.snaps);
    ModStep(s.snaps);
  }

  lemma StepSnapshots(s: State, e: Event)
    requires Snapshots(s)
    ensures Snapshots(Next(s, e))
  {
    hide Meets, Keep, CountSnapshot;
    if s.cmds != [] && s.queue != [] && s.snapshotActive {
      CountKeeps(s.(cmds := s.cmds[1..], queue := s.queue[1..], handled := s.handled + [s.queue[0].serial]));
    }
    assert Meets(s.wanted, 0) == 0 && (e.Handle? ==> Meets(e.env.expected, 0) == 0) by { MeetsNone(); }
  }

  lemma MeetsNone()
    ensures forall wanted :: Meets(wanted, 0) == 0
  {
  }

  lemma ModStep(n: nat)
    ensures (n % COUNTER_LIMIT + 1) % COUNTER_LIMIT == (n + 1) % COUNTER_LIMIT
  {
    var q, r := n / COUNTER_LIMIT, n % COUNTER_LIMIT;
    assert n == q * COUNTER_LIMIT + r;
    if r + 1 == COUNTER_LIMIT {
      assert n + 1 == (q + 1) * COUNTER_LIMIT;
    } else {
      assert (n + 1) / COUNTER_LIMIT == q;
    }
  }

  lemma {:induction false} RunSnapshots(es: seq<Event>)
    ensures Snapshots(Run(Init(), es))
  {
    if es != [] {
      RunSnapshots(es[..|es| - 1]);
      StepSnapshots(Run(Init(), es[..|es| - 1]), es[|es| - 1]);
    }
  }

  /** SNAPSHOT_DONE since the last start: raised once the expected number was handled, and a
      second time exactly if 2^32 more snapshots follow without another start. */
  lemma DoneOnce(es: seq<Event>)
    ensures var s := Run(Init(), es);
            && (s.raised > 0 <==> s.wanted > 0 && s.snaps >= s.wanted)
            && (s.raised <= 1 <==> s.wanted == 0 || s.snaps < s.wanted + COUNTER_LIMIT)
  {
    RunSnapshots(es);
    var s := Run(Init(), es);
    if s.wanted > 0 && s.snaps >= s.wanted {
      var k := s.snaps - s.wanted;
      assert k < COUNTER_LIMIT <==> k / COUNTER_LIMIT == 0;
    }
  }

  /** The handling that raises it is that of the expected-th snapshot. */
  lemma DoneAtExpected(es: seq<Event>, e: Event)
    ensures var s := Run(Init(), es);
            var t := Next(s, e);
            t.snaps == s.snaps + 1 && s.snaps < COUNTER_LIMIT - 1 ==>
              (t.raised == s.raised + 1 <==> s.wanted > 0 && t.snaps == s.wanted)
  {
    hide Next, Run, Meets;
    var s := Run(Init(), es);
    RunSnapshots(es);
    StepSnapshots(s, e);
    SameStart(s, e);
    MeetsStep(s.wanted, s.snaps);
    assert s.snaps + 1 < COUNTER_LIMIT ==> (s.snaps + 1) % COUNTER_LIMIT == s.snaps + 1;
  }

  /** A handling at which a snapshot notification is dequeued, enabled, and finds the data callback
      set; told from the queues and from what the thread finds. */
  predicate Eligible(s: State, e: Event) {
    && e.Handle? && s.running && s.cmds != [] && s.cmds[0] == DoNextJob
    && s.queueActive && s.queue != [] && s.queue[0].kind == Snapshot
    && e.env.enabled && e.env.dataCb
  }

  /** How many of a run's events are such handlings. */
  function EligibleIn(s: State, es: seq<Event>): nat {
    if es == [] then 0
    else EligibleIn(s, es[..|es| - 1]) + if Eligible(Run(s, es[..|es| - 1]), es[|es| - 1]) then 1 else 0
  }

  /** SNAPSHOT_DONE is raised at no other handling, and only with snapshots active, not in longshot. */
  lemma OnlyEligibleRaise(s: State, e: Event)
    ensures Next(s, e).raised == s.raised + 1 ==> Eligible(s, e) && s.snapshotActive && !s.longshot
    ensures Next(s, e).raised <= s.raised + 1
  {
    hide Keep;
  }

  /** A thread in the middle of a series of k eligible handlings that a START began. */
  ghost predicate InSeries(s: State, env0: Env, k: nat) {
    && s.running && s.snapshotActive && NoControl(s.cmds) && Exit !in s.cmds
    && s.longshot == env0.longshot && s.expected == env0.expected
    && (!s.longshot ==> s.rcvd == k % COUNTER_LIMIT)
  }

  lemma SeriesStep(s: State, env0: Env, k: nat, e: Event)
    requires InSeries(s, env0, k) && !e.Start? && !e.Stop? && !e.SendExit?
    ensures InSeries(Next(s, e), env0, k + if Eligible(s, e) then 1 else 0)
    ensures Next(s, e).raised == s.raised +
              if !env0.longshot && Eligible(s, e) && env0.expected > 0 && (k + 1) % COUNTER_LIMIT == env0.expected
              then 1 else 0
  {
    hide Keep;
    ModStep(k);
  }

  lemma {:induction false} SeriesRun(s: State, env0: Env, es: seq<Event>)
    requires InSeries(s, env0, 0) && Undisturbed(es)
    ensures InSeries(Run(s, es), env0, EligibleIn(s, es))
  {
    hide Next, InSeries, Eligible;
    if es != [] {
      SeriesRun(s, env0, es[..|es| - 1]);
      SeriesStep(Run(s, es[..|es| - 1]), env0, EligibleIn(s, es[..|es| - 1]), es[|es| - 1]);
    }
  }

  /** SNAPSHOT_DONE after a START, exactly: in any run from its handling on, with no other START,
      STOP or EXIT sent or queued, an event raises it if and only if the START found longshot off
      and a number of expected snapshots that is not 0, and the event is an eligible handling
      whose number, counted from the START, is the expected one (or 2^32, or a multiple of it,
      further on). */
  lemma DoneExactly(s: State, env0: Env, es: seq<Event>, e: Event)
    requires s.running && s.cmds != [] && s.cmds[0] == StartDataProc
    requires NoControl(s.cmds[1..]) && Exit !in s.cmds && Undisturbed(es + [e])
    ensures var started := Next(s, Handle(env0));
            var p := Run(started, es);
            var k := EligibleIn(started, es) + 1;
            && (Next(p, e).raised == p.raised + 1 <==>
                  !env0.longshot && env0.expected > 0 && Eligible(p, e) && k % COUNTER_LIMIT == env0.expected)
            && (k < COUNTER_LIMIT && Eligible(p, e) && !env0.longshot && env0.expected > 0 ==>
                  (Next(p, e).raised == p.raised + 1 <==> k == env0.expected))
  {
    hide InSeries, Run, Eligible, EligibleIn;
    var started := Next(s, Handle(env0));
    assert InSeries(started, env0, 0) by { SeriesBegins(s, env0); }
    assert Undisturbed(es) && !e.Start? && !e.Stop? && !e.SendExit? by {
      assert (es + [e])[|es|] == e && forall i :: 0 <= i < |es| ==> (es + [e])[i] == es[i];
    }
    hide Next, Undisturbed;
    SeriesRun(started, env0, es);
    SeriesStep(Run(started, es), env0, EligibleIn(started, es), e);
  }

  lemma SeriesBegins(s: State, env0: Env)
    requires s.running && s.cmds != [] && s.cmds[0] == StartDataProc
    requires NoControl(s.cmds[1..]) && Exit !in s.cmds
    ensures InSeries(Next(s, Handle(env0)), env0, 0)
  {
  }

  /** With snapshots inactive and no START queued or sent, none is ever raised. */
  lemma {:induction false} InactiveRaisesNone(s: State, es: seq<Event>)
    requires !s.snapshotActive && StartDataProc !in s.cmds && forall i :: 0 <= i < |es| ==> !es[i].Start?
    ensures !Run(s, es).snapshotActive && StartDataProc !in Run(s, es).cmds && Run(s, es).raised == s.raised
  {
    hide Next;
    if es != [] {
      InactiveRaisesNone(s, es[..|es| - 1]);
      InactiveStep(Run(s, es[..|es| - 1]), es[|es| - 1]);
    }
  }

  lemma InactiveStep(s: State, e: Event)
    requires !s.snapshotActive && StartDataProc !in s.cmds && !e.Start?
    ensures !Next(s, e).snapshotActive && StartDataProc !in Next(s, e).cmds && Next(s, e).raised == s.raised
  {
    hide Keep;
  }

  /** After an EXIT is handled the thread takes no further command: whatever is called and sent, no
      notification is accepted, handled or queued again, and SNAPSHOT_DONE is not raised. */
  lemma {:induction false} ExitEnds(s: State, env: Env, es: seq<Event>)
    requires s.running && s.cmds != [] && s.cmds[0] == Exit
    ensures var t := Run(Next(s, Handle(env)), es);
            && !t.running && !t.queueActive && t.queue == [] && t.accepted == s.accepted
            && t.handled == s.handled && t.raised == s.raised
            && t.flushed == s.flushed + |s.queue|
  {
    if es != [] {
      hide Next;
      ExitEnds(s, env, es[..|es| - 1]);
      EndedStep(Run(Next(s, Handle(env)), es[..|es| - 1]), es[|es| - 1]);
    }
  }

  lemma EndedStep(s: State, e: Event)
    requires !s.running && !s.queueActive && s.queue == []
    ensures var t := Next(s, e);
            && !t.running && !t.queueActive && t.queue == [] && t.accepted == s.accepted
            && t.handled == s.handled && t.raised == s.raised && t.flushed == s.flushed
  {
  }

  /** Counting a snapshot is no start. */
  lemma SameStart(s: State, e: Event)
    ensures Next(s, e).snaps == s.snaps + 1 ==> Next(s, e).wanted == s.wanted
  {
    hide Keep;
  }

  // ---------- The order of starts and stops ----------

  predicate Control(c: Cmd) { c == StartDataProc || c == StopDataProc }

  /** Starts and stops are sent to the head of the queue, so the one handled last is the oldest
      still queued: the last START or STOP of the queue, if there is one, is a START. */
  predicate LastIsStart(cmds: seq<Cmd>) {
    exists i :: 0 <= i < |cmds| && cmds[i] == StartDataProc && forall j :: i < j < |cmds| ==> !Control(cmds[j])
  }

  predicate NoControl(cmds: seq<Cmd>) {
    forall i :: 0 <= i < |cmds| ==> !Control(cmds[i])
  }

  /** Whether snapshots are active once the queued commands are handled. */
  function Settled(active: bool, cmds: seq<Cmd>): bool
    decreases |cmds|
  {
    if cmds == [] then active
    else Settled(if Control(cmds[0]) then cmds[0] == StartDataProc else active, cmds[1..])
  }

  lemma {:induction false} SettledIs(active: bool, cmds: seq<Cmd>)
    ensures Settled(active, cmds) <==> LastIsStart(cmds) || (active && NoControl(cmds))
    decreases |cmds|
  {
    hide LastIsStart, NoControl;
    if cmds == [] {
      NoCommands();
    } else {
      SettledIs(if Control(cmds[0]) then cmds[0] == StartDataProc else active, cmds[1..]);
      LastBehind(cmds);
    }
  }

  lemma NoCommands()
    ensures !LastIsStart([]) && NoControl([])
  {
  }

  /** The last START or STOP of a queue is that of its tail, or its head if the tail has none. */
  lemma LastBehind(cmds: seq<Cmd>)
    requires cmds != []
    ensures LastIsStart(cmds) <==> LastIsStart(cmds[1..]) || (cmds[0] == StartDataProc && NoControl(cmds[1..]))
    ensures NoControl(cmds) <==> !Control(cmds[0]) && NoControl(cmds[1..])
    ensures LastIsStart(cmds[1..]) ==> !NoControl(cmds[1..])
  {
    hide LastIsStart, NoControl, Control;
    LastOfTail(cmds);
    LastOfAll(cmds);
    NoneBehind(cmds);
  }

  lemma LastOfTail(cmds: seq<Cmd>)
    requires cmds != []
    ensures LastIsStart(cmds[1..]) ==> LastIsStart(cmds) && !NoControl(cmds[1..])
    ensures cmds[0] == StartDataProc && NoControl(cmds[1..]) ==> LastIsStart(cmds)
  {
    var rest := cmds[1..];
    if i :| 0 <= i < |rest| && rest[i] == StartDataProc && forall j :: i < j < |rest| ==> !Control(rest[j]) {
      assert cmds[i + 1] == StartDataProc;
      assert forall j :: i + 1 < j < |cmds| ==> cmds[j] == rest[j - 1];
    }
    if cmds[0] == StartDataProc && NoControl(rest) {
      assert forall j :: 0 < j < |cmds| ==> cmds[j] == rest[j - 1];
    }
  }

  lemma LastOfAll(cmds: seq<Cmd>)
    requires cmds != []
    ensures LastIsStart(cmds) ==> LastIsStart(cmds[1..]) || (cmds[0] == StartDataProc && NoControl(cmds[1..]))
  {
    var rest := cmds[1..];
    if i :| 0 <= i < |cmds| && cmds[i] == StartDataProc && forall j :: i < j < |cmds| ==> !Control(cmds[j]) {
      assert forall j :: 0 <= j < |rest| ==> rest[j] == cmds[j + 1];
      if i > 0 {
        assert rest[i - 1] == StartDataProc;
      }
    }
  }

  lemma NoneBehind(cmds: seq<Cmd>)
    requires cmds != []
    ensures NoControl(cmds) <==> !Control(cmds[0]) && NoControl(cmds[1..])
  {
    assert forall j :: 0 < j < |cmds| ==> cmds[j] == cmds[1..][j - 1];
    assert forall j :: 0 <= j < |cmds[1..]| ==> cmds[1..][j] == cmds[j + 1];
  }

  lemma {:induction false} SettledAppend(active: bool, cmds: seq<Cmd>, c: Cmd)
    requires !Control(c)
    ensures Settled(active, cmds + [c]) == Settled(active, cmds)
    decreases |cmds|
  {
    var all := cmds + [c];
    if cmds == [] {
      assert all[1..] == [];
    } else {
      assert all[0] == cmds[0] && all[1..] == cmds[1..] + [c];
      SettledAppend(if Control(cmds[0]) then cmds[0] == StartDataProc else active, cmds[1..], c);
    }
  }

  /** Events that send no further start, stop or exit. */
  predicate Undisturbed(es: seq<Event>) {
    forall i :: 0 <= i < |es| ==> !es[i].Start? && !es[i].Stop? && !es[i].SendExit?
  }

  function Handlings(es: seq<Event>): nat {
    if es == [] then 0 else Handlings(es[..|es| - 1]) + if es[|es| - 1].Handle? then 1 else 0
  }

  /** What queued commands will leave is what such an event leaves it to be, ... */
  lemma StepSettles(s: State, e: Event)
    requires s.running && Exit !in s.cmds && !e.Start? && !e.Stop? && !e.SendExit?
    ensures var t := Next(s, e);
            t.running && Exit !in t.cmds && Settled(t.snapshotActive, t.cmds) == Settled(s.snapshotActive, s.cmds)
  {
    hide Keep, HandleCmd;
    match e
    case Send => SettledAppend(s.snapshotActive, s.cmds, DoNextJob);
    case Handle(env) => if s.cmds != [] { HandleSettles(s.(cmds := s.cmds[1..]), s.cmds[0], env); }
    case _ =>
  }

  lemma HandleSettles(s: State, cmd: Cmd, env: Env)
    requires cmd != Exit
    ensures var t := HandleCmd(s, cmd, env);
            && t.running == s.running && t.cmds == s.cmds
            && t.snapshotActive == if Control(cmd) then cmd == StartDataProc else s.snapshotActive
  {
    hide Keep, CountSnapshot;
    if cmd == DoNextJob && s.queue != [] {
      CountActive(s.(queue := s.queue[1..], handled := s.handled + [s.queue[0].serial]));
    }
  }

  lemma CountActive(s: State)
    ensures var t := CountSnapshot(s);
            t.running == s.running && t.cmds == s.cmds && t.snapshotActive == s.snapshotActive
  {
  }

  /** Behind position k of the queue there are only jobs; one more handling, one position less. */
  predicate JobsFrom(cmds: seq<Cmd>, k: nat) {
    forall i :: k <= i < |cmds| ==> !Control(cmds[i])
  }

  /** ... and after h handlings, whatever happened in between, h of the commands are gone and
      only jobs were added. */
  lemma {:induction false} RunSettles(s: State, es: seq<Event>)
    requires s.running && Exit !in s.cmds && Undisturbed(es)
    ensures var t := Run(s, es);
            && t.running && Exit !in t.cmds
            && Settled(t.snapshotActive, t.cmds) == Settled(s.snapshotActive, s.cmds)
            && JobsFrom(t.cmds, if |s.cmds| <= Handlings(es) then 0 else |s.cmds| - Handlings(es))
  {
    if es != [] {
      var n := |es| - 1;
      RunSettles(s, es[..n]);
      StepSettles(Run(s, es[..n]), es[n]);
      StepTail(Run(s, es[..n]), es[n], if |s.cmds| <= Handlings(es[..n]) then 0 else |s.cmds| - Handlings(es[..n]));
    }
  }

  lemma StepTail(s: State, e: Event, k: nat)
    requires s.running && Exit !in s.cmds && JobsFrom(s.cmds, k) && !e.Start? && !e.Stop? && !e.SendExit?
    ensures JobsFrom(Next(s, e).cmds, if e.Handle? && k > 0 then k - 1 else k)
  {
    hide Keep, CountSnapshot;
    if s.queue != [] {
      CountActive(s.(cmds := s.cmds[if s.cmds == [] then 0 else 1..], queue := s.queue[1..],
                     handled := s.handled + [s.queue[0].serial]));
    }
  }

  /** Stop and start, exactly. For a running thread with no exit queued, and any interleaving of
      calls, sends, flushes and handlings long enough to handle what was queued: after a stop
      snapshots are inactive if and only if the last START or STOP queued when it was sent was
      not a START; after a start they are active if and only if it was not a STOP. */
  lemma StopAfterStart(s: State, es: seq<Event>)
    requires s.running && Exit !in s.cmds && Undisturbed(es) && Handlings(es) > |s.cmds|
    ensures !Run(Next(s, Stop), es).snapshotActive <==> !LastIsStart(s.cmds)
    ensures Run(Next(s, Start), es).snapshotActive <==> LastIsStart(s.cmds) || NoControl(s.cmds)
  {
    hide LastIsStart, NoControl;
    Drained(Next(s, Stop), es);
    Drained(Next(s, Start), es);
    assert ([StopDataProc] + s.cmds)[1..] == s.cmds && ([StartDataProc] + s.cmds)[1..] == s.cmds;
    SettledIs(false, s.cmds);
    SettledIs(true, s.cmds);
  }

  lemma Drained(s: State, es: seq<Event>)
    requires s.running && Exit !in s.cmds && Undisturbed(es) && Handlings(es) >= |s.cmds|
    ensures Run(s, es).snapshotActive == Settled(s.snapshotActive, s.cmds)
  {
    RunSettles(s, es);
    var t := Run(s, es);
    SettledIs(t.snapshotActive, t.cmds);
  }
}

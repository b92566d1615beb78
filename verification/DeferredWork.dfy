/** The table of deferred jobs: 25 slots shared by the callers that submit and wait and the
    one worker thread that runs the jobs in order. */
module DeferredWork {
  const MAX_ONGOING_JOBS := 25
  /** Job ids are 32-bit and 0 means "free slot". */
  const ID_LIMIT := 0x1_0000_0000
  const NO_ERROR := 0
  /** INT32_MIN, returned as an unsigned value. */
  const UNKNOWN_ERROR := 0x8000_0000

  type JobId = n: nat | n < ID_LIMIT

  /** DefOngoingJob: id 0 for a free slot; status 0 until the job failed. */
  datatype Job = Job(id: JobId, status: int)

  const FREE := Job(0, 0)

  // ---------- The table on values ----------

  /** The first slot with this id, the length if there is none. */
  function Find(jobs: seq<Job>, id: JobId): (k: nat)
    ensures k <= |jobs|
    ensures k < |jobs| ==> jobs[k].id == id
    ensures forall j :: 0 <= j < k ==> jobs[j].id != id
  {
    if jobs == [] || jobs[0].id == id then 0 else 1 + Find(jobs[1..], id)
  }

  datatype Table = Table(jobs: seq<Job>, next: JobId)

  function Empty(): Table { Table(seq(MAX_ONGOING_JOBS, _ => FREE), 1) }

  /** queueDeferredWork; "alloc" and "active" say whether memory was there and the queue takes commands. */
  function Submit(t: Table, alloc: bool, active: bool): (Table, JobId) {
    var k := Find(t.jobs, 0);
    if k == |t.jobs| || !alloc || !active then (t, 0)
    else (Table(t.jobs[k := Job(t.next, 0)], if t.next + 1 == ID_LIMIT then 1 else t.next + 1), t.next)
  }

  /** dequeueDeferredWork: a failed job keeps its slot. */
  function Dequeue(t: Table, id: JobId, status: int): (Table, nat) {
    var k := Find(t.jobs, id);
    if k == |t.jobs| then (t, UNKNOWN_ERROR)
    else if status != NO_ERROR then (t.(jobs := t.jobs[k := Job(id, status)]), NO_ERROR)
    else (t.(jobs := t.jobs[k := FREE]), NO_ERROR)
  }

  /** checkDeferredWork */
  predicate InProgress(t: Table, id: JobId) {
    var k := Find(t.jobs, id);
    k < |t.jobs| && t.jobs[k].status == NO_ERROR
  }

  /** getDefJobStatus */
  function StatusOf(t: Table, id: JobId): int {
    var k := Find(t.jobs, id);
    if k < |t.jobs| then t.jobs[k].status else NO_ERROR
  }

  /** waitDeferredWork leaves its loop (or never enters it); it then returns StatusOf, or
      NO_ERROR for id 0. */
  predicate WaitReturns(t: Table, id: JobId) {
    id == 0 || !InProgress(t, id)
  }

  function WaitResult(t: Table, id: JobId): int {
    if id == 0 then NO_ERROR else StatusOf(t, id)
  }

  // ---------- The table in place ----------

  class JobTable {
    const jobs: array<Job>
    var nextJobId: JobId

    constructor ()
      ensures Valid() && View() == Empty() && fresh(jobs)
    {
      jobs := new Job[MAX_ONGOING_JOBS](_ => FREE);
      nextJobId := 1;
      new;
      assert jobs[..] == Empty().jobs;
    }

    ghost predicate Valid() {
      jobs.Length == MAX_ONGOING_JOBS
    }

    ghost function View(): Table
      reads this, jobs
    {
      Table(jobs[..], nextJobId)
    }

    /** queueDeferredWork */
    method QueueDeferredWork(alloc: bool, active: bool) returns (id: JobId)
      requires Valid()
      modifies this`nextJobId, jobs
      ensures (View(), id) == Submit(old(View()), alloc, active)
    {
      for i := 0 to MAX_ONGOING_JOBS
        invariant View() == old(View())
        invariant forall j :: 0 <= j < i ==> jobs[j].id != 0
      {
        if jobs[i].id == 0 {
          FindIs(jobs[..], 0, i);
          if !alloc || !active {
            return 0;
          }
          jobs[i] := Job(nextJobId, 0);
          nextJobId := if nextJobId + 1 == ID_LIMIT then 0 else nextJobId + 1;
          if nextJobId == 0 {
            nextJobId := 1;
          }
          assert jobs[..] == old(jobs[..])[i := jobs[i]];
          return jobs[i].id;
        }
      }
      FindIs(jobs[..], 0, MAX_ONGOING_JOBS);
      return 0;
    }

    /** dequeueDeferredWork for the work with this id */
    method DequeueDeferredWork(id: JobId, jobStatus: int) returns (rc: nat)
      requires Valid()
      modifies jobs
      ensures (View(), rc) == Dequeue(old(View()), id, jobStatus)
    {
      for i := 0 to MAX_ONGOING_JOBS
        invariant View() == old(View())
        invariant forall j :: 0 <= j < i ==> jobs[j].id != id
      {
        if jobs[i].id == id {
          FindIs(jobs[..], id, i);
          if jobStatus != NO_ERROR {
            jobs[i] := jobs[i].(status := jobStatus);
          } else {
            jobs[i] := Job(0, 0);
          }
          assert jobs[..] == old(jobs[..])[i := jobs[i]];
          return NO_ERROR;
        }
      }
      FindIs(jobs[..], id, MAX_ONGOING_JOBS);
      return UNKNOWN_ERROR;
    }

    /** checkDeferredWork */
    method CheckDeferredWork(id: JobId) returns (r: bool)
      requires Valid()
      ensures r == InProgress(View(), id)
    {
      for i := 0 to MAX_ONGOING_JOBS
        invariant forall j :: 0 <= j < i ==> jobs[j].id != id
      {
        if jobs[i].id == id {
          FindIs(jobs[..], id, i);
          return jobs[i].status == NO_ERROR;
        }
      }
      FindIs(jobs[..], id, MAX_ONGOING_JOBS);
      return false;
    }

    /** getDefJobStatus */
    method GetDefJobStatus(id: JobId) returns (r: int)
      requires Valid()
      ensures r == StatusOf(View(), id)
    {
      for i := 0 to MAX_ONGOING_JOBS
        invariant forall j :: 0 <= j < i ==> jobs[j].id != id
      {
        if jobs[i].id == id {
          FindIs(jobs[..], id, i);
          return jobs[i].status;
        }
      }
      FindIs(jobs[..], id, MAX_ONGOING_JOBS);
      return NO_ERROR;
    }
  }

  /** What a loop over the slots has found. */
  lemma FindIs(jobs: seq<Job>, id: JobId, k: nat)
    requires k <= |jobs| && (k < |jobs| ==> jobs[k].id == id)
    requires forall j :: 0 <= j < k ==> jobs[j].id != id
    ensures Find(jobs, id) == k
  {
  }

  // ---------- The protocol ----------

  /** The table, the ids waiting in the command queue, the one the worker has taken, and as
      history the number of accepted submissions and the statuses jobs were dequeued with. */
  datatype State = State(t: Table, queue: seq<JobId>, running: seq<JobId>, count: nat, log: seq<int>)

  function Init(): State { State(Empty(), [], [], 0, []) }

  datatype Event = Queue(alloc: bool, active: bool) | Take | Finish(status: int)

  /** The critical sections, one at a time; the status a job finishes with is any value. */
  function Next(s: State, e: Event): State {
    match e
    case Queue(alloc, active) =>
      var (t, id) := Submit(s.t, alloc, active);
      if id == 0 then s.(t := t) else s.(t := t, queue := s.queue + [id], count := s.count + 1)
    case Take =>
      if s.running != [] || s.queue == [] then s else s.(queue := s.queue[1..], running := [s.queue[0]])
    case Finish(status) =>
      if s.running == [] then s
      else s.(t := Dequeue(s.t, s.running[0], status).0, running := [], log := s.log + [status])
  }

  function Run(s: State, es: seq<Event>): State {
    if es == [] then s else Next(Run(s, es[..|es| - 1]), es[|es| - 1])
  }

  ghost predicate Reachable(s: State) {
    exists es :: s == Run(Init(), es)
  }

  lemma ReachableNext(s: State, e: Event)
    requires Reachable(s)
    ensures Reachable(Next(s, e))
  {
    var es :| s == Run(Init(), es);
    assert (es + [e])[..|es|] == es;
    assert Next(s, e) == Run(Init(), es + [e]);
  }

  /** A live slot with this id. */
  ghost predicate Holds(jobs: seq<Job>, k: nat, id: JobId) {
    k < |jobs| && jobs[k].id == id
  }

  ghost predicate Present(jobs: seq<Job>, id: JobId) {
    exists k: nat :: Holds(jobs, k, id)
  }

  predicate LiveDistinct(jobs: seq<Job>) {
    forall i, j :: 0 <= i < j < |jobs| && jobs[i].id == jobs[j].id ==> jobs[i].id == 0
  }

  /** Job number i (counting from 0) has the id i + 1, and its state is readable from the log:
      free slots are clear, a pending job is one not yet dequeued, a failed one keeps its slot
      and status, a successful one has no slot. */
  ghost predicate SlotsTell(s: State) {
    && |s.t.jobs| == MAX_ONGOING_JOBS && LiveDistinct(s.t.jobs)
    && (forall k :: 0 <= k < |s.t.jobs| ==> SlotTells(s, s.t.jobs[k]))
    && (forall id: JobId :: 0 < id <= s.count && (id <= |s.log| ==> s.log[id - 1] != NO_ERROR) ==>
          Present(s.t.jobs, id))
  }

  ghost predicate SlotTells(s: State, j: Job) {
    if j.id == 0 then j == FREE
    else j.id <= s.count && if j.id <= |s.log| then j.status == s.log[j.id - 1] != NO_ERROR else j.status == NO_ERROR
  }

  /** Holds until the ids wrap around. */
  ghost predicate Protocol(s: State) {
    && |s.log| + |s.running| + |s.queue| == s.count < ID_LIMIT && |s.running| <= 1
    && s.t.next == (if s.count + 1 == ID_LIMIT then 1 else s.count + 1)
    && (forall i :: 0 <= i < |s.running| ==> s.running[i] == |s.log| + 1)
    && (forall i :: 0 <= i < |s.queue| ==> s.queue[i] == |s.log| + |s.running| + i + 1)
    && SlotsTell(s)
  }

  lemma InitProtocol()
    ensures Protocol(Init())
  {
  }

  /** Changing one slot leaves every other id present. */
  lemma PresentAfter(jobs: seq<Job>, k: nat, j: Job, id: JobId)
    requires k < |jobs|
    ensures Present(jobs, id) && jobs[k].id != id ==> Present(jobs[k := j], id)
    ensures j.id == id ==> Present(jobs[k := j], id)
  {
    if Present(jobs, id) && jobs[k].id != id {
      var i: nat :| Holds(jobs, i, id);
      assert Holds(jobs[k := j], i, id);
    }
    if j.id == id {
      assert Holds(jobs[k := j], k, id);
    }
  }

  lemma QueueKeeps(s: State, alloc: bool, active: bool)
    requires Protocol(s) && Next(s, Queue(alloc, active)).count < ID_LIMIT
    ensures Protocol(Next(s, Queue(alloc, active)))
  {
    var s' := Next(s, Queue(alloc, active));
    if s'.count != s.count {
      var k := Find(s.t.jobs, 0);
      var id: JobId := s.count + 1;
      forall i: JobId | 0 < i <= s'.count && (i <= |s'.log| ==> s'.log[i - 1] != NO_ERROR)
        ensures Present(s'.t.jobs, i)
      {
        PresentAfter(s.t.jobs, k, Job(id, 0), i);
      }
    }
  }

  /** The taken job is still in the table, once. */
  lemma RunningPresent(s: State)
    requires Protocol(s) && s.running != []
    ensures Find(s.t.jobs, s.running[0]) < MAX_ONGOING_JOBS
  {
    assert Present(s.t.jobs, s.running[0]);
    var k: nat :| Holds(s.t.jobs, k, s.running[0]);
  }

  lemma FinishKeeps(s: State, status: int)
    requires Protocol(s)
    ensures Protocol(Next(s, Finish(status)))
  {
    if s.running != [] {
      var s' := Next(s, Finish(status));
      RunningPresent(s);
      var id := s.running[0];
      var k := Find(s.t.jobs, id);
      forall i: JobId | 0 < i <= s'.count && (i <= |s'.log| ==> s'.log[i - 1] != NO_ERROR)
        ensures Present(s'.t.jobs, i)
      {
        assert i <= |s.log| ==> s.log[i - 1] == s'.log[i - 1];
        PresentAfter(s.t.jobs, k, s'.t.jobs[k], i);
      }
      forall i | 0 <= i < |s'.t.jobs| ensures SlotTells(s', s'.t.jobs[i]) {
        assert SlotTells(s, s.t.jobs[i]);
      }
    }
  }

  /** Every step keeps the protocol, as long as no 2^32nd job was accepted. */
  lemma StepKeeps(s: State, e: Event)
    requires Protocol(s) && Next(s, e).count < ID_LIMIT
    ensures Protocol(Next(s, e))
  {
    match e
    case Queue(alloc, active) => QueueKeeps(s, alloc, active);
    case Take =>
    case Finish(status) => FinishKeeps(s, status);
  }

  /** The history only grows. */
  ghost predicate Extends(s: State, s': State) {
    s.count <= s'.count && s.log <= s'.log
  }

  lemma StepExtends(s: State, e: Event)
    ensures Extends(s, Next(s, e))
  {
  }

  lemma {:induction false} RunExtends(s: State, es: seq<Event>)
    ensures Extends(s, Run(s, es))
  {
    if es != [] {
      RunExtends(s, es[..|es| - 1]);
      StepExtends(Run(s, es[..|es| - 1]), es[|es| - 1]);
    }
  }

  lemma {:induction false} RunKeeps(s: State, es: seq<Event>)
    requires Protocol(s) && Run(s, es).count < ID_LIMIT
    ensures Protocol(Run(s, es))
  {
    if es != [] {
      var p := Run(s, es[..|es| - 1]);
      StepExtends(p, es[|es| - 1]);
      RunKeeps(s, es[..|es| - 1]);
      StepKeeps(p, es[|es| - 1]);
    }
  }

  /** Every reachable state with fewer than 2^32 accepted jobs keeps the protocol. */
  lemma ReachableKeeps(s: State)
    requires Reachable(s) && s.count < ID_LIMIT
    ensures Protocol(s)
  {
    var es :| s == Run(Init(), es);
    InitProtocol();
    RunKeeps(Init(), es);
  }

  /** A wait for an accepted job returns exactly when that job has been dequeued, and with the
      status it was dequeued with. */
  lemma WaitIsExact(s: State, id: JobId)
    requires Protocol(s) && 0 < id <= s.count
    ensures WaitReturns(s.t, id) <==> id <= |s.log|
    ensures id <= |s.log| ==> WaitResult(s.t, id) == s.log[id - 1]
    ensures WaitReturns(s.t, 0) && WaitResult(s.t, 0) == NO_ERROR
  {
    var k := Find(s.t.jobs, id);
    if id > |s.log| || s.log[id - 1] != NO_ERROR {
      assert Present(s.t.jobs, id);
      var i: nat :| Holds(s.t.jobs, i, id);
    }
    if k < |s.t.jobs| {
      assert SlotTells(s, s.t.jobs[k]);
    }
  }

  /** Once it returned, every later wait for the job returns the same. */
  lemma WaitIsStable(s: State, es: seq<Event>, id: JobId)
    requires Protocol(s) && 0 < id <= s.count && WaitReturns(s.t, id) && Run(s, es).count < ID_LIMIT
    ensures id <= |s.log|
    ensures WaitReturns(Run(s, es).t, id) && WaitResult(Run(s, es).t, id) == WaitResult(s.t, id) == s.log[id - 1]
  {
    RunExtends(s, es);
    RunKeeps(s, es);
    WaitIsExact(s, id);
    WaitIsExact(Run(s, es), id);
  }

  /** dequeueDeferredWork on any table: the first slot with the id is freed or given the failure and
      NO_ERROR returned; without one nothing changes and UNKNOWN_ERROR is returned. */
  lemma DequeueExactly(t: Table, id: JobId, status: int)
    ensures var (t', rc) := Dequeue(t, id, status);
            && (!Present(t.jobs, id) ==> t' == t && rc == 0x8000_0000)
            && (Present(t.jobs, id) ==>
                  rc == 0
                  && exists k: nat ::
                    && Holds(t.jobs, k, id) && (forall j: nat :: j < k ==> !Holds(t.jobs, j, id))
                    && t' == Table(t.jobs[k := if status == 0 then Job(0, 0) else Job(id, status)], t.next))
  {
    var k := Find(t.jobs, id);
    if k < |t.jobs| {
      assert Holds(t.jobs, k, id);
    }
  }

  /** The worker always finds the slot of the job it ran. */
  lemma RunningDequeues(s: State, status: int)
    requires Protocol(s) && s.running != []
    ensures Dequeue(s.t, s.running[0], status).1 == NO_ERROR
  {
    RunningPresent(s);
    DequeueExactly(s.t, s.running[0], status);
  }

  // ---------- How many slots are in use ----------

  datatype Use = Free | Pending | Failed

  function UseOf(j: Job): Use {
    if j.id == 0 then Free else if j.status == NO_ERROR then Pending else Failed
  }

  function Count(jobs: seq<Job>, u: Use): nat {
    if jobs == [] then 0 else Count(jobs[1..], u) + if UseOf(jobs[0]) == u then 1 else 0
  }

  lemma {:induction false} CountUpdate(jobs: seq<Job>, k: nat, j: Job, u: Use)
    requires k < |jobs|
    ensures Count(jobs[k := j], u) + (if UseOf(jobs[k]) == u then 1 else 0) ==
            Count(jobs, u) + (if UseOf(j) == u then 1 else 0)
  {
    if k == 0 {
      assert jobs[0 := j][1..] == jobs[1..];
    } else {
      assert jobs[k := j][1..] == jobs[1..][k - 1 := j];
      CountUpdate(jobs[1..], k - 1, j, u);
    }
  }

  lemma {:induction false} CountAll(jobs: seq<Job>)
    ensures Count(jobs, Free) + Count(jobs, Pending) + Count(jobs, Failed) == |jobs|
    ensures Count(jobs, Free) == 0 <==> Find(jobs, 0) == |jobs|
  {
    if jobs != [] {
      CountAll(jobs[1..]);
    }
  }

  /** How many jobs were dequeued with a failure. */
  function Failures(log: seq<int>): nat {
    if log == [] then 0 else Failures(log[..|log| - 1]) + if log[|log| - 1] != NO_ERROR then 1 else 0
  }

  /** Pending slots are the jobs queued or running; failed slots the failures so far. */
  ghost predicate Counted(s: State) {
    Count(s.t.jobs, Pending) == |s.queue| + |s.running| && Count(s.t.jobs, Failed) == Failures(s.log)
  }

  lemma {:induction false} CountFree(n: nat, u: Use)
    ensures Count(seq(n, _ => FREE), u) == if u == Free then n else 0
  {
    if n > 0 {
      assert seq(n, _ => FREE)[1..] == seq(n - 1, _ => FREE);
      CountFree(n - 1, u);
    }
  }

  lemma StepCounted(s: State, e: Event)
    requires Protocol(s) && Counted(s)
    ensures Counted(Next(s, e))
  {
    match e
    case Queue(alloc, active) =>
      var k := Find(s.t.jobs, 0);
      if Next(s, e).count != s.count {
        CountUpdate(s.t.jobs, k, Job(s.t.next, 0), Pending);
        CountUpdate(s.t.jobs, k, Job(s.t.next, 0), Failed);
      }
    case Take =>
    case Finish(status) =>
      if s.running != [] {
        RunningPresent(s);
        var k := Find(s.t.jobs, s.running[0]);
        assert SlotTells(s, s.t.jobs[k]);
        var j := Next(s, e).t.jobs[k];
        CountUpdate(s.t.jobs, k, j, Pending);
        CountUpdate(s.t.jobs, k, j, Failed);
        assert (s.log + [status])[..|s.log|] == s.log;
      }
  }

  lemma {:induction false} RunCounted(es: seq<Event>)
    requires Run(Init(), es).count < ID_LIMIT
    ensures Counted(Run(Init(), es))
  {
    if es == [] {
      CountFree(MAX_ONGOING_JOBS, Pending);
      CountFree(MAX_ONGOING_JOBS, Failed);
    } else {
      var p := Run(Init(), es[..|es| - 1]);
      StepExtends(p, es[|es| - 1]);
      RunCounted(es[..|es| - 1]);
      InitProtocol();
      RunKeeps(Init(), es[..|es| - 1]);
      StepCounted(p, es[|es| - 1]);
    }
  }

  /** Slots are conserved, and a submission is refused exactly for want of memory, an active
      queue or a free slot; a failed job takes one slot away for good. */
  lemma Capacity(s: State, alloc: bool, active: bool)
    requires Reachable(s) && s.count < ID_LIMIT
    ensures Count(s.t.jobs, Free) + Count(s.t.jobs, Pending) + Count(s.t.jobs, Failed) == MAX_ONGOING_JOBS
    ensures Count(s.t.jobs, Pending) == |s.queue| + |s.running|
    ensures Count(s.t.jobs, Failed) == Failures(s.log)
    ensures Submit(s.t, alloc, active).1 != 0 <==>
            alloc && active && |s.queue| + |s.running| + Failures(s.log) < MAX_ONGOING_JOBS
  {
    ReachableKeeps(s);
    var es :| s == Run(Init(), es);
    RunCounted(es);
    CountAll(s.t.jobs);
  }

  // ---------- After the ids wrapped around ----------

  /** A submission keeps live ids distinct exactly when it is refused or its id is not in the table. */
  lemma SubmitDistinct(t: Table, alloc: bool, active: bool)
    requires LiveDistinct(t.jobs) && t.next != 0
    ensures LiveDistinct(Submit(t, alloc, active).0.jobs) <==>
            Submit(t, alloc, active).1 == 0 || !Present(t.jobs, t.next)
  {
    var k := Find(t.jobs, 0);
    var r := Submit(t, alloc, active).0.jobs;
    if Submit(t, alloc, active).1 != 0 {
      if Present(t.jobs, t.next) {
        var i: nat :| Holds(t.jobs, i, t.next);
        assert r[i].id == r[k].id;
      } else {
        forall i | 0 <= i < |t.jobs| ensures t.jobs[i].id != t.next {
          assert t.jobs[i].id == t.next ==> Holds(t.jobs, i, t.next);
        }
      }
    }
  }

  /** Job 1 failed, n jobs succeeded after it. */
  function Worn(n: nat, status: int): State
    requires n + 2 <= ID_LIMIT
  {
    State(Table(Empty().jobs[0 := Job(1, status)], if n + 2 == ID_LIMIT then 1 else n + 2), [], [], n + 1,
          [status] + seq(n, _ => NO_ERROR))
  }

  /** One job submitted, taken and finished. */
  function Cycle(s: State, status: int): State {
    Next(Next(Next(s, Queue(true, true)), Take), Finish(status))
  }

  lemma {:induction false} WornReachable(n: nat, status: int)
    requires n + 2 <= ID_LIMIT && status != NO_ERROR
    ensures Reachable(Worn(n, status))
  {
    if n == 0 {
      assert Reachable(Init()) by { assert Init() == Run(Init(), []); }
      ReachableCycle(Init(), status);
      FindIs(Empty().jobs, 0, 0);
      FindIs(Empty().jobs[0 := Job(1, 0)], 1, 0);
      assert Cycle(Init(), status) == Worn(0, status);
    } else {
      WornReachable(n - 1, status);
      ReachableCycle(Worn(n - 1, status), NO_ERROR);
      WornCycle(n, status);
    }
  }

  lemma ReachableCycle(s: State, status: int)
    requires Reachable(s)
    ensures Reachable(Cycle(s, status))
  {
    ReachableNext(s, Queue(true, true));
    ReachableNext(Next(s, Queue(true, true)), Take);
    ReachableNext(Next(Next(s, Queue(true, true)), Take), Finish(status));
  }

  lemma WornCycle(n: nat, status: int)
    requires 0 < n && n + 2 <= ID_LIMIT && status != NO_ERROR
    ensures Cycle(Worn(n - 1, status), NO_ERROR) == Worn(n, status)
  {
    var s := Worn(n - 1, status);
    var jobs := s.t.jobs;
    FindIs(jobs, 0, 1);
    var id: JobId := n + 1;
    FindIs(jobs[1 := Job(id, 0)], id, 1);
    assert jobs[1 := Job(id, 0)][1 := FREE] == jobs;
    assert s.log + [NO_ERROR] == Worn(n, status).log;
  }

  /** With 2^32 accepted jobs the protocol is lost: the first job failed and kept id 1, the
      newest is given id 1 too, and a wait for it returns the old failure while it is queued. */
  lemma WrapBreaks(status: int)
    requires status != NO_ERROR
    ensures exists s :: Reachable(s) && s.count == ID_LIMIT && !LiveDistinct(s.t.jobs) && s.queue == [1]
                        && WaitReturns(s.t, 1) && WaitResult(s.t, 1) == status
  {
    var w := Worn(ID_LIMIT - 2, status);
    WornReachable(ID_LIMIT - 2, status);
    ReachableNext(w, Queue(true, true));
    var s := Next(w, Queue(true, true));
    FindIs(w.t.jobs, 0, 1);
    FindIs(s.t.jobs, 1, 0);
    assert s.t.jobs[0].id == s.t.jobs[1].id == 1;
  }
}

/** The hand-off of preview buffers between the driver, the display, the callback that may run
    on the poll thread (the synchronous callback) and the preview callback thread. Every
    enqueue, mapping, bufDone and dequeue may fail; a buffer whose call failed is lost. */
module PreviewBuffers {
  const INITIAL_MAPPABLE := 5
  const MAX_BUFFERS := 64
  /** mEnqueuedBuffers is 8 bits wide. */
  const COUNTER_LIMIT := 256

  /** Where the poll thread is with the frame it delivers. */
  datatype Poll =
    | Waiting
    | Filled(i: nat)           // before the synchronous callback decided
    | Shown(i: nat)            // enqueued to the display, not yet counted
    | Pushing(i: nat)          // about to be queued for the preview thread

  /** Where the preview thread is. */
  datatype Preview =
    | Idle
    | Frame(i: nat)            // before the check under the lock
    | Discard(i: nat)          // to be returned to the driver undisplayed
    | Enqueue(i: nat)          // to be enqueued here, without the synchronous callback
    | Enqueued(i: nat)         // enqueued, not yet counted
    | Counting                 // about to read the counter
    | Loop(left: nat, err: bool)                        // dequeues still to be made, and "err < 0"
    | Got(i: nat, left: nat, isNew: bool, err: bool)    // dequeued, not yet counted
    | Back(i: nat, left: nat, isNew: bool, err: bool)   // counted; to be mapped if new, then returned

  datatype State = State(
    sync: bool, n: nat,
    driver: set<nat>, display: set<nat>, skipped: set<nat>, lost: set<nat>, mapped: set<nat>,
    pending: seq<nat>, counter: nat, mappable: nat,
    poll: Poll, preview: Preview)

  datatype Event =
    | Fill(i: nat)             // the driver delivers a frame
    | Decide(process: bool, ok: bool)   // the synchronous callback skips or displays
    | CountShown
    | Push
    | TakeFrame
    | Check(process: bool)
    | BufDone(mapOk: bool, ok: bool)    // a new buffer mapped, a buffer returned to the driver
    | EnqueueHere(ok: bool)
    | CountHere
    | ReadCount
    | Dequeue(i: nat)          // the display hands out one of its buffers
    | DequeueFails
    | CountGot

  function Range(a: nat, b: nat): (r: set<nat>)
    requires a <= b
    ensures forall i: nat {:trigger i in r} :: i in r <==> a <= i < b
    ensures |r| == b - a
  {
    if a == b then {} else Range(a, b - 1) + {b - 1}
  }

  /** After allocation: the mappable buffers are with the driver, the others with the display. */
  function Init(sync: bool, n: nat): State {
    var m := if n < INITIAL_MAPPABLE then n else INITIAL_MAPPABLE;
    State(sync, n, Range(0, m), Range(m, n), {}, {}, Range(0, m), [], n - m, m, Waiting, Idle)
  }

  // ---------- Steps ----------

  /** Increment and decrement of the 8-bit counter. */
  function Up(c: nat): nat { (c + 1) % COUNTER_LIMIT }

  function Down(c: nat): nat { (c + COUNTER_LIMIT - 1) % COUNTER_LIMIT }

  /** The poll thread: synchronous_stream_cb_routine, then the frame is queued. */
  function PollStep(s: State, e: Event): State {
    match (s.poll, e)
    case (Waiting, Fill(i)) =>
      if i !in s.driver then s
      else s.(driver := s.driver - {i}, poll := if s.sync then Filled(i) else Pushing(i))
    case (Filled(i), Decide(process, ok)) =>
      if !process then s.(skipped := s.skipped + {i}, poll := Pushing(i))
      else if ok then s.(display := s.display + {i}, poll := Shown(i))
      else s.(lost := s.lost + {i}, poll := Pushing(i))
    case (Shown(i), CountShown) => s.(counter := Up(s.counter), poll := Pushing(i))
    case (Pushing(i), Push) => s.(pending := s.pending + [i], poll := Waiting)
    case _ => s
  }

  /** A bufDone that succeeded or not. */
  function Returned(s: State, i: nat, ok: bool): State {
    if ok then s.(driver := s.driver + {i}) else s.(lost := s.lost + {i})
  }

  /** The preview thread up to the loop: preview_stream_cb_routine. */
  function FrameStep(s: State, e: Event): State {
    match (s.preview, e)
    case (Idle, TakeFrame) =>
      if s.pending == [] then s else s.(pending := s.pending[1..], preview := Frame(s.pending[0]))
    case (Frame(i), Check(process)) =>
      if !s.sync then s.(preview := if process then Enqueue(i) else Discard(i))
      else if i in s.skipped then s.(skipped := s.skipped - {i}, preview := Discard(i))
      else s.(preview := Counting)
    case (Discard(i), BufDone(_, ok)) => Returned(s, i, ok).(preview := Idle)
    case (Enqueue(i), EnqueueHere(ok)) =>
      if ok then s.(display := s.display + {i}, preview := Enqueued(i))
      else s.(lost := s.lost + {i}, preview := Loop(0, true))
    case (Enqueued(i), CountHere) =>
      var c := Up(s.counter);
      s.(counter := c, preview := Loop(c, false))
    case (Counting, ReadCount) => s.(preview := Loop(s.counter, false))
    case _ => s
  }

  /** The display hands out a buffer known by index, or an unknown one, which gets the next index. */
  predicate CanDequeue(s: State, i: nat) {
    i in s.display && i <= s.mappable && i < s.n
  }

  /** The dequeue loop. The error of one pass is still there in the next: only the mapping of
      a new buffer or a bufDone that is made sets it again. */
  function LoopStep(s: State, e: Event): State {
    match (s.preview, e)
    case (Loop(left, err), Dequeue(i)) =>
      if left == 0 then s.(preview := Idle)
      else if !CanDequeue(s, i) then s
      else s.(display := s.display - {i}, mappable := if i == s.mappable then i + 1 else s.mappable,
              preview := Got(i, left - 1, i >= s.mappable, err))
    case (Loop(left, err), DequeueFails) => s.(preview := Idle)
    case (Got(i, left, isNew, err), CountGot) =>
      s.(counter := Down(s.counter), preview := Back(i, left, isNew, err))
    case (Back(i, left, isNew, err), BufDone(mapOk, ok)) =>
      var failed := PassFails(isNew, err, mapOk, ok);
      var t := s.(mapped := if isNew && mapOk then s.mapped + {i} else s.mapped);
      Returned(t, i, !failed).(preview := Loop(left, failed))
    case _ => s
  }

  /** Whether a pass of the loop fails to return its buffer. */
  predicate PassFails(isNew: bool, err: bool, mapOk: bool, ok: bool) {
    (if isNew then !mapOk else err) || !ok
  }

  /** Any thread takes a step; an event that is not enabled changes nothing. */
  function Next(s: State, e: Event): State {
    if PollStep(s, e) != s then PollStep(s, e)
    else if FrameStep(s, e) != s then FrameStep(s, e)
    else LoopStep(s, e)
  }

  function Run(s: State, es: seq<Event>): State {
    if es == [] then s else Next(Run(s, es[..|es| - 1]), es[|es| - 1])
  }

  // ---------- What every state keeps ----------

  /** The buffer in the hands of the poll thread, of the preview thread. Where the synchronous
      callback is on, queued frames are only notices. */
  predicate HeldByPoll(s: State, i: nat) {
    s.poll == Filled(i) || (s.poll == Pushing(i) && !s.sync)
  }

  predicate HeldByPreview(s: State, i: nat) {
    match s.preview
    case Frame(j) => i == j && !s.sync
    case Discard(j) => i == j
    case Enqueue(j) => i == j
    case Got(j, _, _, _) => i == j
    case Back(j, _, _, _) => i == j
    case _ => false
  }

  function One(b: bool): nat { if b then 1 else 0 }

  function Queued(sync: bool, pending: seq<nat>, i: nat): nat {
    if sync then 0 else multiset(pending)[i]
  }

  /** In how many places a buffer is. */
  function Places(s: State, i: nat): nat {
    One(i in s.driver) + One(i in s.display) + One(i in s.skipped) + One(i in s.lost)
    + One(HeldByPoll(s, i)) + One(HeldByPreview(s, i)) + Queued(s.sync, s.pending, i)
  }

  /** Every buffer is in exactly one place. */
  ghost predicate OnePlace(s: State) {
    forall i: nat :: Places(s, i) == One(i < s.n)
  }

  /** The counter differs from the number of displayed buffers only by an increment or a
      decrement in flight, and covers the dequeues still to be made. */
  ghost predicate Balanced(s: State) {
    && s.counter + One(s.poll.Shown?) + One(s.preview.Enqueued?) == |s.display| + One(s.preview.Got?)
    && (s.preview.Loop? ==> s.preview.left <= s.counter)
    && (s.preview.Got? ==> s.preview.left < s.counter)
    && (s.preview.Back? ==> s.preview.left <= s.counter)
  }

  /** A skipped buffer still has a notice on its way that will return it. */
  ghost predicate SkippedWillReturn(s: State) {
    forall i :: i in s.skipped ==> s.sync && (i in s.pending || s.poll == Pushing(i) || s.preview == Frame(i))
  }

  predicate BeingMapped(s: State, i: nat) {
    (s.preview.Got? || s.preview.Back?) && s.preview.i == i && s.preview.isNew
  }

  /** The buffers not yet known by index are with the display; the others are mapped, except one
      the preview thread is about to map and lost ones; the driver has only mapped ones. */
  ghost predicate Mapping(s: State) {
    && s.mappable <= s.n <= MAX_BUFFERS
    && (forall i: nat :: s.mappable <= i < s.n ==> i in s.display)
    && (forall i: nat :: i in s.mapped ==> i < s.mappable && !BeingMapped(s, i))
    && (forall i: nat :: i < s.mappable ==> i in s.mapped || i in s.lost || BeingMapped(s, i))
    && (s.preview.Got? || s.preview.Back? ==> s.preview.i < s.mappable)
    && s.driver <= s.mapped
  }

  /** Who decides about display depends on whether the synchronous callback is on. */
  predicate Modes(s: State) {
    && (s.poll.Filled? || s.poll.Shown? ==> s.sync)
    && (s.preview.Enqueue? || s.preview.Enqueued? ==> !s.sync)
  }

  ghost predicate Kept(s: State) {
    Modes(s) && OnePlace(s) && Balanced(s) && SkippedWillReturn(s) && Mapping(s)
  }

  lemma SubsetSize(a: set<nat>, b: set<nat>)
    requires a <= b
    ensures |a| <= |b| && (a != b ==> |a| < |b|)
  {
    assert b == a + (b - a);
    if a != b {
      assert b - a != {};
    }
  }

  /** The counter never reaches its 8-bit limit. */
  lemma CounterSmall(s: State)
    requires OnePlace(s) && Balanced(s) && s.n <= MAX_BUFFERS
    ensures s.counter + One(s.poll.Shown?) + One(s.preview.Enqueued?) <= s.n
  {
    var shown := s.display + if s.preview.Got? then {s.preview.i} else {};
    forall i | i in shown ensures i in Range(0, s.n) {
      assert Places(s, i) == One(i < s.n);
    }
    SubsetSize(shown, Range(0, s.n));
    if s.preview.Got? {
      assert Places(s, s.preview.i) <= 1;
    }
  }

  lemma InitKept(sync: bool, n: nat)
    requires n <= MAX_BUFFERS
    ensures Kept(Init(sync, n))
  {
    InitOnePlace(sync, n);
    InitMapping(sync, n);
    hide OnePlace, Mapping;
  }

  lemma InitOnePlace(sync: bool, n: nat)
    ensures OnePlace(Init(sync, n))
  {
  }

  lemma InitMapping(sync: bool, n: nat)
    requires n <= MAX_BUFFERS
    ensures Mapping(Init(sync, n))
  {
  }

  lemma StepModes(s: State, e: Event)
    requires Modes(s)
    ensures Modes(PollStep(s, e)) && Modes(FrameStep(s, e)) && Modes(LoopStep(s, e))
  {
  }

  lemma QueuedPush(sync: bool, q: seq<nat>, i: nat, j: nat)
    ensures Queued(sync, q + [i], j) == Queued(sync, q, j) + One(!sync && i == j)
  {
  }

  lemma QueuedPop(sync: bool, q: seq<nat>, j: nat)
    requires q != []
    ensures Queued(sync, q, j) == Queued(sync, q[1..], j) + One(!sync && q[0] == j)
  {
    assert q == [q[0]] + q[1..];
  }

  /** A step moves a buffer from one place to another, if any. */
  lemma StepOnePlace(s: State, e: Event)
    requires OnePlace(s) && Modes(s)
    ensures OnePlace(PollStep(s, e)) && OnePlace(FrameStep(s, e)) && OnePlace(LoopStep(s, e))
  {
    hide OnePlace, Places, Modes, PollStep, FrameStep, LoopStep;
    forall i: nat
      ensures Places(PollStep(s, e), i) == Places(s, i)
      ensures Places(FrameStep(s, e), i) == Places(s, i)
      ensures Places(LoopStep(s, e), i) == Places(s, i)
    {
      PollPlaces(s, e, i);
      FramePlaces(s, e, i);
      LoopPlaces(s, e, i);
    }
    SameBuffers(s, e);
    OnePlaceFrom(s, PollStep(s, e));
    OnePlaceFrom(s, FrameStep(s, e));
    OnePlaceFrom(s, LoopStep(s, e));
  }

  lemma SameBuffers(s: State, e: Event)
    ensures PollStep(s, e).n == FrameStep(s, e).n == LoopStep(s, e).n == s.n
  {
  }

  lemma OnePlaceFrom(s: State, s': State)
    requires OnePlace(s) && s'.n == s.n && forall i: nat :: Places(s', i) == Places(s, i)
    ensures OnePlace(s')
  {
    hide Places;
  }

  lemma PlacesOf(s: State, i: nat)
    requires OnePlace(s)
    ensures Places(s, i) == One(i < s.n)
  {
  }

  /** A buffer in the hands of a thread is nowhere else. */
  lemma HeldAlone(s: State, i: nat)
    requires OnePlace(s) && (HeldByPoll(s, i) || HeldByPreview(s, i))
    ensures i !in s.driver && i !in s.display && i !in s.skipped && i !in s.lost
  {
    PlacesOf(s, i);
  }

  lemma PollPlaces(s: State, e: Event, i: nat)
    requires OnePlace(s) && Modes(s)
    ensures Places(PollStep(s, e), i) == Places(s, i)
  {
    hide OnePlace, HeldByPreview, Queued;
    HeldByPreviewSame(s, e, i);
    match s.poll
    case Waiting =>
    case Filled(j) => HeldAlone(s, j);
    case Shown(j) =>
    case Pushing(j) => QueuedPush(s.sync, s.pending, j, i);
  }

  lemma FramePlaces(s: State, e: Event, i: nat)
    requires OnePlace(s)
    ensures Places(FrameStep(s, e), i) == Places(s, i)
  {
    hide OnePlace, HeldByPoll, Queued;
    HeldByPollSame(s, e, i);
    match s.preview
    case Idle => if s.pending != [] { QueuedPop(s.sync, s.pending, i); }
    case Discard(j) => HeldAlone(s, j);
    case Enqueue(j) => HeldAlone(s, j);
    case _ =>
  }

  lemma HeldByPreviewSame(s: State, e: Event, i: nat)
    ensures HeldByPreview(PollStep(s, e), i) == HeldByPreview(s, i)
  {
  }

  lemma HeldByPollSame(s: State, e: Event, i: nat)
    ensures HeldByPoll(FrameStep(s, e), i) == HeldByPoll(s, i)
  {
  }

  lemma LoopPlaces(s: State, e: Event, i: nat)
    requires OnePlace(s)
    ensures Places(LoopStep(s, e), i) == Places(s, i)
  {
    hide OnePlace;
    PlacesOf(s, i);
  }

  lemma UpDown(c: nat)
    ensures c + 1 < COUNTER_LIMIT ==> Up(c) == c + 1
    ensures 0 < c < COUNTER_LIMIT ==> Down(c) == c - 1
  {
  }

  lemma PollBalanced(s: State, e: Event)
    requires OnePlace(s) && Balanced(s) && s.n <= MAX_BUFFERS
    ensures Balanced(PollStep(s, e))
  {
    hide OnePlace, Places, Up, Down, HeldByPoll, HeldByPreview;
    if s.poll.Filled? {
      HeldByPollAlone(s, s.poll.i);
      assert |s.display + {s.poll.i}| == |s.display| + 1;
    } else if s.poll.Shown? {
      CounterSmall(s);
      UpDown(s.counter);
    }
  }

  lemma HeldByPollAlone(s: State, i: nat)
    requires OnePlace(s) && s.poll == Filled(i)
    ensures i !in s.display
  {
    HeldAlone(s, i);
  }

  lemma FrameBalanced(s: State, e: Event)
    requires OnePlace(s) && Balanced(s) && s.n <= MAX_BUFFERS
    ensures Balanced(FrameStep(s, e))
  {
    hide OnePlace, Places, Up, Down, HeldByPoll, HeldByPreview;
    if s.preview.Enqueue? {
      HeldByPreviewAlone(s, s.preview.i);
      assert |s.display + {s.preview.i}| == |s.display| + 1;
    } else if s.preview.Enqueued? {
      CounterSmall(s);
      UpDown(s.counter);
    }
  }

  lemma HeldByPreviewAlone(s: State, i: nat)
    requires OnePlace(s) && s.preview == Enqueue(i)
    ensures i !in s.display
  {
    HeldAlone(s, i);
  }

  lemma LoopBalanced(s: State, e: Event)
    requires OnePlace(s) && Balanced(s) && s.n <= MAX_BUFFERS
    ensures Balanced(LoopStep(s, e))
  {
    hide OnePlace, Places, Up, Down;
    CounterSmall(s);
    UpDown(s.counter);
  }

  lemma PushSkipped(s: State, e: Event)
    requires SkippedWillReturn(s) && Modes(s)
    ensures SkippedWillReturn(PollStep(s, e))
  {
    var s' := PollStep(s, e);
    forall i | i in s'.skipped
      ensures s'.sync && (i in s'.pending || s'.poll == Pushing(i) || s'.preview == Frame(i))
    {
      if s.poll.Pushing? && e.Push? {
        assert s'.pending[|s.pending|] == s.poll.i;
        assert i in s.pending ==> i in s'.pending;
      }
    }
  }

  lemma FrameSkipped(s: State, e: Event)
    requires OnePlace(s) && SkippedWillReturn(s)
    ensures SkippedWillReturn(FrameStep(s, e))
  {
    var s' := FrameStep(s, e);
    forall i | i in s'.skipped
      ensures s'.sync && (i in s'.pending || s'.poll == Pushing(i) || s'.preview == Frame(i))
    {
      if s.preview.Idle? && s.pending != [] {
        assert s.pending == [s.pending[0]] + s.pending[1..];
      }
    }
  }

  lemma PollMapping(s: State, e: Event)
    requires OnePlace(s) && Mapping(s)
    ensures Mapping(PollStep(s, e))
  {
    hide OnePlace;
    var s' := PollStep(s, e);
    forall i: nat ensures BeingMapped(s', i) == BeingMapped(s, i) { }
  }

  lemma FrameMapping(s: State, e: Event)
    requires OnePlace(s) && Mapping(s)
    ensures Mapping(FrameStep(s, e))
  {
    hide OnePlace;
    var s' := FrameStep(s, e);
    forall i: nat ensures BeingMapped(s', i) == BeingMapped(s, i) { }
    if s.preview.Discard? {
      PlacesOf(s, s.preview.i);
    }
  }

  lemma LoopMapping(s: State, e: Event)
    requires OnePlace(s) && Mapping(s)
    ensures Mapping(LoopStep(s, e))
  {
    hide OnePlace;
    if s.preview.Back? {
      PlacesOf(s, s.preview.i);
    }
  }

  lemma StepKeeps(s: State, e: Event)
    requires Kept(s)
    ensures Kept(Next(s, e)) && Next(s, e).n == s.n && Next(s, e).sync == s.sync
  {
    hide OnePlace, Balanced, SkippedWillReturn;
    assert s.n <= MAX_BUFFERS;
    StepOnePlace(s, e);
    StepModes(s, e);
    PollBalanced(s, e);
    FrameBalanced(s, e);
    LoopBalanced(s, e);
    PushSkipped(s, e);
    FrameSkipped(s, e);
    LoopSkipped(s, e);
    PollMapping(s, e);
    FrameMapping(s, e);
    LoopMapping(s, e);
  }

  lemma LoopSkipped(s: State, e: Event)
    requires SkippedWillReturn(s)
    ensures SkippedWillReturn(LoopStep(s, e))
  {
  }

  /** Conservation, in every interleaving of the threads, the driver and the display. */
  lemma {:induction false} RunKeeps(sync: bool, n: nat, es: seq<Event>)
    requires n <= MAX_BUFFERS
    ensures Kept(Run(Init(sync, n), es))
    ensures Run(Init(sync, n), es).n == n && Run(Init(sync, n), es).sync == sync
  {
    hide Kept, Next;
    if es == [] {
      InitKept(sync, n);
    } else {
      RunKeeps(sync, n, es[..|es| - 1]);
      StepKeeps(Run(Init(sync, n), es[..|es| - 1]), es[|es| - 1]);
    }
  }

  /** No operation is ever refused for ownership: what is enqueued is not with the display, what
      is returned is not with the driver, the counter is positive when it is decremented, and
      while dequeues are to be made the display has a buffer to hand out. */
  lemma NothingRefused(s: State)
    requires Kept(s)
    ensures s.poll.Filled? ==> s.poll.i !in s.display
    ensures s.preview.Enqueue? ==> s.preview.i !in s.display
    ensures s.preview.Discard? || s.preview.Back? ==> s.preview.i !in s.driver
    ensures s.preview.Got? ==> s.counter > 0
    ensures s.preview.Loop? && s.preview.left > 0 ==> exists i :: CanDequeue(s, i)
  {
    hide OnePlace;
    if s.poll.Filled? {
      PlacesOf(s, s.poll.i);
    }
    if s.preview.Enqueue? || s.preview.Discard? || s.preview.Back? {
      PlacesOf(s, s.preview.i);
    }
    if s.preview.Loop? && s.preview.left > 0 {
      assert |s.display| > 0;
      var i :| i in s.display;
      PlacesOf(s, i);
      assert CanDequeue(s, if i > s.mappable then s.mappable else i);
    }
  }

  /** When both threads are at rest and nothing is queued, no buffer is missing: each is with
      the driver, counted with the display, or lost to a call that failed. */
  lemma AtRest(s: State)
    requires Kept(s) && s.poll == Waiting && s.preview == Idle && s.pending == []
    ensures s.skipped == {} && s.driver !! s.display !! s.lost && s.driver + s.display + s.lost == Range(0, s.n)
    ensures s.counter == |s.display| && |s.driver| + s.counter + |s.lost| == s.n
  {
    hide OnePlace, Places, Mapping;
    assert s.skipped == {} by { NoneSkipped(s); }
    forall i: nat
      ensures One(i in s.driver) + One(i in s.display) + One(i in s.lost) == One(i < s.n)
    {
      RestPlaces(s, i);
    }
    ThreeParts(s.driver, s.display, s.lost, s.n);
  }

  lemma NoneSkipped(s: State)
    requires SkippedWillReturn(s) && s.poll == Waiting && s.preview == Idle && s.pending == []
    ensures s.skipped == {}
  {
  }

  lemma RestPlaces(s: State, i: nat)
    requires OnePlace(s) && s.skipped == {} && s.poll == Waiting && s.preview == Idle && s.pending == []
    ensures One(i in s.driver) + One(i in s.display) + One(i in s.lost) == One(i < s.n)
  {
    PlacesOf(s, i);
  }

  /** Three sets that have each of the n buffers once between them. */
  lemma ThreeParts(a: set<nat>, b: set<nat>, c: set<nat>, n: nat)
    requires forall i: nat :: One(i in a) + One(i in b) + One(i in c) == One(i < n)
    ensures a !! b !! c && a + b + c == Range(0, n) && |a| + |b| + |c| == n
  {
    forall i: nat ensures i in a || i in b || i in c <==> i in Range(0, n) {
      assert One(i in a) + One(i in b) + One(i in c) == One(i < n);
    }
    assert a + b + c == Range(0, n);
    SizesAdd(a, b, c);
  }

  lemma SizesAdd(a: set<nat>, b: set<nat>, c: set<nat>)
    requires a !! b !! c
    ensures |a + b + c| == |a| + |b| + |c|
  {
  }

  // ---------- What is lost ----------

  /** Every call in the event succeeds. */
  predicate Succeeds(e: Event) {
    match e
    case Decide(_, ok) => ok
    case EnqueueHere(ok) => ok
    case BufDone(mapOk, ok) => mapOk && ok
    case _ => true
  }

  predicate ErrorPending(s: State) {
    match s.preview
    case Loop(_, err) => err
    case Got(_, _, _, err) => err
    case Back(_, _, _, err) => err
    case _ => false
  }

  /** A run in which every call succeeds loses nothing: each buffer stays with the driver, the
      display, the skipped ones or a thread. */
  lemma {:induction false} NothingLost(sync: bool, n: nat, es: seq<Event>)
    requires forall i :: 0 <= i < |es| ==> Succeeds(es[i])
    ensures Run(Init(sync, n), es).lost == {} && !ErrorPending(Run(Init(sync, n), es))
  {
    if es != [] {
      hide Init;
      NothingLost(sync, n, es[..|es| - 1]);
      StepLosesNothing(Run(Init(sync, n), es[..|es| - 1]), es[|es| - 1]);
    }
  }

  lemma StepLosesNothing(s: State, e: Event)
    requires Succeeds(e) && !ErrorPending(s)
    ensures Next(s, e).lost == s.lost && !ErrorPending(Next(s, e))
  {
  }

  /** A lost buffer is lost for good: in no run does the driver, the display or a thread have it
      again, nor is it queued to be returned. */
  lemma LostForGood(s: State, es: seq<Event>, i: nat)
    requires Kept(s) && i in s.lost
    ensures var t := Run(s, es);
            && i in t.lost && i !in t.driver && i !in t.display && i !in t.skipped
            && !HeldByPoll(t, i) && !HeldByPreview(t, i) && (!t.sync ==> i !in t.pending)
  {
    hide OnePlace, Balanced, SkippedWillReturn, Mapping;
    LostGrows(s, es);
    RunStaysKept(s, es);
    PlacesOf(Run(s, es), i);
  }

  lemma {:induction false} LostGrows(s: State, es: seq<Event>)
    ensures s.lost <= Run(s, es).lost
  {
    if es != [] {
      LostGrows(s, es[..|es| - 1]);
      LostStays(Run(s, es[..|es| - 1]), es[|es| - 1]);
    }
  }

  lemma LostStays(s: State, e: Event)
    ensures s.lost <= Next(s, e).lost
  {
  }

  // ---------- What becomes of a frame ----------

  /** With the synchronous callback, whatever thread moves next: a frame stays in the callback
      and nowhere else until it decides; to be processed it is then displayed, or lost if the
      enqueue failed; otherwise it is marked as skipped and not displayed. */
  lemma SyncFrame(s: State, e: Event, i: nat)
    requires Kept(s) && s.poll == Filled(i)
    ensures var t := Next(s, e);
            && (t.poll == Filled(i) || e.Decide?)
            && (i in t.display <==> e.Decide? && e.process && e.ok)
            && (i in t.lost <==> e.Decide? && e.process && !e.ok)
            && (i in t.skipped <==> e.Decide? && !e.process)
            && i !in t.driver
  {
    hide OnePlace, Balanced, SkippedWillReturn, Mapping;
    HeldAlone(s, i);
    NotAlsoInPreview(s, i);
  }

  lemma NotAlsoInPreview(s: State, i: nat)
    requires OnePlace(s) && s.poll == Filled(i)
    ensures !HeldByPreview(s, i) && !CanDequeue(s, i)
  {
    PlacesOf(s, i);
  }

  /** A buffer on its way back undisplayed. */
  predicate Undisplayed(s: State, i: nat) {
    i in s.skipped || s.preview == Discard(i)
  }

  /** The discard that ends this: to the driver, or lost if bufDone failed. */
  predicate Ends(s: State, e: Event, t: State, i: nat) {
    && s.preview == Discard(i) && e.BufDone?
    && t.preview == Idle && t.display == s.display && i !in t.display && i !in t.skipped
    && (if e.ok then i in t.driver else i in t.lost)
  }

  /** Whatever thread moves next, a skipped or discarded buffer stays on its way back, not
      displayed, or the discard is completed. */
  lemma UndisplayedStep(s: State, e: Event, i: nat)
    requires Kept(s) && Undisplayed(s, i)
    ensures i !in s.display && i !in s.driver
    ensures Undisplayed(Next(s, e), i) || Ends(s, e, Next(s, e), i)
    ensures i !in Next(s, e).display
  {
    hide OnePlace, Balanced, SkippedWillReturn, Mapping;
    UndisplayedAlone(s, i);
    UndisplayedMoves(s, e, i);
  }

  lemma UndisplayedAlone(s: State, i: nat)
    requires OnePlace(s) && Undisplayed(s, i)
    ensures i !in s.display && i !in s.driver && s.poll != Filled(i) && s.preview != Enqueue(i)
    ensures s.preview == Discard(i) ==> i !in s.skipped
  {
    PlacesOf(s, i);
  }

  lemma UndisplayedMoves(s: State, e: Event, i: nat)
    requires Undisplayed(s, i) && i !in s.display && s.poll != Filled(i) && s.preview != Enqueue(i)
    requires s.preview == Discard(i) ==> i !in s.skipped
    ensures Undisplayed(Next(s, e), i) || Ends(s, e, Next(s, e), i)
    ensures i !in Next(s, e).display
  {
    hide PollStep, FrameStep, LoopStep;
    PollUndisplayed(s, e, i);
    FrameUndisplayed(s, e, i);
    LoopUndisplayed(s, e, i);
  }

  lemma PollUndisplayed(s: State, e: Event, i: nat)
    requires Undisplayed(s, i) && i !in s.display && s.poll != Filled(i)
    ensures Undisplayed(PollStep(s, e), i) && i !in PollStep(s, e).display
  {
  }

  lemma FrameUndisplayed(s: State, e: Event, i: nat)
    requires Undisplayed(s, i) && i !in s.display && s.preview != Enqueue(i)
    requires s.preview == Discard(i) ==> i !in s.skipped
    ensures i !in FrameStep(s, e).display
    ensures Undisplayed(FrameStep(s, e), i) || Ends(s, e, FrameStep(s, e), i)
  {
    hide Up;
  }

  lemma LoopUndisplayed(s: State, e: Event, i: nat)
    requires Undisplayed(s, i) && i !in s.display
    ensures Undisplayed(LoopStep(s, e), i) && i !in LoopStep(s, e).display
  {
    hide Down;
  }

  /** In every interleaving a skipped buffer is never displayed before a discard has returned it:
      it is on its way back all through the run, or up to the step k that completes a discard. */
  lemma {:induction false} SkippedFate(s: State, es: seq<Event>, i: nat) returns (k: nat)
    requires Kept(s) && Undisplayed(s, i)
    ensures k <= |es|
    ensures forall j :: 0 <= j <= k ==> Undisplayed(Run(s, es[..j]), i) && i !in Run(s, es[..j]).display
    ensures k < |es| ==> Ends(Run(s, es[..k]), es[k], Run(s, es[..k + 1]), i)
  {
    hide Kept, Undisplayed, Ends, Next;
    if es == [] {
      k := 0;
      UndisplayedStep(s, Push, i);
    } else {
      var n := |es| - 1;
      var init := es[..n];
      k := SkippedFate(s, init, i);
      forall j | 0 <= j <= n ensures es[..j] == init[..j] { }
      RunStaysKept(s, init);
      if k == n {
        assert es[..n + 1] == es && init[..n] == init;
        UndisplayedStep(Run(s, init), es[n], i);
        if Undisplayed(Next(Run(s, init), es[n]), i) {
          k := n + 1;
        }
      } else {
        assert es[..k + 1] == init[..k + 1];
      }
    }
  }

  lemma {:induction false} RunStaysKept(s: State, es: seq<Event>)
    requires Kept(s)
    ensures Kept(Run(s, es))
  {
    hide Kept, Next;
    if es != [] {
      RunStaysKept(s, es[..|es| - 1]);
      StepKeeps(Run(s, es[..|es| - 1]), es[|es| - 1]);
    }
  }

  /** Without the synchronous callback, whatever thread moves next: a frame stays with the preview
      thread and nowhere else, goes to the display if it was to be processed, to the driver if
      not, or is lost if that call failed; a displayed frame is counted before the loop starts. */
  lemma AsyncFrame(s: State, e: Event, i: nat)
    requires Kept(s) && !s.sync
    ensures s.preview == Frame(i) ==>
              Next(s, e).preview == if !e.Check? then Frame(i) else if e.process then Enqueue(i) else Discard(i)
    ensures s.preview == Enqueue(i) ==>
              var t := Next(s, e);
              && (i in t.display <==> e.EnqueueHere? && e.ok) && (i in t.lost <==> e.EnqueueHere? && !e.ok)
              && t.preview == (if !e.EnqueueHere? then Enqueue(i) else if e.ok then Enqueued(i) else Loop(0, true))
    ensures s.preview == Enqueued(i) ==>
              var t := Next(s, e);
              if e.CountHere? then t.counter == s.counter + 1 && t.preview == Loop(t.counter, false)
              else t.preview == Enqueued(i) && t.counter == s.counter
    ensures s.preview == Discard(i) ==>
              i !in Next(s, e).display && (Undisplayed(Next(s, e), i) || Ends(s, e, Next(s, e), i))
  {
    hide OnePlace, Balanced, SkippedWillReturn, Up;
    CounterSmall(s);
    UpDown(s.counter);
    if s.preview == Discard(i) {
      UndisplayedStep(s, e, i);
    } else if s.preview == Enqueue(i) {
      HeldAlone(s, i);
      HeldByPollNot(s, i);
    }
  }

  /** The poll thread does not hold the frame the preview thread holds. */
  lemma HeldByPollNot(s: State, i: nat)
    requires OnePlace(s) && HeldByPreview(s, i)
    ensures !HeldByPoll(s, i)
  {
    PlacesOf(s, i);
  }

  /** With the synchronous callback, whatever thread moves next: the notice of a skipped frame leads
      to its discard and any other one to the loop, with as many dequeues to make as buffers are
      displayed and counted. */
  lemma SyncNotice(s: State, e: Event)
    requires Kept(s) && s.sync
    ensures s.preview.Frame? ==>
              Next(s, e).preview ==
              if !e.Check? then s.preview
              else if s.preview.i in s.skipped then Discard(s.preview.i) else Counting
    ensures s.preview == Counting && e.ReadCount? ==>
              var t := Next(s, e);
              && t.preview.Loop? && !t.preview.err && t.display == s.display
              && t.preview.left + One(s.poll.Shown?) == |s.display|
    ensures s.preview == Counting && !e.ReadCount? ==> Next(s, e).preview == Counting
  {
    hide OnePlace, SkippedWillReturn, Mapping, Up, Down;
  }

  // ---------- The order of the frames ----------

  /** The frames the poll thread queues in a run, and those the preview thread takes. */
  function PushedIn(s: State, es: seq<Event>): seq<nat> {
    if es == [] then []
    else
      var t := Run(s, es[..|es| - 1]);
      PushedIn(s, es[..|es| - 1]) + if t.poll.Pushing? && es[|es| - 1].Push? then [t.poll.i] else []
  }

  function TakenIn(s: State, es: seq<Event>): seq<nat> {
    if es == [] then []
    else
      var t := Run(s, es[..|es| - 1]);
      var u := Next(t, es[|es| - 1]);
      TakenIn(s, es[..|es| - 1]) + if t.preview.Idle? && u.preview.Frame? then [u.preview.i] else []
  }

  /** The preview thread takes every queued frame once, in the order they were queued. */
  lemma {:induction false} FramesInOrder(s: State, es: seq<Event>)
    ensures s.pending + PushedIn(s, es) == TakenIn(s, es) + Run(s, es).pending
  {
    hide Next;
    if es != [] {
      var n := |es| - 1;
      var t := Run(s, es[..n]);
      var u := Next(t, es[n]);
      FramesInOrder(s, es[..n]);
      OrderStep(t, es[n]);
      var pushed := if t.poll.Pushing? && es[n].Push? then [t.poll.i] else [];
      var taken := if t.preview.Idle? && u.preview.Frame? then [u.preview.i] else [];
      Regroup(s.pending, PushedIn(s, es[..n]), pushed, TakenIn(s, es[..n]), t.pending, taken, u.pending);
    }
  }

  lemma Regroup(a: seq<nat>, b: seq<nat>, c: seq<nat>, d: seq<nat>, e: seq<nat>, f: seq<nat>, g: seq<nat>)
    requires a + b == d + e && e + c == f + g
    ensures a + (b + c) == (d + f) + g
  {
    assert a + (b + c) == (a + b) + c;
    assert (d + e) + c == d + (e + c);
    assert d + (f + g) == (d + f) + g;
  }

  lemma OrderStep(s: State, e: Event)
    ensures var t := Next(s, e);
            s.pending + (if s.poll.Pushing? && e.Push? then [s.poll.i] else []) ==
            (if s.preview.Idle? && t.preview.Frame? then [t.preview.i] else []) + t.pending
  {
    hide Up, Down;
    assert s.pending != [] ==> s.pending == [s.pending[0]] + s.pending[1..];
  }

  // ---------- A whole dequeue loop ----------

  /** One turn of the loop: the buffer handed out, and whether its calls succeed. */
  datatype Turn = Turn(i: nat, mapOk: bool, ok: bool)

  /** The turn taken: dequeued, counted, mapped if need be and returned. */
  function Pass(s: State, turn: Turn): State {
    Next(Next(Next(s, Dequeue(turn.i)), CountGot), BufDone(turn.mapOk, turn.ok))
  }

  function Passes(s: State, turns: seq<Turn>): State {
    if turns == [] then s else Pass(Passes(s, turns[..|turns| - 1]), turns[|turns| - 1])
  }

  predicate Handed(s: State, turns: seq<Turn>) {
    || turns == []
    || (Handed(s, turns[..|turns| - 1]) && CanDequeue(Passes(s, turns[..|turns| - 1]), turns[|turns| - 1].i))
  }

  /** The buffers of some turns. */
  function Ids(turns: seq<Turn>): set<nat> {
    if turns == [] then {} else Ids(turns[..|turns| - 1]) + {turns[|turns| - 1].i}
  }

  lemma DequeueIs(s: State, i: nat)
    requires s.preview.Loop? && s.preview.left > 0 && CanDequeue(s, i)
    ensures Next(s, Dequeue(i)) ==
            s.(display := s.display - {i}, mappable := if i == s.mappable then i + 1 else s.mappable,
               preview := Got(i, s.preview.left - 1, i >= s.mappable, s.preview.err))
  {
    assert i in s.display && i !in s.display - {i};
  }

  lemma CountIs(s: State)
    requires s.preview.Got?
    ensures Next(s, CountGot) ==
            s.(counter := Down(s.counter),
               preview := Back(s.preview.i, s.preview.left, s.preview.isNew, s.preview.err))
  {
    hide Down;
  }

  lemma BackIs(s: State, mapOk: bool, ok: bool)
    requires s.preview.Back?
    ensures var i := s.preview.i;
            var failed := PassFails(s.preview.isNew, s.preview.err, mapOk, ok);
            var t := s.(mapped := if s.preview.isNew && mapOk then s.mapped + {i} else s.mapped);
            Next(s, BufDone(mapOk, ok)) == Returned(t, i, !failed).(preview := Loop(s.preview.left, failed))
  {
    hide Down, PassFails;
  }

  /** The three steps of a turn taken together. */
  lemma PassIs(s: State, turn: Turn)
    requires s.preview.Loop? && s.preview.left > 0 && CanDequeue(s, turn.i)
    ensures var isNew := turn.i == s.mappable;
            var failed := PassFails(isNew, s.preview.err, turn.mapOk, turn.ok);
            var t := s.(display := s.display - {turn.i}, mappable := if isNew then turn.i + 1 else s.mappable,
                        counter := Down(s.counter),
                        mapped := if isNew && turn.mapOk then s.mapped + {turn.i} else s.mapped);
            Pass(s, turn) == Returned(t, turn.i, !failed).(preview := Loop(s.preview.left - 1, failed))
  {
    hide Next, Down, PassFails;
    DequeueIs(s, turn.i);
    var a := Next(s, Dequeue(turn.i));
    CountIs(a);
    BackIs(Next(a, CountGot), turn.mapOk, turn.ok);
  }

  lemma PassReturns(s: State, turn: Turn)
    requires Kept(s) && s.preview.Loop? && s.preview.left > 0 && CanDequeue(s, turn.i)
    ensures var t := Pass(s, turn);
            var failed := PassFails(turn.i == s.mappable, s.preview.err, turn.mapOk, turn.ok);
            && Kept(t) && t.preview == Loop(s.preview.left - 1, failed)
            && t.driver == (if failed then s.driver else s.driver + {turn.i})
            && t.lost == (if failed then s.lost + {turn.i} else s.lost)
            && t.display == s.display - {turn.i}
            && t.mappable == (if turn.i == s.mappable then turn.i + 1 else s.mappable)
            && s.mapped <= t.mapped && t.driver <= t.mapped && t.counter == s.counter - 1
  {
    hide Kept, Next, Down, PassFails;
    PassIs(s, turn);
    var a := Next(s, Dequeue(turn.i));
    StepKeeps(s, Dequeue(turn.i));
    StepKeeps(a, CountGot);
    StepKeeps(Next(a, CountGot), BufDone(turn.mapOk, turn.ok));
    DriverMapped(Pass(s, turn));
    LoopCounter(s);
  }

  lemma LoopCounter(s: State)
    requires Kept(s) && s.preview.Loop? && s.preview.left > 0
    ensures Down(s.counter) == s.counter - 1
  {
    hide OnePlace, SkippedWillReturn, Down;
    CounterSmall(s);
    UpDown(s.counter);
  }

  lemma DriverMapped(s: State)
    requires Kept(s)
    ensures s.driver <= s.mapped
  {
    hide OnePlace, Balanced, SkippedWillReturn;
  }

  /** A loop in which the display answers every time takes as many buffers from the display as
      it was to, and when every call succeeds returns all of them to the driver, mapped. */
  lemma {:induction false} LoopReturns(s: State, turns: seq<Turn>)
    requires Kept(s) && s.preview.Loop? && |turns| <= s.preview.left && Handed(s, turns)
    ensures var t := Passes(s, turns);
            && Kept(t) && t.preview.Loop? && t.preview.left == s.preview.left - |turns|
            && t.display == s.display - Ids(turns) && t.counter == s.counter - |turns|
            && t.driver + t.lost == s.driver + s.lost + Ids(turns) && t.driver <= t.mapped
    ensures !s.preview.err && (forall k :: 0 <= k < |turns| ==> turns[k].mapOk && turns[k].ok) ==>
              var t := Passes(s, turns);
              !t.preview.err && t.driver == s.driver + Ids(turns) && t.lost == s.lost
  {
    hide Kept, Pass;
    DriverMapped(s);
    if turns != [] {
      var n := |turns| - 1;
      LoopReturns(s, turns[..n]);
      PassReturns(Passes(s, turns[..n]), turns[n]);
    }
  }

  /** An error sticks: as long as no new buffer is handed out, every buffer of the later turns
      is lost too, whatever its own calls would have done. */
  lemma {:induction false} ErrorSticks(s: State, turns: seq<Turn>)
    requires Kept(s) && s.preview.Loop? && s.preview.err && |turns| <= s.preview.left && Handed(s, turns)
    requires forall k :: 0 <= k < |turns| ==> turns[k].i < s.mappable
    ensures var t := Passes(s, turns);
            && Kept(t) && t.preview == Loop(s.preview.left - |turns|, true) && s.mappable <= t.mappable
            && t.driver == s.driver && t.lost == s.lost + Ids(turns)
  {
    hide Kept, Pass;
    if turns != [] {
      var n := |turns| - 1;
      ErrorSticks(s, turns[..n]);
      PassReturns(Passes(s, turns[..n]), turns[n]);
    }
  }
}

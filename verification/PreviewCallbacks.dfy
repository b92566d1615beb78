/** The two preview callbacks as the code runs them, each without another thread in between,
    proved against the steps of PreviewBuffers. */
module PreviewCallbacks {
  import opened PreviewBuffers

  /** What dequeueBuffer, mapNewBuffer and bufDone answer in one turn of the loop. */
  datatype Answer = Answer(dequeueOk: bool, mapOk: bool, doneOk: bool)

  predicate AnsweredAt(answers: nat -> Answer, turns: seq<Turn>, k: nat)
    requires k < |turns|
  {
    answers(k) == Answer(true, turns[k].mapOk, turns[k].ok)
  }

  /** The turns went as answered, and all were made unless the next dequeueBuffer failed. */
  predicate Answered(answers: nat -> Answer, turns: seq<Turn>, count: nat) {
    && (forall k :: 0 <= k < |turns| ==> AnsweredAt(answers, turns, k))
    && (|turns| == count || (|turns| < count && !answers(|turns|).dequeueOk))
  }

  class PreviewHal {
    const syncCb: bool
    const bufferCount: nat
    /** The driver's and the display's queues. */
    var driver: set<nat>
    var display: set<nat>
    /** Buffers with STATUS_SKIPPED, buffers no thread has any more because a call failed, and
        buffers mapped to the backend. */
    var skipped: set<nat>
    var lost: set<nat>
    var mapped: set<nat>
    /** Frames queued for the preview thread. */
    var frames: seq<nat>
    var mEnqueuedBuffers: nat
    var mMappableBuffers: nat
    ghost var poll: Poll
    ghost var preview: Preview

    constructor (syncCb: bool, bufferCount: nat)
      ensures View() == Init(syncCb, bufferCount)
    {
      var mappable := if bufferCount < INITIAL_MAPPABLE then bufferCount else INITIAL_MAPPABLE;
      this.syncCb, this.bufferCount := syncCb, bufferCount;
      driver, display, skipped, lost := Range(0, mappable), Range(mappable, bufferCount), {}, {};
      mapped, frames := Range(0, mappable), [];
      mEnqueuedBuffers, mMappableBuffers := bufferCount - mappable, mappable;
      poll, preview := Waiting, Idle;
    }

    ghost function View(): State
      reads this
    {
      State(syncCb, bufferCount, driver, display, skipped, lost, mapped, frames, mEnqueuedBuffers, mMappableBuffers,
            poll, preview)
    }

    /** synchronous_stream_cb_routine for the frame the poll thread has; "enqueueOk" is what
        enqueueBuffer answers. */
    method SynchronousStreamCb(idx: nat, process: bool, enqueueOk: bool)
      requires poll == Filled(idx)
      modifies this
      ensures var decided := Next(old(View()), Decide(process, enqueueOk));
              View() == if process && enqueueOk then Next(decided, CountShown) else decided
    {
      if !process {
        skipped := skipped + {idx};
        poll := Pushing(idx);
        return;
      }
      if enqueueOk {
        display := display + {idx};
        mEnqueuedBuffers := Up(mEnqueuedBuffers);
      } else {
        lost := lost + {idx};
      }
      poll := Pushing(idx);
    }

    /** What preview_stream_cb_routine decides under the lock. */
    method Discards(idx: nat, process: bool) returns (discard: bool)
      requires preview == Frame(idx)
      modifies this
      ensures View() == Next(old(View()), Check(process))
      ensures preview == if discard then Discard(idx) else if syncCb then Counting else Enqueue(idx)
    {
      discard := false;
      if !syncCb && !process {
        discard := true;
      } else if syncCb && idx in skipped {
        discard := true;
        skipped := skipped - {idx};
      }
      preview := if discard then Discard(idx) else if syncCb then Counting else Enqueue(idx);
    }

    /** bufDone: the buffer goes to the driver, or the call fails. */
    method BufDone(idx: nat, ok: bool)
      modifies this`driver, this`lost
      ensures View() == Returned(old(View()), idx, ok)
    {
      if ok {
        driver := driver + {idx};
      } else {
        lost := lost + {idx};
      }
    }

    /** Between the check and the loop: without the synchronous callback the frame is enqueued
        here; then the number of turns is read. */
    method EnqueueAndCount(idx: nat, enqueueOk: bool) returns (dequeueCnt: nat, err: bool)
      requires preview == (if syncCb then Counting else Enqueue(idx))
      modifies this
      ensures View() == Counted(old(View()), enqueueOk) && preview == Loop(dequeueCnt, err)
    {
      hide Up, Counted;
      CountedIs(View(), idx, enqueueOk);
      dequeueCnt, err := 0, false;
      if syncCb {
        dequeueCnt := mEnqueuedBuffers;
      } else if enqueueOk {
        display := display + {idx};
        mEnqueuedBuffers := Up(mEnqueuedBuffers);
        dequeueCnt := mEnqueuedBuffers;
      } else {
        lost := lost + {idx};
        err := true;
      }
      preview := Loop(dequeueCnt, err);
    }

    /** preview_stream_cb_routine for the frame the preview thread has: a discarded frame goes
        back to the driver, otherwise the dequeue loop runs until it has made as many turns as
        the counter it read, or the display does not answer. "enqueueOk" and "doneOk" are what
        enqueueBuffer and the bufDone of a discard answer. */
    method PreviewStreamCb(idx: nat, process: bool, enqueueOk: bool, doneOk: bool, answers: nat -> Answer)
        returns (ghost turns: seq<Turn>)
      requires Kept(View()) && preview == Frame(idx)
      modifies this
      ensures Kept(View()) && preview == Idle
      ensures var checked := Next(old(View()), Check(process));
              if checked.preview.Discard? then View() == Next(checked, Event.BufDone(true, doneOk))
              else
                var l := Counted(checked, enqueueOk);
                && Kept(l) && l.preview.Loop? && |turns| <= l.preview.left && Handed(l, turns)
                && Answered(answers, turns, l.preview.left)
                && View() == Passes(l, turns).(preview := Idle)
    {
      hide Kept, Up, Down, Passes, Handed, CanDequeue, Counted, Next;
      turns := [];
      StepKeeps(View(), Check(process));
      var discard := Discards(idx, process);
      if discard {
        StepKeeps(View(), Event.BufDone(true, doneOk));
        DiscardIs(View(), doneOk);
        BufDone(idx, doneOk);
        preview := Idle;
        return;
      }
      CountedKeeps(View(), enqueueOk);
      var dequeueCnt, err := EnqueueAndCount(idx, enqueueOk);
      turns := DequeueLoop(dequeueCnt, err, answers);
    }

    /** The dequeue loop of preview_stream_cb_routine, with the error it starts with; "answers"
        says what the calls of each turn answer. The loop ends early at the first dequeueBuffer
        that fails, and only there. */
    method DequeueLoop(dequeueCnt: nat, err0: bool, answers: nat -> Answer) returns (ghost turns: seq<Turn>)
      requires Kept(View()) && preview == Loop(dequeueCnt, err0)
      modifies this
      ensures |turns| <= dequeueCnt && Handed(old(View()), turns)
      ensures Answered(answers, turns, dequeueCnt)
      ensures View() == Passes(old(View()), turns).(preview := Idle)
      ensures Kept(View())
    {
      hide Kept, Up, Down, PollStep, FrameStep, LoopStep;
      ghost var l := View();
      turns := [];
      var i, err := 0, err0;
      while i < dequeueCnt
        invariant i == |turns| <= dequeueCnt && Handed(l, turns)
        invariant forall k :: 0 <= k < i ==> AnsweredAt(answers, turns, k)
        invariant View() == Passes(l, turns) && Kept(View()) && preview == Loop(dequeueCnt - i, err)
      {
        var dequeuedIdx := Dequeued(answers(i).dequeueOk);
        if dequeuedIdx < 0 {
          break;
        }
        var mapOk, doneOk := answers(i).mapOk, answers(i).doneOk;
        ghost var turn := Turn(dequeuedIdx, mapOk, doneOk);
        ghost var before := View();
        err := OneTurn(dequeuedIdx, mapOk, doneOk, err);
        PassReturns(before, turn);
        assert (turns + [turn])[..|turns|] == turns;
        ghost var more := turns + [turn];
        forall k | 0 <= k <= i ensures AnsweredAt(answers, more, k) {
          assert k < i ==> AnsweredAt(answers, turns, k) && more[k] == turns[k];
        }
        turns := more;
        i := i + 1;
      }
      LeaveKeeps(View());
      preview := Idle;
    }

    /** dequeueBuffer: some buffer the display has, or a failure. */
    method Dequeued(dequeueOk: bool) returns (idx: int)
      requires Kept(View()) && preview.Loop? && preview.left > 0
      ensures idx >= 0 <==> dequeueOk
      ensures idx >= 0 ==> CanDequeue(View(), idx)
    {
      hide Kept;
      if !dequeueOk {
        return -1;
      }
      var candidates := set i | i in display && i <= mMappableBuffers && i < bufferCount;
      NothingRefused(View());
      ghost var c :| CanDequeue(View(), c);
      assert c in candidates;
      var i :| i in candidates;
      idx := i;
    }

    /** The body of the loop for a buffer dequeued: counted, mapped if new, and returned unless
        an error of this or an earlier turn is pending. "mapOk" and "doneOk" are what the calls
        answer; the result says whether an error is pending now. */
    method OneTurn(dequeuedIdx: nat, mapOk: bool, doneOk: bool, err0: bool) returns (err: bool)
      requires preview.Loop? && preview.left > 0 && preview.err == err0 && CanDequeue(View(), dequeuedIdx)
      modifies this
      ensures View() == Pass(old(View()), Turn(dequeuedIdx, mapOk, doneOk)) && preview.Loop? && preview.err == err
    {
      hide Pass, Down, Kept;
      PassIs(View(), Turn(dequeuedIdx, mapOk, doneOk));
      ghost var left := preview.left;
      err := err0;
      var numMapped := mMappableBuffers;
      display := display - {dequeuedIdx};
      if dequeuedIdx == mMappableBuffers {
        mMappableBuffers := mMappableBuffers + 1;
      }
      mEnqueuedBuffers := Down(mEnqueuedBuffers);
      if dequeuedIdx >= numMapped {
        err := !mapOk;
        if mapOk {
          mapped := mapped + {dequeuedIdx};
        }
      }
      if err {
        lost := lost + {dequeuedIdx};
      } else {
        BufDone(dequeuedIdx, doneOk);
        err := !doneOk;
      }
      preview := Loop(left - 1, err);
    }
  }

  /** From the decision to display to the loop. */
  function Counted(s: State, enqueueOk: bool): State {
    if s.sync then Next(s, ReadCount) else Next(Next(s, EnqueueHere(enqueueOk)), CountHere)
  }

  /** The steps from there to the loop taken together. */
  lemma CountedIs(s: State, i: nat, enqueueOk: bool)
    requires s.preview == (if s.sync then Counting else Enqueue(i))
    ensures Counted(s, enqueueOk) ==
            if s.sync then s.(preview := Loop(s.counter, false))
            else if enqueueOk then
              s.(display := s.display + {i}, counter := Up(s.counter), preview := Loop(Up(s.counter), false))
            else s.(lost := s.lost + {i}, preview := Loop(0, true))
  {
    hide Up;
  }

  lemma DiscardIs(s: State, ok: bool)
    requires s.preview.Discard?
    ensures Next(s, Event.BufDone(true, ok)) == Returned(s, s.preview.i, ok).(preview := Idle)
  {
  }

  lemma CountedKeeps(s: State, enqueueOk: bool)
    requires Kept(s) && (s.preview.Counting? || s.preview.Enqueue?)
    ensures Kept(Counted(s, enqueueOk))
    ensures (s.preview.Counting? <==> s.sync) ==> Counted(s, enqueueOk).preview.Loop?
  {
    hide Kept, Up;
    StepKeeps(s, ReadCount);
    StepKeeps(s, EnqueueHere(enqueueOk));
    StepKeeps(Next(s, EnqueueHere(enqueueOk)), CountHere);
  }

  lemma LeaveKeeps(s: State)
    requires Kept(s) && s.preview.Loop?
    ensures Kept(s.(preview := Idle))
  {
    hide Kept, Up, Down;
    StepKeeps(s, DequeueFails);
  }
}

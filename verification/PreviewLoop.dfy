/** Exactly which buffers a dequeue loop returns to the driver and which it loses, whatever the
    poll thread does in between. */
module PreviewLoop {
  import opened PreviewBuffers

  // ---------- Turns that were made ----------

  /** One completed turn of the loop: its buffer, whether this was new to the HAL in that turn,
      and whether its mapping and its bufDone succeed. */
  datatype Made = Made(i: nat, isNew: bool, mapOk: bool, ok: bool)

  /** The calls a turn makes succeed: bufDone, and the mapping of a new buffer. */
  predicate Sound(m: Made) {
    m.ok && (m.isNew ==> m.mapOk)
  }

  /** Turn j is free of earlier errors: its buffer is new, so that its mapping sets the error
      afresh, or it is the first turn and no error was pending. */
  predicate Fresh(err0: bool, ms: seq<Made>, j: nat)
    requires j < |ms|
  {
    ms[j].isNew || (j == 0 && !err0)
  }

  /** Some turn up to k is free of earlier errors, and all calls from it to turn k succeed. */
  ghost predicate ComesBack(err0: bool, ms: seq<Made>, k: nat)
    requires k < |ms|
  {
    exists j :: 0 <= j <= k && Fresh(err0, ms, j) && forall n :: j <= n <= k ==> Sound(ms[n])
  }

  /** The same, turn by turn. */
  lemma ComesBackStep(err0: bool, ms: seq<Made>, k: nat)
    requires k < |ms|
    ensures ComesBack(err0, ms, k) <==>
            Sound(ms[k]) && (Fresh(err0, ms, k) || (k > 0 && ComesBack(err0, ms, k - 1)))
  {
    hide Sound, Fresh;
    if ComesBack(err0, ms, k) {
      var j :| 0 <= j <= k && Fresh(err0, ms, j) && forall n :: j <= n <= k ==> Sound(ms[n]);
      if j < k {
        assert forall n :: j <= n <= k - 1 ==> Sound(ms[n]);
      }
    }
    if Sound(ms[k]) && Fresh(err0, ms, k) {
      assert forall n :: k <= n <= k ==> Sound(ms[n]);
    }
    if Sound(ms[k]) && k > 0 && ComesBack(err0, ms, k - 1) {
      var j :| 0 <= j <= k - 1 && Fresh(err0, ms, j) && forall n :: j <= n <= k - 1 ==> Sound(ms[n]);
      assert forall n :: j <= n <= k ==> Sound(ms[n]);
    }
  }

  /** Turns after turn k do not matter to it. */
  lemma ComesBackPrefix(err0: bool, ms: seq<Made>, n: nat, k: nat)
    requires k < n <= |ms|
    ensures ComesBack(err0, ms[..n], k) <==> ComesBack(err0, ms, k)
  {
    hide Sound;
    var p := ms[..n];
    if j :| 0 <= j <= k && Fresh(err0, ms, j) && forall l :: j <= l <= k ==> Sound(ms[l]) {
      assert Fresh(err0, p, j) && forall l :: j <= l <= k ==> Sound(p[l]);
    }
    if j :| 0 <= j <= k && Fresh(err0, p, j) && forall l :: j <= l <= k ==> Sound(p[l]) {
      forall l | j <= l <= k ensures Sound(ms[l]) {
        assert p[l] == ms[l];
      }
      assert Fresh(err0, ms, j);
    }
  }

  /** All calls succeed, and no pending error meets a known buffer in the first turn. */
  predicate AllSound(err0: bool, ms: seq<Made>) {
    (ms != [] ==> Fresh(err0, ms, 0)) && forall k :: 0 <= k < |ms| ==> Sound(ms[k])
  }

  lemma SoundComesBack(err0: bool, ms: seq<Made>)
    ensures AllSound(err0, ms) <==> forall k :: 0 <= k < |ms| ==> ComesBack(err0, ms, k)
  {
    hide Sound, Fresh;
    if AllSound(err0, ms) {
      forall k | 0 <= k < |ms| ensures ComesBack(err0, ms, k) {
        assert forall n :: 0 <= n <= k ==> Sound(ms[n]);
      }
    }
    if forall k :: 0 <= k < |ms| ==> ComesBack(err0, ms, k) {
      forall k | 0 <= k < |ms| ensures Sound(ms[k]) {
        assert ComesBack(err0, ms, k);
        ComesBackStep(err0, ms, k);
      }
      if ms != [] {
        assert ComesBack(err0, ms, 0);
        ComesBackStep(err0, ms, 0);
      }
    }
  }

  /** With an error pending and no new buffer, none comes back. */
  lemma ErrorSticksInTurns(err0: bool, ms: seq<Made>, k: nat)
    requires err0 && k < |ms| && forall j :: 0 <= j <= k ==> !ms[j].isNew
    ensures !ComesBack(err0, ms, k)
  {
  }

  // ---------- In every interleaving ----------

  predicate InLoop(s: State) {
    s.preview.Loop? || s.preview.Got? || s.preview.Back?
  }

  /** The preview thread is inside one loop all through the run. */
  ghost predicate StaysInLoop(s: State, es: seq<Event>) {
    forall j :: 0 <= j <= |es| ==> InLoop(Run(s, es[..j]))
  }

  /** The turn that an event completes, if any. */
  function MadeBy(s: State, e: Event): seq<Made> {
    if s.preview.Back? && e.BufDone? then [Made(s.preview.i, s.preview.isNew, e.mapOk, e.ok)] else []
  }

  /** The turns completed in a run, in order. */
  function MadeIn(s: State, es: seq<Event>): seq<Made> {
    if es == [] then [] else MadeIn(s, es[..|es| - 1]) + MadeBy(Run(s, es[..|es| - 1]), es[|es| - 1])
  }

  /** The pending error after completed turns. */
  ghost predicate PendingAfter(err0: bool, ms: seq<Made>) {
    if ms == [] then err0 else !ComesBack(err0, ms, |ms| - 1)
  }

  /** The buffer the poll thread loses in an event: its enqueue fails. */
  function PollLoses(s: State, e: Event): set<nat> {
    if s.poll.Filled? && e.Decide? && e.process && !e.ok then {s.poll.i} else {}
  }

  function PollLosses(s: State, es: seq<Event>): set<nat> {
    if es == [] then {} else PollLosses(s, es[..|es| - 1]) + PollLoses(Run(s, es[..|es| - 1]), es[|es| - 1])
  }

  /** Dequeues still to be made, the one under way not counted. */
  function Left(s: State): nat {
    match s.preview
    case Loop(left, _) => left
    case Got(_, left, _, _) => left
    case Back(_, left, _, _) => left
    case _ => 0
  }

  /** One step of any thread inside the loop: what it does to the pending error, to the turns
      still to be made, and to the lost buffers. */
  lemma StepInLoop(s: State, e: Event)
    requires InLoop(s) && InLoop(Next(s, e))
    ensures var t, ms := Next(s, e), MadeBy(s, e);
            && ErrorPending(t) == (if ms == [] then ErrorPending(s)
                                   else !(Sound(ms[0]) && (ms[0].isNew || !ErrorPending(s))))
            && Left(t) + One(!t.preview.Loop?) + |ms| == Left(s) + One(!s.preview.Loop?)
            && t.lost == s.lost + PollLoses(s, e) + (if ms != [] && ErrorPending(t) then {ms[0].i} else {})
  {
    hide PollStep, FrameStep, LoopStep;
    PollInLoop(s, e);
    FrameInLoop(s, e);
    if PollStep(s, e) == s {
      LoopInLoop(s, e);
    }
  }

  lemma PollInLoop(s: State, e: Event)
    requires InLoop(s)
    ensures PollStep(s, e).preview == s.preview && PollStep(s, e).lost == s.lost + PollLoses(s, e)
    ensures PollStep(s, e) != s ==> MadeBy(s, e) == []
    ensures PollStep(s, e) == s ==> PollLoses(s, e) == {}
  {
    hide Up;
  }

  lemma FrameInLoop(s: State, e: Event)
    requires InLoop(s)
    ensures FrameStep(s, e) == s
  {
  }

  lemma LoopInLoop(s: State, e: Event)
    requires InLoop(s) && InLoop(LoopStep(s, e))
    ensures var t, ms := LoopStep(s, e), MadeBy(s, e);
            && ErrorPending(t) == (if ms == [] then ErrorPending(s)
                                   else !(Sound(ms[0]) && (ms[0].isNew || !ErrorPending(s))))
            && Left(t) + One(!t.preview.Loop?) + |ms| == Left(s) + One(!s.preview.Loop?)
            && t.lost == s.lost + (if ms != [] && ErrorPending(t) then {ms[0].i} else {})
  {
    hide Down;
  }

  lemma StaysBefore(s: State, es: seq<Event>)
    requires es != [] && StaysInLoop(s, es)
    ensures StaysInLoop(s, es[..|es| - 1]) && InLoop(Run(s, es[..|es| - 1])) && InLoop(Run(s, es))
  {
    hide InLoop, Run;
    var init := es[..|es| - 1];
    forall j | 0 <= j <= |init| ensures InLoop(Run(s, init[..j])) {
      assert init[..j] == es[..j];
    }
    assert es[..|es|] == es && init[..|init|] == init;
  }

  /** One more turn: the pending error follows the rule. */
  lemma PendingStep(err0: bool, ms: seq<Made>, m: Made)
    ensures PendingAfter(err0, ms + [m]) <==> !(Sound(m) && (m.isNew || !PendingAfter(err0, ms)))
  {
    hide Sound, ComesBack;
    var all := ms + [m];
    ComesBackStep(err0, all, |ms|);
    if ms != [] {
      ComesBackPrefix(err0, all, |ms|, |ms| - 1);
      assert all[..|ms|] == ms;
    }
  }

  /** Inside a loop, whatever the other threads do: an error is pending exactly if the last
      completed turn did not bring its buffer back (or none is completed and one was pending at
      the start), and every turn of the loop is completed, under way, or still to be made. */
  lemma {:induction false} PendingIs(s: State, es: seq<Event>)
    requires s.preview.Loop? && StaysInLoop(s, es)
    ensures ErrorPending(Run(s, es)) <==> PendingAfter(s.preview.err, MadeIn(s, es))
    ensures |MadeIn(s, es)| + One(!Run(s, es).preview.Loop?) + Left(Run(s, es)) == s.preview.left
  {
    hide Next, Sound, ComesBack, InLoop, StaysInLoop, MadeBy, PendingAfter, ErrorPending;
    if es == [] {
      NothingMade(s);
    } else {
      var n := |es| - 1;
      StaysBefore(s, es);
      PendingIs(s, es[..n]);
      var p := Run(s, es[..n]);
      StepInLoop(p, es[n]);
      var made := MadeBy(p, es[n]);
      OneMade(p, es[n]);
      if made == [] {
        assert MadeIn(s, es) == MadeIn(s, es[..n]);
      } else {
        PendingStep(s.preview.err, MadeIn(s, es[..n]), made[0]);
        assert made == [made[0]];
      }
    }
  }

  lemma NothingMade(s: State)
    requires s.preview.Loop?
    ensures ErrorPending(s) <==> PendingAfter(s.preview.err, [])
  {
  }

  lemma OneMade(s: State, e: Event)
    ensures |MadeBy(s, e)| <= 1
  {
  }

  /** The fate of a buffer in every interleaving: when a turn is completed, its buffer is with the
      driver if and only if some turn of the loop up to it was free of earlier errors and all
      calls from there to it succeeded; else it is lost. */
  lemma TurnFate(s: State, es: seq<Event>, e: Event)
    requires Kept(s) && s.preview.Loop? && StaysInLoop(s, es) && Run(s, es).preview.Back? && e.BufDone?
    ensures var t := Next(Run(s, es), e);
            var ms := MadeIn(s, es + [e]);
            && ms == MadeIn(s, es) + [Made(Run(s, es).preview.i, Run(s, es).preview.isNew, e.mapOk, e.ok)]
            && (ms[|ms| - 1].i in t.driver <==> ComesBack(s.preview.err, ms, |ms| - 1))
            && (ms[|ms| - 1].i in t.lost <==> !ComesBack(s.preview.err, ms, |ms| - 1))
            && ms[|ms| - 1].i !in t.display && t.preview.Loop?
  {
    hide Kept, Sound, ComesBack, InLoop, StaysInLoop, Next;
    var p := Run(s, es);
    assert (es + [e])[..|es|] == es;
    PendingIs(s, es);
    RunStaysKept(s, es);
    BackAlone(p);
    BackIs(p, e.mapOk, e.ok);
    var m := Made(p.preview.i, p.preview.isNew, e.mapOk, e.ok);
    PendingStep(s.preview.err, MadeIn(s, es), m);
    FailsUnlessSound(p, m);
  }

  lemma BackAlone(s: State)
    requires Kept(s) && s.preview.Back?
    ensures s.preview.i !in s.driver && s.preview.i !in s.display && s.preview.i !in s.lost
  {
    hide OnePlace, Balanced, SkippedWillReturn, Mapping;
    HeldAlone(s, s.preview.i);
  }

  lemma FailsUnlessSound(s: State, m: Made)
    requires s.preview.Back? && m.isNew == s.preview.isNew
    ensures PassFails(m.isNew, s.preview.err, m.mapOk, m.ok) <==> !(Sound(m) && (m.isNew || !ErrorPending(s)))
  {
  }

  /** The buffers of the turns that did not come back. */
  ghost function LoopLosses(err0: bool, ms: seq<Made>): set<nat> {
    if ms == [] then {}
    else LoopLosses(err0, ms[..|ms| - 1]) + if ComesBack(err0, ms, |ms| - 1) then {} else {ms[|ms| - 1].i}
  }

  lemma {:induction false} LossesAre(err0: bool, ms: seq<Made>)
    ensures LoopLosses(err0, ms) == {} <==> forall k :: 0 <= k < |ms| ==> ComesBack(err0, ms, k)
  {
    hide ComesBack;
    if ms != [] {
      var n := |ms| - 1;
      LossesAre(err0, ms[..n]);
      forall k | 0 <= k < n ensures ComesBack(err0, ms[..n], k) <==> ComesBack(err0, ms, k) {
        ComesBackPrefix(err0, ms, n, k);
      }
    }
  }

  /** What is lost in a stretch of a run inside a loop: the buffers of the turns that did not come
      back and those whose enqueue failed in the poll thread, no others; and the loop itself
      loses nothing if and only if all its calls succeed and no error pending at its start meets
      a known buffer in its first turn. */
  lemma LossesInLoop(s: State, es: seq<Event>)
    requires s.preview.Loop? && StaysInLoop(s, es)
    ensures Run(s, es).lost == s.lost + PollLosses(s, es) + LoopLosses(s.preview.err, MadeIn(s, es))
    ensures LoopLosses(s.preview.err, MadeIn(s, es)) == {} <==> AllSound(s.preview.err, MadeIn(s, es))
  {
    hide Run, Sound, ComesBack, StaysInLoop, AllSound, MadeIn, LoopLosses, PollLosses;
    LossesSum(s, es);
    LossesAre(s.preview.err, MadeIn(s, es));
    SoundComesBack(s.preview.err, MadeIn(s, es));
  }

  lemma {:induction false} LossesSum(s: State, es: seq<Event>)
    requires s.preview.Loop? && StaysInLoop(s, es)
    ensures Run(s, es).lost == s.lost + PollLosses(s, es) + LoopLosses(s.preview.err, MadeIn(s, es))
  {
    hide Next, Sound, ComesBack, InLoop, StaysInLoop, MadeBy, PollLoses, ErrorPending, LoopLosses, PendingAfter;
    var err0 := s.preview.err;
    if es == [] {
      LossOfNone(err0);
    } else {
      var n := |es| - 1;
      StaysBefore(s, es);
      LossesSum(s, es[..n]);
      PendingIs(s, es);
      var p := Run(s, es[..n]);
      StepInLoop(p, es[n]);
      OneMade(p, es[n]);
      var ms, made := MadeIn(s, es[..n]), MadeBy(p, es[n]);
      if made == [] {
        assert MadeIn(s, es) == ms;
      } else {
        assert MadeIn(s, es) == ms + [made[0]];
        LossOfOneMore(err0, ms, made[0]);
      }
    }
  }

  lemma LossOfNone(err0: bool)
    ensures LoopLosses(err0, []) == {}
  {
  }

  lemma LossOfOneMore(err0: bool, ms: seq<Made>, m: Made)
    ensures LoopLosses(err0, ms + [m]) ==
            LoopLosses(err0, ms) + if PendingAfter(err0, ms + [m]) then {m.i} else {}
  {
    hide ComesBack;
    assert (ms + [m])[..|ms|] == ms;
  }

  // ---------- A loop running alone ----------

  /** The records of turns no other thread comes between: a buffer is new in its turn exactly if
      it was not yet known by index when the loop began. */
  function Mades(s: State, turns: seq<Turn>): (ms: seq<Made>)
    ensures |ms| == |turns|
    ensures forall k :: 0 <= k < |ms| ==>
              ms[k] == Made(turns[k].i, turns[k].i >= s.mappable, turns[k].mapOk, turns[k].ok)
  {
    seq(|turns|, k requires 0 <= k < |turns| =>
      Made(turns[k].i, turns[k].i >= s.mappable, turns[k].mapOk, turns[k].ok))
  }

  /** What holds after the turns: an error is pending exactly if the last buffer did not come
      back, and the buffers that became known are no longer with the display. */
  ghost predicate After(s: State, turns: seq<Turn>, t: State)
    requires s.preview.Loop?
  {
    && Kept(t) && t.preview.Loop? && t.preview.left == s.preview.left - |turns|
    && (t.preview.err <==>
          if turns == [] then s.preview.err else !ComesBack(s.preview.err, Mades(s, turns), |turns| - 1))
    && s.mappable <= t.mappable && (forall i :: s.mappable <= i < t.mappable ==> i !in t.display)
  }

  /** Turn k's buffer is back with the driver exactly if it comes back, else it is lost; the
      display does not have it. */
  ghost predicate Settled(s: State, turns: seq<Turn>, k: nat, t: State)
    requires s.preview.Loop? && k < |turns|
  {
    && turns[k].i !in t.display
    && (turns[k].i in t.driver <==> ComesBack(s.preview.err, Mades(s, turns), k))
    && (turns[k].i in t.lost <==> !ComesBack(s.preview.err, Mades(s, turns), k))
  }

  /** One more turn. */
  lemma TurnSettles(s: State, turns: seq<Turn>, p: State)
    requires s.preview.Loop? && turns != []
    requires var n := |turns| - 1;
             After(s, turns[..n], p) && p.preview.left > 0 && CanDequeue(p, turns[n].i)
    ensures After(s, turns, Pass(p, turns[|turns| - 1]))
    ensures Settled(s, turns, |turns| - 1, Pass(p, turns[|turns| - 1]))
  {
    hide Kept, Pass, ComesBack;
    var n := |turns| - 1;
    var turn := turns[n];
    PassReturns(p, turn);
    DisplayedOnly(p, turn.i);
    assert Mades(s, turns)[..n] == Mades(s, turns[..n]);
    ComesBackStep(s.preview.err, Mades(s, turns), n);
    if n > 0 {
      ComesBackPrefix(s.preview.err, Mades(s, turns), n, n - 1);
    }
    assert turn.i == p.mappable <==> turn.i >= s.mappable;
  }

  lemma DisplayedOnly(s: State, i: nat)
    requires Kept(s) && i in s.display
    ensures i !in s.driver && i !in s.lost
  {
    hide Balanced, SkippedWillReturn, Mapping, OnePlace;
    PlacesOf(s, i);
  }

  /** Corollary for a loop no other thread comes between, in which the display answers each turn:
      a buffer goes back to the driver if and only if some turn up to its own was free of earlier
      errors and all calls from there to its own turn succeeded; every other buffer handed out is
      lost. */
  lemma {:induction false} LoopFate(s: State, turns: seq<Turn>)
    requires Kept(s) && s.preview.Loop? && |turns| <= s.preview.left && Handed(s, turns)
    ensures After(s, turns, Passes(s, turns))
    ensures forall k :: 0 <= k < |turns| ==> Settled(s, turns, k, Passes(s, turns))
  {
    hide Kept, Pass, ComesBack;
    if turns != [] {
      var n := |turns| - 1;
      var p := Passes(s, turns[..n]);
      LoopFate(s, turns[..n]);
      TurnSettles(s, turns, p);
      PassReturns(p, turns[n]);
      forall k | 0 <= k < n ensures Settled(s, turns, k, Passes(s, turns)) {
        assert Settled(s, turns[..n], k, p);
        assert Mades(s, turns)[..n] == Mades(s, turns[..n]);
        ComesBackPrefix(s.preview.err, Mades(s, turns), n, k);
      }
    }
  }

  /** Such a loop loses nothing if and only if all is sound. */
  lemma LoopLosesNothing(s: State, turns: seq<Turn>)
    requires Kept(s) && s.preview.Loop? && |turns| <= s.preview.left && Handed(s, turns) && turns != []
    ensures Passes(s, turns).lost == s.lost <==> AllSound(s.preview.err, Mades(s, turns))
  {
    hide Kept, Handed, After, Passes, AllSound, ComesBack, Ids;
    var t := Passes(s, turns);
    LoopFate(s, turns);
    LostKept(s, turns);
    SoundComesBack(s.preview.err, Mades(s, turns));
    if AllSound(s.preview.err, Mades(s, turns)) {
      forall i | i in Ids(turns) ensures i !in t.lost {
        var k := TurnOf(turns, i);
        assert Settled(s, turns, k, t);
      }
      forall i | i in t.lost ensures i in s.lost {
        LostOrIds(s, turns, i);
      }
      assert t.lost == s.lost;
    }
    if t.lost == s.lost {
      forall k | 0 <= k < |turns| ensures ComesBack(s.preview.err, Mades(s, turns), k) {
        assert Settled(s, turns, k, t);
        NotLostBefore(s, turns, k);
      }
    }
  }

  lemma {:induction false} TurnOf(turns: seq<Turn>, i: nat) returns (k: nat)
    requires i in Ids(turns)
    ensures k < |turns| && turns[k].i == i
  {
    var n := |turns| - 1;
    if turns[n].i == i {
      k := n;
    } else {
      k := TurnOf(turns[..n], i);
    }
  }

  /** Only buffers of the turns are lost on the way, and what was lost stays so. */
  lemma {:induction false} LostOrIds(s: State, turns: seq<Turn>, i: nat)
    requires Kept(s) && s.preview.Loop? && |turns| <= s.preview.left && Handed(s, turns)
    ensures i in Passes(s, turns).lost ==> i in s.lost || i in Ids(turns)
    ensures i in s.lost ==> i in Passes(s, turns).lost
  {
    hide Kept, Pass;
    if turns != [] {
      var n := |turns| - 1;
      LostOrIds(s, turns[..n], i);
      LoopReturns(s, turns[..n]);
      PassReturns(Passes(s, turns[..n]), turns[n]);
    }
  }

  lemma LostKept(s: State, turns: seq<Turn>)
    requires Kept(s) && s.preview.Loop? && |turns| <= s.preview.left && Handed(s, turns)
    ensures s.lost <= Passes(s, turns).lost
  {
    hide Kept, Handed, Passes;
    forall i | i in s.lost ensures i in Passes(s, turns).lost {
      LostOrIds(s, turns, i);
    }
  }

  /** The buffers of the turns were with the display when the loop began. */
  lemma {:induction false} NotLostBefore(s: State, turns: seq<Turn>, k: nat)
    requires Kept(s) && s.preview.Loop? && |turns| <= s.preview.left && Handed(s, turns) && k < |turns|
    ensures turns[k].i in s.display && turns[k].i !in s.lost
  {
    hide Kept, Pass;
    var n := |turns| - 1;
    if k < n {
      NotLostBefore(s, turns[..n], k);
    } else {
      LoopReturns(s, turns[..n]);
      DisplayedOnly(s, turns[k].i);
    }
  }

  // ---------- An error that is reached ----------

  /** The frame of buffer i, displayed and queued. */
  function Delivered(s: State, i: nat): State {
    Next(Next(Next(Next(s, Fill(i)), Decide(true, true)), CountShown), Push)
  }

  /** Two buffers displayed, the first returned by a bufDone that fails. */
  function FirstFails(): State {
    var s := Delivered(Delivered(Init(true, 2), 0), 1);
    var l := Next(Next(Next(s, TakeFrame), Check(true)), ReadCount);
    Pass(l, Turn(0, true, false))
  }

  /** A run reaches a pending error with a known buffer still to return, and that buffer is lost
      though its own calls succeed. */
  lemma ErrorReached()
    ensures exists es :: Run(Init(true, 2), es) == FirstFails()
    ensures var s := FirstFails();
            && s.preview == Loop(1, true) && CanDequeue(s, 1) && 1 < s.mappable
            && Pass(s, Turn(1, true, true)).lost == {0, 1} && Pass(s, Turn(1, true, true)).driver == {}
  {
    FirstFailsIs();
    FirstFailsRun();
    PassIs(FirstFails(), Turn(1, true, true));
  }

  lemma DeliveredIs(s: State, i: nat)
    requires s.sync && s.poll == Waiting && i in s.driver && s.preview == Idle
    ensures Delivered(s, i) ==
            s.(driver := s.driver - {i}, display := s.display + {i}, counter := Up(s.counter),
               pending := s.pending + [i])
  {
    hide Up;
    var a := Next(s, Fill(i));
    assert a == s.(driver := s.driver - {i}, poll := Filled(i));
    var b := Next(a, Decide(true, true));
    assert b == a.(display := s.display + {i}, poll := Shown(i));
    var c := Next(b, CountShown);
    assert c == b.(counter := Up(s.counter), poll := Pushing(i));
  }

  lemma LoopBegins(s: State)
    requires s.sync && s.poll == Waiting && s.preview == Idle && s.pending != [] && s.skipped == {}
    ensures Next(Next(Next(s, TakeFrame), Check(true)), ReadCount) ==
            s.(pending := s.pending[1..], preview := Loop(s.counter, false))
  {
    var a := Next(s, TakeFrame);
    assert a == s.(pending := s.pending[1..], preview := Frame(s.pending[0]));
    var b := Next(a, Check(true));
    assert b == a.(preview := Counting);
  }

  lemma FirstFailsIs()
    ensures FirstFails() == State(true, 2, {}, {1}, {}, {0}, {0, 1}, [1], 1, 2, Waiting, Loop(1, true))
  {
    hide Next, Delivered;
    var s := Init(true, 2);
    assert s == State(true, 2, {0, 1}, {}, {}, {}, {0, 1}, [], 0, 2, Waiting, Idle);
    DeliveredIs(s, 0);
    DeliveredIs(Delivered(s, 0), 1);
    s := Delivered(Delivered(s, 0), 1);
    assert s == State(true, 2, {}, {0, 1}, {}, {}, {0, 1}, [0, 1], 2, 2, Waiting, Idle);
    LoopBegins(s);
    PassIs(s.(pending := s.pending[1..], preview := Loop(s.counter, false)), Turn(0, true, false));
  }

  lemma RunNext(s: State, es: seq<Event>, e: Event)
    ensures Run(s, es + [e]) == Next(Run(s, es), e)
  {
    assert (es + [e])[..|es|] == es;
  }

  lemma FirstFailsRun()
    ensures exists es :: Run(Init(true, 2), es) == FirstFails()
  {
    hide Next, Init;
    var s := Init(true, 2);
    var es: seq<Event> := [];
    es := RunDelivered(s, es, 0);
    es := RunDelivered(s, es, 1);
    RunNext(s, es, TakeFrame);
    es := es + [TakeFrame];
    RunNext(s, es, Check(true));
    es := es + [Check(true)];
    RunNext(s, es, ReadCount);
    es := es + [ReadCount];
    RunNext(s, es, Dequeue(0));
    es := es + [Dequeue(0)];
    RunNext(s, es, CountGot);
    es := es + [CountGot];
    RunNext(s, es, BufDone(true, false));
    es := es + [BufDone(true, false)];
    assert Run(s, es) == FirstFails();
  }

  lemma RunDelivered(s: State, es: seq<Event>, i: nat) returns (fs: seq<Event>)
    ensures Run(s, fs) == Delivered(Run(s, es), i)
  {
    hide Next;
    RunNext(s, es, Fill(i));
    var a := es + [Fill(i)];
    RunNext(s, a, Decide(true, true));
    var b := a + [Decide(true, true)];
    RunNext(s, b, CountShown);
    var c := b + [CountShown];
    RunNext(s, c, Push);
    fs := c + [Push];
  }
}

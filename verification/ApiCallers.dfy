/** The callers of the API and the state machine thread around the result list: who sleeps, who is
    woken, and who gets whose result. The lock is held from the submission of a call to the wait
    for it, so each critical section is one step. */
module ApiCallers {
  import ApiResults

  /** A result on its way, with the call it answers. */
  datatype Item = Item(evt: int, owner: nat)

  /** A caller in waitAPIResult: asleep, woken but not yet at its scan, or gone with a result. */
  datatype Caller = Sleeping(evt: int) | Woken(evt: int) | Got(item: Item)

  /** Calls that were made (each with its own number), calls the state machine has yet to answer,
      and the listed results. */
  datatype State = State(callers: map<nat, Caller>, pending: seq<Item>, list: seq<Item>)

  datatype Event =
    | Enter(c: nat, evt: int)              // lock, submit the call, go to sleep
    | Signal(k: nat, malloc: bool)         // the state machine answers pending call k
    | Spurious(c: nat)                     // a sleeper is woken for no reason
    | Wake(c: nat)                         // a woken caller scans the list

  // ---------- Steps ----------

  function Dropped(s: seq<Item>, k: nat): (r: seq<Item>)
    requires k < |s|
    ensures |r| == |s| - 1
  {
    s[..k] + s[k + 1..]
  }

  /** Where the first listed result for an event stands, the length if there is none. */
  function FirstOf(list: seq<Item>, evt: int): (k: nat)
    ensures k <= |list|
    ensures k < |list| ==> list[k].evt == evt
    ensures forall j :: 0 <= j < k ==> list[j].evt != evt
  {
    if list == [] || list[0].evt == evt then 0 else 1 + FirstOf(list[1..], evt)
  }

  function AllWoken(callers: map<nat, Caller>): map<nat, Caller> {
    map c | c in callers :: if callers[c].Sleeping? then Woken(callers[c].evt) else callers[c]
  }

  function Next(s: State, e: Event): State {
    match e
    case Enter(c, evt) =>
      if c in s.callers then s
      else s.(callers := s.callers[c := Sleeping(evt)], pending := s.pending + [Item(evt, c)])
    case Signal(k, malloc) =>
      if k >= |s.pending| then s
      else State(AllWoken(s.callers), Dropped(s.pending, k), if malloc then s.list + [s.pending[k]] else s.list)
    case Spurious(c) =>
      if c in s.callers && s.callers[c].Sleeping? then s.(callers := s.callers[c := Woken(s.callers[c].evt)]) else s
    case Wake(c) =>
      if c !in s.callers || !s.callers[c].Woken? then s else
        var k := FirstOf(s.list, s.callers[c].evt);
        if k == |s.list| then s.(callers := s.callers[c := Sleeping(s.callers[c].evt)])
        else s.(callers := s.callers[c := Got(s.list[k])], list := Dropped(s.list, k))
  }

  function Run(s: State, es: seq<Event>): State
    decreases |es|
  {
    if es == [] then s else Next(Run(s, es[..|es| - 1]), es[|es| - 1])
  }

  function Init(): State { State(map[], [], []) }

  /** The scan here is the one of the result list: with the items as results it takes the same. */
  lemma {:induction false} ScanIsTake(list: seq<Item>, results: seq<ApiResults.Result>, evt: int)
    requires |results| == |list| && forall i :: 0 <= i < |list| ==> results[i].api == list[i].evt
    ensures FirstOf(list, evt) == ApiResults.FirstFor(results, evt)
  {
    if list != [] {
      ScanIsTake(list[1..], results[1..], evt);
    }
  }

  // ---------- Waiting and woken callers against results ----------

  predicate WaitsFor(w: Caller, evt: int) { !w.Got? && w.evt == evt }

  function Waiters(s: State, evt: int): set<nat> {
    set c | c in s.callers && WaitsFor(s.callers[c], evt)
  }

  function Awake(s: State, evt: int): set<nat> {
    set c | c in s.callers && s.callers[c] == Woken(evt)
  }

  function Count(items: seq<Item>, evt: int): nat {
    if items == [] then 0 else Count(items[1..], evt) + if items[0].evt == evt then 1 else 0
  }

  lemma {:induction false} CountAppend(a: seq<Item>, b: seq<Item>, evt: int)
    ensures Count(a + b, evt) == Count(a, evt) + Count(b, evt)
  {
    if a == [] {
      assert a + b == b;
    } else {
      var c := a + b;
      assert c[0] == a[0] && c[1..] == a[1..] + b;
      CountAppend(a[1..], b, evt);
    }
  }

  lemma CountOne(x: Item, evt: int)
    ensures Count([x], evt) == if x.evt == evt then 1 else 0
  {
    assert [x][1..] == [];
  }

  lemma CountDropped(s: seq<Item>, k: nat, evt: int)
    requires k < |s|
    ensures Count(Dropped(s, k), evt) + (if s[k].evt == evt then 1 else 0) == Count(s, evt)
  {
    assert s == s[..k] + ([s[k]] + s[k + 1..]);
    CountAppend(s[..k], [s[k]] + s[k + 1..], evt);
    CountAppend([s[k]], s[k + 1..], evt);
    CountOne(s[k], evt);
    CountAppend(s[..k], s[k + 1..], evt);
  }

  lemma {:induction false} CountSome(s: seq<Item>, evt: int)
    ensures Count(s, evt) > 0 <==> exists k :: 0 <= k < |s| && s[k].evt == evt
  {
    if s != [] {
      CountSome(s[1..], evt);
      if k :| 0 <= k < |s[1..]| && s[1..][k].evt == evt {
        assert s[k + 1].evt == evt;
      }
      if k :| 0 <= k < |s| && s[k].evt == evt {
        if k > 0 {
          assert s[1..][k - 1].evt == evt;
        }
      }
    }
  }

  /** For every event there are at least as many waiters as unanswered calls and listed results,
      and at least as many woken waiters as listed results. */
  ghost predicate Covered(s: State, evt: int) {
    && Count(s.pending, evt) + Count(s.list, evt) <= |Waiters(s, evt)|
    && Count(s.list, evt) <= |Awake(s, evt)|
  }

  lemma EnterSets(s: State, c: nat, evt: int, x: int)
    requires c !in s.callers
    ensures var t := Next(s, Enter(c, evt));
            && c !in Waiters(s, x) && Awake(t, x) == Awake(s, x)
            && Waiters(t, x) == (if x == evt then Waiters(s, x) + {c} else Waiters(s, x))
            && t.list == s.list && t.pending == s.pending + [Item(evt, c)]
  {
  }

  lemma EnterCovers(s: State, c: nat, evt: int, x: int)
    requires Covered(s, x)
    ensures Covered(Next(s, Enter(c, evt)), x)
  {
    hide Waiters, Awake, Count;
    if c !in s.callers {
      CountAppend(s.pending, [Item(evt, c)], x);
      CountOne(Item(evt, c), x);
      EnterSets(s, c, evt, x);
    }
  }

  lemma SignalCovers(s: State, k: nat, malloc: bool, x: int)
    requires Covered(s, x)
    ensures Covered(Next(s, Signal(k, malloc)), x)
  {
    if k < |s.pending| {
      var t := Next(s, Signal(k, malloc));
      CountDropped(s.pending, k, x);
      CountAppend(s.list, [s.pending[k]], x);
      CountOne(s.pending[k], x);
      assert Waiters(t, x) == Waiters(s, x);
      assert Awake(t, x) == Waiters(s, x);
    }
  }

  lemma SpuriousSets(s: State, c: nat, x: int)
    ensures var t := Next(s, Spurious(c));
            && Waiters(t, x) == Waiters(s, x) && Awake(s, x) <= Awake(t, x) <= Awake(s, x) + {c}
            && t.list == s.list && t.pending == s.pending
  {
  }

  lemma SpuriousCovers(s: State, c: nat, x: int)
    requires Covered(s, x)
    ensures Covered(Next(s, Spurious(c)), x)
  {
    hide Waiters, Awake, Count, Next;
    var t := Next(s, Spurious(c));
    SpuriousSets(s, c, x);
    assert Awake(t, x) == Awake(s, x) || Awake(t, x) == Awake(s, x) + {c};
  }

  /** The sets after a scan: the caller sleeps again, or leaves with the first result. */
  lemma WakeSets(s: State, c: nat, x: int)
    requires c in s.callers && s.callers[c].Woken?
    ensures var t, evt := Next(s, Wake(c)), s.callers[c].evt;
            var found := FirstOf(s.list, evt) < |s.list|;
            && (c in Awake(s, x) <==> x == evt) && (x == evt ==> c in Waiters(s, x))
            && Awake(t, x) == (if x == evt then Awake(s, x) - {c} else Awake(s, x))
            && Waiters(t, x) == (if x == evt && found then Waiters(s, x) - {c} else Waiters(s, x))
            && t.pending == s.pending
            && t.list == (if found then Dropped(s.list, FirstOf(s.list, evt)) else s.list)
  {
    hide FirstOf, Dropped;
  }

  lemma NoneFirst(list: seq<Item>, evt: int)
    requires FirstOf(list, evt) == |list|
    ensures Count(list, evt) == 0
  {
    CountSome(list, evt);
  }

  lemma WakeCovers(s: State, c: nat, x: int)
    requires Covered(s, x)
    ensures Covered(Next(s, Wake(c)), x)
  {
    hide Waiters, Awake, Count, FirstOf, Dropped;
    if c in s.callers && s.callers[c].Woken? {
      var evt := s.callers[c].evt;
      var k := FirstOf(s.list, evt);
      WakeSets(s, c, x);
      hide Next;
      if k == |s.list| {
        NoneFirst(s.list, evt);
      } else {
        CountDropped(s.list, k, x);
      }
    }
  }

  lemma StepCovers(s: State, e: Event, x: int)
    requires Covered(s, x)
    ensures Covered(Next(s, e), x)
  {
    hide Covered, Next;
    match e
    case Enter(c, evt) => EnterCovers(s, c, evt, x);
    case Signal(k, malloc) => SignalCovers(s, k, malloc, x);
    case Spurious(c) => SpuriousCovers(s, c, x);
    case Wake(c) => WakeCovers(s, c, x);
  }

  lemma {:induction false} RunCovers(es: seq<Event>, x: int)
    ensures Covered(Run(Init(), es), x)
  {
    hide Next;
    if es == [] {
      assert Waiters(Init(), x) == {} && Awake(Init(), x) == {};
    } else {
      hide Covered;
      RunCovers(es[..|es| - 1], x);
      StepCovers(Run(Init(), es[..|es| - 1]), es[|es| - 1], x);
    }
  }

  /** No lost wakeup, in every run: a result is never listed without a woken caller for its event
      that will scan for it; so a caller sleeps while a result for its event is listed only next
      to another caller of the same event, and never where it is the only one. */
  lemma NoLostWakeup(es: seq<Event>, c: nat)
    ensures var s := Run(Init(), es);
            c in s.callers && s.callers[c].Sleeping? && Count(s.list, s.callers[c].evt) > 0 ==>
              exists d :: d != c && d in s.callers && s.callers[d] == Woken(s.callers[c].evt)
  {
    hide Run, Count;
    var s := Run(Init(), es);
    if c in s.callers && s.callers[c].Sleeping? && Count(s.list, s.callers[c].evt) > 0 {
      var evt := s.callers[c].evt;
      RunCovers(es, evt);
      assert |Awake(s, evt)| > 0;
      var d :| d in Awake(s, evt);
      assert d != c && d in s.callers && s.callers[d] == Woken(evt);
    }
  }

  // ---------- Whose result a caller gets ----------

  /** Every result taken so far went to the call it answers. */
  ghost predicate AllOwn(s: State) {
    forall c :: c in s.callers && s.callers[c].Got? ==> s.callers[c].item.owner == c
  }

  predicate Waiting(s: State, x: Item) {
    x.owner in s.callers && WaitsFor(s.callers[x.owner], x.evt)
  }

  /** The calls not answered yet and the listed results belong to different callers, all of them
      waiting for the event. */
  ghost predicate Owned(s: State) {
    && (forall i :: 0 <= i < |s.pending| ==> Waiting(s, s.pending[i]))
    && (forall i :: 0 <= i < |s.list| ==> Waiting(s, s.list[i]))
    && (forall i, j :: 0 <= i < j < |s.pending| ==> s.pending[i].owner != s.pending[j].owner)
    && (forall i, j :: 0 <= i < j < |s.list| ==> s.list[i].owner != s.list[j].owner)
    && (forall i, j :: 0 <= i < |s.pending| && 0 <= j < |s.list| ==> s.pending[i].owner != s.list[j].owner)
  }

  lemma EnterOwned(s: State, c: nat, evt: int)
    requires Owned(s)
    ensures Owned(Next(s, Enter(c, evt)))
  {
  }

  lemma SignalOwned(s: State, k: nat, malloc: bool)
    requires Owned(s)
    ensures Owned(Next(s, Signal(k, malloc)))
  {
    if k < |s.pending| {
      var t := Next(s, Signal(k, malloc));
      forall i | 0 <= i < |t.pending| ensures t.pending[i] == s.pending[if i < k then i else i + 1] { }
    }
  }

  lemma WakeOwned(s: State, c: nat)
    requires Owned(s) && AllOwn(Next(s, Wake(c)))
    ensures Owned(Next(s, Wake(c)))
  {
    if c in s.callers && s.callers[c].Woken? {
      var t := Next(s, Wake(c));
      var k := FirstOf(s.list, s.callers[c].evt);
      if k < |s.list| {
        assert t.callers[c].item.owner == c;
        TakenOwned(s, c, k);
      } else {
        assert forall i :: 0 <= i < |s.list| ==> Waiting(t, s.list[i]);
      }
    }
  }

  /** Taking one's own result. */
  lemma TakenOwned(s: State, c: nat, k: nat)
    requires Owned(s) && k < |s.list| && s.list[k].owner == c
    ensures Owned(s.(callers := s.callers[c := Got(s.list[k])], list := Dropped(s.list, k)))
  {
    var t := s.(callers := s.callers[c := Got(s.list[k])], list := Dropped(s.list, k));
    forall i | 0 <= i < |t.list| ensures t.list[i] == s.list[if i < k then i else i + 1] { }
  }

  lemma SpuriousOwned(s: State, c: nat)
    requires Owned(s)
    ensures Owned(Next(s, Spurious(c)))
  {
  }

  /** As long as every result went to its own call, ownership is in order. */
  lemma StepOwned(s: State, e: Event)
    requires Owned(s) && AllOwn(Next(s, e))
    ensures Owned(Next(s, e))
  {
    hide Owned, AllOwn, Next;
    match e
    case Enter(c, evt) => EnterOwned(s, c, evt);
    case Signal(k, malloc) => SignalOwned(s, k, malloc);
    case Spurious(c) => SpuriousOwned(s, c);
    case Wake(c) => WakeOwned(s, c);
  }

  /** A wrong delivery is never undone. */
  lemma OwnBefore(s: State, e: Event)
    requires AllOwn(Next(s, e))
    ensures AllOwn(s)
  {
    var t := Next(s, e);
    forall c | c in s.callers && s.callers[c].Got? ensures s.callers[c].item.owner == c {
      assert c in t.callers && t.callers[c] == s.callers[c];
    }
  }

  lemma {:induction false} RunOwned(es: seq<Event>)
    requires AllOwn(Run(Init(), es))
    ensures Owned(Run(Init(), es))
  {
    if es != [] {
      hide Owned, AllOwn, Next;
      OwnBefore(Run(Init(), es[..|es| - 1]), es[|es| - 1]);
      RunOwned(es[..|es| - 1]);
      StepOwned(Run(Init(), es[..|es| - 1]), es[|es| - 1]);
    }
  }

  /** Two callers wait for one event, and some result for it is on its way or listed. */
  ghost predicate Contested(s: State) {
    exists c, d, x :: Rivals(s, c, d, x)
  }

  predicate Rivals(s: State, c: nat, d: nat, x: Item) {
    && c != d && c in s.callers && WaitsFor(s.callers[c], x.evt) && d in s.callers && WaitsFor(s.callers[d], x.evt)
    && (x in s.pending || x in s.list)
  }

  /** No further call is made. */
  predicate NoEnter(es: seq<Event>) {
    forall i :: 0 <= i < |es| ==> !es[i].Enter?
  }

  /** Without rivals a step delivers only own results and makes no rivals. */
  lemma UncontestedStep(s: State, e: Event)
    requires Owned(s) && AllOwn(s) && !Contested(s) && !e.Enter?
    ensures AllOwn(Next(s, e)) && !Contested(Next(s, e))
  {
    var t := Next(s, e);
    if e.Wake? && e.c in s.callers && s.callers[e.c].Woken? {
      var k := FirstOf(s.list, s.callers[e.c].evt);
      if k < |s.list| {
        var x := s.list[k];
        assert Waiting(s, x);
        assert x.owner == e.c by {
          if x.owner != e.c {
            assert Rivals(s, e.c, x.owner, x);
          }
        }
      }
    }
    FewerRivals(s, e);
  }

  lemma FewerRivals(s: State, e: Event)
    requires !e.Enter?
    ensures Contested(Next(s, e)) ==> Contested(s)
  {
    var t := Next(s, e);
    if Contested(t) {
      var c, d, x :| Rivals(t, c, d, x);
      assert Rivals(s, c, d, x);
    }
  }

  lemma {:induction false} UncontestedRun(s: State, es: seq<Event>)
    requires Owned(s) && AllOwn(s) && !Contested(s) && NoEnter(es)
    ensures AllOwn(Run(s, es)) && Owned(Run(s, es)) && !Contested(Run(s, es))
  {
    hide Owned, AllOwn, Next, Contested;
    if es != [] {
      UncontestedRun(s, es[..|es| - 1]);
      UncontestedStep(Run(s, es[..|es| - 1]), es[|es| - 1]);
      StepOwned(Run(s, es[..|es| - 1]), es[|es| - 1]);
    }
  }

  lemma RunOne(s: State, es: seq<Event>, e: Event)
    ensures Run(s, es + [e]) == Next(Run(s, es), e)
  {
    assert (es + [e])[..|es|] == es;
  }

  /** A caller that waits for a listed event and scans first gets the first result for it. */
  lemma ScanFirst(s: State, c: nat, evt: int)
    requires c in s.callers && WaitsFor(s.callers[c], evt) && FirstOf(s.list, evt) < |s.list|
    ensures var t := Next(Next(s, Spurious(c)), Wake(c));
            c in t.callers && t.callers[c] == Got(s.list[FirstOf(s.list, evt)])
  {
    hide FirstOf, Dropped;
    var u := Next(s, Spurious(c));
    assert c in u.callers && u.callers[c] == Woken(evt) && u.list == s.list;
  }

  lemma ListedFirst(list: seq<Item>, x: Item)
    requires x in list
    ensures FirstOf(list, x.evt) < |list|
  {
    var i :| 0 <= i < |list| && list[i] == x;
  }

  /** The rival that does not own the first listed result scans first. */
  lemma ListedSwap(s: State, c: nat, d: nat, x: Item) returns (w: nat)
    requires Rivals(s, c, d, x) && x in s.list
    ensures !AllOwn(Next(Next(s, Spurious(w)), Wake(w)))
  {
    hide Next, FirstOf, AllOwn;
    ListedFirst(s.list, x);
    var k := FirstOf(s.list, x.evt);
    w := if s.list[k].owner == c then d else c;
    ScanFirst(s, w, x.evt);
    NotOwn(Next(Next(s, Spurious(w)), Wake(w)), w, s.list[k]);
  }

  lemma NotOwn(s: State, c: nat, x: Item)
    requires c in s.callers && s.callers[c] == Got(x) && x.owner != c
    ensures !AllOwn(s)
  {
  }

  /** Answering a rival's call keeps the rivals, and its result is listed. */
  lemma AnswerRival(s: State, c: nat, d: nat, x: Item, k: nat)
    requires Rivals(s, c, d, x) && k < |s.pending| && s.pending[k] == x
    ensures Rivals(Next(s, Signal(k, true)), c, d, x) && x in Next(s, Signal(k, true)).list
  {
    hide Dropped;
    assert (s.list + [x])[|s.list|] == x;
  }

  /** With rivals, some continuation gives a result to the wrong call: answer the call if it is
      not listed yet, then let the rival that does not own the first listed result scan first. */
  lemma RivalsCanSwap(s: State, c: nat, d: nat, x: Item) returns (es: seq<Event>)
    requires Rivals(s, c, d, x)
    ensures NoEnter(es) && !AllOwn(Run(s, es))
  {
    hide Next, Rivals, AllOwn, Run;
    var t := s;
    es := [];
    assert Run(s, es) == s by { RunNone(s); }
    if x !in s.list {
      var k := PendingAt(s, c, d, x);
      AnswerRival(s, c, d, x, k);
      RunOne(s, es, Signal(k, true));
      es := es + [Signal(k, true)];
      t := Next(s, Signal(k, true));
    }
    var w := ListedSwap(t, c, d, x);
    RunOne(s, es, Spurious(w));
    RunOne(s, es + [Spurious(w)], Wake(w));
    es := es + [Spurious(w)] + [Wake(w)];
  }

  lemma RunNone(s: State)
    ensures Run(s, []) == s
  {
  }

  lemma PendingAt(s: State, c: nat, d: nat, x: Item) returns (k: nat)
    requires Rivals(s, c, d, x) && x !in s.list
    ensures k < |s.pending| && s.pending[k] == x
  {
    k :| 0 <= k < |s.pending| && s.pending[k] == x;
  }

  /** Exactly when the wake order decides whose result a caller gets: in any state of a run in
      which all went well so far, some continuation of the calls already made gives a result to
      a call it does not answer if and only if two callers wait for one event with a result for
      it still to come or listed. */
  lemma WrongResultExactly(es: seq<Event>)
    requires AllOwn(Run(Init(), es))
    ensures var s := Run(Init(), es);
            (exists fs :: NoEnter(fs) && !AllOwn(Run(s, fs))) <==> Contested(s)
  {
    hide Next, Owned, AllOwn;
    var s := Run(Init(), es);
    RunOwned(es);
    if Contested(s) {
      var c, d, x :| Rivals(s, c, d, x);
      var fs := RivalsCanSwap(s, c, d, x);
      assert NoEnter(fs) && !AllOwn(Run(s, fs));
    } else {
      forall fs | NoEnter(fs) ensures AllOwn(Run(s, fs)) {
        UncontestedRun(s, fs);
      }
    }
  }

  /** At most one caller waits for any event, all through a run. */
  ghost predicate OneEach(s: State) {
    forall c, d :: c in s.callers && d in s.callers && c != d && !s.callers[c].Got? && !s.callers[d].Got? ==>
      s.callers[c].evt != s.callers[d].evt
  }

  /** So where no two callers ever wait for one event, every caller that returns has the result
      of its own call. */
  lemma {:induction false} OneEachGetsOwn(es: seq<Event>)
    requires forall j :: 0 <= j <= |es| ==> OneEach(Run(Init(), es[..j]))
    ensures AllOwn(Run(Init(), es)) && Owned(Run(Init(), es))
  {
    hide Next, Owned, AllOwn, OneEach;
    if es == [] {
      assert AllOwn(Init()) && Owned(Init()) by { NothingOwned(); }
    } else {
      var n := |es| - 1;
      var init := es[..n];
      forall j | 0 <= j <= n ensures OneEach(Run(Init(), init[..j])) {
        assert init[..j] == es[..j];
      }
      OneEachGetsOwn(init);
      assert OneEach(Run(Init(), init));
      OneEachStep(Run(Init(), init), es[n]);
      StepOwned(Run(Init(), init), es[n]);
    }
  }

  lemma NothingOwned()
    ensures AllOwn(Init()) && Owned(Init())
  {
  }

  lemma OneEachNoRivals(s: State)
    requires OneEach(s)
    ensures !Contested(s)
  {
    forall c, d, x ensures !Rivals(s, c, d, x) { }
  }

  lemma OneEachStep(s: State, e: Event)
    requires Owned(s) && AllOwn(s) && OneEach(s)
    ensures AllOwn(Next(s, e))
  {
    OneEachNoRivals(s);
    hide Owned, OneEach, Contested;
    if !e.Enter? {
      UncontestedStep(s, e);
    }
  }

  /** And none sleeps while a result for its event is listed. */
  lemma AloneNeverSleepsOn(es: seq<Event>, c: nat)
    requires OneEach(Run(Init(), es))
    ensures var s := Run(Init(), es);
            c in s.callers && s.callers[c].Sleeping? ==> Count(s.list, s.callers[c].evt) == 0
  {
    hide Run, Count;
    NoLostWakeup(es, c);
  }
}

/** The results of API calls on their way from the state machine to the waiting callers: a
    linked list in which every waiter looks for the first result of its own event. */
module ApiResults {
  import opened Options

  datatype Result = Result(api: int, status: int, payload: int)

  // ---------- The list on values ----------

  /** The first result for an event, the length if there is none. */
  function FirstFor(list: seq<Result>, evt: int): (k: nat)
    ensures k <= |list|
    ensures k < |list| ==> list[k].api == evt
    ensures forall j :: 0 <= j < k ==> list[j].api != evt
  {
    if list == [] || list[0].api == evt then 0 else 1 + FirstFor(list[1..], evt)
  }

  function Without(list: seq<Result>, k: nat): seq<Result>
    requires k < |list|
  {
    list[..k] + list[k + 1..]
  }

  /** What one pass of a waiter over the list takes out. */
  function Take(list: seq<Result>, evt: int): (seq<Result>, Option<Result>) {
    var k := FirstFor(list, evt);
    if k < |list| then (Without(list, k), Some(list[k])) else (list, None)
  }

  // ---------- The list in memory ----------

  class Node {
    const result: Result
    var next: Node?

    constructor (result: Result)
      ensures this.result == result && next == null
    {
      this.result := result;
      next := null;
    }
  }

  ghost function Results(nodes: seq<Node>): (r: seq<Result>)
    ensures |r| == |nodes| && forall i :: 0 <= i < |r| ==> r[i] == nodes[i].result
  {
    seq(|nodes|, i requires 0 <= i < |nodes| => nodes[i].result)
  }

  class ResultList {
    var head: Node?
    ghost var nodes: seq<Node>

    constructor ()
      ensures Valid() && View() == []
    {
      head := null;
      nodes := [];
    }

    /** The nodes are all different, each linked to the one after it, the last to nothing. */
    ghost predicate Valid()
      reads this, nodes
    {
      && head == (if nodes == [] then null else nodes[0])
      && (forall i, j :: 0 <= i < j < |nodes| ==> nodes[i] != nodes[j])
      && (forall i {:trigger nodes[i].next} :: 0 <= i < |nodes| ==>
            nodes[i].next == (if i + 1 < |nodes| then nodes[i + 1] else null))
    }

    ghost function View(): seq<Result>
      reads this
    {
      Results(nodes)
    }

    /** signalAPIResult; without memory the result is dropped. */
    method Signal(result: Result, malloc: bool)
      requires Valid()
      modifies this, nodes
      ensures Valid() && View() == if malloc then old(View()) + [result] else old(View())
      ensures forall n :: n in nodes && n !in old(nodes) ==> fresh(n)
    {
      if !malloc {
        return;
      }
      var apiResult := new Node(result);
      if head == null {
        head := apiResult;
      } else {
        var p: Node := head;
        ghost var i := 0;
        while p.next != null
          invariant Valid() && View() == old(View()) && nodes == old(nodes)
          invariant i < |nodes| && p == nodes[i]
          decreases |nodes| - i
        {
          p := p.next;
          i := i + 1;
        }
        p.next := apiResult;
      }
      nodes := nodes + [apiResult];
    }

    /** The relinking step of waitAPIResult. */
    method Unlink(previous: Node, p: Node, ghost i: nat)
      requires Valid() && i < |nodes| && p == nodes[i]
      requires previous == nodes[if i > 0 then i - 1 else 0]
      modifies this, previous`next
      ensures Valid() && nodes == old(nodes)[..i] + old(nodes)[i + 1..]
    {
      ghost var was := nodes;
      previous.next := p.next;
      if p == head {
        head := p.next;
      }
      nodes := was[..i] + was[i + 1..];
      forall j | 0 <= j < |nodes|
        ensures nodes[j].next == if j + 1 < |nodes| then nodes[j + 1] else null
      {
        var k := if j < i then j else j + 1;
        assert nodes[j] == was[k];
        if k == i - 1 {
          assert was[i].next == if i + 1 < |was| then was[i + 1] else null;
        }
      }
    }

    /** One pass of waitAPIResult: unlink the first result for the event, if there is one. */
    method TakeResult(evt: int) returns (apiResult: Option<Result>)
      requires Valid()
      modifies this, nodes
      ensures Valid() && (View(), apiResult) == Take(old(View()), evt)
      ensures forall n :: n in nodes ==> n in old(nodes)
    {
      var p := head;
      var previous := head;
      ghost var i := 0;
      while p != null
        invariant Valid() && View() == old(View()) && nodes == old(nodes)
        invariant i <= |nodes| && p == (if i < |nodes| then nodes[i] else null)
        invariant previous == if i > 0 then nodes[i - 1] else head
        invariant forall j :: 0 <= j < i ==> View()[j].api != evt
        decreases |nodes| - i
      {
        if p.result.api == evt {
          FirstForIs(View(), evt, i);
          Unlink(previous, p, i);
          assert View() == Without(old(View()), i);
          return Some(p.result);
        }
        previous := p;
        p := p.next;
        i := i + 1;
      }
      FirstForIs(View(), evt, i);
      apiResult := None;
    }
  }

  lemma FirstForIs(list: seq<Result>, evt: int, k: nat)
    requires k <= |list| && (k < |list| ==> list[k].api == evt)
    requires forall j :: 0 <= j < k ==> list[j].api != evt
    ensures FirstFor(list, evt) == k
  {
  }

  // ---------- The protocol ----------

  /** The list, and as history what was put in and what waiters got, each with its event. */
  datatype State = State(list: seq<Result>, signalled: seq<Result>, delivered: seq<Result>)

  datatype Event = Signal(result: Result, malloc: bool) | Wake(evt: int)

  function Next(s: State, e: Event): State {
    match e
    case Signal(r, malloc) => if malloc then s.(list := s.list + [r], signalled := s.signalled + [r]) else s
    case Wake(evt) =>
      match Take(s.list, evt)
      case (list, None) => s
      case (list, Some(r)) => s.(list := list, delivered := s.delivered + [r])
  }

  function Run(s: State, es: seq<Event>): State {
    if es == [] then s else Next(Run(s, es[..|es| - 1]), es[|es| - 1])
  }

  /** The results for one event, in order. */
  function Of(list: seq<Result>, evt: int): seq<Result> {
    if list == [] then []
    else if list[0].api == evt then [list[0]] + Of(list[1..], evt)
    else Of(list[1..], evt)
  }

  lemma {:induction false} OfAppend(a: seq<Result>, b: seq<Result>, evt: int)
    ensures Of(a + b, evt) == Of(a, evt) + Of(b, evt)
  {
    if a == [] {
      assert a + b == b;
    } else {
      var c := a + b;
      assert c[0] == a[0] && c[1..] == a[1..] + b;
      OfAppend(a[1..], b, evt);
    }
  }

  /** Taking for an event removes its oldest result and nothing of any other event. */
  lemma {:induction false} TakeIsOldest(list: seq<Result>, evt: int, other: int)
    ensures Take(list, evt).1.None? <==> Of(list, evt) == []
    ensures Take(list, evt).1.Some? ==>
              Of(list, evt) == [Take(list, evt).1.value] + Of(Take(list, evt).0, evt)
    ensures other != evt ==> Of(Take(list, evt).0, other) == Of(list, other)
  {
    if list != [] {
      var k := FirstFor(list, evt);
      if k == 0 {
        assert Without(list, 0) == list[1..];
      } else {
        TakeIsOldest(list[1..], evt, other);
        if k < |list| {
          assert Without(list, k)[0] == list[0] && Without(list, k)[1..] == Without(list[1..], k - 1);
        }
      }
    }
  }

  /** Per event the waiters get the results in the order they were signalled, each once, and
      the rest is still in the list. */
  ghost predicate Fifo(s: State) {
    && (forall evt :: Of(s.delivered, evt) + Of(s.list, evt) == Of(s.signalled, evt))
    && multiset(s.delivered) + multiset(s.list) == multiset(s.signalled)
  }

  lemma WakeKeeps(s: State, evt: int)
    requires Fifo(s)
    ensures Fifo(Next(s, Wake(evt)))
  {
    var s' := Next(s, Wake(evt));
    var k := FirstFor(s.list, evt);
    if k < |s.list| {
      var r := s.list[k];
      forall x ensures Of(s'.delivered, x) + Of(s'.list, x) == Of(s.signalled, x) {
        TakeIsOldest(s.list, evt, x);
        OfAppend(s.delivered, [r], x);
        assert Of(s.delivered, x) + Of(s.list, x) == Of(s.signalled, x);
      }
      assert s.list == s.list[..k] + [r] + s.list[k + 1..];
    }
  }

  lemma StepKeeps(s: State, e: Event)
    requires Fifo(s)
    ensures Fifo(Next(s, e))
  {
    match e
    case Signal(r, malloc) =>
      forall x ensures Of(s.list + [r], x) == Of(s.list, x) + Of([r], x)
                       && Of(s.signalled + [r], x) == Of(s.signalled, x) + Of([r], x) {
        OfAppend(s.list, [r], x);
        OfAppend(s.signalled, [r], x);
      }
    case Wake(evt) => WakeKeeps(s, evt);
  }

  /** It holds in every run, from the empty list on. */
  lemma {:induction false} RunKeeps(es: seq<Event>)
    ensures Fifo(Run(State([], [], []), es))
  {
    if es != [] {
      RunKeeps(es[..|es| - 1]);
      StepKeeps(Run(State([], [], []), es[..|es| - 1]), es[|es| - 1]);
    }
  }

  /** A woken waiter for an event goes back to sleep exactly when as many results for it were
      delivered as were signalled. */
  lemma WakeReturns(es: seq<Event>, evt: int)
    ensures var s := Run(State([], [], []), es);
            Take(s.list, evt).1.Some? <==> |Of(s.delivered, evt)| < |Of(s.signalled, evt)|
  {
    var s := Run(State([], [], []), es);
    RunKeeps(es);
    TakeIsOldest(s.list, evt, evt);
    assert Of(s.delivered, evt) + Of(s.list, evt) == Of(s.signalled, evt);
  }
}

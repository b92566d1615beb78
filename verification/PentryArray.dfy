/** The partition entries array as the code holds it: one buffer of n entries of z bytes,
    searched by gpt_pentry_seek and rearranged in place by gpt_boot_chain_swap. */
module PentryArray {
  import opened Bytes
  import opened BootChain

  /** The buffer cut into its n entries. */
  function Split(a: seq<Byte>, z: nat, n: nat): (es: seq<Entry>)
    requires z >= PTN_ENTRY_SIZE && |a| == Times(n, z)
    ensures |es| == n
    decreases n
  {
    if n == 0 then [] else
      TimesStep(n, z);
      [a[..z]] + Split(a[z..], z, n - 1)
  }

  /** The entries put back one after the other. */
  function Join(es: seq<Entry>): seq<Byte> {
    if es == [] then [] else es[0] + Join(es[1..])
  }

  lemma TimesZero(z: nat)
    ensures Times(0, z) == 0
  {
  }

  lemma TimesStep(k: nat, z: nat)
    requires k > 0
    ensures Times(k, z) == z + Times(k - 1, z)
  {
  }

  /** Slots do not overlap: slot j ends before slot k starts. */
  lemma SlotsApart(j: nat, k: nat, z: nat)
    requires j < k
    ensures Times(j, z) + z <= Times(k, z)
  {
    assert (j + 1) * z <= k * z;
  }

  lemma {:induction false} SplitAt(a: seq<Byte>, z: nat, n: nat, k: nat)
    requires z >= PTN_ENTRY_SIZE && |a| == Times(n, z) && k < n
    ensures Times(k, z) + z <= |a| && Split(a, z, n)[k] == a[Times(k, z)..Times(k, z) + z]
    decreases n
  {
    SlotsApart(k, n, z);
    TimesStep(n, z);
    if k > 0 {
      TimesStep(k, z);
      SplitAt(a[z..], z, n - 1, k - 1);
      assert a[z..][Times(k - 1, z)..Times(k - 1, z) + z] == a[Times(k, z)..Times(k, z) + z];
    }
  }

  lemma {:induction false} JoinSplit(a: seq<Byte>, z: nat, n: nat)
    requires z >= PTN_ENTRY_SIZE && |a| == Times(n, z)
    ensures Join(Split(a, z, n)) == a
    decreases n
  {
    if n > 0 {
      TimesStep(n, z);
      JoinSplit(a[z..], z, n - 1);
      assert a == a[..z] + a[z..];
    }
  }

  /** Buffers with the same entries are the same buffer. */
  lemma SplitInjective(a: seq<Byte>, b: seq<Byte>, z: nat, n: nat)
    requires z >= PTN_ENTRY_SIZE && |a| == |b| == Times(n, z) && Split(a, z, n) == Split(b, z, n)
    ensures a == b
  {
    JoinSplit(a, z, n);
    JoinSplit(b, z, n);
  }

  lemma {:induction false} JoinLength(es: seq<Entry>, z: nat)
    requires forall k :: 0 <= k < |es| ==> |es[k]| == z
    ensures |Join(es)| == Times(|es|, z)
  {
    if es != [] {
      JoinLength(es[1..], z);
      TimesStep(|es|, z);
    }
  }

  lemma {:induction false} SplitJoin(es: seq<Entry>, z: nat)
    requires z >= PTN_ENTRY_SIZE && forall k :: 0 <= k < |es| ==> |es[k]| == z
    ensures |Join(es)| == Times(|es|, z) && Split(Join(es), z, |es|) == es
  {
    JoinLength(es, z);
    if es != [] {
      SplitJoin(es[1..], z);
      TimesStep(|es|, z);
      assert Join(es)[..z] == es[0] && Join(es)[z..] == Join(es[1..]);
    }
  }

  lemma SwapKeepsSizes(isUfs: bool, names: seq<string>, es: seq<Entry>, z: nat)
    requires AllComparable(names) && forall k :: 0 <= k < |es| ==> |es[k]| == z
    ensures forall k :: 0 <= k < |es| ==> |SwapNames(isUfs, names, es).0[k]| == z
  {
    if names != [] {
      SwapKeepsSizes(isUfs, names[..|names| - 1], es, z);
    }
  }

  /** gpt_boot_chain_swap on a buffer: the rearranged buffer, and whether a pair was found. */
  function SwapBuffer(isUfs: bool, a: seq<Byte>, z: nat, n: nat): (r: (seq<Byte>, bool))
    requires z >= PTN_ENTRY_SIZE && |a| == Times(n, z)
    ensures |r.0| == |a|
  {
    SwapListExclusive();
    var s := SwapNames(isUfs, PTN_SWAP_LIST, Split(a, z, n));
    SplitSizes(a, z, n);
    SwapKeepsSizes(isUfs, PTN_SWAP_LIST, Split(a, z, n), z);
    JoinLength(s.0, z);
    (Join(s.0), s.1)
  }

  lemma SplitSizes(a: seq<Byte>, z: nat, n: nat)
    requires z >= PTN_ENTRY_SIZE && |a| == Times(n, z)
    ensures forall k :: 0 <= k < n ==> |Split(a, z, n)[k]| == z
  {
    forall k | 0 <= k < n ensures |Split(a, z, n)[k]| == z {
      SplitAt(a, z, n, k);
    }
  }

  lemma SwapBufferSplit(isUfs: bool, a: seq<Byte>, z: nat, n: nat)
    requires z >= PTN_ENTRY_SIZE && |a| == Times(n, z)
    ensures AllComparable(PTN_SWAP_LIST)
    ensures Split(SwapBuffer(isUfs, a, z, n).0, z, n) == SwapNames(isUfs, PTN_SWAP_LIST, Split(a, z, n)).0
  {
    hide Times;
    SwapListExclusive();
    SplitSizes(a, z, n);
    SwapKeepsSizes(isUfs, PTN_SWAP_LIST, Split(a, z, n), z);
    SplitJoin(SwapNames(isUfs, PTN_SWAP_LIST, Split(a, z, n)).0, z);
  }

  /** Swapping twice restores the buffer, byte for byte. */
  lemma SwapBufferTwice(isUfs: bool, a: seq<Byte>, z: nat, n: nat)
    requires z >= PTN_ENTRY_SIZE && |a| == Times(n, z)
    ensures SwapBuffer(isUfs, SwapBuffer(isUfs, a, z, n).0, z, n).0 == a
  {
    hide Times;
    var b := SwapBuffer(isUfs, a, z, n).0;
    SwapBufferSplit(isUfs, a, z, n);
    SwapBufferSplit(isUfs, b, z, n);
    SwapListExclusive();
    SwapTwice(isUfs, PTN_SWAP_LIST, Split(a, z, n));
    SplitInjective(SwapBuffer(isUfs, b, z, n).0, a, z, n);
  }

  /** Without a pair the buffer comes back unchanged. */
  lemma SwapBufferUnfound(isUfs: bool, a: seq<Byte>, z: nat, n: nat)
    requires z >= PTN_ENTRY_SIZE && |a| == Times(n, z)
    ensures !SwapBuffer(isUfs, a, z, n).1 ==> SwapBuffer(isUfs, a, z, n).0 == a
  {
    hide Times;
    SwapListExclusive();
    SwapFound(isUfs, PTN_SWAP_LIST, Split(a, z, n));
    JoinSplit(a, z, n);
  }

  /** Byte i of slot k after the swap: of the partner slot for the first 128 bytes, else its own. */
  lemma SwapBufferAt(isUfs: bool, a: seq<Byte>, z: nat, n: nat, k: nat, i: nat)
    requires z >= PTN_ENTRY_SIZE && |a| == Times(n, z) && k < n && i < z
    ensures AllComparable(PTN_SWAP_LIST)
    ensures var from := if i < 128 then Partner(isUfs, PTN_SWAP_LIST, Split(a, z, n), k) else k;
            && Times(k, z) + z <= |a| && Times(from, z) + z <= |a|
            && SwapBuffer(isUfs, a, z, n).0[Times(k, z) + i] == a[Times(from, z) + i]
  {
    hide Times, Split, SwapNames, Partner, Matches;
    var b := SwapBuffer(isUfs, a, z, n).0;
    SwapListExclusive();
    SwapBufferSplit(isUfs, a, z, n);
    SwapPass(isUfs, PTN_SWAP_LIST, Split(a, z, n));
    var p := Partner(isUfs, PTN_SWAP_LIST, Split(a, z, n), k);
    SplitAt(a, z, n, k);
    SplitAt(a, z, n, p);
    SplitAt(b, z, n, k);
    OverlayAt(Split(a, z, n)[p], Split(a, z, n)[k], i);
    assert Split(b, z, n)[k][i] == b[Times(k, z) + i];
  }

  lemma OverlayAt(head: Entry, slot: Entry, i: nat)
    requires i < |slot|
    ensures |Overlay(head, slot)| == |slot|
    ensures Overlay(head, slot)[i] == if i < 128 then head[i] else slot[i]
  {
  }

  /** The swap on the bytes: the first 128 bytes of the first two entries that match a listed name
      which is not skipped change places, ... */
  lemma SwapBufferPair(isUfs: bool, a: seq<Byte>, z: nat, n: nat, j: nat, i: nat)
    requires z >= PTN_ENTRY_SIZE && |a| == Times(n, z) && j < |PTN_SWAP_LIST| && i < 128
    requires Comparable(PTN_SWAP_LIST[j]) && HasPair(isUfs, PTN_SWAP_LIST[j], Split(a, z, n))
    ensures var b, Pair(p, q) := SwapBuffer(isUfs, a, z, n).0, PairOf(PTN_SWAP_LIST[j], Split(a, z, n));
            && Times(p, z) + z <= |a| && Times(q, z) + z <= |a|
            && b[Times(p, z) + i] == a[Times(q, z) + i] && b[Times(q, z) + i] == a[Times(p, z) + i]
  {
    hide Times, Split, SwapNames, Matches, SwapBuffer, Partner, Skipped;
    var es := Split(a, z, n);
    var Pair(p, q) := PairOf(PTN_SWAP_LIST[j], es);
    SwapListExclusive();
    PartnerOfPair(isUfs, PTN_SWAP_LIST, es, j);
    SwapBufferAt(isUfs, a, z, n, p, i);
    SwapBufferAt(isUfs, a, z, n, q, i);
  }

  /** ... and every byte behind the first 128 of a slot, or in a slot of no such pair, stays. */
  lemma SwapBufferKept(isUfs: bool, a: seq<Byte>, z: nat, n: nat, k: nat, i: nat)
    requires z >= PTN_ENTRY_SIZE && |a| == Times(n, z) && k < n && i < z
    requires AllComparable(PTN_SWAP_LIST)
    requires i >= 128
             || forall j :: 0 <= j < |PTN_SWAP_LIST| && HasPair(isUfs, PTN_SWAP_LIST[j], Split(a, z, n)) ==>
                  PairOf(PTN_SWAP_LIST[j], Split(a, z, n)).p != k && PairOf(PTN_SWAP_LIST[j], Split(a, z, n)).q != k
    ensures Times(k, z) + z <= |a| && SwapBuffer(isUfs, a, z, n).0[Times(k, z) + i] == a[Times(k, z) + i]
  {
    hide Times, Split, SwapNames, Matches, SwapBuffer, Partner, PairOf, Skipped;
    SwapBufferAt(isUfs, a, z, n, k, i);
    if i < 128 {
      PartnerOfNone(isUfs, PTN_SWAP_LIST, Split(a, z, n), k);
    }
  }

  // ---------- The in-place code ----------

  /** The inner loop of gpt_pentry_seek: the low byte of each UTF-16 unit of the name. */
  method CopyName(a: array<Byte>, o: nat) returns (name8: array<Byte>)
    requires o + PTN_ENTRY_SIZE <= a.Length
    ensures fresh(name8) && name8.Length == NAME_CHARS
    ensures forall j :: 0 <= j < NAME_CHARS ==> name8[j] == a[o + PARTITION_NAME_OFFSET + 2 * j]
  {
    name8 := new Byte[NAME_CHARS];
    for i := 0 to NAME_CHARS
      invariant forall j :: 0 <= j < i ==> name8[j] == a[o + PARTITION_NAME_OFFSET + 2 * j]
    {
      name8[i] := a[o + PARTITION_NAME_OFFSET + 2 * i];
    }
  }

  /** The comparison in the loop, which may only read the copy. */
  predicate NameFound(ptnName: string, name8: seq<Byte>)
    requires |name8| == NAME_CHARS && Within(ptnName, name8)
  {
    NameMatches(ptnName, name8)
  }

  /** gpt_pentry_seek on a[start..]: the offset of the first entry found, -1 for NULL. */
  method PentrySeek(ptnName: string, a: array<Byte>, start: nat, z: nat, ghost from: nat, ghost n: nat)
    returns (at: int)
    requires z >= PTN_ENTRY_SIZE && a.Length == Times(n, z)
    requires from <= n && start == Times(from, z)
    requires ReadsInside(ptnName, Split(a[..], z, n), from)
    ensures var k := FirstMatch(ptnName, Split(a[..], z, n), from);
            at == if k == -1 then -1 else Times(k, z)
  {
    hide Times, Split, Matches, ReadsInside, Within;
    ghost var es := Split(a[..], z, n);
    var o := start;
    ghost var k := from;
    while o + PARTITION_NAME_OFFSET < a.Length
      invariant k <= n && o == Times(k, z)
      invariant FirstMatch(ptnName, es, from) == FirstMatch(ptnName, es, k)
      invariant from <= k && forall j :: from <= j < k ==> !Matches(ptnName, es[j])
      decreases n - k
    {
      assert k < n;
      SplitAt(a[..], z, n, k);
      TimesStep(k + 1, z);
      InsideAt(ptnName, es, from, k);
      var found := FoundAt(ptnName, a, o, es[k]);
      if found {
        return o;
      }
      o := o + z;
      k := k + 1;
    }
    if k < n {
      SlotsApart(k, n, z);
    }
    return -1;
  }

  lemma InsideAt(name: string, es: seq<Entry>, from: nat, k: nat)
    requires ReadsInside(name, es, from) && from <= k < |es| && forall j :: from <= j < k ==> !Matches(name, es[j])
    ensures Within(name, Name8(es[k]))
  {
    hide Within, Matches;
  }

  /** One comparison of gpt_pentry_seek, with the entry e at offset o. */
  method FoundAt(ptnName: string, a: array<Byte>, o: nat, ghost e: Entry) returns (found: bool)
    requires o + |e| <= a.Length && a[o..o + |e|] == e && Within(ptnName, Name8(e))
    ensures found == Matches(ptnName, e)
  {
    hide Within, NameMatches;
    var name8 := CopyName(a, o);
    assert name8[..] == Name8(e);
    found := NameFound(ptnName, name8[..]);
  }

  /** Where byte i comes from when the 128 bytes at x and at y are exchanged. */
  function Source(i: nat, x: nat, y: nat): nat
    requires x <= y
  {
    if x <= i < x + PTN_ENTRY_SIZE then i + (y - x)
    else if y <= i < y + PTN_ENTRY_SIZE then i - (y - x)
    else i
  }

  ghost predicate Exchanged(a: seq<Byte>, b: seq<Byte>, x: nat, y: nat)
    requires x + PTN_ENTRY_SIZE <= y && y + PTN_ENTRY_SIZE <= |a|
  {
    |b| == |a| && forall i: nat {:trigger Source(i, x, y)} :: i < |a| ==> b[i] == a[Source(i, x, y)]
  }

  /** A stretch of the buffer that moves as one piece. */
  lemma PieceMoved(a: seq<Byte>, b: seq<Byte>, x: nat, y: nat, at: nat, from: nat, len: nat)
    requires x + PTN_ENTRY_SIZE <= y && y + PTN_ENTRY_SIZE <= |a| && at + len <= |a| && from + len <= |a|
    requires Exchanged(a, b, x, y)
    requires || (at == x && from == y && len == PTN_ENTRY_SIZE)
             || (at == y && from == x && len == PTN_ENTRY_SIZE)
             || (at == from
                 && (at + len <= x || (x + PTN_ENTRY_SIZE <= at && at + len <= y) || y + PTN_ENTRY_SIZE <= at))
    ensures b[at..at + len] == a[from..from + len]
  {
    forall i {:trigger b[at..at + len][i]} | 0 <= i < len ensures b[at..at + len][i] == a[from..from + len][i] {
      assert Source(at + i, x, y) == from + i;
    }
  }

  /** The slot at "into" (x or y) after the exchange with the slot at "from" (y or x). */
  lemma SlotExchanged(a: seq<Byte>, b: seq<Byte>, x: nat, y: nat, z: nat, into: nat, from: nat)
    requires z >= PTN_ENTRY_SIZE && x + z <= y && y + z <= |a|
    requires Exchanged(a, b, x, y) && (into, from) in {(x, y), (y, x)}
    ensures b[into..into + z] == Overlay(a[from..from + z], a[into..into + z])
  {
    var e := PTN_ENTRY_SIZE;
    PieceMoved(a, b, x, y, into, from, e);
    PieceMoved(a, b, x, y, into + e, into + e, z - e);
    assert b[into..into + z] == b[into..into + e] + b[into + e..into + z];
    assert a[from..from + z][..e] == a[from..from + e];
    assert a[into..into + z][e..] == a[into + e..into + z];
  }

  lemma SplitMoved(a: seq<Byte>, b: seq<Byte>, z: nat, n: nat, into: nat, from: nat)
    requires z >= PTN_ENTRY_SIZE && |a| == |b| == Times(n, z) && into < n && from < n
    requires Times(from, z) + z <= |a| && Times(into, z) + z <= |a|
    requires b[Times(into, z)..Times(into, z) + z] ==
             Overlay(a[Times(from, z)..Times(from, z) + z], a[Times(into, z)..Times(into, z) + z])
    ensures Split(b, z, n)[into] == Overlay(Split(a, z, n)[from], Split(a, z, n)[into])
  {
    hide Times, Overlay, Split;
    SplitAt(a, z, n, into);
    SplitAt(a, z, n, from);
    SplitAt(b, z, n, into);
  }

  lemma SplitKept(a: seq<Byte>, b: seq<Byte>, z: nat, n: nat, p: nat, q: nat, k: nat)
    requires z >= PTN_ENTRY_SIZE && |a| == |b| == Times(n, z) && p < q < n && k < n && k != p && k != q
    requires Times(p, z) + z <= Times(q, z) && Times(q, z) + z <= |a|
    requires Exchanged(a, b, Times(p, z), Times(q, z))
    ensures Split(b, z, n)[k] == Split(a, z, n)[k]
  {
    hide Times, Exchanged, Split;
    var x, y, o := Times(p, z), Times(q, z), Times(k, z);
    assert o + z <= |a| && (o + z <= x || x + z <= o) && (o + z <= y || y + z <= o) by {
      SlotsApart(k, n, z);
      if k < p { SlotsApart(k, p, z); } else { SlotsApart(p, k, z); }
      if k < q { SlotsApart(k, q, z); } else { SlotsApart(q, k, z); }
    }
    assert b[o..o + z] == a[o..o + z] by {
      PieceMoved(a, b, x, y, o, o, z);
    }
    SplitAt(a, z, n, k);
    SplitAt(b, z, n, k);
  }

  lemma ExchangeIs(es: seq<Entry>, fs: seq<Entry>, p: nat, q: nat)
    requires p < q < |es| == |fs|
    requires fs[p] == Overlay(es[q], es[p]) && fs[q] == Overlay(es[p], es[q])
    requires forall k :: 0 <= k < |es| && k != p && k != q ==> fs[k] == es[k]
    ensures fs == Exchange(es, p, q)
  {
  }

  /** Exchanging the first 128 bytes at two slots of the buffer is Exchange on its entries. */
  lemma SplitExchange(a: seq<Byte>, b: seq<Byte>, z: nat, n: nat, p: nat, q: nat)
    requires z >= PTN_ENTRY_SIZE && |a| == |b| == Times(n, z) && p < q < n
    requires Times(p, z) + z <= Times(q, z) && Times(q, z) + z <= |a|
    requires Exchanged(a, b, Times(p, z), Times(q, z))
    ensures Split(b, z, n) == Exchange(Split(a, z, n), p, q)
  {
    hide Times, Exchanged, Split, Exchange, Overlay;
    SplitPair(a, b, z, n, p, q);
    SplitOthers(a, b, z, n, p, q);
    ExchangeIs(Split(a, z, n), Split(b, z, n), p, q);
  }

  lemma SplitPair(a: seq<Byte>, b: seq<Byte>, z: nat, n: nat, p: nat, q: nat)
    requires z >= PTN_ENTRY_SIZE && |a| == |b| == Times(n, z) && p < q < n
    requires Times(p, z) + z <= Times(q, z) && Times(q, z) + z <= |a|
    requires Exchanged(a, b, Times(p, z), Times(q, z))
    ensures Split(b, z, n)[p] == Overlay(Split(a, z, n)[q], Split(a, z, n)[p])
    ensures Split(b, z, n)[q] == Overlay(Split(a, z, n)[p], Split(a, z, n)[q])
  {
    hide Times, Exchanged, Overlay, Split;
    var x, y := Times(p, z), Times(q, z);
    SlotExchanged(a, b, x, y, z, x, y);
    SplitMoved(a, b, z, n, p, q);
    SlotExchanged(a, b, x, y, z, y, x);
    SplitMoved(a, b, z, n, q, p);
  }

  lemma SplitOthers(a: seq<Byte>, b: seq<Byte>, z: nat, n: nat, p: nat, q: nat)
    requires z >= PTN_ENTRY_SIZE && |a| == |b| == Times(n, z) && p < q < n
    requires Times(p, z) + z <= Times(q, z) && Times(q, z) + z <= |a|
    requires Exchanged(a, b, Times(p, z), Times(q, z))
    ensures forall k :: 0 <= k < n && k != p && k != q ==> Split(b, z, n)[k] == Split(a, z, n)[k]
  {
    hide Times, Exchanged, Split;
    forall k | 0 <= k < n && k != p && k != q ensures Split(b, z, n)[k] == Split(a, z, n)[k] {
      SplitKept(a, b, z, n, p, q, k);
    }
  }

  /** The three memcpy calls that exchange two entries. */
  method ExchangeInPlace(a: array<Byte>, x: nat, y: nat)
    requires x + PTN_ENTRY_SIZE <= y && y + PTN_ENTRY_SIZE <= a.Length
    modifies a
    ensures Exchanged(old(a[..]), a[..], x, y)
  {
    var ptnSwap := new Byte[PTN_ENTRY_SIZE];
    forall i | 0 <= i < PTN_ENTRY_SIZE { ptnSwap[i] := a[x + i]; }
    forall i | 0 <= i < PTN_ENTRY_SIZE { a[x + i] := a[y + i]; }
    forall i | 0 <= i < PTN_ENTRY_SIZE { a[y + i] := ptnSwap[i]; }
  }

  /** gpt_boot_chain_swap: 0 when some pair was exchanged, 1 otherwise. */
  method BootChainSwap(isUfs: bool, a: array<Byte>, z: nat, ghost n: nat) returns (backupNotFound: int)
    requires z >= PTN_ENTRY_SIZE && a.Length == Times(n, z)
    modifies a
    ensures a[..] == SwapBuffer(isUfs, old(a[..]), z, n).0
    ensures backupNotFound == if SwapBuffer(isUfs, old(a[..]), z, n).1 then 0 else 1
  {
    backupNotFound := 1;
    ghost var was := a[..];
    ghost var es := Split(was, z, n);
    SwapListExclusive();
    var names := PTN_SWAP_LIST;
    var i := 0;
    assert names[..0] == [];
    while i < |names|
      invariant 0 <= i <= |names|
      invariant AllComparable(names)
      invariant AllComparable(names[..i])
      invariant Split(a[..], z, n) == SwapNames(isUfs, names[..i], es).0
      invariant backupNotFound == if SwapNames(isUfs, names[..i], es).1 then 0 else 1
    {
      backupNotFound := SwapTurn(isUfs, names[i], a, z, n, backupNotFound);
      SwapAppend(isUfs, names, i, es);
      i := i + 1;
    }
    assert names[..i] == names;
    SwapBufferSplit(isUfs, was, z, n);
    SplitInjective(a[..], SwapBuffer(isUfs, was, z, n).0, z, n);
  }

  /** The body of the loop of gpt_boot_chain_swap for one name. */
  method SwapTurn(isUfs: bool, name: string, a: array<Byte>, z: nat, ghost n: nat, before: int)
    returns (backupNotFound: int)
    requires z >= PTN_ENTRY_SIZE && a.Length == Times(n, z) && Comparable(name)
    requires before == 0 || before == 1
    modifies a
    ensures (Split(a[..], z, n), backupNotFound == 0) ==
            SwapOne(isUfs, name, (Split(old(a[..]), z, n), before == 0))
    ensures backupNotFound == 0 || backupNotFound == 1
  {
    hide Times, Matches, Exchanged, Exchange, Split, Skipped;
    backupNotFound := before;
    if Skipped(isUfs, name) {
      return;
    }
    TimesZero(z);
    ComparableReadsInside(name, Split(a[..], z, n), 0);
    var ptnEntry := PentrySeek(name, a, 0, z, 0, n);
    if ptnEntry == -1 {
      return;
    }
    ghost var es := Split(a[..], z, n);
    ghost var p := FirstMatch(name, es, 0);
    TimesStep(p + 1, z);
    ComparableReadsInside(name, es, p + 1);
    var ptnBakEntry := PentrySeek(name, a, ptnEntry + z, z, p + 1, n);
    if ptnBakEntry == -1 {
      return;
    }
    ghost var q := FirstMatch(name, es, p + 1);
    assert PairOf(name, es) == Pair(p, q);
    SlotsApart(p, q, z);
    SlotsApart(q, n, z);
    ghost var was := a[..];
    ExchangeInPlace(a, ptnEntry, ptnBakEntry);
    SplitExchange(was, a[..], z, n, p, q);
    backupNotFound := 0;
  }
}

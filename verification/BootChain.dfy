/** Partition entries and the boot-chain swap: which entry a name finds, and what
    exchanging every listed partition with its backup twin does to the array. */
module BootChain {
  import opened Bytes

  const PTN_ENTRY_SIZE := 128
  const PARTITION_NAME_OFFSET := 56
  const NAME_CHARS := 36
  const PTN_XBL := "xbl"
  const PTN_SWAP_LIST: seq<string> := [
    "xbl", "abl", "aboot", "aes", "apdp", "bootlocker", "cmnlib", "cmnlib32",
    "cmnlib64", "devcfg", "dtbo", "hosd", "hyp", "laf", "keymaster",
    "lockbooter", "msadp", "pmic", "rpm", "storsec", "trusty", "tz", "vbmeta"]

  /** Entries in the units the table counts them in: each at least 128 bytes. */
  type Entry = e: seq<Byte> | |e| >= 128 witness seq(128, _ => 0)

  /** Names short enough for the comparison with any entry to stay inside the 36-character copy. */
  predicate Comparable(name: string) {
    |name| + 4 <= NAME_CHARS
  }

  predicate AllComparable(names: seq<string>) {
    forall i :: 0 <= i < |names| ==> Comparable(names[i])
  }

  /** The low bytes of the UTF-16 name of an entry. */
  function Name8(e: Entry): (r: seq<Byte>)
    ensures |r| == NAME_CHARS
    ensures forall i :: 0 <= i < NAME_CHARS ==> r[i] == e[PARTITION_NAME_OFFSET + 2 * i]
  {
    seq(NAME_CHARS, i requires 0 <= i < NAME_CHARS => e[PARTITION_NAME_OFFSET + 2 * i])
  }

  /** strncmp over the first characters: the name agrees with the copy from position i on. */
  predicate Agrees(name: string, n8: seq<Byte>, i: nat)
    requires i <= |name|
    decreases |name| - i
  {
    i == |name| || (i < |n8| && n8[i] == name[i] as int && Agrees(name, n8, i + 1))
  }

  lemma AgreesAt(name: string, n8: seq<Byte>, i: nat, k: nat)
    requires i <= k < |name|
    requires Agrees(name, n8, i)
    ensures k < |n8| && n8[k] == name[k] as int
    decreases k - i
  {
    if i < k {
      AgreesAt(name, n8, i + 1, k);
    }
  }

  /** The comparison of gpt_pentry_seek: the name itself, or the name followed by "bak". */
  predicate NameMatches(name: string, n8: seq<Byte>)
    requires |n8| == NAME_CHARS
  {
    var l := |name|;
    && Agrees(name, n8, 0) && l < NAME_CHARS
    && (n8[l] == 0
        || (l + 3 < NAME_CHARS && n8[l + 3] == 0
            && n8[l] == 'b' as int && n8[l + 1] == 'a' as int && n8[l + 2] == 'k' as int))
  }

  const BAK := "bak"

  /** The comparison reads the copy only inside: it meets a difference to the name there, or the
      name ends there and a difference to "bak", or the end of "bak", comes before the end of the
      copy. */
  predicate Within(name: string, n8: seq<Byte>)
    requires |n8| == NAME_CHARS
  {
    || (exists i :: 0 <= i < |name| && i < NAME_CHARS && n8[i] != name[i] as int)
    || |name| + |BAK| < NAME_CHARS
    || (|name| < NAME_CHARS
        && exists p :: 0 <= p < |BAK| && |name| + p < NAME_CHARS && n8[|name| + p] != BAK[p] as int)
  }

  predicate Matches(name: string, e: Entry) {
    NameMatches(name, Name8(e))
  }

  /** Seeking the name from an entry on never reads outside a copy, up to the entry it finds. */
  ghost predicate ReadsInside(name: string, es: seq<Entry>, from: nat) {
    forall k :: from <= k < |es| && (forall j :: from <= j < k ==> !Matches(name, es[j])) ==> Within(name, Name8(es[k]))
  }

  lemma ComparableReadsInside(name: string, es: seq<Entry>, from: nat)
    requires Comparable(name)
    ensures ReadsInside(name, es, from)
  {
  }

  /** Index of the first entry at or after "from" that the name finds, -1 when there is none. */
  function FirstMatch(name: string, es: seq<Entry>, from: nat): (k: int)
    requires from <= |es|
    ensures k == -1 || (from <= k < |es| && Matches(name, es[k]))
    decreases |es| - from
  {
    if from == |es| then -1
    else if Matches(name, es[from]) then from
    else FirstMatch(name, es, from + 1)
  }

  /** It is the first one, and -1 means that there is none. */
  lemma {:induction false} FirstMatchIsFirst(name: string, es: seq<Entry>, from: nat)
    requires from <= |es|
    ensures var k := FirstMatch(name, es, from);
            forall j :: from <= j < (if k == -1 then |es| else k) ==> !Matches(name, es[j])
    decreases |es| - from
  {
    if from < |es| && !Matches(name, es[from]) {
      FirstMatchIsFirst(name, es, from + 1);
    }
  }

  datatype Pair = NoPair | Pair(p: nat, q: nat)

  /** The two entries exchanged for a name: its first two matches. */
  function PairOf(name: string, es: seq<Entry>): (r: Pair)
    requires Comparable(name)
    ensures r.Pair? ==> r.p < r.q < |es| && Matches(name, es[r.p]) && Matches(name, es[r.q])
  {
    var p := FirstMatch(name, es, 0);
    if p == -1 then NoPair else
      var q := FirstMatch(name, es, p + 1);
      if q == -1 then NoPair else Pair(p, q)
  }

  /** First 128 bytes from one entry, the rest of the slot unchanged. */
  function Overlay(head: Entry, slot: Entry): Entry {
    head[..PTN_ENTRY_SIZE] + slot[PTN_ENTRY_SIZE..]
  }

  lemma OverlayOverlay(a: Entry, b: Entry, c: Entry, d: Entry)
    ensures Overlay(Overlay(a, b), Overlay(c, d)) == Overlay(a, d)
    ensures Overlay(a, a) == a
  {
  }

  function Exchange(es: seq<Entry>, p: nat, q: nat): seq<Entry>
    requires p < |es| && q < |es|
  {
    es[p := Overlay(es[q], es[p])][q := Overlay(es[p], es[q])]
  }

  /** On UFS the names beginning with xbl are left to the boot LUN switch. */
  predicate Skipped(isUfs: bool, name: string) {
    isUfs && PTN_XBL <= name
  }

  /** One turn of the loop over the names. */
  function SwapOne(isUfs: bool, name: string, before: (seq<Entry>, bool)): (r: (seq<Entry>, bool))
    requires Comparable(name)
    ensures |r.0| == |before.0|
  {
    if Skipped(isUfs, name) then before else
      match PairOf(name, before.0)
      case NoPair => before
      case Pair(p, q) => (Exchange(before.0, p, q), true)
  }

  /** The entries after all names were treated in order, and whether any pair was found. */
  function SwapNames(isUfs: bool, names: seq<string>, es: seq<Entry>): (r: (seq<Entry>, bool))
    requires AllComparable(names)
    ensures |r.0| == |es|
  {
    if names == [] then (es, false) else
      SwapOne(isUfs, names[|names| - 1], SwapNames(isUfs, names[..|names| - 1], es))
  }

  /** No name is skipped on eMMC; on UFS of the listed ones just the first, xbl. */
  lemma SkippedExactly(isUfs: bool, i: nat)
    requires i < |PTN_SWAP_LIST|
    ensures Skipped(isUfs, PTN_SWAP_LIST[i]) <==> isUfs && i == 0
    ensures forall name :: Skipped(isUfs, name) <==>
                           isUfs && |name| >= 3 && name[0] == 'x' && name[1] == 'b' && name[2] == 'l'
  {
    forall name ensures PTN_XBL <= name <==> |name| >= 3 && name[0] == 'x' && name[1] == 'b' && name[2] == 'l' {
      BeginsWithXbl(name);
    }
    BeginsWithXbl(PTN_SWAP_LIST[i]);
    OnlyXbl(i);
  }

  lemma BeginsWithXbl(name: string)
    ensures PTN_XBL <= name <==> |name| >= 3 && name[0] == 'x' && name[1] == 'b' && name[2] == 'l'
  {
  }

  lemma OnlyXbl(i: nat)
    requires i < |PTN_SWAP_LIST|
    ensures PTN_SWAP_LIST[i][0] == 'x' <==> i == 0
    ensures PTN_SWAP_LIST[0] == PTN_XBL
  {
  }

  /** A name has its pair exactly if it is not skipped and two entries match it, and the pair is
      the first two of them. */
  lemma PairExactly(isUfs: bool, name: string, es: seq<Entry>)
    requires Comparable(name)
    ensures HasPair(isUfs, name, es) <==>
            !Skipped(isUfs, name)
            && exists p, q :: 0 <= p < q < |es| && Matches(name, es[p]) && Matches(name, es[q])
    ensures var r := PairOf(name, es);
            r.Pair? ==> forall k :: 0 <= k < r.q && k != r.p ==> !Matches(name, es[k])
  {
    hide Matches, Skipped;
    FirstMatchIsFirst(name, es, 0);
    var p := FirstMatch(name, es, 0);
    if p != -1 {
      FirstMatchIsFirst(name, es, p + 1);
    }
  }

  /** The name in an entry: the low bytes from byte 56 on, every second one, up to the first zero;
      it has none if there is no zero among the 36. */
  ghost predicate Named(e: Entry, name: string) {
    && |name| < 36 && e[56 + 2 * |name|] == 0
    && forall i :: 0 <= i < |name| ==> e[56 + 2 * i] == name[i] as int
  }

  /** An entry matches a name exactly if it bears that name, or that name followed by bak. */
  lemma MatchesExactly(name: string, e: Entry)
    ensures Matches(name, e) <==> Named(e, name) || Named(e, name + "bak")
  {
    hide Name8;
    var n8 := Name8(e);
    Name8Is(e);
    AgreesExactly(name, n8, 0);
    var bak := name + "bak";
    assert forall i :: 0 <= i < |name| ==> bak[i] == name[i];
    if Matches(name, e) {
      forall i | 0 <= i < |name| ensures e[56 + 2 * i] == name[i] as int {
        assert SameAt(name, n8, i) && n8[i] == e[56 + 2 * i];
      }
    }
    if Named(e, name) || Named(e, bak) {
      forall i | 0 <= i < |name| ensures SameAt(name, n8, i) {
        assert e[56 + 2 * i] == name[i] as int by { assert bak[i] == name[i]; }
        assert n8[i] == e[56 + 2 * i];
      }
    }
    assert bak[|name|] == 'b' && bak[|name| + 1] == 'a' && bak[|name| + 2] == 'k';
    if Matches(name, e) && n8[|name|] != 0 {
      forall i | 0 <= i < |bak| ensures e[56 + 2 * i] == bak[i] as int {
        assert e[56 + 2 * i] == n8[i];
        assert i < |name| ==> bak[i] == name[i];
      }
    }
    if Named(e, bak) {
      assert n8[|name|] == bak[|name|] as int && n8[|name| + 1] == bak[|name| + 1] as int;
      assert n8[|name| + 2] == bak[|name| + 2] as int && n8[|name| + 3] == 0;
    }
  }

  lemma Name8Is(e: Entry)
    ensures |Name8(e)| == 36 && forall i :: 0 <= i < 36 ==> Name8(e)[i] == e[56 + 2 * i]
  {
  }

  predicate SameAt(name: string, n8: seq<Byte>, k: nat)
    requires k < |name|
  {
    k < |n8| && n8[k] == name[k] as int
  }

  lemma {:induction false} AgreesExactly(name: string, n8: seq<Byte>, i: nat)
    requires i <= |name|
    ensures Agrees(name, n8, i) <==> forall k :: i <= k < |name| ==> SameAt(name, n8, k)
    decreases |name| - i
  {
    if i < |name| {
      AgreesExactly(name, n8, i + 1);
      assert Agrees(name, n8, i) <==> SameAt(name, n8, i) && Agrees(name, n8, i + 1);
    }
  }

  // ---------- Names that never find each other's entries ----------

  /** No entry is found by both names. */
  ghost predicate NeverBoth(a: string, b: string)
    requires Comparable(a) && Comparable(b)
  {
    forall e: Entry :: Matches(a, e) ==> !Matches(b, e)
  }

  ghost predicate Exclusive(names: seq<string>) {
    && AllComparable(names)
    && (forall i, j :: 0 <= i < j < |names| ==> NeverBoth(names[i], names[j]))
  }

  predicate NulFree(name: string) {
    forall i :: 0 <= i < |name| ==> name[i] != '\0'
  }

  predicate EndsInBak(name: string) {
    |name| >= 3 && name[|name| - 3..] == "bak"
  }

  predicate PlainName(name: string) {
    Comparable(name) && NulFree(name) && !EndsInBak(name)
  }

  /** A matching entry carries the characters of the name. */
  lemma MatchesAt(name: string, e: Entry, k: nat)
    requires Comparable(name) && Matches(name, e) && k < |name|
    ensures Name8(e)[k] == name[k] as int
  {
    hide Name8;
    AgreesAt(name, Name8(e), 0, k);
  }

  /** After them comes the end of the name or "bak" and the end. */
  lemma MatchesEnd(name: string, e: Entry)
    requires Comparable(name) && Matches(name, e)
    ensures var n8, l := Name8(e), |name|;
            n8[l] == 0 || (n8[l] == 'b' as int && n8[l + 1] == 'a' as int && n8[l + 2] == 'k' as int && n8[l + 3] == 0)
  {
    hide Name8;
  }

  lemma LongerThan(a: string, b: string)
    requires |a| <= |b| && a != b && b[..|a|] == a
    ensures |a| < |b|
  {
    assert b == b[..|a|] + b[|a|..];
  }

  lemma TailIsBak(a: string, b: string)
    ensures |b| == |a| + 3 && b[..|a|] == a && b[|a|] == 'b' && b[|a| + 1] == 'a' && b[|a| + 2] == 'k' ==>
              b == a + "bak"
  {
  }

  /** Two different names, neither the other plus "bak", never match the same entry. */
  lemma DifferentNames(a: string, b: string, e: Entry)
    requires Comparable(a) && Comparable(b) && NulFree(b)
    requires a != b && |a| <= |b| && b != a + "bak"
    requires Matches(a, e)
    ensures !Matches(b, e)
  {
    hide Matches, Name8;
    var l := |a|;
    TailIsBak(a, b);
    if Matches(b, e) {
      forall k | 0 <= k < l ensures a[k] == b[k] {
        MatchesAt(a, e, k);
        MatchesAt(b, e, k);
      }
      assert b[..l] == a;
      LongerThan(a, b);
      MatchesEnd(a, e);
      MatchesAt(b, e, l);
      if |b| > l + 1 { MatchesAt(b, e, l + 1); }
      if |b| > l + 2 { MatchesAt(b, e, l + 2); }
      if |b| > l + 3 { MatchesAt(b, e, l + 3); }
      MatchesEnd(b, e);
    }
  }

  /** A name that does not end in "bak" is no name plus "bak". */
  lemma PlainIsNoBak(a: string, b: string)
    requires PlainName(b)
    ensures b != a + "bak"
  {
    assert (a + "bak")[|a + "bak"| - 3..] == "bak";
  }

  lemma SwapListPlain(i: nat)
    requires i < |PTN_SWAP_LIST|
    ensures PlainName(PTN_SWAP_LIST[i])
  {
  }

  lemma SwapListDistinct(i: nat, j: nat)
    requires i < j < |PTN_SWAP_LIST|
    ensures PTN_SWAP_LIST[i] != PTN_SWAP_LIST[j]
  {
  }

  /** No entry is found by two of the names, when these are plain and distinct. */
  lemma PlainNamesExclusive(names: seq<string>)
    requires forall i :: 0 <= i < |names| ==> PlainName(names[i])
    requires forall i, j :: 0 <= i < j < |names| ==> names[i] != names[j]
    ensures Exclusive(names)
  {
    forall i, j | 0 <= i < j < |names| ensures NeverBoth(names[i], names[j]) {
      forall e: Entry | Matches(names[i], e) ensures !Matches(names[j], e) {
        PlainIsNoBak(names[i], names[j]);
        PlainIsNoBak(names[j], names[i]);
        if |names[i]| <= |names[j]| {
          DifferentNames(names[i], names[j], e);
        } else if Matches(names[j], e) {
          DifferentNames(names[j], names[i], e);
        }
      }
    }
  }

  /** The 23 listed names find pairwise disjoint sets of entries. */
  lemma SwapListExclusive()
    ensures Exclusive(PTN_SWAP_LIST)
  {
    forall i | 0 <= i < |PTN_SWAP_LIST| ensures PlainName(PTN_SWAP_LIST[i]) {
      SwapListPlain(i);
    }
    forall i, j | 0 <= i < j < |PTN_SWAP_LIST| ensures PTN_SWAP_LIST[i] != PTN_SWAP_LIST[j] {
      SwapListDistinct(i, j);
    }
    PlainNamesExclusive(PTN_SWAP_LIST);
  }

  // ---------- What the whole pass does ----------

  /** The entry whose first 128 bytes end up in slot k. */
  function Partner(isUfs: bool, names: seq<string>, es: seq<Entry>, k: nat): (r: nat)
    requires AllComparable(names)
    requires k < |es|
    ensures r < |es|
  {
    if names == [] then k else
      var name := names[|names| - 1];
      var rest := Partner(isUfs, names[..|names| - 1], es, k);
      if Skipped(isUfs, name) then rest else
        match PairOf(name, es)
        case NoPair => rest
        case Pair(p, q) => if k == p then q else if k == q then p else rest
  }

  predicate HasPair(isUfs: bool, name: string, es: seq<Entry>)
    requires Comparable(name)
  {
    !Skipped(isUfs, name) && PairOf(name, es).Pair?
  }

  /** The name finds the same positions in both arrays. */
  ghost predicate SameFor(name: string, a: seq<Entry>, b: seq<Entry>)
    requires Comparable(name) && |a| == |b|
  {
    forall k :: 0 <= k < |a| ==> Matches(name, a[k]) == Matches(name, b[k])
  }

  ghost predicate SameMatches(names: seq<string>, a: seq<Entry>, b: seq<Entry>)
    requires AllComparable(names)
  {
    |a| == |b| && forall i :: 0 <= i < |names| ==> SameFor(names[i], a, b)
  }

  lemma {:induction false} FirstMatchSame(name: string, a: seq<Entry>, b: seq<Entry>, from: nat)
    requires Comparable(name) && |a| == |b| && SameFor(name, a, b) && from <= |a|
    ensures FirstMatch(name, a, from) == FirstMatch(name, b, from)
    decreases |a| - from
  {
    if from < |a| {
      assert Matches(name, a[from]) == Matches(name, b[from]);
      FirstMatchSame(name, a, b, from + 1);
    }
  }

  lemma PairSame(name: string, a: seq<Entry>, b: seq<Entry>)
    requires Comparable(name) && |a| == |b| && SameFor(name, a, b)
    ensures PairOf(name, a) == PairOf(name, b)
  {
    FirstMatchSame(name, a, b, 0);
    var p := FirstMatch(name, a, 0);
    if p != -1 {
      FirstMatchSame(name, a, b, p + 1);
    }
  }

  lemma PartnerSame(isUfs: bool, names: seq<string>, a: seq<Entry>, b: seq<Entry>, k: nat)
    requires AllComparable(names)
    requires SameMatches(names, a, b) && k < |a|
    ensures Partner(isUfs, names, a, k) == Partner(isUfs, names, b, k)
  {
    if names != [] {
      PairSame(names[|names| - 1], a, b);
      PartnerSame(isUfs, names[..|names| - 1], a, b, k);
    }
  }

  /** A slot moves only on behalf of a name that finds it, and then goes to a slot the same name finds. */
  lemma PartnerShared(isUfs: bool, names: seq<string>, es: seq<Entry>, k: nat) returns (i: nat)
    requires AllComparable(names)
    requires k < |es| && Partner(isUfs, names, es, k) != k
    ensures i < |names| && Matches(names[i], es[k]) && Matches(names[i], es[Partner(isUfs, names, es, k)])
  {
    var name := names[|names| - 1];
    if !Skipped(isUfs, name) && PairOf(name, es).Pair? && (k == PairOf(name, es).p || k == PairOf(name, es).q) {
      i := |names| - 1;
    } else {
      i := PartnerShared(isUfs, names[..|names| - 1], es, k);
    }
  }

  lemma PrefixExclusive(names: seq<string>, i: nat)
    requires Exclusive(names) && i <= |names|
    ensures Exclusive(names[..i])
  {
  }

  /** The exchanges undo each other: the partner of the partner is the slot itself. */
  lemma {:induction false} PartnerInvolutive(isUfs: bool, names: seq<string>, es: seq<Entry>, k: nat)
    requires Exclusive(names) && k < |es|
    ensures Partner(isUfs, names, es, Partner(isUfs, names, es, k)) == k
  {
    if names != [] {
      var n := |names| - 1;
      var rest := Partner(isUfs, names[..n], es, k);
      PrefixExclusive(names, n);
      PartnerInvolutive(isUfs, names[..n], es, k);
      if rest != k {
        var i := PartnerShared(isUfs, names[..n], es, k);
        assert NeverBoth(names[i], names[n]);
      }
    }
  }

  /** Which slots change partners, told by the pairs: the two entries of a name that is not skipped
      are each other's partner, ... */
  lemma {:induction false} PartnerOfPair(isUfs: bool, names: seq<string>, es: seq<Entry>, i: nat)
    requires Exclusive(names) && i < |names| && HasPair(isUfs, names[i], es)
    ensures var Pair(p, q) := PairOf(names[i], es);
            Partner(isUfs, names, es, p) == q && Partner(isUfs, names, es, q) == p
  {
    hide Matches, Skipped;
    var n := |names| - 1;
    if i < n {
      PrefixExclusive(names, n);
      PartnerOfPair(isUfs, names[..n], es, i);
      assert NeverBoth(names[i], names[n]);
    }
  }

  /** ... and every other slot is its own. */
  lemma {:induction false} PartnerOfNone(isUfs: bool, names: seq<string>, es: seq<Entry>, k: nat)
    requires AllComparable(names) && k < |es|
    requires forall i :: 0 <= i < |names| && HasPair(isUfs, names[i], es) ==>
                           PairOf(names[i], es).p != k && PairOf(names[i], es).q != k
    ensures Partner(isUfs, names, es, k) == k
  {
    hide Matches, Skipped, PairOf;
    if names != [] {
      var n := |names| - 1;
      assert HasPair(isUfs, names[n], es) ==> PairOf(names[n], es).p != k && PairOf(names[n], es).q != k;
      forall i | 0 <= i < n && HasPair(isUfs, names[..n][i], es)
        ensures PairOf(names[..n][i], es).p != k && PairOf(names[..n][i], es).q != k
      {
        assert names[..n][i] == names[i];
      }
      PartnerOfNone(isUfs, names[..n], es, k);
    }
  }

  lemma MatchesHead(name: string, head: Entry, slot: Entry)
    requires Comparable(name)
    ensures Matches(name, Overlay(head, slot)) == Matches(name, head)
  {
    assert Name8(Overlay(head, slot)) == Name8(head);
  }

  /** Exchanging two entries of one name leaves every name finding the same positions. */
  lemma ExchangeKeepsMatches(names: seq<string>, es: seq<Entry>, i: nat, p: nat, q: nat)
    requires Exclusive(names) && i < |names| && p < q < |es|
    requires Matches(names[i], es[p]) && Matches(names[i], es[q])
    ensures SameMatches(names, es, Exchange(es, p, q))
  {
    forall j | 0 <= j < |names| ensures SameFor(names[j], es, Exchange(es, p, q)) {
      MatchesHead(names[j], es[p], es[q]);
      MatchesHead(names[j], es[q], es[p]);
      if j < i {
        assert NeverBoth(names[j], names[i]);
      } else if i < j {
        assert NeverBoth(names[i], names[j]);
      }
    }
  }

  /** A slot found by a later name is not touched by the earlier ones. */
  lemma SlotUnmoved(isUfs: bool, names: seq<string>, i: nat, es: seq<Entry>, k: nat)
    requires Exclusive(names) && i < |names| && k < |es| && Matches(names[i], es[k])
    ensures Partner(isUfs, names[..i], es, k) == k
  {
    if Partner(isUfs, names[..i], es, k) != k {
      var j := PartnerShared(isUfs, names[..i], es, k);

      assert false;
    }
  }

  /** What a pass over "names" has made of "es". */
  ghost predicate PassResult(isUfs: bool, names: seq<string>, es: seq<Entry>, r: seq<Entry>)
    requires AllComparable(names)
  {
    && |r| == |es|
    && forall k {:trigger r[k]} :: 0 <= k < |es| ==> r[k] == Overlay(es[Partner(isUfs, names, es, k)], es[k])
  }

  lemma SameTrans(names: seq<string>, a: seq<Entry>, b: seq<Entry>, c: seq<Entry>)
    requires AllComparable(names) && SameMatches(names, a, b) && SameMatches(names, b, c)
    ensures SameMatches(names, a, c)
  {
    forall i | 0 <= i < |names| ensures SameFor(names[i], a, c) {
      assert SameFor(names[i], a, b) && SameFor(names[i], b, c);
    }
  }

  /** One more name: its pair still sits where it sat at the start, so exchanging it
      extends the result by exactly that pair. */
  lemma ExchangeStep(isUfs: bool, names: seq<string>, i: nat, es: seq<Entry>, b: seq<Entry>, p: nat, q: nat)
    requires Exclusive(names) && i < |names| && PassResult(isUfs, names[..i], es, b)
    requires !Skipped(isUfs, names[i]) && PairOf(names[i], es) == Pair(p, q)
    ensures PassResult(isUfs, names[..i + 1], es, Exchange(b, p, q))
  {
    SlotUnmoved(isUfs, names, i, es, p);
    SlotUnmoved(isUfs, names, i, es, q);
    assert names[..i + 1][..i] == names[..i];
    OverlayOverlay(es[q], es[q], es[p], es[p]);
    OverlayOverlay(es[p], es[p], es[q], es[q]);
    var r := Exchange(b, p, q);
    assert b[p] == es[p] && b[q] == es[q];
    forall k | 0 <= k < |es| ensures r[k] == Overlay(es[Partner(isUfs, names[..i + 1], es, k)], es[k]) {
      assert b[k] == Overlay(es[Partner(isUfs, names[..i], es, k)], es[k]);
    }
  }

  lemma SkipStep(isUfs: bool, names: seq<string>, i: nat, es: seq<Entry>, b: seq<Entry>)
    requires AllComparable(names)
    requires i < |names| && !HasPair(isUfs, names[i], es) && PassResult(isUfs, names[..i], es, b)
    ensures PassResult(isUfs, names[..i + 1], es, b)
  {
    assert names[..i + 1][..i] == names[..i];
    forall k | 0 <= k < |es|
      ensures Partner(isUfs, names[..i + 1], es, k) == Partner(isUfs, names[..i], es, k)
    { }
  }

  lemma SwapAppend(isUfs: bool, names: seq<string>, i: nat, es: seq<Entry>)
    requires AllComparable(names)
    requires i < |names|
    ensures SwapNames(isUfs, names[..i + 1], es) == SwapOne(isUfs, names[i], SwapNames(isUfs, names[..i], es))
  {
    assert names[..i + 1][..i] == names[..i];
  }

  /** One turn of the loop, told by the pair the name has in the array given to the pass. */
  lemma SwapOneIs(isUfs: bool, name: string, es: seq<Entry>, s: (seq<Entry>, bool))
    requires Comparable(name) && |s.0| == |es| && SameFor(name, es, s.0)
    ensures SwapOne(isUfs, name, s) ==
            if HasPair(isUfs, name, es) then (Exchange(s.0, PairOf(name, es).p, PairOf(name, es).q), true) else s
  {
    PairSame(name, es, s.0);
  }

  lemma PassStep(isUfs: bool, names: seq<string>, i: nat, es: seq<Entry>, s: (seq<Entry>, bool))
    requires Exclusive(names) && i < |names|
    requires SameMatches(names, es, s.0) && PassResult(isUfs, names[..i], es, s.0)
    ensures SameMatches(names, es, SwapOne(isUfs, names[i], s).0)
    ensures PassResult(isUfs, names[..i + 1], es, SwapOne(isUfs, names[i], s).0)
  {
    assert SameFor(names[i], es, s.0);
    SwapOneIs(isUfs, names[i], es, s);
    if HasPair(isUfs, names[i], es) {
      var p, q := PairOf(names[i], es).p, PairOf(names[i], es).q;
      ExchangeStep(isUfs, names, i, es, s.0, p, q);
      ExchangeKeepsMatches(names, s.0, i, p, q);
      SameTrans(names, es, s.0, Exchange(s.0, p, q));
    } else {
      SkipStep(isUfs, names, i, es, s.0);
    }
  }

  lemma {:induction false} SwapPrefix(isUfs: bool, names: seq<string>, i: nat, es: seq<Entry>)
    requires Exclusive(names) && i <= |names|
    ensures SameMatches(names, es, SwapNames(isUfs, names[..i], es).0)
    ensures PassResult(isUfs, names[..i], es, SwapNames(isUfs, names[..i], es).0)
  {
    if i == 0 {
      forall k | 0 <= k < |es| ensures es[k] == Overlay(es[k], es[k]) { }
    } else {
      SwapPrefix(isUfs, names, i - 1, es);
      SwapAppend(isUfs, names, i - 1, es);
      PassStep(isUfs, names, i - 1, es, SwapNames(isUfs, names[..i - 1], es));
    }
  }

  /** A whole pass: every slot holds the head of its partner and its own tail,
      and every name still finds the same positions. */
  lemma SwapPass(isUfs: bool, names: seq<string>, es: seq<Entry>)
    requires Exclusive(names)
    ensures SameMatches(names, es, SwapNames(isUfs, names, es).0)
    ensures PassResult(isUfs, names, es, SwapNames(isUfs, names, es).0)
  {
    SwapPrefix(isUfs, names, |names|, es);
    assert names[..|names|] == names;
  }

  /** Some name has its two entries. */
  ghost predicate AnyPair(isUfs: bool, names: seq<string>, es: seq<Entry>)
    requires AllComparable(names)
  {
    exists j :: 0 <= j < |names| && HasPair(isUfs, names[j], es)
  }

  /** The flag of the pass says whether some name has its two entries, and without it nothing changed. */
  lemma {:induction false} SwapFound(isUfs: bool, names: seq<string>, es: seq<Entry>)
    requires Exclusive(names)
    ensures SwapNames(isUfs, names, es).1 <==> AnyPair(isUfs, names, es)
    ensures !SwapNames(isUfs, names, es).1 ==> SwapNames(isUfs, names, es).0 == es
  {
    hide Matches, PairOf, Exchange, SwapOne, Exclusive, HasPair, Skipped, PassResult, Partner;
    if names != [] {
      var n := |names| - 1;
      assert AllComparable(names) by { ExclusiveComparable(names); }
      PrefixExclusive(names, n);
      SwapFound(isUfs, names[..n], es);
      SwapPass(isUfs, names[..n], es);
      var s := SwapNames(isUfs, names[..n], es);
      LastSame(isUfs, names, es);
      SwapOneIs(isUfs, names[n], es, s);
      AnyPairStep(isUfs, names, es);
    }
  }

  lemma ExclusiveComparable(names: seq<string>)
    requires Exclusive(names)
    ensures AllComparable(names)
  {
  }

  lemma AnyPairStep(isUfs: bool, names: seq<string>, es: seq<Entry>)
    requires AllComparable(names) && names != []
    ensures AnyPair(isUfs, names, es) <==>
            AnyPair(isUfs, names[..|names| - 1], es) || HasPair(isUfs, names[|names| - 1], es)
  {
    hide HasPair;
    var n := |names| - 1;
    if j :| 0 <= j < n && HasPair(isUfs, names[..n][j], es) {
      assert HasPair(isUfs, names[j], es);
    }
    if j :| 0 <= j < |names| && HasPair(isUfs, names[j], es) {
      assert j < n ==> HasPair(isUfs, names[..n][j], es);
    }
  }

  /** Before its turn the last name still finds the positions it found at the start. */
  lemma LastSame(isUfs: bool, names: seq<string>, es: seq<Entry>)
    requires Exclusive(names) && names != []
    ensures SameFor(names[|names| - 1], es, SwapNames(isUfs, names[..|names| - 1], es).0)
  {
    hide Matches, SwapNames, Partner;
    SwapPrefix(isUfs, names, |names| - 1, es);
  }

  /** Two passes restore every entry. */
  lemma SwapTwice(isUfs: bool, names: seq<string>, es: seq<Entry>)
    requires Exclusive(names)
    ensures SwapNames(isUfs, names, SwapNames(isUfs, names, es).0).0 == es
  {
    var r := SwapNames(isUfs, names, es).0;
    var s := SwapNames(isUfs, names, r).0;
    SwapPass(isUfs, names, es);
    SwapPass(isUfs, names, r);
    forall k | 0 <= k < |es| ensures s[k] == es[k] {
      PartnerSame(isUfs, names, es, r, k);
      PartnerInvolutive(isUfs, names, es, k);
      var j := Partner(isUfs, names, es, k);
      assert r[j] == Overlay(es[k], es[j]);
      assert s[k] == Overlay(r[j], r[k]);
      OverlayOverlay(es[k], es[j], es[j], es[k]);
    }
  }

  /** The 128-byte entries in array order. */
  function Heads(es: seq<Entry>): (r: seq<seq<Byte>>)
    ensures |r| == |es|
  {
    seq(|es|, k requires 0 <= k < |es| => es[k][..PTN_ENTRY_SIZE])
  }

  /** Exchanging two entries exchanges their heads. */
  lemma ExchangeHeads(es: seq<Entry>, p: nat, q: nat)
    requires p < |es| && q < |es|
    ensures Heads(Exchange(es, p, q)) == Heads(es)[p := Heads(es)[q]][q := Heads(es)[p]]
    ensures multiset(Heads(Exchange(es, p, q))) == multiset(Heads(es))
  {
    var h := Heads(es);
    assert Heads(Exchange(es, p, q)) == h[p := h[q]][q := h[p]];
  }

  /** A pass only reorders the 128-byte entries. */
  lemma {:induction false} SwapPermutes(isUfs: bool, names: seq<string>, es: seq<Entry>)
    requires AllComparable(names)
    ensures multiset(Heads(SwapNames(isUfs, names, es).0)) == multiset(Heads(es))
  {
    hide Matches, PairOf, Exchange, Heads;
    if names != [] {
      var n := |names| - 1;
      SwapPermutes(isUfs, names[..n], es);
      var b := SwapNames(isUfs, names[..n], es).0;
      if HasPair(isUfs, names[n], b) {
        ExchangeHeads(b, PairOf(names[n], b).p, PairOf(names[n], b).q);
      }
    }
  }
}

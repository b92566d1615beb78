/** The LUNs a UFS update has to prepare: which device paths the listed partitions resolve
    to, each path once, and one call of prepare_partitions for each. */
module LunList {
  import opened Options
  import opened Bytes
  import opened BootChain
  import opened Gpt
  import opened GptImage
  import opened GptEngine
  import opened GptTheorems
  import opened GptDevice

  const MAX_LUNS := 26
  /** Length of "/dev/block/sda". */
  const PATH_TRUNCATE_LOC := 14

  /** What stat and readlink answered for the by-name link of a backup partition. */
  datatype Resolution = NoLink | Unreadable | Link(target: string)

  /** The device path a name contributes: its link target cut to the LUN, if the target is
      longer than that and the LUN can be accessed. */
  function LunOf(resolve: string -> Resolution, accessible: string -> bool, name: string): (p: Option<string>)
    ensures p.Some? ==> |p.value| == PATH_TRUNCATE_LOC
  {
    if PTN_XBL <= name then None else
      match resolve(name)
      case NoLink => None
      case Unreadable => None
      case Link(target) =>
        if |target| < PATH_TRUNCATE_LOC + 1 || !accessible(target[..PATH_TRUNCATE_LOC]) then None
        else Some(target[..PATH_TRUNCATE_LOC])
  }

  function WithLun(ps: seq<string>, p: Option<string>): seq<string> {
    match p
    case None => ps
    case Some(path) => ps + [path]
  }

  /** All contributions in the order of the names. */
  function Luns(resolve: string -> Resolution, accessible: string -> bool, names: seq<string>): (ps: seq<string>)
    ensures |ps| <= |names|
    ensures forall i :: 0 <= i < |ps| ==> |ps[i]| == PATH_TRUNCATE_LOC
  {
    if names == [] then [] else
      var n := |names| - 1;
      WithLun(Luns(resolve, accessible, names[..n]), LunOf(resolve, accessible, names[n]))
  }

  /** Listed name number k leads to the path: it does not begin with xbl, the link of its backup
      has a target of at least 15 characters whose first 14 are the path, and the path can be
      accessed. */
  predicate LeadsTo(resolve: string -> Resolution, accessible: string -> bool, k: nat, path: string)
    requires k < |PTN_SWAP_LIST|
  {
    && !("xbl" <= PTN_SWAP_LIST[k])
    && resolve(PTN_SWAP_LIST[k]).Link?
    && |resolve(PTN_SWAP_LIST[k]).target| >= 15 && resolve(PTN_SWAP_LIST[k]).target[..14] == path
    && accessible(path)
  }

  /** The contributions are what the names lead to, in their order. */
  lemma {:induction false} LunsAre(resolve: string -> Resolution, accessible: string -> bool, n: nat)
    requires n <= |PTN_SWAP_LIST|
    ensures forall p :: p in Luns(resolve, accessible, PTN_SWAP_LIST[..n]) <==>
                        exists k :: 0 <= k < n && LeadsTo(resolve, accessible, k, p)
  {
    hide Luns, LunOf, LeadsTo;
    if n == 0 {
      NoLuns(resolve, accessible);
    } else {
      LunsAre(resolve, accessible, n - 1);
      LunsStep(resolve, accessible, PTN_SWAP_LIST, n - 1);
      LunOfIs(resolve, accessible, n - 1);
      var was, l := Luns(resolve, accessible, PTN_SWAP_LIST[..n - 1]), LunOf(resolve, accessible, PTN_SWAP_LIST[n - 1]);
      forall p
        ensures p in WithLun(was, l) <==> exists k :: 0 <= k < n && LeadsTo(resolve, accessible, k, p)
      {
        assert p in WithLun(was, l) <==> p in was || LeadsTo(resolve, accessible, n - 1, p);
      }
    }
  }

  lemma NoLuns(resolve: string -> Resolution, accessible: string -> bool)
    ensures Luns(resolve, accessible, PTN_SWAP_LIST[..0]) == []
  {
  }

  lemma LunOfIs(resolve: string -> Resolution, accessible: string -> bool, k: nat)
    requires k < |PTN_SWAP_LIST|
    ensures forall p :: LunOf(resolve, accessible, PTN_SWAP_LIST[k]) == Some(p) <==> LeadsTo(resolve, accessible, k, p)
  {
  }

  /** Listed before: some name leads to the one path before any leads to the other. */
  predicate MetBefore(resolve: string -> Resolution, accessible: string -> bool, p: string, q: string) {
    exists k :: 0 <= k < |PTN_SWAP_LIST| && LeadsTo(resolve, accessible, k, p)
                && forall l :: 0 <= l <= k ==> !LeadsTo(resolve, accessible, l, q)
  }

  /** A sequence with every later repetition left out. */
  function Distinct(ps: seq<string>): (r: seq<string>)
    ensures |r| <= |ps|
    ensures forall i :: 0 <= i < |r| ==> r[i] in ps
  {
    if ps == [] then [] else
      var n := |ps| - 1;
      var rest := Distinct(ps[..n]);
      if ps[n] in rest then rest else rest + [ps[n]]
  }

  /** Where a path occurs first. */
  function FirstAt(ps: seq<string>, p: string): (k: nat)
    requires p in ps
    ensures k < |ps| && ps[k] == p && p !in ps[..k]
  {
    if ps[0] == p then 0 else
      assert p in ps[1..];
      assert ps[..1 + FirstAt(ps[1..], p)] == [ps[0]] + ps[1..][..FirstAt(ps[1..], p)];
      1 + FirstAt(ps[1..], p)
  }

  lemma {:induction false} FirstAtUnique(ps: seq<string>, p: string, k: nat)
    requires k < |ps| && ps[k] == p && p !in ps[..k]
    ensures FirstAt(ps, p) == k
  {
    if k > 0 {
      assert ps[0] in ps[..k];
      assert p !in ps[1..][..k - 1] by { assert ps[1..][..k - 1] == ps[..k][1..]; }
      FirstAtUnique(ps[1..], p, k - 1);
    }
  }

  lemma FirstAtPrefix(ps: seq<string>, n: nat, p: string)
    requires n <= |ps| && p in ps[..n]
    ensures p in ps && FirstAt(ps, p) == FirstAt(ps[..n], p) < n
  {
    var l := FirstAt(ps[..n], p);
    assert ps[..n][..l] == ps[..l];
    FirstAtUnique(ps, p, l);
  }

  /** Each path once, all of them, in the order of their first occurrences. */
  lemma {:induction false} DistinctIs(ps: seq<string>)
    ensures forall p :: p in Distinct(ps) <==> p in ps
    ensures forall i, j :: 0 <= i < j < |Distinct(ps)| ==> FirstAt(ps, Distinct(ps)[i]) < FirstAt(ps, Distinct(ps)[j])
  {
    if ps != [] {
      var n := |ps| - 1;
      var r, rest := Distinct(ps), Distinct(ps[..n]);
      DistinctIs(ps[..n]);
      assert ps == ps[..n] + [ps[n]];
      forall i, j | 0 <= i < j < |r| ensures FirstAt(ps, r[i]) < FirstAt(ps, r[j]) {
        FirstAtPrefix(ps, n, r[i]);
        if j < |rest| {
          FirstAtPrefix(ps, n, r[j]);
        }
      }
    }
  }

  /** The list after add_lun_to_update_list accepted "path": up to 24 entries it stays as it is
      when some entry is a prefix of the path. */
  function Added(list: seq<string>, path: string): seq<string> {
    if |list| < MAX_LUNS - 1 && (exists i :: 0 <= i < |list| && list[i] <= path) then list else list + [path]
  }

  /** Among paths of one length the comparison is equality, and a repetition is left out exactly
      while the list holds fewer than 25 entries. */
  lemma AddedIsSet(list: seq<string>, path: string)
    requires forall i :: 0 <= i < |list| ==> |list[i]| == |path|
    ensures Added(list, path) == list <==> path in list && |list| < MAX_LUNS - 1
    ensures path !in list ==> Added(list, path) == list + [path]
  {
    assert path <= path;
    if path in list {
      var i :| 0 <= i < |list| && list[i] == path;
      assert list[i] <= path;
      assert exists k :: 0 <= k < |list| && list[k] <= path;
    }
    if i :| 0 <= i < |list| && list[i] <= path {
      assert list[i] == path by { assert path == path[..|path|]; }
    }
    assert |list + [path]| != |list|;
  }

  /** On any list: a path stays out exactly if the list has at most 24 entries and the first
      characters of the path, as many as some entry has, are that entry. */
  lemma AddedExactly(list: seq<string>, path: string)
    ensures Added(list, path) == list <==>
            |list| <= 24 && exists i :: 0 <= i < |list| && IsStart(list[i], path)
    ensures Added(list, path) == list || Added(list, path) == list + [path]
  {
    assert |list + [path]| != |list|;
    if i :| 0 <= i < |list| && IsStart(list[i], path) {
      StartIs(list[i], path);
      assert list[i] <= path;
    }
    if i :| 0 <= i < |list| && list[i] <= path {
      StartIs(list[i], path);
      assert IsStart(list[i], path);
    }
  }

  predicate IsStart(e: string, path: string) {
    |e| <= |path| && forall c :: 0 <= c < |e| ==> e[c] == path[c]
  }

  lemma StartIs(e: string, path: string)
    ensures IsStart(e, path) <==> e <= path
  {
    if IsStart(e, path) {
      assert path[..|e|] == e;
    }
  }

  lemma LunsStep(resolve: string -> Resolution, accessible: string -> bool, names: seq<string>, i: nat)
    requires i < |names|
    ensures Luns(resolve, accessible, names[..i + 1]) ==
            WithLun(Luns(resolve, accessible, names[..i]), LunOf(resolve, accessible, names[i]))
  {
    assert names[..i + 1][..i] == names[..i];
  }

  /** One accepted path: with at most 24 contributions so far, the guard of the loop decides nothing. */
  lemma DistinctStep(ps: seq<string>, p: string)
    requires |ps| < MAX_LUNS - 1 && forall i :: 0 <= i < |ps| ==> |ps[i]| == |p|
    ensures Distinct(ps + [p]) == Added(Distinct(ps), p)
  {
    assert (ps + [p])[..|ps|] == ps;
    AddedIsSet(Distinct(ps), p);
  }

  /** The names other than xbl are 22. */
  lemma {:induction false} LunsAtMost(resolve: string -> Resolution, accessible: string -> bool, i: nat)
    requires i <= |PTN_SWAP_LIST|
    ensures |Luns(resolve, accessible, PTN_SWAP_LIST[..i])| <= if i == 0 then 0 else i - 1
  {
    if i > 0 {
      LunsStep(resolve, accessible, PTN_SWAP_LIST, i - 1);
      LunsAtMost(resolve, accessible, i - 1);
      if i == 1 {
        assert PTN_SWAP_LIST[0] == PTN_XBL;
      }
    }
  }

  /** struct update_data. */
  class UpdateData {
    const lunList: array<string>
    var numValidEntries: nat

    constructor ()
      ensures Valid() && List() == [] && fresh(lunList)
    {
      lunList := new string[MAX_LUNS](_ => "");
      numValidEntries := 0;
    }

    ghost predicate Valid()
      reads this
    {
      lunList.Length == MAX_LUNS && numValidEntries <= MAX_LUNS
    }

    ghost function List(): (s: seq<string>)
      requires Valid()
      reads this, lunList
    {
      lunList[..numValidEntries]
    }

    /** add_lun_to_update_list; "accessible" is what stat says of the path. */
    method AddLun(lunPath: string, accessible: bool) returns (r: int)
      requires Valid() && numValidEntries < MAX_LUNS
      modifies this`numValidEntries, lunList
      ensures Valid() && r == if accessible then 0 else -1
      ensures List() == if accessible then Added(old(List()), lunPath) else old(List())
    {
      if !accessible {
        return -1;
      }
      if numValidEntries == 0 {
        lunList[0] := lunPath;
        numValidEntries := 1;
        return 0;
      }
      var i := 0;
      while i < numValidEntries && numValidEntries < MAX_LUNS - 1
        invariant i <= numValidEntries
        invariant numValidEntries < MAX_LUNS - 1 ==> forall k :: 0 <= k < i ==> !(List()[k] <= lunPath)
      {
        if lunList[i] <= lunPath {
          assert List()[i] <= lunPath;
          return 0;
        }
        i := i + 1;
      }
      lunList[numValidEntries] := lunPath;
      numValidEntries := numValidEntries + 1;
      assert List() == old(List()) + [lunPath];
      r := 0;
    }

    /** One turn of the collecting loop: what the name contributes is added. */
    method CollectName(resolve: string -> Resolution, accessible: string -> bool, name: string, ghost ps: seq<string>)
      requires Valid() && List() == Distinct(ps) && |ps| < MAX_LUNS - 1
      requires forall i :: 0 <= i < |ps| ==> |ps[i]| == PATH_TRUNCATE_LOC
      modifies this`numValidEntries, lunList
      ensures Valid() && List() == Distinct(WithLun(ps, LunOf(resolve, accessible, name)))
    {
      hide Distinct, Added;
      if PTN_XBL <= name {
        return;
      }
      var link := resolve(name);
      if link.NoLink? || link.Unreadable? || |link.target| < PATH_TRUNCATE_LOC + 1 {
        return;
      }
      var realPath := link.target[..PATH_TRUNCATE_LOC];
      DistinctStep(ps, realPath);
      assert numValidEntries == |List()|;
      var _ := AddLun(realPath, accessible(realPath));
    }

    /** The collecting loop of prepare_boot_update: every LUN that some listed backup partition
        resolves to, once, in the order they were met, and at most 22 of them. */
    method Collect(resolve: string -> Resolution, accessible: string -> bool)
      requires Valid() && List() == []
      modifies this`numValidEntries, lunList
      ensures Valid() && List() == Distinct(Luns(resolve, accessible, PTN_SWAP_LIST))
      ensures numValidEntries <= |PTN_SWAP_LIST| - 1
      ensures forall p :: p in List() <==>
                          exists k :: 0 <= k < |PTN_SWAP_LIST| && LeadsTo(resolve, accessible, k, p)
      ensures forall i, j :: 0 <= i < j < |List()| ==>
                List()[i] != List()[j] && MetBefore(resolve, accessible, List()[i], List()[j])
    {
      hide Distinct, LunOf, Luns;
      NothingCollected(resolve, accessible);
      var names := PTN_SWAP_LIST;
      for i := 0 to |names|
        invariant Valid()
        invariant List() == Distinct(Luns(resolve, accessible, names[..i]))
      {
        LunsStep(resolve, accessible, names, i);
        LunsAtMost(resolve, accessible, i);
        CollectName(resolve, accessible, names[i], Luns(resolve, accessible, names[..i]));
      }
      assert names[..|names|] == names;
      LunsAtMost(resolve, accessible, |names|);
      assert numValidEntries == |List()|;
      CollectedAre(resolve, accessible);
    }
  }

  /** The collected paths, told from the links: which they are, and in what order. */
  lemma CollectedAre(resolve: string -> Resolution, accessible: string -> bool)
    ensures var list := Distinct(Luns(resolve, accessible, PTN_SWAP_LIST));
            && (forall p :: p in list <==> exists k :: 0 <= k < |PTN_SWAP_LIST| && LeadsTo(resolve, accessible, k, p))
            && (forall i, j :: 0 <= i < j < |list| ==>
                  list[i] != list[j] && MetBefore(resolve, accessible, list[i], list[j]))
  {
    hide Distinct, Luns, LeadsTo;
    var ps := Luns(resolve, accessible, PTN_SWAP_LIST);
    var list := Distinct(ps);
    assert PTN_SWAP_LIST[..|PTN_SWAP_LIST|] == PTN_SWAP_LIST;
    DistinctIs(ps);
    LunsAre(resolve, accessible, |PTN_SWAP_LIST|);
    forall i, j | 0 <= i < j < |list| ensures list[i] != list[j] && MetBefore(resolve, accessible, list[i], list[j]) {
      FirstMet(resolve, accessible, |PTN_SWAP_LIST|, list[i], list[j]);
    }
  }

  /** Of two contributed paths the one that occurs first is met first. */
  lemma {:induction false} FirstMet(resolve: string -> Resolution, accessible: string -> bool, n: nat,
                                    p: string, q: string)
    requires n <= |PTN_SWAP_LIST|
    requires var ps := Luns(resolve, accessible, PTN_SWAP_LIST[..n]);
             p in ps && (q in ps ==> FirstAt(ps, p) < FirstAt(ps, q))
    ensures exists k :: 0 <= k < n && LeadsTo(resolve, accessible, k, p)
                        && forall l :: 0 <= l <= k ==> !LeadsTo(resolve, accessible, l, q)
  {
    hide Luns, LeadsTo, LunOf;
    if n == 0 {
      NoLuns(resolve, accessible);
    } else {
      var was := Luns(resolve, accessible, PTN_SWAP_LIST[..n - 1]);
      var l := LunOf(resolve, accessible, PTN_SWAP_LIST[n - 1]);
      LunsStep(resolve, accessible, PTN_SWAP_LIST, n - 1);
      LunOfIs(resolve, accessible, n - 1);
      LunsAre(resolve, accessible, n - 1);
      if p in was {
        FirstKept(was, l, p);
        if q in was {
          FirstKept(was, l, q);
        }
        FirstMet(resolve, accessible, n - 1, p, q);
      } else {
        NewLast(was, l, p, q);
        assert LeadsTo(resolve, accessible, n - 1, p);
        forall m | 0 <= m <= n - 1 ensures !LeadsTo(resolve, accessible, m, q) {
          assert m < n - 1 ==> (LeadsTo(resolve, accessible, m, q) ==> q in was);
        }
      }
    }
  }

  lemma FirstKept(was: seq<string>, l: Option<string>, p: string)
    requires p in was
    ensures p in WithLun(was, l) && FirstAt(WithLun(was, l), p) == FirstAt(was, p)
  {
    assert WithLun(was, l)[..|was|] == was;
    FirstAtPrefix(WithLun(was, l), |was|, p);
  }

  /** A path that is new at the end comes before another only if that is not there at all. */
  lemma NewLast(was: seq<string>, l: Option<string>, p: string, q: string)
    requires p !in was && p in WithLun(was, l)
    requires q in WithLun(was, l) ==> FirstAt(WithLun(was, l), p) < FirstAt(WithLun(was, l), q)
    ensures l == Some(p) && q !in was && q != p
  {
    var ps := WithLun(was, l);
    assert ps == was + [p] && ps[..|was|] == was;
    EarlierIn(ps, |was|, q);
    FirstAtUnique(ps, p, |was|);
  }

  lemma EarlierIn(ps: seq<string>, n: nat, q: string)
    requires n <= |ps|
    ensures q in ps[..n] ==> q in ps && FirstAt(ps, q) < n
  {
    if q in ps[..n] {
      FirstAtPrefix(ps, n, q);
    }
  }

  lemma NothingCollected(resolve: string -> Resolution, accessible: string -> bool)
    ensures forall names: seq<string> :: Distinct(Luns(resolve, accessible, names[..0])) == []
  {
  }

  /** The second loop of prepare_boot_update over the disks of the listed LUNs: every one is
      given the stage, failures included, and the result is 0 only if all returned 0. */
  method PrepareLuns(stage: int, luns: seq<BlockDevice>, openOk: seq<bool>, xbl: seq<Xbl>)
      returns (r: int, ghost rcodes: seq<int>)
    requires |openOk| == |xbl| == |luns|
    requires forall i, j :: 0 <= i < j < |luns| ==> luns[i].bytes != luns[j].bytes
    requires forall i :: 0 <= i < |luns| ==> WellFormed(luns[i].dev, luns[i].Contents())
    modifies set i | 0 <= i < |luns| :: luns[i].bytes
    ensures |rcodes| == |luns|
    ensures forall i :: 0 <= i < |luns| ==>
              Prepared(luns[i], old(luns[i].Contents()), openOk[i], xbl[i], stage, rcodes[i], luns[i].Contents())
    ensures r == 0 || r == -1
    ensures r == 0 <==> AllZero(rcodes)
  {
    hide Prepare, WellFormed, Crash, Run;
    var isError := false;
    rcodes := [];
    for i := 0 to |luns|
      invariant |rcodes| == i
      invariant isError <==> !AllZero(rcodes)
      invariant forall k :: i <= k < |luns| ==> luns[k].Contents() == old(luns[k].Contents())
      invariant forall k :: 0 <= k < i ==>
                  Prepared(luns[k], old(luns[k].Contents()), openOk[k], xbl[k], stage, rcodes[k], luns[k].Contents())
    {
      var rcode := luns[i].PreparePartitions(stage, openOk[i], xbl[i]);
      assert AllZero(rcodes + [rcode]) <==> AllZero(rcodes) && rcode == 0 by { AllZeroStep(rcodes, rcode); }
      rcodes := rcodes + [rcode];
      if rcode != 0 {
        isError := true;
      }
    }
    r := if isError then -1 else 0;
  }

  ghost predicate AllZero(s: seq<int>) {
    forall i :: 0 <= i < |s| ==> s[i] == 0
  }

  lemma AllZeroStep(s: seq<int>, x: int)
    ensures AllZero(s + [x]) <==> AllZero(s) && x == 0
  {
    assert (s + [x])[|s|] == x;
    if AllZero(s + [x]) {
      forall i | 0 <= i < |s| ensures s[i] == 0 {
        assert (s + [x])[i] == s[i];
      }
    }
  }

  /** What one call of prepare_partitions can leave, with its return code: exactly the plan on a
      device that can be opened and does not fail. */
  ghost predicate Prepared(bd: BlockDevice, d: seq<Byte>, openOk: bool, xbl: Xbl, stage: int, r: int, d': seq<Byte>)
  {
    && WellFormed(bd.dev, d)
    && (Outcome(d, Prepare(bd.dev, d, xbl, stage), r, d') || (r == 1 && d' == d))
    && (bd.reliable && openOk ==> Done(d, Prepare(bd.dev, d, xbl, stage), r, d'))
    && (!openOk ==> r == -1 && d' == d)
  }

  /** On every listed device the stage is accepted and succeeds, if no transfer fails. */
  ghost predicate AllSucceed(devices: map<string, BlockDevice>, paths: seq<string>, xbl: string -> Xbl, stage: int,
                             disks: map<string, seq<Byte>>) {
    forall p :: p in paths ==>
      && p in devices && p in disks && WellFormed(devices[p].dev, disks[p])
      && Prepare(devices[p].dev, disks[p], xbl(p), stage).r == 0
  }

  /** Every listed device can be opened and does not fail. */
  predicate AllSure(devices: map<string, BlockDevice>, paths: seq<string>, openOk: string -> bool) {
    forall p :: p in paths ==> p in devices && devices[p].reliable && openOk(p)
  }

  /** The devices behind the LUN paths: every path met has one, two paths never share one. */
  ghost predicate Devices(devices: map<string, BlockDevice>, paths: seq<string>)
    reads set p | p in devices :: devices[p].bytes
  {
    && (forall i :: 0 <= i < |paths| ==> paths[i] in devices)
    && (forall p, q :: p in devices && q in devices && p != q ==> devices[p].bytes != devices[q].bytes)
    && (forall p :: p in devices ==> WellFormed(devices[p].dev, devices[p].Contents()))
  }

  /** What is on the devices. */
  ghost function Disks(devices: map<string, BlockDevice>): map<string, seq<Byte>>
    reads set p | p in devices :: devices[p].bytes
  {
    map p | p in devices :: devices[p].Contents()
  }

  /** Every listed device was given the stage once, with its return code; the others stayed. */
  ghost predicate AllPrepared(devices: map<string, BlockDevice>, list: seq<string>, openOk: string -> bool,
                              xbl: string -> Xbl, stage: int, rcodes: seq<int>,
                              before: map<string, seq<Byte>>, after: map<string, seq<Byte>>) {
    && |rcodes| == |list| && before.Keys == after.Keys == devices.Keys
    && (forall i :: 0 <= i < |list| ==>
          var p := list[i];
          p in devices && Prepared(devices[p], before[p], openOk(p), xbl(p), stage, rcodes[i], after[p]))
    && (forall p :: p in devices && p !in list ==> after[p] == before[p])
  }

  /** Every path of a sequence occurs once in its distinct form. */
  lemma OncePerPath(ps: seq<string>)
    ensures forall i, j :: 0 <= i < j < |Distinct(ps)| ==> Distinct(ps)[i] != Distinct(ps)[j]
    ensures forall i :: 0 <= i < |ps| ==> ps[i] in Distinct(ps)
  {
    hide Distinct;
    DistinctIs(ps);
    forall i | 0 <= i < |ps| ensures ps[i] in Distinct(ps) {
      assert ps[i] in ps;
    }
  }

  /** prepare_boot_update on a UFS device: every LUN that a listed backup partition resolves to is
      given the stage exactly once, in the order they were met, a failure not keeping the others
      from it; no other LUN is touched; the result is 0 only if every call returned 0. */
  method PrepareUfs(stage: int, resolve: string -> Resolution, accessible: string -> bool,
                    devices: map<string, BlockDevice>, openOk: string -> bool, xbl: string -> Xbl)
      returns (r: int, ghost list: seq<string>, ghost rcodes: seq<int>)
    requires Devices(devices, Luns(resolve, accessible, PTN_SWAP_LIST))
    modifies set p | p in devices :: devices[p].bytes
    ensures list == Distinct(Luns(resolve, accessible, PTN_SWAP_LIST))
    ensures |rcodes| == |list| <= |PTN_SWAP_LIST| - 1
    ensures forall i, j :: 0 <= i < j < |list| ==> list[i] != list[j]
    ensures AllPrepared(devices, list, openOk, xbl, stage, rcodes, old(Disks(devices)), Disks(devices))
    ensures r == (if AllZero(rcodes) then 0 else -1)
    ensures AllSure(devices, list, openOk) ==>
              (r == 0 <==>
                 AllSucceed(devices, Luns(resolve, accessible, PTN_SWAP_LIST), xbl, stage, old(Disks(devices))))
  {
    hide Distinct, Luns, WellFormed, Prepared, AllZero, Prepare, AllPrepared, AllSucceed, AllSure;
    ghost var ps := Luns(resolve, accessible, PTN_SWAP_LIST);
    var paths := CollectedLuns(resolve, accessible);
    list := paths;
    DistinctIs(ps);
    ListedDevices(devices, ps, paths);
    r, rcodes := PrepareListed(stage, paths, devices, openOk, xbl);
    SameSucceed(devices, ps, list, xbl, stage, old(Disks(devices)));
  }

  /** The same devices are listed with and without repetition. */
  lemma ListedDevices(devices: map<string, BlockDevice>, ps: seq<string>, list: seq<string>)
    requires Devices(devices, ps) && forall p :: p in list <==> p in ps
    ensures Devices(devices, list)
  {
    hide WellFormed;
    forall i | 0 <= i < |list| ensures list[i] in devices {
      assert list[i] in ps;
    }
  }

  lemma SameSucceed(devices: map<string, BlockDevice>, ps: seq<string>, list: seq<string>, xbl: string -> Xbl,
                    stage: int, disks: map<string, seq<Byte>>)
    requires forall p :: p in list <==> p in ps
    ensures AllSucceed(devices, list, xbl, stage, disks) <==> AllSucceed(devices, ps, xbl, stage, disks)
  {
    hide WellFormed, Prepare;
  }

  /** The second loop over the devices of a list of paths. */
  method PrepareListed(stage: int, paths: seq<string>, devices: map<string, BlockDevice>, openOk: string -> bool,
                       xbl: string -> Xbl)
      returns (r: int, ghost rcodes: seq<int>)
    requires Devices(devices, paths) && forall i, j :: 0 <= i < j < |paths| ==> paths[i] != paths[j]
    modifies set p | p in devices :: devices[p].bytes
    ensures |rcodes| == |paths|
    ensures AllPrepared(devices, paths, openOk, xbl, stage, rcodes, old(Disks(devices)), Disks(devices))
    ensures r == (if AllZero(rcodes) then 0 else -1)
    ensures AllSure(devices, paths, openOk) ==>
              (r == 0 <==> AllSucceed(devices, paths, xbl, stage, old(Disks(devices))))
  {
    hide WellFormed, Prepared, AllZero, Prepare, AllPrepared, AllSucceed, AllSure;
    ghost var before := Disks(devices);
    var luns := seq(|paths|, i requires 0 <= i < |paths| => devices[paths[i]]);
    r, rcodes := PrepareLuns(stage, luns, seq(|paths|, i requires 0 <= i < |paths| => openOk(paths[i])),
                             seq(|paths|, i requires 0 <= i < |paths| => xbl(paths[i])));
    ghost var after := Disks(devices);
    forall i | 0 <= i < |paths|
      ensures Prepared(luns[i], before[paths[i]], openOk(paths[i]), xbl(paths[i]), stage, rcodes[i], after[paths[i]])
    {
      assert luns[i] == devices[paths[i]];
    }
    ByPath(devices, paths, luns, openOk, xbl, stage, rcodes, before, after);
  }

  /** The calls told by the paths; on listed devices that can be opened and do not fail, the return
      codes are those of the plans. */
  lemma ByPath(devices: map<string, BlockDevice>, list: seq<string>, luns: seq<BlockDevice>, openOk: string -> bool,
               xbl: string -> Xbl, stage: int, rcodes: seq<int>,
               before: map<string, seq<Byte>>, after: map<string, seq<Byte>>)
    requires |rcodes| == |list| == |luns| && before.Keys == after.Keys == devices.Keys
    requires forall i :: 0 <= i < |list| ==> list[i] in devices && luns[i] == devices[list[i]]
    requires forall i :: 0 <= i < |list| ==>
               Prepared(luns[i], before[list[i]], openOk(list[i]), xbl(list[i]), stage, rcodes[i], after[list[i]])
    requires forall p :: p in devices && p !in list ==> after[p] == before[p]
    ensures AllPrepared(devices, list, openOk, xbl, stage, rcodes, before, after)
    ensures AllSure(devices, list, openOk) ==> (AllZero(rcodes) <==> AllSucceed(devices, list, xbl, stage, before))
  {
    hide WellFormed, Prepared, AllZero, Prepare;
    if AllSure(devices, list, openOk) {
      forall i | 0 <= i < |list|
        ensures var p := list[i];
                && WellFormed(devices[p].dev, before[p])
                && rcodes[i] == Prepare(devices[p].dev, before[p], xbl(p), stage).r
      {
        var p := list[i];
        assert p in list;
        SureResult(devices[p], before[p], openOk(p), xbl(p), stage, rcodes[i], after[p]);
      }
      ZeroMeans(list, rcodes, map p | p in list :: Prepare(devices[p].dev, before[p], xbl(p), stage).r);
    }
  }

  lemma SureResult(bd: BlockDevice, d: seq<Byte>, openOk: bool, x: Xbl, stage: int, r: int, d': seq<Byte>)
    requires Prepared(bd, d, openOk, x, stage, r, d') && bd.reliable && openOk
    ensures WellFormed(bd.dev, d) && Returns(bd.dev, d, CallArgs(stage, x), Prepare(bd.dev, d, x, stage).r, d')
    ensures r == Prepare(bd.dev, d, x, stage).r
  {
    hide WellFormed, Prepare, Run, Crash;
  }

  lemma ZeroMeans(list: seq<string>, rcodes: seq<int>, results: map<string, int>)
    requires |rcodes| == |list| && forall i :: 0 <= i < |list| ==> list[i] in results && rcodes[i] == results[list[i]]
    ensures AllZero(rcodes) <==> forall p :: p in list ==> results[p] == 0
  {
    if forall p :: p in list ==> results[p] == 0 {
      forall i | 0 <= i < |rcodes| ensures rcodes[i] == 0 {
        assert list[i] in list;
      }
    }
  }

  /** The list the collecting loop leaves. */
  method CollectedLuns(resolve: string -> Resolution, accessible: string -> bool) returns (paths: seq<string>)
    ensures paths == Distinct(Luns(resolve, accessible, PTN_SWAP_LIST)) && |paths| <= |PTN_SWAP_LIST| - 1
    ensures forall i, j :: 0 <= i < j < |paths| ==> paths[i] != paths[j]
  {
    hide Distinct, Luns;
    var data := new UpdateData();
    data.Collect(resolve, accessible);
    OncePerPath(Luns(resolve, accessible, PTN_SWAP_LIST));
    paths := data.lunList[..data.numValidEntries];
  }

  /** prepare_boot_update; a device that is not UFS has the one disk. */
  method PrepareBootUpdate(stage: int, isUfs: bool, mmc: BlockDevice, mmcOpenOk: bool, mmcXbl: Xbl,
                           resolve: string -> Resolution, accessible: string -> bool,
                           devices: map<string, BlockDevice>, openOk: string -> bool, xbl: string -> Xbl)
      returns (r: int)
    requires !isUfs ==> WellFormed(mmc.dev, mmc.Contents())
    requires isUfs ==> Devices(devices, Luns(resolve, accessible, PTN_SWAP_LIST))
    requires forall p :: p in devices ==> devices[p].bytes != mmc.bytes
    modifies mmc.bytes, set p | p in devices :: devices[p].bytes
    ensures !isUfs ==> Prepared(mmc, old(mmc.Contents()), mmcOpenOk, mmcXbl, stage, r, mmc.Contents())
    ensures !isUfs ==> forall p :: p in devices ==> devices[p].Contents() == old(devices[p].Contents())
    ensures isUfs ==> mmc.Contents() == old(mmc.Contents()) && (r == 0 || r == -1)
    ensures isUfs ==>
              forall p :: p in devices ==>
                if p in Luns(resolve, accessible, PTN_SWAP_LIST)
                then exists rc ::
                  && Prepared(devices[p], old(devices[p].Contents()), openOk(p), xbl(p), stage, rc,
                              devices[p].Contents())
                  && (r == 0 ==> rc == 0)
                else devices[p].Contents() == old(devices[p].Contents())
    ensures isUfs && AllSure(devices, Luns(resolve, accessible, PTN_SWAP_LIST), openOk) ==>
              (r == 0 <==>
                 AllSucceed(devices, Luns(resolve, accessible, PTN_SWAP_LIST), xbl, stage, old(Disks(devices))))
  {
    hide Distinct, Luns, WellFormed, Outcome, Prepare;
    if !isUfs {
      r := mmc.PreparePartitions(stage, mmcOpenOk, mmcXbl);
      return;
    }
    ghost var list, rcodes;
    r, list, rcodes := PrepareUfs(stage, resolve, accessible, devices, openOk, xbl);
    DistinctIs(Luns(resolve, accessible, PTN_SWAP_LIST));
    forall p | p in devices && p in Luns(resolve, accessible, PTN_SWAP_LIST)
      ensures exists rc ::
                && Prepared(devices[p], old(devices[p].Contents()), openOk(p), xbl(p), stage, rc,
                            devices[p].Contents())
                && (r == 0 ==> rc == 0)
    {
      assert p in list;
      var i :| 0 <= i < |list| && list[i] == p;
      assert Prepared(devices[p], old(devices[p].Contents()), openOk(p), xbl(p), stage, rcodes[i],
                      devices[p].Contents());
    }
  }

  // ---------- Finishing an update over several LUNs ----------

  /** A LUN somewhere in an update that started from disk d0, possibly after crashes and failures. */
  ghost predicate UnderWay(dev: Device, d0: seq<Byte>, d: seq<Byte>) {
    WellFormed(dev, d0) && Ready(dev, d0) && Reached(dev, d0, d)
  }

  /** BACKUP, then FINALIZE, for one LUN, both complete: at stage MAIN both calls are refused and the
      disk is one on which the cycle may start; otherwise both return 0 and both copies hold the
      old entries. */
  lemma FinishOne(dev: Device, d0: seq<Byte>, d: seq<Byte>, x: Xbl, y: Xbl, r: int, m: seq<Byte>, q: int, e: seq<Byte>)
    requires UnderWay(dev, d0, d) && XblFine(dev, x)
    requires Returns(dev, d, CallArgs(UPDATE_BACKUP, x), r, m) && Returns(dev, m, CallArgs(UPDATE_FINALIZE, y), q, e)
    ensures if AtStage(dev, d, UPDATE_MAIN)
            then r == q == -1 && e == m == d && Ready(dev, d) && P(dev, d) == P(dev, d0)
            else r == q == 0 && BothHold(dev, e, P(dev, d0))
  {
    hide Reached, Ready, Returns, AtStage, BothHold, P, WellFormed, XblFine;
    var m0, e0 := Completes(dev, d0, d, x, y);
    if AtStage(dev, d, UPDATE_MAIN) {
      Refused(dev, d0, d, UPDATE_MAIN, UPDATE_BACKUP, x);
      SameReturn(dev, d, CallArgs(UPDATE_BACKUP, x), r, m, -1, d);
      Refused(dev, d0, d, UPDATE_MAIN, UPDATE_FINALIZE, y);
      SameReturn(dev, d, CallArgs(UPDATE_FINALIZE, y), q, e, -1, d);
    } else {
      if AtStage(dev, d, UPDATE_BACKUP) {
        OneStage(dev, d, UPDATE_BACKUP, UPDATE_FINALIZE);
      } else {
        Refused(dev, d0, d, UPDATE_FINALIZE, UPDATE_BACKUP, x);
      }
      SameReturn(dev, d, CallArgs(UPDATE_BACKUP, x), r, m, 0, m0);
      SameReturn(dev, m, CallArgs(UPDATE_FINALIZE, y), q, e, 0, e0);
    }
  }

  /** A complete call has one result. */
  lemma SameReturn(dev: Device, d: seq<Byte>, call: CallArgs, r: int, e: seq<Byte>, r': int, e': seq<Byte>)
    requires Returns(dev, d, call, r, e) && Returns(dev, d, call, r', e')
    ensures r == r' && e == e'
  {
    hide Prepare, WellFormed, Run;
  }

  lemma OneStage(dev: Device, d: seq<Byte>, a: int, b: int)
    requires AtStage(dev, d, a) && a != b
    ensures !AtStage(dev, d, b)
  {
    hide InternalStage, WellFormed;
  }

  /** A stage that is not the one the disk stands at: 0 if it is the one before, else -1. */
  lemma Refused(dev: Device, d0: seq<Byte>, d: seq<Byte>, at: int, stage: int, x: Xbl)
    requires UnderWay(dev, d0, d) && AtStage(dev, d, at) && stage != at
    ensures Returns(dev, d, CallArgs(stage, x), if stage == at - 1 then 0 else -1, d)
  {
    hide Reached, Ready, Returns, P, WellFormed, InternalStage;
    var c := ReachedConfig(dev, d0, d);
    IdleCall(dev, d0, c, x, stage);
  }

  /** The same over all LUNs, whatever stages they stand at: the last call of prepare_boot_update
      returns 0 if and only if no LUN stood at MAIN. */
  lemma FinishAll(devs: seq<Device>, d0s: seq<seq<Byte>>, ds: seq<seq<Byte>>, xs: seq<Xbl>, ys: seq<Xbl>,
                  rs: seq<int>, ms: seq<seq<Byte>>, qs: seq<int>, es: seq<seq<Byte>>)
    requires |d0s| == |ds| == |xs| == |ys| == |rs| == |ms| == |qs| == |es| == |devs|
    requires forall i :: 0 <= i < |devs| ==> UnderWay(devs[i], d0s[i], ds[i]) && XblFine(devs[i], xs[i])
    requires forall i :: 0 <= i < |devs| ==> Returns(devs[i], ds[i], CallArgs(UPDATE_BACKUP, xs[i]), rs[i], ms[i])
    requires forall i :: 0 <= i < |devs| ==> Returns(devs[i], ms[i], CallArgs(UPDATE_FINALIZE, ys[i]), qs[i], es[i])
    ensures forall i :: 0 <= i < |devs| ==>
              if AtStage(devs[i], ds[i], UPDATE_MAIN)
              then es[i] == ds[i] && WellFormed(devs[i], d0s[i]) && Ready(devs[i], es[i])
                   && P(devs[i], es[i]) == P(devs[i], d0s[i])
              else WellFormed(devs[i], d0s[i]) && BothHold(devs[i], es[i], P(devs[i], d0s[i]))
    ensures AllZero(qs) <==> forall i :: 0 <= i < |devs| ==> !AtStage(devs[i], ds[i], UPDATE_MAIN)
  {
    hide Reached, Ready, Returns, AtStage, BothHold, P, WellFormed, XblFine, UnderWay;
    forall i | 0 <= i < |devs|
      ensures if AtStage(devs[i], ds[i], UPDATE_MAIN)
              then qs[i] == -1 && es[i] == ds[i] && WellFormed(devs[i], d0s[i]) && Ready(devs[i], es[i])
                   && WellFormed(devs[i], es[i]) && P(devs[i], es[i]) == P(devs[i], d0s[i])
              else qs[i] == 0 && WellFormed(devs[i], d0s[i]) && BothHold(devs[i], es[i], P(devs[i], d0s[i]))
    {
      IsUnderWay(devs[i], d0s[i], ds[i]);
      UnderWayFits(devs[i], d0s[i], ds[i]);
      FinishOne(devs[i], d0s[i], ds[i], xs[i], ys[i], rs[i], ms[i], qs[i], es[i]);
    }
  }

  lemma IsUnderWay(dev: Device, d0: seq<Byte>, d: seq<Byte>)
    requires UnderWay(dev, d0, d)
    ensures WellFormed(dev, d0) && Ready(dev, d0) && Reached(dev, d0, d)
  {
    hide WellFormed, Ready, Reached;
  }

  /** A call as the code ran it, failing transfers included, leaves the LUN under way, ... */
  lemma PreparedUnderWay(bd: BlockDevice, d0: seq<Byte>, d: seq<Byte>, open: bool, x: Xbl, stage: int, r: int,
                         d': seq<Byte>)
    requires UnderWay(bd.dev, d0, d) && Prepared(bd, d, open, x, stage, r, d')
    ensures UnderWay(bd.dev, d0, d')
  {
    hide WellFormed, Ready, Reached, Outcome, Prepare;
    var dev := bd.dev;
    OutcomeIsStep(dev, d, CallArgs(stage, x), r, d');
    StepKeepsReached(dev, d0, d, CallArgs(stage, x), d');
  }

  /** ... and a FINALIZE that returned 0 has brought both its copies to the old entries. */
  lemma FinalizedHolds(bd: BlockDevice, d0: seq<Byte>, d: seq<Byte>, open: bool, x: Xbl, d': seq<Byte>)
    requires UnderWay(bd.dev, d0, d) && Prepared(bd, d, open, x, UPDATE_FINALIZE, 0, d')
    ensures WellFormed(bd.dev, d0) && BothHold(bd.dev, d', P(bd.dev, d0))
  {
    hide Ready, Reached, AtStage, BothHold, P, WellFormed, Prepare, Run, Crash;
    var dev := bd.dev;
    assert Returns(dev, d, CallArgs(UPDATE_FINALIZE, x), 0, d');
    Finalized(dev, d0, d, x, d');
  }

  lemma Finalized(dev: Device, d0: seq<Byte>, d: seq<Byte>, x: Xbl, d': seq<Byte>)
    requires UnderWay(dev, d0, d) && Returns(dev, d, CallArgs(UPDATE_FINALIZE, x), 0, d')
    ensures WellFormed(dev, d0) && BothHold(dev, d', P(dev, d0))
  {
    hide Reached, Ready, Returns, AtStage, BothHold, P, WellFormed;
    var m, e := Completes(dev, d0, d, NoXbl, x);
    if AtStage(dev, d, UPDATE_MAIN) {
      Refused(dev, d0, d, UPDATE_MAIN, UPDATE_FINALIZE, x);
      SameReturn(dev, d, CallArgs(UPDATE_FINALIZE, x), 0, d', -1, d);
    } else if AtStage(dev, d, UPDATE_BACKUP) {
      Refused(dev, d0, d, UPDATE_BACKUP, UPDATE_FINALIZE, x);
      SameReturn(dev, d, CallArgs(UPDATE_FINALIZE, x), 0, d', -1, d);
    } else {
      SameReturn(dev, d, CallArgs(UPDATE_FINALIZE, x), 0, d', 0, e);
    }
  }

  /** Every LUN under way, from its own starting disk. */
  ghost predicate AllUnderWay(devices: map<string, BlockDevice>, starts: map<string, seq<Byte>>,
                              disks: map<string, seq<Byte>>) {
    forall p :: p in devices ==> p in starts && p in disks && UnderWay(devices[p].dev, starts[p], disks[p])
  }

  /** Both copies of every listed LUN hold the entries it started with. */
  ghost predicate AllHold(devices: map<string, BlockDevice>, paths: seq<string>, starts: map<string, seq<Byte>>,
                          disks: map<string, seq<Byte>>) {
    forall p :: p in paths ==>
      && p in devices && p in starts && p in disks && WellFormed(devices[p].dev, starts[p])
      && BothHold(devices[p].dev, disks[p], P(devices[p].dev, starts[p]))
  }

  /** prepare_boot_update(BACKUP), then prepare_boot_update(FINALIZE), as the code runs them on LUNs
      at any stages, with any transfers failing: every LUN stays under way, and when the second
      call returns 0 both copies of every listed LUN hold its old entries. */
  method FinishUfs(resolve: string -> Resolution, accessible: string -> bool, devices: map<string, BlockDevice>,
                   openOk: string -> bool, xbl: string -> Xbl, ghost starts: map<string, seq<Byte>>)
      returns (r: int, q: int)
    requires Devices(devices, Luns(resolve, accessible, PTN_SWAP_LIST)) && AllUnderWay(devices, starts, Disks(devices))
    modifies set p | p in devices :: devices[p].bytes
    ensures AllUnderWay(devices, starts, Disks(devices))
    ensures q == 0 ==> AllHold(devices, Luns(resolve, accessible, PTN_SWAP_LIST), starts, Disks(devices))
    ensures AllSure(devices, Luns(resolve, accessible, PTN_SWAP_LIST), openOk)
            && AllXblFine(devices, Luns(resolve, accessible, PTN_SWAP_LIST), xbl) ==>
              (q == 0 <==> !old(SomeAt(devices, Luns(resolve, accessible, PTN_SWAP_LIST), UPDATE_MAIN)))
  {
    hide Distinct, Luns, WellFormed, Prepared, AllZero, UnderWay, BothHold, P, Prepare, AtStage, Returns;
    ghost var paths := Luns(resolve, accessible, PTN_SWAP_LIST);
    r := PrepareAllUfs(UPDATE_BACKUP, resolve, accessible, devices, openOk, xbl, starts);
    label between:
    q := PrepareAllUfs(UPDATE_FINALIZE, resolve, accessible, devices, openOk, xbl, starts);
    if AllSure(devices, paths, openOk) && AllXblFine(devices, paths, xbl) {
      ghost var d, m, e := old(Disks(devices)), old@between(Disks(devices)), Disks(devices);
      forall p | p in paths
        ensures Prepare(devices[p].dev, old@between(devices[p].Contents()), xbl(p), UPDATE_FINALIZE).r == 0 <==>
                !AtStage(devices[p].dev, old(devices[p].Contents()), UPDATE_MAIN)
      {
        FinishSure(devices[p].dev, starts[p], d[p], xbl(p), m[p], e[p]);
      }
    }
  }

  predicate AllXblFine(devices: map<string, BlockDevice>, paths: seq<string>, xbl: string -> Xbl) {
    forall p :: p in paths && p in devices ==> XblFine(devices[p].dev, xbl(p))
  }

  /** Some listed device stands at the stage. */
  ghost predicate SomeAt(devices: map<string, BlockDevice>, paths: seq<string>, stage: int)
    reads set p | p in devices :: devices[p].bytes
  {
    exists p :: p in paths && p in devices && AtStage(devices[p].dev, devices[p].Contents(), stage)
  }

  /** BACKUP, then FINALIZE, with no failing transfer: whether the second returns 0. */
  lemma FinishSure(dev: Device, d0: seq<Byte>, d: seq<Byte>, x: Xbl, m: seq<Byte>, e: seq<Byte>)
    requires UnderWay(dev, d0, d) && XblFine(dev, x) && WellFormed(dev, d) && WellFormed(dev, m)
    requires Returns(dev, d, CallArgs(UPDATE_BACKUP, x), Prepare(dev, d, x, UPDATE_BACKUP).r, m)
    requires Returns(dev, m, CallArgs(UPDATE_FINALIZE, x), Prepare(dev, m, x, UPDATE_FINALIZE).r, e)
    ensures Prepare(dev, m, x, UPDATE_FINALIZE).r == 0 <==> !AtStage(dev, d, UPDATE_MAIN)
  {
    hide UnderWay, WellFormed, Prepare, Returns, AtStage, BothHold, Ready, P;
    FinishOne(dev, d0, d, x, x, Prepare(dev, d, x, UPDATE_BACKUP).r, m, Prepare(dev, m, x, UPDATE_FINALIZE).r, e);
  }

  /** One call over LUNs under way. */
  method PrepareAllUfs(stage: int, resolve: string -> Resolution, accessible: string -> bool,
                       devices: map<string, BlockDevice>, openOk: string -> bool, xbl: string -> Xbl,
                       ghost starts: map<string, seq<Byte>>)
      returns (r: int)
    requires Devices(devices, Luns(resolve, accessible, PTN_SWAP_LIST)) && AllUnderWay(devices, starts, Disks(devices))
    modifies set p | p in devices :: devices[p].bytes
    ensures Devices(devices, Luns(resolve, accessible, PTN_SWAP_LIST)) && AllUnderWay(devices, starts, Disks(devices))
    ensures r == 0 && stage == UPDATE_FINALIZE ==>
              AllHold(devices, Luns(resolve, accessible, PTN_SWAP_LIST), starts, Disks(devices))
    ensures var paths := Luns(resolve, accessible, PTN_SWAP_LIST);
            AllSure(devices, paths, openOk) ==>
              && (r == 0 <==> AllSucceed(devices, paths, xbl, stage, old(Disks(devices))))
              && AllReturned(devices, paths, xbl, stage, old(Disks(devices)), Disks(devices))
  {
    hide Distinct, Luns, WellFormed, Prepared, UnderWay, Prepare, AllReturned, AllSucceed, AllPrepared, AllUnderWay,
         AllHold, P;
    ghost var list, rcodes;
    r, list, rcodes := PrepareUfs(stage, resolve, accessible, devices, openOk, xbl);
    DistinctIs(Luns(resolve, accessible, PTN_SWAP_LIST));
    LunsAfter(devices, openOk, xbl, stage, starts, Luns(resolve, accessible, PTN_SWAP_LIST), list, rcodes,
              old(Disks(devices)), Disks(devices));
  }

  /** Every listed device went through a complete call. */
  ghost predicate AllReturned(devices: map<string, BlockDevice>, paths: seq<string>, xbl: string -> Xbl, stage: int,
                              before: map<string, seq<Byte>>, after: map<string, seq<Byte>>) {
    forall p :: p in paths ==>
      && p in devices && p in before && p in after && WellFormed(devices[p].dev, before[p])
      && Returns(devices[p].dev, before[p], CallArgs(stage, xbl(p)),
                 Prepare(devices[p].dev, before[p], xbl(p), stage).r, after[p])
  }

  /** What one call over LUNs under way leaves, on the listed ones and the others. */
  lemma LunsAfter(devices: map<string, BlockDevice>, openOk: string -> bool, xbl: string -> Xbl, stage: int,
                  starts: map<string, seq<Byte>>, paths: seq<string>, list: seq<string>, rcodes: seq<int>,
                  before: map<string, seq<Byte>>, after: map<string, seq<Byte>>)
    requires forall p :: p in list <==> p in paths
    requires AllPrepared(devices, list, openOk, xbl, stage, rcodes, before, after)
    requires AllUnderWay(devices, starts, before)
    ensures AllUnderWay(devices, starts, after)
    ensures forall p :: p in devices ==> p in after && WellFormed(devices[p].dev, after[p])
    ensures AllZero(rcodes) && stage == UPDATE_FINALIZE ==> AllHold(devices, paths, starts, after)
    ensures AllSure(devices, paths, openOk) ==> AllReturned(devices, paths, xbl, stage, before, after)
  {
    hide WellFormed, Prepared, UnderWay, BothHold, P, Prepare, Returns;
    forall p | p in devices && p !in list ensures WellFormed(devices[p].dev, after[p]) {
      UnderWayFits(devices[p].dev, starts[p], after[p]);
    }
    forall i | 0 <= i < |list|
      ensures var p := list[i];
              && UnderWay(devices[p].dev, starts[p], after[p]) && WellFormed(devices[p].dev, after[p])
              && (rcodes[i] == 0 && stage == UPDATE_FINALIZE ==>
                    WellFormed(devices[p].dev, starts[p])
                    && BothHold(devices[p].dev, after[p], P(devices[p].dev, starts[p])))
              && (devices[p].reliable && openOk(p) ==>
                    WellFormed(devices[p].dev, before[p])
                    && Returns(devices[p].dev, before[p], CallArgs(stage, xbl(p)),
                               Prepare(devices[p].dev, before[p], xbl(p), stage).r, after[p]))
    {
      var p := list[i];
      AfterCall(devices[p], starts[p], before[p], openOk(p), xbl(p), stage, rcodes[i], after[p]);
    }
  }

  /** What one call leaves of a LUN under way. */
  lemma AfterCall(bd: BlockDevice, d0: seq<Byte>, d: seq<Byte>, open: bool, x: Xbl, stage: int, r: int, d': seq<Byte>)
    requires UnderWay(bd.dev, d0, d) && Prepared(bd, d, open, x, stage, r, d')
    ensures UnderWay(bd.dev, d0, d') && WellFormed(bd.dev, d')
    ensures r == 0 && stage == UPDATE_FINALIZE ==> WellFormed(bd.dev, d0) && BothHold(bd.dev, d', P(bd.dev, d0))
    ensures bd.reliable && open ==>
              && WellFormed(bd.dev, d)
              && Returns(bd.dev, d, CallArgs(stage, x), Prepare(bd.dev, d, x, stage).r, d')
  {
    hide WellFormed, Prepared, UnderWay, BothHold, P, Prepare, Returns;
    PreparedUnderWay(bd, d0, d, open, x, stage, r, d');
    UnderWayFits(bd.dev, d0, d');
    if bd.reliable && open {
      SureResult(bd, d, open, x, stage, r, d');
    }
    if r == 0 && stage == UPDATE_FINALIZE {
      FinalizedHolds(bd, d0, d, open, x, d');
    }
  }

  lemma UnderWayFits(dev: Device, d0: seq<Byte>, d: seq<Byte>)
    requires UnderWay(dev, d0, d)
    ensures WellFormed(dev, d)
  {
    hide Reached, Ready, WellFormed, P, S;
    ReachedTable(dev, d0, d);
  }
}

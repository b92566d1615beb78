/** The sorted vector behind the camera parameters, and its text form. */
module ParameterMap {
  import opened Options

  /** A parameter; strings are what stands before the terminating NUL. */
  datatype Entry = Entry(key: string, value: string)

  // ---------- The vector ----------

  /** The order of strcmp. */
  predicate Less(a: string, b: string) {
    b != "" && (a == "" || a[0] < b[0] || (a[0] == b[0] && Less(a[1..], b[1..])))
  }

  /** Strictly ascending keys. */
  ghost predicate Sorted(m: seq<Entry>) {
    forall i, j :: 0 <= i < j < |m| ==> Less(m[i].key, m[j].key)
  }

  /** KeyedVector::add and replaceValueFor: at the place of the key, replacing what was there. */
  function Add(m: seq<Entry>, key: string, value: string): seq<Entry> {
    if m == [] || Less(key, m[0].key) then [Entry(key, value)] + m
    else if m[0].key == key then [Entry(key, value)] + m[1..]
    else [m[0]] + Add(m[1..], key, value)
  }

  function ValueFor(m: seq<Entry>, key: string): Option<string> {
    if m == [] then None else if m[0].key == key then Some(m[0].value) else ValueFor(m[1..], key)
  }

  function RemoveItem(m: seq<Entry>, key: string): seq<Entry> {
    if m == [] then [] else if m[0].key == key then m[1..] else [m[0]] + RemoveItem(m[1..], key)
  }

  lemma {:induction false} LessIrreflexive(a: string)
    ensures !Less(a, a)
  {
    if a != "" {
      LessIrreflexive(a[1..]);
    }
  }

  lemma {:induction false} LessTotal(a: string, b: string)
    ensures a == b || Less(a, b) || Less(b, a)
  {
    if a != "" && b != "" && a[0] == b[0] {
      LessTotal(a[1..], b[1..]);
      assert a == [a[0]] + a[1..] && b == [b[0]] + b[1..];
    }
  }

  lemma {:induction false} LessTransitive(a: string, b: string, c: string)
    requires Less(a, b) && Less(b, c)
    ensures Less(a, c)
  {
    if a != "" && a[0] == b[0] && b[0] == c[0] {
      LessTransitive(a[1..], b[1..], c[1..]);
    }
  }

  /** The order is that of strcmp: at the first difference the lower character, or the end, comes
      first. */
  lemma {:induction false} LessExactly(a: string, b: string)
    ensures Less(a, b) <==> exists k :: DifferAt(a, b, k) && k < |b| && (k == |a| || a[k] < b[k])
  {
    if b != "" && a != "" && a[0] == b[0] {
      LessExactly(a[1..], b[1..]);
      if k :| DifferAt(a[1..], b[1..], k) && k < |b[1..]| && (k == |a[1..]| || a[1..][k] < b[1..][k]) {
        assert a[..k + 1] == [a[0]] + a[1..][..k] && b[..k + 1] == [b[0]] + b[1..][..k];
        assert DifferAt(a, b, k + 1);
      }
      if k :| DifferAt(a, b, k) && k < |b| && (k == |a| || a[k] < b[k]) {
        assert k > 0 && a[1..][..k - 1] == a[..k][1..] && b[1..][..k - 1] == b[..k][1..];
        assert DifferAt(a[1..], b[1..], k - 1);
      }
    } else {
      assert DifferAt(a, b, 0) || (a == "" && b == "");
    }
  }

  /** The strings agree before position k, and not at k. */
  predicate DifferAt(a: string, b: string, k: int) {
    && 0 <= k <= |a| && k <= |b| && a[..k] == b[..k]
    && (k == |a| || k == |b| || a[k] != b[k])
  }

  ghost predicate AllAfter(key: string, m: seq<Entry>) {
    forall i :: 0 <= i < |m| ==> Less(key, m[i].key)
  }

  lemma SortedCons(e: Entry, m: seq<Entry>)
    requires Sorted(m) && AllAfter(e.key, m)
    ensures Sorted([e] + m)
  {
  }

  lemma SortedTail(m: seq<Entry>)
    requires Sorted(m) && m != []
    ensures Sorted(m[1..]) && AllAfter(m[0].key, m[1..])
  {
  }

  lemma AfterTransitive(key: string, m: seq<Entry>)
    requires Sorted(m) && m != [] && Less(key, m[0].key)
    ensures AllAfter(key, m)
  {
    forall i | 0 <= i < |m| ensures Less(key, m[i].key) {
      if i > 0 {
        LessTransitive(key, m[0].key, m[i].key);
      }
    }
  }

  /** A key before all others is not in the vector. */
  lemma {:induction false} AfterAbsent(key: string, m: seq<Entry>)
    requires AllAfter(key, m)
    ensures ValueFor(m, key) == None
  {
    if m != [] {
      LessIrreflexive(key);
      AfterAbsent(key, m[1..]);
    }
  }

  /** Adding keeps the order and is a map update: the key gets the value, no other key changes. */
  lemma {:induction false} AddIsUpdate(m: seq<Entry>, key: string, value: string, other: string)
    requires Sorted(m)
    ensures Sorted(Add(m, key, value))
    ensures forall lower :: AllAfter(lower, m) && Less(lower, key) ==> AllAfter(lower, Add(m, key, value))
    ensures ValueFor(Add(m, key, value), other) == if other == key then Some(value) else ValueFor(m, other)
  {
    hide Less;
    if m == [] {
    } else if Less(key, m[0].key) {
      AfterTransitive(key, m);
      SortedCons(Entry(key, value), m);
    } else {
      SortedTail(m);
      LessTotal(key, m[0].key);
      if m[0].key == key {
        SortedCons(Entry(key, value), m[1..]);
      } else {
        AddIsUpdate(m[1..], key, value, other);
        SortedCons(m[0], Add(m[1..], key, value));
      }
    }
  }

  lemma {:induction false} RemoveIsMinus(m: seq<Entry>, key: string, other: string)
    requires Sorted(m)
    ensures Sorted(RemoveItem(m, key))
    ensures forall lower :: AllAfter(lower, m) ==> AllAfter(lower, RemoveItem(m, key))
    ensures ValueFor(RemoveItem(m, key), other) == if other == key then None else ValueFor(m, other)
  {
    hide Less;
    if m != [] {
      SortedTail(m);
      if m[0].key == key {
        AfterAbsent(key, m[1..]);
      } else {
        RemoveIsMinus(m[1..], key, other);
        var r := RemoveItem(m[1..], key);
        SortedCons(m[0], r);
        assert RemoveItem(m, key) == [m[0]] + r;
        forall lower | AllAfter(lower, m) ensures AllAfter(lower, [m[0]] + r) {
          assert AllAfter(lower, m[1..]);
        }
        if other != key {
          assert ([m[0]] + r)[1..] == r;
        }
      }
    }
  }

  /** A key after all others goes to the end. */
  lemma {:induction false} AddLast(m: seq<Entry>, key: string, value: string)
    requires forall i :: 0 <= i < |m| ==> Less(m[i].key, key)
    ensures Add(m, key, value) == m + [Entry(key, value)]
  {
    hide Less;
    if m != [] {
      NotBoth(m[0].key, key);
      AddLast(m[1..], key, value);
    }
  }

  lemma NotBoth(a: string, b: string)
    requires Less(a, b)
    ensures a != b && !Less(b, a)
  {
    LessIrreflexive(a);
    if Less(b, a) {
      LessTransitive(a, b, a);
    }
  }

  // ---------- The text ----------

  /** strchr: where the character stands first, the length if nowhere. */
  function IndexOf(s: string, c: char): (k: nat)
    ensures k <= |s|
    ensures k < |s| ==> s[k] == c
    ensures forall i :: 0 <= i < k ==> s[i] != c
  {
    if s == "" || s[0] == c then 0 else 1 + IndexOf(s[1..], c)
  }

  predicate Free(s: string, c: char) {
    forall i :: 0 <= i < |s| ==> s[i] != c
  }

  /** No '=' in keys, no ';' in values. */
  ghost predicate Clean(m: seq<Entry>) {
    forall i :: 0 <= i < |m| ==> Free(m[i].key, '=') && Free(m[i].value, ';')
  }

  /** The text of a vector: key=value pairs separated by semicolons. */
  function Text(m: seq<Entry>): string {
    if m == [] then ""
    else m[0].key + "=" + m[0].value + if |m| == 1 then "" else ";" + Text(m[1..])
  }

  /** Reading text into a vector: up to the next '=' a key, up to the next ';' a value. */
  function ReadInto(s: string, m: seq<Entry>): seq<Entry>
    decreases |s|
  {
    var e := IndexOf(s, '=');
    if e == |s| then m else
      var rest := s[e + 1..];
      var f := IndexOf(rest, ';');
      var added := Add(m, s[..e], rest[..f]);
      if f == |rest| then added else ReadInto(rest[f + 1..], added)
  }

  lemma {:induction false} IndexIs(s: string, c: char, k: nat)
    requires k <= |s| && (k < |s| ==> s[k] == c) && Free(s[..k], c)
    ensures IndexOf(s, c) == k
  {
    if k > 0 {
      assert s[..k][0] == s[0];
      assert s[1..][..k - 1] == s[..k][1..];
      IndexIs(s[1..], c, k - 1);
    }
  }

  lemma {:induction false} AddClean(m: seq<Entry>, key: string, value: string)
    requires Clean(m) && Free(key, '=') && Free(value, ';')
    ensures Clean(Add(m, key, value))
  {
    hide Less, Free;
    if m != [] {
      AddClean(m[1..], key, value);
    }
  }

  lemma {:induction false} RemoveClean(m: seq<Entry>, key: string)
    requires Clean(m)
    ensures Clean(RemoveItem(m, key))
  {
    hide Free;
    if m != [] {
      RemoveClean(m[1..], key);
    }
  }

  lemma AddProper(m: seq<Entry>, key: string, value: string)
    requires Sorted(m) && Clean(m) && Free(key, '=') && Free(value, ';')
    ensures Sorted(Add(m, key, value)) && Clean(Add(m, key, value))
  {
    hide Sorted, Clean, Add, Less, Free, AllAfter, ValueFor;
    AddClean(m, key, value);
    AddIsUpdate(m, key, value, "");
  }

  /** Whatever the text, the result is sorted and clean. */
  lemma {:induction false} ReadKeeps(s: string, m: seq<Entry>)
    requires Sorted(m) && Clean(m)
    ensures Sorted(ReadInto(s, m)) && Clean(ReadInto(s, m))
    decreases |s|
  {
    hide Sorted, Clean, Add, Less, AllAfter, ValueFor, ReadInto, IndexOf, Free;
    ReadUnfold(s, m);
    var e := IndexOf(s, '=');
    if e < |s| {
      var rest := s[e + 1..];
      var f := IndexOf(rest, ';');
      FreeBefore(s, '=');
      FreeBefore(rest, ';');
      AddProper(m, s[..e], rest[..f]);
      if f < |rest| {
        ReadKeeps(rest[f + 1..], Add(m, s[..e], rest[..f]));
      }
    }
  }

  lemma FreeBefore(s: string, c: char)
    ensures Free(s[..IndexOf(s, c)], c)
  {
  }

  lemma ReadUnfold(t: string, m: seq<Entry>)
    ensures var e := IndexOf(t, '=');
            if e == |t| then ReadInto(t, m) == m
            else
              var rest := t[e + 1..];
              var f := IndexOf(rest, ';');
              ReadInto(t, m) ==
              if f == |rest| then Add(m, t[..e], rest[..f]) else ReadInto(rest[f + 1..], Add(m, t[..e], rest[..f]))
  {
    hide Add, IndexOf;
  }

  /** The text of a pair, read: its key and value come back, and what follows is what follows. */
  lemma ReadPair(key: string, value: string, more: string, m: seq<Entry>)
    requires Free(key, '=') && Free(value, ';')
    ensures ReadInto(key + "=" + value, m) == Add(m, key, value)
    ensures ReadInto(key + "=" + value + (";" + more), m) == ReadInto(more, Add(m, key, value))
  {
    hide Add;
    ReadPairStep(key, value, "", m);
    assert value + "" == value && key + "=" + value + "" == key + "=" + value;
    ReadPairStep(key, value, ";" + more, m);
    assert (";" + more)[1..] == more;
  }

  lemma ReadPairStep(key: string, value: string, tail: string, m: seq<Entry>)
    requires Free(key, '=') && Free(value, ';') && (tail == "" || tail[0] == ';')
    ensures ReadInto(key + "=" + value + tail, m) ==
            if tail == "" then Add(m, key, value) else ReadInto(tail[1..], Add(m, key, value))
  {
    hide Add, IndexOf, Free;
    var s := key + "=" + value + tail;
    var rest := value + tail;
    SplitAt(key, '=', rest);
    assert s == key + ['='] + rest;
    SplitEnd(value, ';', tail);
    assert tail != "" ==> rest[|value| + 1..] == tail[1..];
  }

  lemma SplitAt(a: string, c: char, b: string)
    requires Free(a, c)
    ensures var s := a + [c] + b; IndexOf(s, c) == |a| < |s| && s[..|a|] == a && s[|a| + 1..] == b
  {
    var s := a + [c] + b;
    assert s[..|a|] == a;
    IndexIs(s, c, |a|);
  }

  lemma SplitEnd(a: string, c: char, b: string)
    requires Free(a, c) && (b == "" || b[0] == c)
    ensures IndexOf(a + b, c) == |a| && (a + b)[..|a|] == a
  {
    assert (a + b)[..|a|] == a;
    IndexIs(a + b, c, |a|);
  }

  /** Reading back the text of a tail after its beginning. */
  lemma {:induction false} ReadTail(m: seq<Entry>, i: nat)
    requires Sorted(m) && Clean(m) && i <= |m|
    ensures ReadInto(Text(m[i..]), m[..i]) == m
    decreases |m| - i
  {
    hide Less, Add, Free, ReadInto;
    if i == |m| {
      ReadNothing(m);
      assert m[..i] == m;
    } else {
      var e := m[i];
      var t := m[i..];
      assert t[0] == e && t[1..] == m[i + 1..];
      AddLast(m[..i], e.key, e.value);
      assert m[..i] + [Entry(e.key, e.value)] == m[..i + 1];
      ReadTail(m, i + 1);
      ReadPair(e.key, e.value, Text(m[i + 1..]), m[..i]);
      if |t| == 1 {
        assert m[..i + 1] == m;
        assert Text(t) == e.key + "=" + e.value;
      } else {
        assert Text(t) == e.key + "=" + e.value + (";" + Text(m[i + 1..]));
      }
    }
  }

  lemma ReadNothing(m: seq<Entry>)
    ensures ReadInto("", m) == m
  {
  }

  /** Writing and reading back gives the same vector, exactly under the invariant. */
  lemma ReadText(m: seq<Entry>)
    requires Sorted(m)
    ensures ReadInto(Text(m), []) == m <==> Clean(m)
  {
    hide Less, Add, Free, ReadInto;
    ReadKeeps(Text(m), []);
    if Clean(m) {
      ReadTail(m, 0);
      assert m[0..] == m && m[..0] == [];
    }
  }

  /** The text of what was read from any text is a normal form: it reads back as the same vector. */
  lemma NormalForm(s: string)
    ensures ReadInto(Text(ReadInto(s, [])), []) == ReadInto(s, [])
  {
    ReadKeeps(s, []);
    ReadText(ReadInto(s, []));
  }
}

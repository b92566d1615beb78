/** The camera parameters object: set, get, flatten, unflatten, and integers and sizes as
    parameter values. */
module CameraParameters {
  import opened Options
  import opened IntText
  import opened ParameterMap

  const KEY_PREVIEW_SIZE := "preview-size"
  const KEY_VIDEO_SIZE := "video-size"
  const KEY_PICTURE_SIZE := "picture-size"

  predicate Plain(s: string) {
    Free(s, '=') && Free(s, ';')
  }

  /** set: ignored when the key or the value holds a separator. */
  function Put(m: seq<Entry>, key: string, value: string): seq<Entry> {
    if Plain(key) && Plain(value) then Add(m, key, value) else m
  }

  /** get: an empty value is no value. */
  function Lookup(m: seq<Entry>, key: string): Option<string> {
    match ValueFor(m, key)
    case None => None
    case Some(v) => if v == "" then None else Some(v)
  }

  /** Sorted keys, and the separators only where they separate. */
  ghost predicate Proper(m: seq<Entry>) {
    Sorted(m) && Clean(m)
  }

  lemma PutKeeps(m: seq<Entry>, key: string, value: string)
    requires Proper(m)
    ensures Proper(Put(m, key, value))
  {
    if Plain(key) && Plain(value) {
      AddProper(m, key, value);
    }
  }

  /** What set does to every get: the key answers the new value if there is one and it was
      accepted, every other key answers as before. */
  lemma PutThenLookup(m: seq<Entry>, key: string, value: string, other: string)
    requires Proper(m)
    ensures Lookup(Put(m, key, value), other) ==
            if other == key && Plain(key) && Plain(value) then (if value == "" then None else Some(value))
            else Lookup(m, other)
  {
    if Plain(key) && Plain(value) {
      AddIsUpdate(m, key, value, other);
    }
  }

  // ---------- Pairs and lists of sizes ----------

  datatype Size = Size(width: Int32, height: Int32)

  datatype Pair = NoPair | Pair(size: Size, used: nat)

  /** parse_pair: two decimal numbers around a delimiter, and how much of the text they took. */
  function ParsePair(abi: Abi, s: string, delim: char): (r: Pair)
    ensures r.Pair? ==> 0 < r.used <= |s|
  {
    var (w, e) := Strtol(abi, s, 10);
    if e == |s| || s[e] != delim then NoPair else
      var (h, f) := Strtol(abi, s[e + 1..], 10);
      Pair(Size(ToInt(w), ToInt(h)), e + 1 + f)
  }

  function SizeText(size: Size, delim: char): string {
    Decimal(size.width) + [delim] + Decimal(size.height)
  }

  /** A size written and read, before anything that does not continue its second number. */
  lemma PairOfText(abi: Abi, size: Size, delim: char, rest: string)
    requires DigitOf(delim) >= 10 && (rest == "" || DigitOf(rest[0]) >= 10)
    ensures ParsePair(abi, SizeText(size, delim) + rest, delim) == Pair(size, |SizeText(size, delim)|)
  {
    hide Strtol, Decimal, ToInt;
    var w, h := Decimal(size.width), Decimal(size.height);
    var s := SizeText(size, delim) + rest;
    var after := [delim] + h + rest;
    assert s == w + after;
    StrtolDecimal(abi, size.width, after, 10);
    StrtolDecimal(abi, size.height, rest, 10);
    assert s[|w|] == delim && s[|w| + 1..] == h + rest;
  }

  /** parseSizesList: sizes up to the end, or up to the first one that is malformed. */
  function ParseSizes(abi: Abi, s: string): seq<Size>
    decreases |s|
  {
    var p := ParsePair(abi, s, 'x');
    if p.NoPair? then [] else
      var rest := s[p.used..];
      if rest == "" then [p.size]
      else if rest[0] != ',' then []
      else [p.size] + ParseSizes(abi, rest[1..])
  }

  function SizesText(sizes: seq<Size>): string
    requires sizes != []
  {
    SizeText(sizes[0], 'x') + if |sizes| == 1 then "" else "," + SizesText(sizes[1..])
  }

  /** A list of sizes, written and read, is the same list. */
  lemma {:induction false} SizesOfText(abi: Abi, sizes: seq<Size>)
    requires sizes != []
    ensures ParseSizes(abi, SizesText(sizes)) == sizes
  {
    hide SizeText, ParsePair;
    var first := SizeText(sizes[0], 'x');
    var rest := if |sizes| == 1 then "" else "," + SizesText(sizes[1..]);
    PairOfText(abi, sizes[0], 'x', rest);
    assert SizesText(sizes) == first + rest;
    assert (first + rest)[|first|..] == rest;
    if |sizes| > 1 {
      SizesOfText(abi, sizes[1..]);
      assert rest[1..] == SizesText(sizes[1..]);
      assert sizes == [sizes[0]] + sizes[1..];
    } else {
      assert sizes == [sizes[0]];
    }
  }

  // ---------- Integers and sizes as values ----------

  /** getInt: -1 without a value, else the number with its base detected. */
  function IntOf(abi: Abi, m: seq<Entry>, key: string): Int32 {
    match Lookup(m, key)
    case None => -1
    case Some(v) => ToInt(Strtol(abi, v, 0).0)
  }

  /** getPreviewSize and the like: -1 x -1 without a readable value. */
  function SizeOf(abi: Abi, m: seq<Entry>, key: string): Size {
    match Lookup(m, key)
    case None => Size(-1, -1)
    case Some(v) =>
      match ParsePair(abi, v, 'x')
      case NoPair => Size(-1, -1)
      case Pair(size, _) => size
  }

  lemma {:induction false} DecimalPlain(v: Int32)
    ensures Plain(Decimal(v)) && Decimal(v) != ""
  {
    hide Digits;
    var i: int := v;
    var n: nat := if i < 0 then -i else i;
    DigitsAre(n);
  }

  /** getInt inverts set of an integer, for every int and both widths of long, and no other key
      changes; under a key with a separator nothing changes at all. */
  lemma IntRoundTrip(abi: Abi, m: seq<Entry>, key: string, v: Int32, other: string)
    requires Proper(m)
    ensures Plain(key) ==> IntOf(abi, Put(m, key, Decimal(v)), key) == v
    ensures other != key ==> Lookup(Put(m, key, Decimal(v)), other) == Lookup(m, other)
    ensures !Plain(key) ==> Put(m, key, Decimal(v)) == m
  {
    hide Decimal, Strtol, ToInt, Plain;
    DecimalPlain(v);
    PutThenLookup(m, key, Decimal(v), key);
    PutThenLookup(m, key, Decimal(v), other);
    StrtolDecimal(abi, v, "", 0);
    assert Decimal(v) + "" == Decimal(v);
  }

  /** Preview, video and picture sizes: what was set is what is read, and no other key changes. */
  lemma SizeRoundTrip(abi: Abi, m: seq<Entry>, key: string, size: Size, other: string)
    requires Proper(m) && key in [KEY_PREVIEW_SIZE, KEY_VIDEO_SIZE, KEY_PICTURE_SIZE]
    ensures SizeOf(abi, Put(m, key, SizeText(size, 'x')), key) == size
    ensures other != key ==> Lookup(Put(m, key, SizeText(size, 'x')), other) == Lookup(m, other)
  {
    hide Decimal, Strtol, ParsePair, Less, Add;
    DecimalPlain(size.width);
    DecimalPlain(size.height);
    var text := SizeText(size, 'x');
    assert Plain(key) && Plain(text);
    PutThenLookup(m, key, text, key);
    PutThenLookup(m, key, text, other);
    PairOfText(abi, size, 'x', "");
    assert text + "" == text;
  }

  /** Which calls of set are accepted: exactly those without '=' and ';' in key and value; the others
      change nothing. */
  lemma PutExactly(m: seq<Entry>, key: string, value: string)
    requires Proper(m)
    ensures '=' !in key && ';' !in key && '=' !in value && ';' !in value ==>
              ValueFor(Put(m, key, value), key) == Some(value)
    ensures '=' in key || ';' in key || '=' in value || ';' in value ==> Put(m, key, value) == m
  {
    AddIsUpdate(m, key, value, key);
  }

  /** A text with no delimiter is no pair. */
  lemma NoDelimiter(abi: Abi, s: string, delim: char)
    requires delim !in s
    ensures ParsePair(abi, s, delim) == NoPair
  {
    hide Strtol;
    var e := Strtol(abi, s, 10).1;
    assert e < |s| ==> s[e] in s;
  }

  /** A key that is missing, empty, or without an x in its value answers -1 for both dimensions; a
      key that is missing or empty answers -1 as an integer. */
  lemma UnreadableSize(abi: Abi, m: seq<Entry>, key: string)
    ensures ValueFor(m, key) == None || ValueFor(m, key) == Some("") ==>
              SizeOf(abi, m, key) == Size(-1, -1) && IntOf(abi, m, key) == -1
    ensures ValueFor(m, key).Some? && 'x' !in ValueFor(m, key).value ==> SizeOf(abi, m, key) == Size(-1, -1)
  {
    hide Strtol, ParsePair, ValueFor, ToInt;
    if ValueFor(m, key).Some? && 'x' !in ValueFor(m, key).value {
      NoDelimiter(abi, ValueFor(m, key).value, 'x');
    }
  }

  lemma ZeroInt()
    ensures ToInt(0) == 0
  {
  }

  /** Whatever stands before, the number behind the delimiter may be missing: it is then 0. */
  lemma OpenPair(abi: Abi, v: Int32, delim: char)
    requires DigitOf(delim) >= 10
    ensures ParsePair(abi, Decimal(v) + [delim], delim) == Pair(Size(v, 0), |Decimal(v)| + 1)
  {
    hide Decimal, Strtol, DigitOf, ToInt;
    var w, s := Decimal(v), Decimal(v) + [delim];
    ZeroInt();
    StrtolDecimal(abi, v, [delim], 10);
    assert s[|w|] == delim && s[|w| + 1..] == "";
    StrtolNothing(abi, "", "", "");
    assert "" + "" + "" == "";
  }

  /** The first of several sizes is read, then the text behind its comma. */
  lemma FirstSize(abi: Abi, sizes: seq<Size>, tail: string)
    requires |sizes| > 1
    ensures ParseSizes(abi, SizesText(sizes) + tail) == [sizes[0]] + ParseSizes(abi, SizesText(sizes[1..]) + tail)
  {
    hide SizeText, ParsePair, ParseSizes;
    var first, more := SizeText(sizes[0], 'x'), SizesText(sizes[1..]);
    NextSize(abi, sizes[0], more + tail);
    assert SizesText(sizes) + tail == first + ("," + (more + tail));
  }

  /** A list of sizes followed by a comma and text without an x gives the sizes before it, ... */
  lemma {:induction false} SizesThenGarbage(abi: Abi, sizes: seq<Size>, garbage: string)
    requires sizes != [] && 'x' !in garbage
    ensures ParseSizes(abi, SizesText(sizes) + ("," + garbage)) == sizes
  {
    hide SizeText, ParsePair, ParseSizes;
    if |sizes| == 1 {
      NextSize(abi, sizes[0], garbage);
      NoSizes(abi, garbage);
      assert SizesText(sizes) == SizeText(sizes[0], 'x') && sizes == [sizes[0]];
    } else {
      FirstSize(abi, sizes, "," + garbage);
      SizesThenGarbage(abi, sizes[1..], garbage);
      assert sizes == [sizes[0]] + sizes[1..];
    }
  }

  lemma XIsNoDigit()
    ensures DigitOf('x') >= 10
  {
  }

  lemma NoSizes(abi: Abi, garbage: string)
    requires 'x' !in garbage
    ensures ParseSizes(abi, garbage) == []
  {
    hide ParsePair;
    NoDelimiter(abi, garbage, 'x');
  }

  /** ... and a size followed by anything but a comma is dropped with the rest. */
  lemma {:induction false} SizeThenStray(abi: Abi, sizes: seq<Size>, stray: string)
    requires sizes != [] && stray != "" && stray[0] != ',' && DigitOf(stray[0]) >= 10
    ensures ParseSizes(abi, SizesText(sizes) + stray) == sizes[..|sizes| - 1]
  {
    XIsNoDigit();
    hide SizeText, ParsePair, DigitOf;
    var first := SizeText(sizes[0], 'x');
    if |sizes| == 1 {
      PairOfText(abi, sizes[0], 'x', stray);
      assert SizesText(sizes) == first && (first + stray)[|first|..] == stray;
    } else {
      hide ParseSizes;
      FirstSize(abi, sizes, stray);
      SizeThenStray(abi, sizes[1..], stray);
      assert sizes[..|sizes| - 1] == [sizes[0]] + sizes[1..][..|sizes| - 2];
    }
  }

  lemma NextSize(abi: Abi, size: Size, more: string)
    ensures ParseSizes(abi, SizeText(size, 'x') + ("," + more)) == [size] + ParseSizes(abi, more)
  {
    hide SizeText, ParsePair;
    var first, rest := SizeText(size, 'x'), "," + more;
    PairOfText(abi, size, 'x', rest);
    assert (first + rest)[|first|..] == rest && rest[1..] == more;
  }

  // ---------- In place ----------

  class Parameters {
    var mMap: seq<Entry>

    constructor ()
      ensures mMap == [] && Valid()
    {
      mMap := [];
    }

    ghost predicate Valid()
      reads this
    {
      Proper(mMap)
    }

    /** flatten */
    method Flatten() returns (flattened: string)
      requires Valid()
      ensures flattened == Text(mMap)
    {
      hide Text;
      flattened := "";
      var size := |mMap|;
      assert mMap[0..] == mMap;
      for i := 0 to size
        invariant flattened + Text(mMap[i..]) == Text(mMap)
      {
        TextStep(flattened, mMap, i);
        var k, v := mMap[i].key, mMap[i].value;
        flattened := flattened + k + "=" + v;
        if i != size - 1 {
          flattened := flattened + ";";
        }
      }
      assert mMap[size..] == [];
      TextOfNothing(flattened);
    }

    /** unflatten; "a" is the position in the text. */
    method Unflatten(params: string)
      modifies this
      ensures Valid() && mMap == ReadInto(params, [])
    {
      hide Sorted, Clean, Add, ReadInto, IndexOf;
      mMap := [];
      var a := 0;
      ReadKeeps(params, []) by { NothingProper(); }
      assert params[0..] == params;
      while true
        invariant a <= |params|
        invariant ReadInto(params[a..], mMap) == ReadInto(params, [])
        decreases |params| - a
      {
        ReadStep(params, a, mMap);
        var b := a + IndexOf(params[a..], '=');
        if b == |params| {
          break;
        }
        var k := params[a..b];
        a := b + 1;
        b := a + IndexOf(params[a..], ';');
        mMap := Add(mMap, k, params[a..b]);
        if b == |params| {
          break;
        }
        a := b + 1;
      }
    }

    /** set */
    method Set(key: string, value: string)
      requires Valid()
      modifies this
      ensures Valid() && mMap == Put(old(mMap), key, value)
    {
      hide Proper;
      PutKeeps(mMap, key, value);
      if IndexOf(key, '=') < |key| || IndexOf(key, ';') < |key| {
        return;
      }
      if IndexOf(value, '=') < |value| || IndexOf(value, ';') < |value| {
        return;
      }
      mMap := Add(mMap, key, value);
    }

    /** set of an integer */
    method SetInt(key: string, value: Int32)
      requires Valid()
      modifies this
      ensures Valid() && mMap == Put(old(mMap), key, Decimal(value))
    {
      Set(key, Decimal(value));
    }

    /** remove */
    method Remove(key: string)
      requires Valid()
      modifies this
      ensures Valid() && mMap == RemoveItem(old(mMap), key)
      ensures forall other :: Lookup(mMap, other) == if other == key then None else Lookup(old(mMap), other)
    {
      forall other
        ensures ValueFor(RemoveItem(mMap, key), other) == if other == key then None else ValueFor(mMap, other)
      {
        RemoveIsMinus(mMap, key, other);
      }
      RemoveIsMinus(mMap, key, "");
      RemoveClean(mMap, key);
      mMap := RemoveItem(mMap, key);
    }

    /** setPreviewSize, setVideoSize, setPictureSize, by their key */
    method SetSize(key: string, width: Int32, height: Int32)
      requires Valid()
      modifies this
      ensures Valid() && mMap == Put(old(mMap), key, SizeText(Size(width, height), 'x'))
    {
      Set(key, Decimal(width) + "x" + Decimal(height));
    }

    /** getPreviewSize, getVideoSize, getPictureSize, by their key */
    method GetSize(abi: Abi, key: string) returns (width: Int32, height: Int32)
      ensures Size(width, height) == SizeOf(abi, mMap, key)
    {
      width, height := -1, -1;
      var p := Lookup(mMap, key);
      if p == None {
        return;
      }
      var pair := ParsePair(abi, p.value, 'x');
      if pair.Pair? {
        width, height := pair.size.width, pair.size.height;
      }
    }
  }

  /** One turn of unflatten, by positions in the whole text. */
  lemma ReadStep(s: string, a: nat, m: seq<Entry>)
    requires a <= |s|
    ensures var b := a + IndexOf(s[a..], '=');
            if b == |s| then ReadInto(s[a..], m) == m
            else
              var c := b + 1 + IndexOf(s[b + 1..], ';');
              ReadInto(s[a..], m) ==
              if c == |s| then Add(m, s[a..b], s[b + 1..c]) else ReadInto(s[c + 1..], Add(m, s[a..b], s[b + 1..c]))
  {
    hide Add, IndexOf, ReadInto;
    var b := a + IndexOf(s[a..], '=');
    ReadKey(s, a, m);
    if b < |s| {
      var f := IndexOf(s[b + 1..], ';');
      Slices(s, b + 1, f);
      if b + 1 + f < |s| {
        Slices(s, b + 1, f + 1);
      }
    }
  }

  /** The key of one turn, by positions in the whole text. */
  lemma ReadKey(s: string, a: nat, m: seq<Entry>)
    requires a <= |s|
    ensures var b := a + IndexOf(s[a..], '=');
            if b == |s| then ReadInto(s[a..], m) == m
            else
              var rest := s[b + 1..];
              var f := IndexOf(rest, ';');
              ReadInto(s[a..], m) ==
              if f == |rest| then Add(m, s[a..b], rest[..f]) else ReadInto(rest[f + 1..], Add(m, s[a..b], rest[..f]))
  {
    hide Add, IndexOf, ReadInto;
    var e := IndexOf(s[a..], '=');
    if a + e < |s| {
      Slices(s, a, e);
      Slices(s, a, e + 1);
      ReadParts(s[a..], m, s[a..a + e], s[a + e + 1..]);
    } else {
      ReadUnfold(s[a..], m);
    }
  }

  /** The same for a text, its key and the rest behind the '='. */
  lemma ReadParts(t: string, m: seq<Entry>, k: string, rest: string)
    requires IndexOf(t, '=') < |t| && k == t[..IndexOf(t, '=')] && rest == t[IndexOf(t, '=') + 1..]
    ensures var f := IndexOf(rest, ';');
            ReadInto(t, m) ==
            if f == |rest| then Add(m, k, rest[..f]) else ReadInto(rest[f + 1..], Add(m, k, rest[..f]))
  {
    hide Add, IndexOf, ReadInto;
    ReadUnfold(t, m);
  }

  /** One turn of flatten. */
  lemma TextStep(f: string, m: seq<Entry>, i: nat)
    requires i < |m|
    ensures var g := f + m[i].key + "=" + m[i].value;
            f + Text(m[i..]) == (if i == |m| - 1 then g else g + ";") + Text(m[i + 1..])
  {
    var t := m[i..];
    assert t[0] == m[i] && t[1..] == m[i + 1..];
    var k, v, rest := m[i].key, m[i].value, Text(m[i + 1..]);
    if i == |m| - 1 {
      Assoc(f, k, v, "", rest);
    } else {
      Assoc(f, k, v, ";", rest);
    }
  }

  lemma Assoc(f: string, k: string, v: string, x: string, rest: string)
    ensures f + (k + "=" + v + (x + rest)) == (f + k + "=" + v + x) + rest
  {
  }

  lemma TextOfNothing(f: string)
    ensures f + Text([]) == f
  {
  }

  lemma Slices(s: string, a: nat, n: nat)
    requires a + n <= |s|
    ensures s[a..][..n] == s[a..a + n] && s[a..][n..] == s[a + n..]
  {
  }

  lemma NothingProper()
    ensures Sorted([]) && Clean([])
  {
  }

  lemma SizesUnfold(abi: Abi, s: string)
    ensures var p := ParsePair(abi, s, 'x');
            ParseSizes(abi, s) ==
            if p.NoPair? then []
            else if s[p.used..] == "" then [p.size]
            else if s[p.used..][0] != ',' then []
            else [p.size] + ParseSizes(abi, s[p.used..][1..])
  {
    hide ParsePair;
  }

  /** parseSizesList, for a text that is there: it ends on every text. */
  method ParseSizesList(abi: Abi, sizesStr: string) returns (sizes: seq<Size>)
    ensures sizes == ParseSizes(abi, sizesStr)
  {
    hide ParsePair, ParseSizes;
    sizes := [];
    var at := 0;
    assert sizesStr[0..] == sizesStr;
    while true
      invariant at <= |sizesStr|
      invariant sizes + ParseSizes(abi, sizesStr[at..]) == ParseSizes(abi, sizesStr)
      decreases |sizesStr| - at
    {
      var s := sizesStr[at..];
      SizesUnfold(abi, s);
      var p := ParsePair(abi, s, 'x');
      if p == NoPair {
        break;
      }
      var next := at + p.used;
      Slices(sizesStr, at, p.used);
      if next < |sizesStr| && sizesStr[next] != ',' {
        break;
      }
      sizes := sizes + [p.size];
      if next == |sizesStr| {
        break;
      }
      Slices(sizesStr, next, 1);
      at := next + 1;
    }
  }

  // ---------- Whole runs ----------

  datatype Step = DoSet(key: string, value: string) | DoUnflatten(text: string) | DoRemove(key: string)

  function Apply(m: seq<Entry>, s: Step): seq<Entry> {
    match s
    case DoSet(key, value) => Put(m, key, value)
    case DoUnflatten(text) => ReadInto(text, [])
    case DoRemove(key) => RemoveItem(m, key)
  }

  function ApplyAll(m: seq<Entry>, steps: seq<Step>): seq<Entry> {
    if steps == [] then m else Apply(ApplyAll(m, steps[..|steps| - 1]), steps[|steps| - 1])
  }

  /** After any mix of the operations on arbitrary strings, the parameters are what flattening
      and unflattening them gives. */
  lemma {:induction false} AlwaysReadable(steps: seq<Step>)
    ensures var m := ApplyAll([], steps); Proper(m) && ReadInto(Text(m), []) == m
  {
    var m := ApplyAll([], steps);
    if steps != [] {
      var p := ApplyAll([], steps[..|steps| - 1]);
      AlwaysReadable(steps[..|steps| - 1]);
      match steps[|steps| - 1] {
        case DoSet(key, value) => PutKeeps(p, key, value);
        case DoUnflatten(text) => ReadKeeps(text, []);
        case DoRemove(key) =>
          RemoveIsMinus(p, key, "");
          RemoveClean(p, key);
      }
    }
    ReadText(m);
  }
}

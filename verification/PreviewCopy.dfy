/** The preview image handed to the application: without the padding of strides and scanlines. */
module PreviewCopy {
  import opened Bytes

  datatype Format = SemiPlanar | Yv12 | Unsupported

  datatype Plane = Plane(stride: nat, scanline: nat)

  function PlaneSize(p: Plane): nat { Times(p.scanline, p.stride) }

  /** n rows of w bytes, one every "stride" bytes from "base" on. */
  function Rows(s: seq<Byte>, base: nat, stride: nat, w: nat, n: nat): (r: seq<Byte>)
    requires w <= stride && base + Times(n, stride) <= |s|
    ensures |r| == Times(n, w)
  {
    if n == 0 then [] else
      TimesNext(n - 1, stride);
      TimesNext(n - 1, w);
      var at := base + Times(n - 1, stride);
      Rows(s, base, stride, w, n - 1) + s[at..at + w]
  }

  lemma TimesNext(n: nat, z: nat)
    ensures Times(n + 1, z) == Times(n, z) + z
  {
  }

  lemma TimesUpTo(k: nat, n: nat, z: nat)
    requires k <= n
    ensures Times(k, z) <= Times(n, z)
  {
    assert n * z == k * z + (n - k) * z;
  }

  /** The frame: y rows and half as many rows of interleaved chroma, behind the whole y plane. */
  predicate Holds(s: seq<Byte>, y: Plane, uv: Plane, w: nat, h: nat) {
    && w <= y.stride && h <= y.scanline && w <= uv.stride && h / 2 <= uv.scanline
    && PlaneSize(y) + PlaneSize(uv) <= |s|
  }

  lemma Fit(s: seq<Byte>, y: Plane, uv: Plane, w: nat, h: nat)
    requires Holds(s, y, uv, w, h)
    ensures Times(h, y.stride) <= PlaneSize(y) <= |s|
    ensures PlaneSize(y) + Times(h / 2, uv.stride) <= |s|
  {
    TimesUpTo(h, y.scanline, y.stride);
    TimesUpTo(h / 2, uv.scanline, uv.stride);
  }

  /** The packed image. */
  function Packed(s: seq<Byte>, y: Plane, uv: Plane, w: nat, h: nat): (r: seq<Byte>)
    requires Holds(s, y, uv, w, h)
    ensures |r| == Times(h, w) + Times(h / 2, w)
  {
    Fit(s, y, uv, w, h);
    Rows(s, 0, y.stride, w, h) + Rows(s, PlaneSize(y), uv.stride, w, h / 2)
  }

  /** Byte c of row i is byte c of source row i. */
  lemma {:induction false} RowsAt(s: seq<Byte>, base: nat, stride: nat, w: nat, n: nat, i: nat, c: nat)
    requires w <= stride && base + Times(n, stride) <= |s| && i < n && c < w
    ensures Times(i, w) + c < Times(n, w) && base + Times(i, stride) + c < |s|
    ensures Rows(s, base, stride, w, n)[Times(i, w) + c] == s[base + Times(i, stride) + c]
  {
    hide Times;
    TimesNext(n - 1, stride);
    TimesNext(n - 1, w);
    if i < n - 1 {
      RowsAt(s, base, stride, w, n - 1, i, c);
    }
  }

  /** Every byte of the packed image is its strided source byte. */
  lemma PackedAt(s: seq<Byte>, y: Plane, uv: Plane, w: nat, h: nat, i: nat, c: nat)
    requires Holds(s, y, uv, w, h) && c < w
    ensures i < h ==>
              && Times(i, w) + c < Times(h, w) && Times(i, y.stride) + c < |s|
              && Packed(s, y, uv, w, h)[Times(i, w) + c] == s[Times(i, y.stride) + c]
    ensures i < h / 2 ==>
              && Times(h, w) + Times(i, w) + c < |Packed(s, y, uv, w, h)|
              && PlaneSize(y) + Times(i, uv.stride) + c < |s|
              && Packed(s, y, uv, w, h)[Times(h, w) + Times(i, w) + c] == s[PlaneSize(y) + Times(i, uv.stride) + c]
  {
    hide Times, PlaneSize;
    Fit(s, y, uv, w, h);
    if i < h {
      RowsAt(s, 0, y.stride, w, h, i, c);
    }
    if i < h / 2 {
      RowsAt(s, PlaneSize(y), uv.stride, w, h / 2, i, c);
    }
  }

  // ---------- The two copy loops ----------

  /** One row: memcpy of w bytes. */
  method CopyRow(dst: array<Byte>, to: nat, src: array<Byte>, from: nat, w: nat)
    requires dst != src && to + w <= dst.Length && from + w <= src.Length
    modifies dst
    ensures dst[to..to + w] == src[from..from + w]
    ensures dst[..to] == old(dst[..to]) && dst[to + w..] == old(dst[to + w..])
  {
    forall i | 0 <= i < w { dst[to + i] := src[from + i]; }
  }

  /** One loop: n rows from the strided source to the packed destination. */
  method CopyRows(dst: array<Byte>, dstBase: nat, src: array<Byte>, srcBase: nat, stride: nat, w: nat, n: nat)
    requires dst != src && w <= stride
    requires dstBase + Times(n, w) <= dst.Length && srcBase + Times(n, stride) <= src.Length
    modifies dst
    ensures dst[dstBase..dstBase + Times(n, w)] == Rows(src[..], srcBase, stride, w, n)
    ensures dst[..dstBase] == old(dst[..dstBase])
  {
    hide Times, Rows;
    StartOfRows(src[..], srcBase, stride, w);
    for i := 0 to n
      invariant dstBase + Times(i, w) <= dst.Length && srcBase + Times(i, stride) <= src.Length
      invariant dst[dstBase..dstBase + Times(i, w)] == Rows(src[..], srcBase, stride, w, i)
      invariant dst[..dstBase] == old(dst[..dstBase])
    {
      TimesUpTo(i + 1, n, w);
      TimesUpTo(i + 1, n, stride);
      TimesNext(i, w);
      TimesNext(i, stride);
      CopyOneRow(dst, dstBase, src, srcBase, stride, w, i);
    }
  }

  /** Row i after the rows before it. */
  method CopyOneRow(dst: array<Byte>, dstBase: nat, src: array<Byte>, srcBase: nat, stride: nat, w: nat, i: nat)
    requires dst != src && w <= stride
    requires dstBase + Times(i + 1, w) <= dst.Length && srcBase + Times(i + 1, stride) <= src.Length
    requires Times(i, w) <= Times(i + 1, w) && Times(i, stride) <= Times(i + 1, stride)
    requires dst[dstBase..dstBase + Times(i, w)] == Rows(src[..], srcBase, stride, w, i)
    modifies dst
    ensures dst[dstBase..dstBase + Times(i + 1, w)] == Rows(src[..], srcBase, stride, w, i + 1)
    ensures dst[..dstBase] == old(dst[..dstBase])
  {
    hide Times, Rows;
    TimesNext(i, w);
    TimesNext(i, stride);
    ghost var s, before := src[..], dst[..];
    var to, from := dstBase + Times(i, w), srcBase + Times(i, stride);
    CopyRow(dst, to, src, from, w);
    ghost var after := dst[..];
    RowAppended(s, srcBase, stride, w, i, before, after, dstBase);
  }

  /** What copying row i makes of the destination. */
  lemma RowAppended(s: seq<Byte>, base: nat, stride: nat, w: nat, i: nat, a: seq<Byte>, b: seq<Byte>, dstBase: nat)
    requires w <= stride && base + Times(i + 1, stride) <= |s| && Times(i + 1, stride) == Times(i, stride) + stride
    requires Times(i + 1, w) == Times(i, w) + w && |a| == |b| && dstBase + Times(i + 1, w) <= |a|
    requires var to, from := dstBase + Times(i, w), base + Times(i, stride);
             && b[..to] == a[..to] && b[to..to + w] == s[from..from + w]
             && a[dstBase..to] == Rows(s, base, stride, w, i)
    ensures b[dstBase..dstBase + Times(i + 1, w)] == Rows(s, base, stride, w, i + 1)
    ensures b[..dstBase] == a[..dstBase]
  {
    hide Times, Rows;
    RowAdded(s, base, stride, w, i);
    Appended(a, b, dstBase, dstBase + Times(i, w), w);
  }

  lemma StartOfRows(s: seq<Byte>, base: nat, stride: nat, w: nat)
    requires w <= stride && base <= |s|
    ensures Times(0, stride) == 0 && Times(0, w) == 0 && Rows(s, base, stride, w, 0) == []
  {
  }

  lemma RowAdded(s: seq<Byte>, base: nat, stride: nat, w: nat, i: nat)
    requires w <= stride && base + Times(i + 1, stride) <= |s| && Times(i + 1, stride) == Times(i, stride) + stride
    ensures Rows(s, base, stride, w, i + 1) ==
            Rows(s, base, stride, w, i) + s[base + Times(i, stride)..base + Times(i, stride) + w]
  {
    hide Times;
  }

  /** A destination that grew by one row. */
  lemma Appended(a: seq<Byte>, b: seq<Byte>, base: nat, to: nat, w: nat)
    requires |a| == |b| && base <= to && to + w <= |a| && a[..to] == b[..to]
    ensures b[base..to + w] == a[base..to] + b[to..to + w] && b[..base] == a[..base]
  {
    assert b[base..to] == b[..to][base..] == a[..to][base..];
    assert b[..base] == b[..to][..base];
  }

  // ---------- The fast path ----------

  lemma Grows(k: nat, x: nat, a: nat)
    requires x <= a
    ensures k * x <= k * a
    ensures k > 0 && x < a ==> k * x < k * a
  {
    var d := a - x;
    assert k * a == k * x + k * d;
    if k > 0 && d > 0 {
      assert k * d > 0;
    }
  }

  lemma ProductsAgree(a: nat, b: nat, x: nat, y: nat)
    requires a >= x && b >= y
    ensures Times(b, a) >= Times(y, x)
    ensures Times(b, a) == Times(y, x) && x > 0 ==> b == y && (y > 0 ==> a == x)
  {
    Grows(b, x, a);
    Grows(x, y, b);
    assert b * x == x * b && y * x == x * y;
  }

  /** Equal totals force equal strides and scanlines, plane by plane, as soon as the plane has rows. */
  lemma TotalsDecide(y: Plane, uv: Plane, w: nat, h: nat)
    requires 0 < w <= y.stride && w <= uv.stride && h <= y.scanline && h / 2 <= uv.scanline
    requires PlaneSize(y) + PlaneSize(uv) == Times(h, w) + Times(h / 2, w)
    ensures y.scanline == h && uv.scanline == h / 2
    ensures h >= 1 ==> y.stride == w
    ensures h >= 2 ==> uv.stride == w
  {
    ProductsAgree(y.stride, y.scanline, w, h);
    ProductsAgree(uv.stride, uv.scanline, w, h / 2);
  }

  lemma {:induction false} RowsContiguous(s: seq<Byte>, base: nat, w: nat, n: nat)
    requires base + Times(n, w) <= |s|
    ensures Rows(s, base, w, w, n) == s[base..base + Times(n, w)]
  {
    hide Times, Rows;
    StartOfRows(s, base, w, w);
    if n > 0 {
      TimesNext(n - 1, w);
      RowsContiguous(s, base, w, n - 1);
      RowAdded(s, base, w, w, n - 1);
      Glue(s, base, base + Times(n - 1, w), w);
    }
  }

  lemma Glue(s: seq<Byte>, from: nat, mid: nat, w: nat)
    requires from <= mid && mid + w <= |s|
    ensures s[from..mid] + s[mid..mid + w] == s[from..mid + w]
  {
  }

  /** So the unpacked buffer is already the packed image. */
  lemma FastPathSame(s: seq<Byte>, y: Plane, uv: Plane, w: nat, h: nat)
    requires Holds(s, y, uv, w, h) && w > 0
    requires PlaneSize(y) + PlaneSize(uv) == Times(h, w) + Times(h / 2, w)
    ensures Packed(s, y, uv, w, h) == s[..Times(h, w) + Times(h / 2, w)]
  {
    hide Times, Rows;
    TotalsDecide(y, uv, w, h);
    NoRows(y, uv, w, h);
    Fit(s, y, uv, w, h);
    if h >= 1 {
      RowsContiguous(s, 0, w, h);
    } else {
      StartOfRows(s, 0, y.stride, w);
    }
    if h >= 2 {
      RowsContiguous(s, PlaneSize(y), w, h / 2);
    } else {
      StartOfRows(s, PlaneSize(y), uv.stride, w);
    }
  }

  lemma NoRows(y: Plane, uv: Plane, w: nat, h: nat)
    requires y.scanline == h && (h >= 1 ==> y.stride == w)
    ensures PlaneSize(y) == Times(h, w)
  {
  }

  /** The data part of sendPreviewCallback: the buffer itself when the totals are equal, else a
      packed copy; for YV12 always the buffer itself; for other formats an unfilled buffer; null
      where the buffer itself would be passed with no bytes in it. "alloc" says whether the
      application's memory was there. */
  method PreviewData(src: array<Byte>, fmt: Format, y: Plane, uv: Plane, third: Plane, w: nat, h: nat, alloc: bool)
      returns (ok: bool, data: array?<Byte>, size: nat)
    requires fmt.SemiPlanar? ==> Holds(src[..], y, uv, w, h)
    ensures ok == alloc && (data == null || data == src || fresh(data)) && (!ok ==> data == null)
    ensures src[..] == old(src[..])
    ensures ok && fmt.SemiPlanar? ==>
              var full := PlaneSize(y) + PlaneSize(uv);
              && size == Times(h, w) + Times(h / 2, w)
              && (data == src <==> full == size && size > 0) && (data == null <==> full == size && size == 0)
              && (data != null ==> size <= data.Length && data[..size] == Packed(src[..], y, uv, w, h))
    ensures ok && fmt.Yv12? ==>
              && size == PlaneSize(y) + PlaneSize(uv) + PlaneSize(third)
              && data == if size > 0 then src else null
    ensures ok && fmt.Unsupported? ==>
              && size == Times(h, w) + Times(h / 2, w)
              && data != null && fresh(data) && size == data.Length
  {
    hide Times, PlaneSize, Rows;
    ok := alloc;
    data := null;
    size := Times(h, w) + Times(h / 2, w);
    if fmt.Yv12? {
      size := PlaneSize(y) + PlaneSize(uv) + PlaneSize(third);
    }
    if !alloc {
      return;
    }
    if fmt.Unsupported? {
      data := new Byte[size];
      return;
    }
    if fmt.Yv12? || PlaneSize(y) + PlaneSize(uv) == size {
      if size > 0 {
        data := src;
        if fmt.SemiPlanar? {
          SomeWidth(w, h);
          FastPathSame(src[..], y, uv, w, h);
          assert src[..][..size] == src[..size];
        }
      }
      return;
    }
    Fit(src[..], y, uv, w, h);
    var packed := new Byte[size];
    var base := Times(h, w);
    CopyRows(packed, 0, src, 0, y.stride, w, h);
    CopyRows(packed, base, src, PlaneSize(y), uv.stride, w, h / 2);
    assert packed[..size] == packed[..base] + packed[base..size];
    data := packed;
  }

  lemma SomeWidth(w: nat, h: nat)
    requires Times(h, w) + Times(h / 2, w) > 0
    ensures w > 0
  {
    TimesNone(h);
    TimesNone(h / 2);
  }

  lemma TimesNone(n: nat)
    ensures Times(n, 0) == 0
  {
  }
}

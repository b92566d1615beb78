/** The disks the engine can produce from a starting disk, described by four values;
    on them every stage of the engine is a short list of changes of those values. */
module GptImage {
  import opened Bytes
  import opened PentryArray
  import opened Gpt
  import opened GptForms

  /** Signatures of both headers, and the entries checksum and entries of the secondary copy. */
  datatype Config = Config(primOk: bool, secOk: bool, secCrc: U32, sec: seq<Byte>)

  /** A disk on which the update cycle may start: both headers valid, the primary entries too. */
  ghost predicate Ready(dev: Device, d: seq<Byte>) {
    && WellFormed(dev, d) && Usable(dev, d, Primary)
    && HeaderState(dev, HeaderOf(dev, d, Secondary)) == GptOk
  }

  function H1(dev: Device, d0: seq<Byte>): Header
    requires HasHeaders(dev, d0)
  {
    HeaderOf(dev, d0, Primary)
  }

  function H2(dev: Device, d0: seq<Byte>): Header
    requires HasHeaders(dev, d0)
  {
    HeaderOf(dev, d0, Secondary)
  }

  predicate Sized(dev: Device, d0: seq<Byte>, c: Config)
    requires HasHeaders(dev, d0)
  {
    |c.sec| == ArraySize(H1(dev, d0))
  }

  function Header1(dev: Device, d0: seq<Byte>, c: Config): Header
    requires WellFormed(dev, d0)
  {
    Form(dev, H1(dev, d0), c.primOk, EntriesCrc(H1(dev, d0)))
  }

  function Header2(dev: Device, d0: seq<Byte>, c: Config): Header
    requires WellFormed(dev, d0)
  {
    Form(dev, H2(dev, d0), c.secOk, c.secCrc)
  }

  /** The starting disk with both headers and the secondary entries replaced. */
  function Image(dev: Device, d0: seq<Byte>, c: Config): (d: seq<Byte>)
    requires WellFormed(dev, d0) && Sized(dev, d0, c)
    ensures |d| == |d0|
  {
    Layers(d0, EntriesOffset(dev, H2(dev, d0)), c.sec, |d0| - dev.blk, Header2(dev, d0, c),
           dev.blk, Header1(dev, d0, c))
  }

  /** Three regions replaced. */
  function Layers(d: seq<Byte>, o: nat, x: seq<Byte>, p: nat, y: seq<Byte>, q: nat, z: seq<Byte>): (r: seq<Byte>)
    requires o + |x| <= |d| && p + |y| <= |d| && q + |z| <= |d|
    ensures |r| == |d|
  {
    Store(Store(Store(d, o, x), p, y), q, z)
  }

  lemma StoreStore(d: seq<Byte>, off: nat, x: seq<Byte>, y: seq<Byte>)
    requires off + |x| <= |d| && |x| == |y|
    ensures Store(Store(d, off, x), off, y) == Store(d, off, y)
  {
  }

  lemma StoreCommute(d: seq<Byte>, o: nat, x: seq<Byte>, p: nat, y: seq<Byte>)
    requires o + |x| <= |d| && p + |y| <= |d| && Apart(o, |x|, p, |y|)
    ensures Store(Store(d, o, x), p, y) == Store(Store(d, p, y), o, x)
  {
    var l, r := Store(Store(d, o, x), p, y), Store(Store(d, p, y), o, x);
    forall i | 0 <= i < |d| ensures l[i] == r[i] { }
  }

  lemma LayersOuter(d: seq<Byte>, o: nat, x: seq<Byte>, p: nat, y: seq<Byte>, q: nat, z: seq<Byte>, z': seq<Byte>)
    requires o + |x| <= |d| && p + |y| <= |d| && q + |z| <= |d| && |z'| == |z|
    ensures Store(Layers(d, o, x, p, y, q, z), q, z') == Layers(d, o, x, p, y, q, z')
  {
    StoreStore(Store(Store(d, o, x), p, y), q, z, z');
  }

  lemma LayersMiddle(d: seq<Byte>, o: nat, x: seq<Byte>, p: nat, y: seq<Byte>, q: nat, z: seq<Byte>, y': seq<Byte>)
    requires o + |x| <= |d| && p + |y| <= |d| && q + |z| <= |d| && |y'| == |y| && Apart(p, |y|, q, |z|)
    ensures Store(Layers(d, o, x, p, y, q, z), p, y') == Layers(d, o, x, p, y', q, z)
  {
    StoreCommute(Store(Store(d, o, x), p, y), q, z, p, y');
    StoreStore(Store(d, o, x), p, y, y');
  }

  lemma LayersInner(d: seq<Byte>, o: nat, x: seq<Byte>, p: nat, y: seq<Byte>, q: nat, z: seq<Byte>, x': seq<Byte>)
    requires o + |x| <= |d| && p + |y| <= |d| && q + |z| <= |d| && |x'| == |x|
    requires Apart(o, |x|, p, |y|) && Apart(o, |x|, q, |z|)
    ensures Store(Layers(d, o, x, p, y, q, z), o, x') == Layers(d, o, x', p, y, q, z)
  {
    StoreCommute(Store(Store(d, o, x), p, y), q, z, o, x');
    StoreCommute(Store(d, o, x), p, y, o, x');
    StoreStore(d, o, x, x');
  }

  /** Putting back what is there changes nothing. */
  lemma LayersSame(d: seq<Byte>, o: nat, x: seq<Byte>, p: nat, y: seq<Byte>, q: nat, z: seq<Byte>)
    requires o + |x| <= |d| && p + |y| <= |d| && q + |z| <= |d|
    requires d[o..o + |x|] == x && d[p..p + |y|] == y && d[q..q + |z|] == z
    ensures Layers(d, o, x, p, y, q, z) == d
  {
    StoreRead(d, o, |x|);
    StoreRead(d, p, |y|);
    StoreRead(d, q, |z|);
  }

  lemma StoreRead(d: seq<Byte>, off: nat, len: nat)
    requires off + len <= |d|
    ensures Store(d, off, d[off..off + len]) == d
  {
    assert d == d[..off] + d[off..off + len] + d[off + len..];
  }

  lemma LayersElsewhere(d: seq<Byte>, o: nat, x: seq<Byte>, p: nat, y: seq<Byte>, q: nat, z: seq<Byte>,
                        at: nat, len: nat)
    requires o + |x| <= |d| && p + |y| <= |d| && q + |z| <= |d| && at + len <= |d|
    requires Apart(o, |x|, at, len) && Apart(p, |y|, at, len) && Apart(q, |z|, at, len)
    ensures Layers(d, o, x, p, y, q, z)[at..at + len] == d[at..at + len]
  {
    StoreElsewhere(d, o, x, at, len);
    StoreElsewhere(Store(d, o, x), p, y, at, len);
    StoreElsewhere(Store(Store(d, o, x), p, y), q, z, at, len);
  }

  lemma LayersInnerRead(d: seq<Byte>, o: nat, x: seq<Byte>, p: nat, y: seq<Byte>, q: nat, z: seq<Byte>)
    requires o + |x| <= |d| && p + |y| <= |d| && q + |z| <= |d|
    requires Apart(o, |x|, p, |y|) && Apart(o, |x|, q, |z|)
    ensures Layers(d, o, x, p, y, q, z)[o..o + |x|] == x
  {
    StoreSame(d, o, x);
    StoreElsewhere(Store(d, o, x), p, y, o, |x|);
    StoreElsewhere(Store(Store(d, o, x), p, y), q, z, o, |x|);
  }

  /** Bytes outside the three rewritten regions. */
  predicate Outside(dev: Device, d0: seq<Byte>, o: nat, len: nat)
    requires WellFormed(dev, d0)
  {
    && o + len <= |d0|
    && Apart(dev.blk, dev.blk, o, len) && Apart(|d0| - dev.blk, dev.blk, o, len)
    && Apart(EntriesOffset(dev, H2(dev, d0)), ArraySize(H1(dev, d0)), o, len)
  }

  lemma ImageOutside(dev: Device, d0: seq<Byte>, c: Config, o: nat, len: nat)
    requires WellFormed(dev, d0) && Sized(dev, d0, c) && Outside(dev, d0, o, len)
    ensures Image(dev, d0, c)[o..o + len] == d0[o..o + len]
  {
    hide Times, Get4, Get8, Put4, Form, Layers, Store, EntriesOffset, ArraySize;
    LayersElsewhere(d0, EntriesOffset(dev, H2(dev, d0)), c.sec, |d0| - dev.blk, Header2(dev, d0, c),
                    dev.blk, Header1(dev, d0, c), o, len);
  }

  lemma ImageHeaders(dev: Device, d0: seq<Byte>, c: Config)
    requires WellFormed(dev, d0) && Sized(dev, d0, c)
    ensures var d := Image(dev, d0, c);
            && HasHeaders(dev, d)
            && HeaderOf(dev, d, Primary) == Header1(dev, d0, c)
            && HeaderOf(dev, d, Secondary) == Header2(dev, d0, c)
  {
    hide Times, Get4, Get8, Put4;
    var off := EntriesOffset(dev, H2(dev, d0));
    var a := Store(d0, off, c.sec);
    StoreHeader(dev, a, Secondary, Header2(dev, d0, c));
    StoreHeader(dev, Store(a, |d0| - dev.blk, Header2(dev, d0, c)), Primary, Header1(dev, d0, c));
  }

  lemma ImageSecondary(dev: Device, d0: seq<Byte>, c: Config)
    requires WellFormed(dev, d0) && Sized(dev, d0, c)
    ensures var off := EntriesOffset(dev, H2(dev, d0));
            Image(dev, d0, c)[off..off + |c.sec|] == c.sec
  {
    hide Times, Get4, Get8, Put4, Form, Layers, Store, EntriesOffset, ArraySize;
    LayersInnerRead(d0, EntriesOffset(dev, H2(dev, d0)), c.sec, |d0| - dev.blk, Header2(dev, d0, c),
                    dev.blk, Header1(dev, d0, c));
  }

  ghost predicate SameLayout(dev: Device, g: Header, h: Header) {
    && Fits(g) && EntriesOffset(dev, g) == EntriesOffset(dev, h)
    && EntrySize(g) == EntrySize(h) && EntryCount(g) == EntryCount(h)
  }

  lemma LayoutDecides(dev: Device, d: seq<Byte>, e: seq<Byte>)
    requires WellFormed(dev, d) && |e| == |d|
    requires forall i: Instance :: SameLayout(dev, HeaderOf(dev, e, i), HeaderOf(dev, d, i))
    ensures WellFormed(dev, e)
  {
    hide Times, Get4, Get8, Put4;
    assert SameLayout(dev, HeaderOf(dev, e, Primary), HeaderOf(dev, d, Primary));
    assert SameLayout(dev, HeaderOf(dev, e, Secondary), HeaderOf(dev, d, Secondary));
  }

  lemma ImageWellFormed(dev: Device, d0: seq<Byte>, c: Config)
    requires WellFormed(dev, d0) && Sized(dev, d0, c)
    ensures WellFormed(dev, Image(dev, d0, c))
    ensures forall i: Instance :: SameLayout(dev, HeaderOf(dev, Image(dev, d0, c), i), HeaderOf(dev, d0, i))
  {
    hide Times, Get4, Get8, Put4;
    ImageHeaders(dev, d0, c);
    FormFields(dev, H1(dev, d0), c.primOk, EntriesCrc(H1(dev, d0)));
    FormFields(dev, H2(dev, d0), c.secOk, c.secCrc);
    forall i: Instance ensures SameLayout(dev, HeaderOf(dev, Image(dev, d0, c), i), HeaderOf(dev, d0, i)) {
      assert i == Primary || i == Secondary;
    }
    LayoutDecides(dev, d0, Image(dev, d0, c));
  }

  lemma ImageEntries(dev: Device, d0: seq<Byte>, c: Config)
    requires WellFormed(dev, d0) && Sized(dev, d0, c) && WellFormed(dev, Image(dev, d0, c))
    requires forall i: Instance :: SameLayout(dev, HeaderOf(dev, Image(dev, d0, c), i), HeaderOf(dev, d0, i))
    ensures EntriesOf(dev, Image(dev, d0, c), Primary) == EntriesOf(dev, d0, Primary)
    ensures EntriesOf(dev, Image(dev, d0, c), Secondary) == c.sec
  {
    hide Times, Get4, Get8, Put4, Image, Form, EntriesOffset, ArraySize;
    var d := Image(dev, d0, c);
    assert SameLayout(dev, HeaderOf(dev, d, Primary), H1(dev, d0));
    assert SameLayout(dev, HeaderOf(dev, d, Secondary), H2(dev, d0));
    ImageSecondary(dev, d0, c);
    ImageOutside(dev, d0, c, EntriesOffset(dev, H1(dev, d0)), ArraySize(H1(dev, d0)));
  }

  /** What the routines read from such a disk. */
  lemma ImageIs(dev: Device, d0: seq<Byte>, c: Config)
    requires WellFormed(dev, d0) && Sized(dev, d0, c)
    ensures var d := Image(dev, d0, c);
            && WellFormed(dev, d)
            && HeaderOf(dev, d, Primary) == Header1(dev, d0, c)
            && HeaderOf(dev, d, Secondary) == Header2(dev, d0, c)
            && EntriesOf(dev, d, Primary) == EntriesOf(dev, d0, Primary)
            && EntriesOf(dev, d, Secondary) == c.sec
  {
    hide Times, Get4, Get8, Put4;
    ImageHeaders(dev, d0, c);
    ImageWellFormed(dev, d0, c);
    ImageEntries(dev, d0, c);
  }

  // ---------- Writes on such a disk ----------

  /** Rewriting the primary header moves to another disk of the family ... */
  lemma ImageSetPrimary(dev: Device, d0: seq<Byte>, c: Config, ok: bool)
    requires WellFormed(dev, d0) && Sized(dev, d0, c)
    ensures Store(Image(dev, d0, c), dev.blk, Header1(dev, d0, c.(primOk := ok))) == Image(dev, d0, c.(primOk := ok))
  {
    hide Times, Get4, Get8, Put4, Form, Layers, Store, EntriesOffset, ArraySize;
    LayersOuter(d0, EntriesOffset(dev, H2(dev, d0)), c.sec, |d0| - dev.blk, Header2(dev, d0, c),
                dev.blk, Header1(dev, d0, c), Header1(dev, d0, c.(primOk := ok)));
  }

  /** ... so does rewriting the secondary header ... */
  lemma ImageSetSecondary(dev: Device, d0: seq<Byte>, c: Config, ok: bool, crc: U32)
    requires WellFormed(dev, d0) && Sized(dev, d0, c)
    ensures var c' := c.(secOk := ok, secCrc := crc);
            Store(Image(dev, d0, c), |d0| - dev.blk, Header2(dev, d0, c')) == Image(dev, d0, c')
  {
    hide Times, Get4, Get8, Put4, Form, Layers, Store, EntriesOffset, ArraySize;
    LayersMiddle(d0, EntriesOffset(dev, H2(dev, d0)), c.sec, |d0| - dev.blk, Header2(dev, d0, c),
                 dev.blk, Header1(dev, d0, c), Header2(dev, d0, c.(secOk := ok, secCrc := crc)));
  }

  /** ... and writing any bytes of the right length over the secondary entries. */
  lemma ImageSetEntries(dev: Device, d0: seq<Byte>, c: Config, e: seq<Byte>)
    requires WellFormed(dev, d0) && Sized(dev, d0, c) && |e| == |c.sec|
    ensures var off := EntriesOffset(dev, H2(dev, d0));
            off + |e| <= |d0| && Store(Image(dev, d0, c), off, e) == Image(dev, d0, c.(sec := e))
  {
    hide Times, Get4, Get8, Put4, Form, Layers, Store, EntriesOffset, ArraySize;
    LayersInner(d0, EntriesOffset(dev, H2(dev, d0)), c.sec, |d0| - dev.blk, Header2(dev, d0, c),
                dev.blk, Header1(dev, d0, c), e);
  }

  function Start(dev: Device, d0: seq<Byte>): Config
    requires WellFormed(dev, d0)
  {
    Config(true, true, EntriesCrc(H2(dev, d0)), EntriesOf(dev, d0, Secondary))
  }

  /** The starting disk itself is one of them. */
  lemma ImageOfStart(dev: Device, d0: seq<Byte>)
    requires Ready(dev, d0)
    ensures Image(dev, d0, Start(dev, d0)) == d0
  {
    hide Times, Get4, Get8, Put4, Form, Layers, Store, EntriesOffset, ArraySize;
    FormOfValid(dev, H1(dev, d0));
    FormOfValid(dev, H2(dev, d0));
    LayersSame(d0, EntriesOffset(dev, H2(dev, d0)), Start(dev, d0).sec, |d0| - dev.blk, H2(dev, d0),
               dev.blk, H1(dev, d0));
  }
}

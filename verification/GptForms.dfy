/** Headers in normal form: every header the engine ever writes is one of the two starting
    headers with a good or broken signature, an entries checksum, and a fresh header checksum. */
module GptForms {
  import opened Bytes
  import opened Gpt

  predicate GoodSignature(h: Header) {
    h[..|GPT_SIGNATURE|] == GPT_SIGNATURE
  }

  /** The header h with the signature good or broken and the entries checksum crc. */
  function Form(dev: Device, h: Header, ok: bool, crc: U32): (r: Header)
    requires Fits(h)
    ensures |r| == |h|
  {
    Seal(dev, Body(h, ok, crc))
  }

  function Body(h: Header, ok: bool, crc: U32): (r: Header)
    requires Fits(h)
    ensures |r| == |h| && Fits(r)
  {
    SignatureFits(h, ok);
    Put4(Signed(h, ok), PARTITION_CRC_OFFSET, crc)
  }

  /** Everything except the header checksum. */
  function Cleared(h: Header): (r: Header)
    ensures |r| == |h|
  {
    Put4(h, HEADER_CRC_OFFSET, 0)
  }

  /** The checksum only looks at the other fields, so headers that agree there seal alike. */
  lemma SealCleared(dev: Device, x: Header, y: Header)
    requires Fits(x) && Cleared(x) == Cleared(y)
    ensures Fits(y) && Seal(dev, x) == Seal(dev, y)
    ensures Cleared(Seal(dev, x)) == Cleared(x)
  {
    assert HeaderSize(x) == HeaderSize(Cleared(x)) && HeaderSize(y) == HeaderSize(Cleared(y));
    assert |x| == |Cleared(x)| && |y| == |Cleared(y)|;
    var c := HeaderCrc(dev, x);
    PutPut(x, HEADER_CRC_OFFSET, 0, c);
    PutPut(y, HEADER_CRC_OFFSET, 0, c);
    PutPut(x, HEADER_CRC_OFFSET, c, 0);
  }

  /** What a routine reads from a header in normal form. */
  lemma FormFields(dev: Device, h: Header, ok: bool, crc: U32)
    requires Fits(h)
    ensures var f := Form(dev, h, ok, crc);
            && Fits(f) && EntriesCrc(f) == crc
            && EntriesOffset(dev, f) == EntriesOffset(dev, h)
            && EntrySize(f) == EntrySize(h) && EntryCount(f) == EntryCount(h)
  {
    var b := Body(h, ok, crc);
    GetAfterPut(Signed(h, ok), PARTITION_CRC_OFFSET, crc);
    assert forall i {:trigger b[i]} :: 72 <= i < 88 ==> b[i] == h[i];
  }

  /** The state reported for it: the signature alone decides. */
  lemma FormState(dev: Device, h: Header, ok: bool, crc: U32)
    requires Fits(h)
    ensures Fits(Form(dev, h, ok, crc))
    ensures HeaderState(dev, Form(dev, h, ok, crc)) == if ok then GptOk else BadSignature
  {
    var b := Body(h, ok, crc);
    var f := Form(dev, h, ok, crc);
    SealCleared(dev, b, b);
    GetAfterPut(b, HEADER_CRC_OFFSET, HeaderCrc(dev, b));
    assert HeaderSize(f) == HeaderSize(b);
    assert f[..|GPT_SIGNATURE|] == b[..|GPT_SIGNATURE|];
    assert b[..|GPT_SIGNATURE|] == Signed(h, ok)[..|GPT_SIGNATURE|];
    assert !ok ==> Signed(h, ok)[0] == 0;
  }

  /** Fixing or breaking the signature of a header in normal form. */
  lemma FormWithState(dev: Device, h: Header, was: bool, crc: U32, ok: bool)
    requires Fits(h) && GoodSignature(h)
    ensures Fits(Form(dev, h, was, crc))
    ensures WithState(dev, Form(dev, h, was, crc), ok) == Form(dev, h, ok, crc)
  {
    FormFields(dev, h, was, crc);
    var f := Form(dev, h, was, crc);
    SignatureFits(f, ok);
    var x, y := Signed(f, ok), Body(h, ok, crc);
    SignedSame(h, was, ok);
    assert Cleared(x) == Cleared(y) by {
      forall i | 0 <= i < |h| ensures Cleared(x)[i] == Cleared(y)[i] {
        assert h[..|GPT_SIGNATURE|] == GPT_SIGNATURE;
      }
    }
    SealCleared(dev, x, y);
  }

  lemma SignedSame(h: Header, was: bool, ok: bool)
    requires GoodSignature(h)
    ensures Signed(Signed(h, was), ok) == Signed(h, ok)
  {
    var n := |GPT_SIGNATURE|;
    assert h == h[..n] + h[n..];
    assert Signed(h, was)[n..] == h[n..];
  }

  /** Giving it another entries checksum. */
  lemma FormWithCrc(dev: Device, h: Header, ok: bool, was: U32, crc: U32)
    requires Fits(h)
    ensures Fits(Form(dev, h, ok, was))
    ensures WithEntriesCrc(dev, Form(dev, h, ok, was), crc) == Form(dev, h, ok, crc)
  {
    FormFields(dev, h, ok, was);
    var x, y := Put4(Form(dev, h, ok, was), PARTITION_CRC_OFFSET, crc), Body(h, ok, crc);
    forall i | 0 <= i < |h| ensures Cleared(x)[i] == Cleared(y)[i] { }
    SealCleared(dev, x, y);
  }

  /** A valid header is its own normal form. */
  lemma FormOfValid(dev: Device, h: Header)
    requires Fits(h) && HeaderState(dev, h) == GptOk
    ensures Form(dev, h, true, EntriesCrc(h)) == h
  {
    var n := |GPT_SIGNATURE|;
    assert h == h[..n] + h[n..];
    assert Signed(h, true) == h;
    PutOfGet(h, PARTITION_CRC_OFFSET);
    PutOfGet(h, HEADER_CRC_OFFSET);
  }

  /** gpt_get_state after gpt_set_state reports the state that was set, for any header. */
  lemma SetThenGet(dev: Device, h: Header, ok: bool)
    requires Fits(h)
    ensures Fits(WithState(dev, h, ok))
    ensures HeaderState(dev, WithState(dev, h, ok)) == if ok then GptOk else BadSignature
  {
    SignatureFits(h, ok);
    var b := Signed(h, ok);
    var f := Seal(dev, b);
    SealCleared(dev, b, b);
    GetAfterPut(b, HEADER_CRC_OFFSET, HeaderCrc(dev, b));
    assert HeaderSize(f) == HeaderSize(b);
    assert f[..|GPT_SIGNATURE|] == b[..|GPT_SIGNATURE|];
    assert !ok ==> b[0] == 0;
  }

  /** Breaking a valid header and fixing it again is the identity on its bytes. */
  lemma BreakThenFix(dev: Device, h: Header)
    requires Fits(h) && HeaderState(dev, h) == GptOk
    ensures Fits(WithState(dev, h, false)) && WithState(dev, WithState(dev, h, false), true) == h
  {
    var crc := EntriesCrc(h);
    FormOfValid(dev, h);
    FormWithState(dev, h, true, crc, false);
    FormWithState(dev, h, false, crc, true);
  }
}

/** A header and an entry written out byte by byte: where their fields lie. */
module GptLiteral {
  import opened Bytes
  import opened BootChain
  import opened Gpt

  /** A header of revision 1.0 with 92 bytes used, in pieces: signature, revision and size; its own
      checksum 0x01020304; the fields not used here; the entries at block 2; 128 entries; of 128
      bytes each; and their checksum 0x05060708. */
  const HEAD: seq<Byte> := [
    0x45, 0x46, 0x49, 0x20, 0x50, 0x41, 0x52, 0x54, 0x00, 0x00, 0x01, 0x00, 0x5c, 0x00, 0x00, 0x00]
  const OWN_CRC: seq<Byte> := [0x04, 0x03, 0x02, 0x01]
  const NOT_USED: seq<Byte> := seq(52, _ => 0xa5)
  const FIRST_BLOCK: seq<Byte> := [0x02, 0x00, 0x00, 0x00, 0x00, 0x00, 0x00, 0x00]
  const COUNT: seq<Byte> := [0x80, 0x00, 0x00, 0x00]
  const SIZE: seq<Byte> := [0x80, 0x00, 0x00, 0x00]
  const ARRAY_CRC: seq<Byte> := [0x08, 0x07, 0x06, 0x05]
  const TAIL: seq<Byte> := NOT_USED + FIRST_BLOCK + COUNT + SIZE + ARRAY_CRC
  const HEADER: seq<Byte> := HEAD + OWN_CRC + TAIL

  /** Its bytes with its own checksum cleared. */
  const CLEARED: seq<Byte> := HEAD + [0x00, 0x00, 0x00, 0x00] + TAIL

  /** Every field of the header in a block of any size: the header's own checksum goes over its 92
      bytes with that field cleared, whatever follows them in the block. */
  lemma HeaderLiteral(dev: Device, rest: seq<Byte>)
    requires dev.blk == 512
    ensures var h: seq<Byte> := HEADER + rest;
            && |HEADER| == 92 && HeaderSize(h) == 92 && Fits(h)
            && Get4(h, HEADER_CRC_OFFSET) == 0x01020304 && EntriesCrc(h) == 0x05060708
            && EntriesOffset(dev, h) == 1024 && EntryCount(h) == 128 && EntrySize(h) == 128
            && ArraySize(h) == 16384
            && HeaderCrc(dev, h) == dev.crc(CLEARED)
            && HeaderState(dev, h) == (if dev.crc(CLEARED) == 0x01020304 then GptOk else BadCrc)
  {
    var h: Header := HEADER + rest;
    FieldsLiteral(rest);
    ClearedLiteral(rest);
    SignatureLiteral(rest);
    TimesLiteral();
    hide Get4, Get8, Put4, Times;
  }

  lemma TimesLiteral()
    ensures Times(2, 512) == 1024 && Times(128, 128) == 16384
  {
  }

  lemma FieldsLiteral(rest: seq<Byte>)
    ensures var h: seq<Byte> := HEADER + rest;
            && |HEADER| == 92
            && HeaderSize(h) == 92 && Get4(h, HEADER_CRC_OFFSET) == 0x01020304 && EntriesCrc(h) == 0x05060708
            && Get8(h, PENTRIES_OFFSET) == 2 && EntryCount(h) == 128 && EntrySize(h) == 128
  {
    var h := HEADER + rest;
    assert h[12] == HEAD[12] && h[13] == HEAD[13] && h[14] == HEAD[14] && h[15] == HEAD[15];
    assert h[16] == OWN_CRC[0] && h[17] == OWN_CRC[1] && h[18] == OWN_CRC[2] && h[19] == OWN_CRC[3];
    BehindLiteral(rest);
  }

  lemma BehindLiteral(rest: seq<Byte>)
    ensures var h: seq<Byte> := HEADER + rest;
            && |HEADER| == 92
            && h[72] == 2 && h[73] == h[74] == h[75] == h[76] == h[77] == h[78] == h[79] == 0
            && h[80] == h[84] == 0x80 && h[81] == h[82] == h[83] == h[85] == h[86] == h[87] == 0
            && h[88] == 8 && h[89] == 7 && h[90] == 6 && h[91] == 5
  {
    var h := HEADER + rest;
    assert h[72..80] == FIRST_BLOCK && h[80..84] == COUNT && h[84..88] == SIZE && h[88..92] == ARRAY_CRC;
    forall i | 0 <= i < 8 ensures h[72 + i] == FIRST_BLOCK[i] { }
    forall i | 0 <= i < 4 ensures h[80 + i] == COUNT[i] && h[84 + i] == SIZE[i] && h[88 + i] == ARRAY_CRC[i] { }
    assert h[72] == FIRST_BLOCK[0] && h[73] == FIRST_BLOCK[1] && h[74] == FIRST_BLOCK[2] && h[75] == FIRST_BLOCK[3];
    assert h[76] == FIRST_BLOCK[4] && h[77] == FIRST_BLOCK[5] && h[78] == FIRST_BLOCK[6] && h[79] == FIRST_BLOCK[7];
  }

  lemma SignatureLiteral(rest: seq<Byte>)
    ensures (HEADER + rest)[..|GPT_SIGNATURE|] == GPT_SIGNATURE
  {
    assert (HEADER + rest)[..9] == HEAD[..9];
  }

  lemma ClearedLiteral(rest: seq<Byte>)
    ensures Put4(HEADER + rest, HEADER_CRC_OFFSET, 0)[..92] == CLEARED
  {
    var h := HEADER + rest;
    var r := Put4(h, HEADER_CRC_OFFSET, 0);
    assert Octet(0, 0) == Octet(0, 1) == Octet(0, 2) == Octet(0, 3) == 0;
    forall i | 0 <= i < 92 ensures r[i] == CLEARED[i] { }
  }

  /** An entry of "abl": its name is read from byte 56, two bytes a character. */
  lemma EntryLiteral(e: Entry)
    requires e[56] == 0x61 && e[58] == 0x62 && e[60] == 0x6c && e[62] == 0
    ensures Matches("abl", e) && !Matches("ab", e) && !Matches("aboot", e)
  {
    hide Matches;
    MatchesExactly("abl", e);
    MatchesExactly("ab", e);
    MatchesExactly("aboot", e);
    assert Named(e, "abl");
    assert ("ab" + "bak")[2] == 'b' && ("aboot" + "bak")[2] == 'o' && "aboot"[2] == 'o';
  }
}

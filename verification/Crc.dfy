// Checksums as they are stored (util/crc32c.h).
module Crc {
  import opened Coding

  const MASK_DELTA: nat := 0xa282_ead8

  // Rotate right by 15 bits and add a constant.
  function Mask(crc: Word): Word {
    (crc / 0x8000 + (crc % 0x8000) * 0x2_0000 + MASK_DELTA) % WORD
  }

  function Unmask(masked: Word): Word {
    var rot := (masked + WORD - MASK_DELTA) % WORD;
    rot / 0x2_0000 + (rot % 0x2_0000) * 0x8000
  }

  lemma UnmaskMask(crc: Word)
    ensures Unmask(Mask(crc)) == crc
  {
    var high, low := crc / 0x8000, crc % 0x8000;
    assert crc == high * 0x8000 + low;
    Rotated(high, low);
  }

  // The rotated word, and back.
  lemma Rotated(high: nat, low: nat)
    requires high < 0x2_0000 && low < 0x8000
    ensures var rot := high + low * 0x2_0000;
            && rot < WORD
            && ((rot + MASK_DELTA) % WORD + WORD - MASK_DELTA) % WORD == rot
            && rot / 0x2_0000 == low && rot % 0x2_0000 == high
  {
    var rot := high + low * 0x2_0000;
    if rot + MASK_DELTA < WORD {
      assert (rot + MASK_DELTA) % WORD == rot + MASK_DELTA;
    } else {
      assert (rot + MASK_DELTA) % WORD == rot + MASK_DELTA - WORD;
    }
  }
}

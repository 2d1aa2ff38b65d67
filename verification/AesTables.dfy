/** The two substitution tables, row by row as the source lays them out. */
module AesTables {
  import opened Bytes

  const SBOX: seq<seq<Byte>> := [
    [0x63, 0x7C, 0x77, 0x7B, 0xF2, 0x6B, 0x6F, 0xC5, 0x30, 0x01, 0x67, 0x2B, 0xFE, 0xD7, 0xAB, 0x76],
    [0xCA, 0x82, 0xC9, 0x7D, 0xFA, 0x59, 0x47, 0xF0, 0xAD, 0xD4, 0xA2, 0xAF, 0x9C, 0xA4, 0x72, 0xC0],
    [0xB7, 0xFD, 0x93, 0x26, 0x36, 0x3F, 0xF7, 0xCC, 0x34, 0xA5, 0xE5, 0xF1, 0x71, 0xD8, 0x31, 0x15],
    [0x04, 0xC7, 0x23, 0xC3, 0x18, 0x96, 0x05, 0x9A, 0x07, 0x12, 0x80, 0xE2, 0xEB, 0x27, 0xB2, 0x75],
    [0x09, 0x83, 0x2C, 0x1A, 0x1B, 0x6E, 0x5A, 0xA0, 0x52, 0x3B, 0xD6, 0xB3, 0x29, 0xE3, 0x2F, 0x84],
    [0x53, 0xD1, 0x00, 0xED, 0x20, 0xFC, 0xB1, 0x5B, 0x6A, 0xCB, 0xBE, 0x39, 0x4A, 0x4C, 0x58, 0xCF],
    [0xD0, 0xEF, 0xAA, 0xFB, 0x43, 0x4D, 0x33, 0x85, 0x45, 0xF9, 0x02, 0x7F, 0x50, 0x3C, 0x9F, 0xA8],
    [0x51, 0xA3, 0x40, 0x8F, 0x92, 0x9D, 0x38, 0xF5, 0xBC, 0xB6, 0xDA, 0x21, 0x10, 0xFF, 0xF3, 0xD2],
    [0xCD, 0x0C, 0x13, 0xEC, 0x5F, 0x97, 0x44, 0x17, 0xC4, 0xA7, 0x7E, 0x3D, 0x64, 0x5D, 0x19, 0x73],
    [0x60, 0x81, 0x4F, 0xDC, 0x22, 0x2A, 0x90, 0x88, 0x46, 0xEE, 0xB8, 0x14, 0xDE, 0x5E, 0x0B, 0xDB],
    [0xE0, 0x32, 0x3A, 0x0A, 0x49, 0x06, 0x24, 0x5C, 0xC2, 0xD3, 0xAC, 0x62, 0x91, 0x95, 0xE4, 0x79],
    [0xE7, 0xC8, 0x37, 0x6D, 0x8D, 0xD5, 0x4E, 0xA9, 0x6C, 0x56, 0xF4, 0xEA, 0x65, 0x7A, 0xAE, 0x08],
    [0xBA, 0x78, 0x25, 0x2E, 0x1C, 0xA6, 0xB4, 0xC6, 0xE8, 0xDD, 0x74, 0x1F, 0x4B, 0xBD, 0x8B, 0x8A],
    [0x70, 0x3E, 0xB5, 0x66, 0x48, 0x03, 0xF6, 0x0E, 0x61, 0x35, 0x57, 0xB9, 0x86, 0xC1, 0x1D, 0x9E],
    [0xE1, 0xF8, 0x98, 0x11, 0x69, 0xD9, 0x8E, 0x94, 0x9B, 0x1E, 0x87, 0xE9, 0xCE, 0x55, 0x28, 0xDF],
    [0x8C, 0xA1, 0x89, 0x0D, 0xBF, 0xE6, 0x42, 0x68, 0x41, 0x99, 0x2D, 0x0F, 0xB0, 0x54, 0xBB, 0x16]
  ]

  const INV_SBOX: seq<seq<Byte>> := [
    [0x52, 0x09, 0x6A, 0xD5, 0x30, 0x36, 0xA5, 0x38, 0xBF, 0x40, 0xA3, 0x9E, 0x81, 0xF3, 0xD7, 0xFB],
    [0x7C, 0xE3, 0x39, 0x82, 0x9B, 0x2F, 0xFF, 0x87, 0x34, 0x8E, 0x43, 0x44, 0xC4, 0xDE, 0xE9, 0xCB],
    [0x54, 0x7B, 0x94, 0x32, 0xA6, 0xC2, 0x23, 0x3D, 0xEE, 0x4C, 0x95, 0x0B, 0x42, 0xFA, 0xC3, 0x4E],
    [0x08, 0x2E, 0xA1, 0x66, 0x28, 0xD9, 0x24, 0xB2, 0x76, 0x5B, 0xA2, 0x49, 0x6D, 0x8B, 0xD1, 0x25],
    [0x72, 0xF8, 0xF6, 0x64, 0x86, 0x68, 0x98, 0x16, 0xD4, 0xA4, 0x5C, 0xCC, 0x5D, 0x65, 0xB6, 0x92],
    [0x6C, 0x70, 0x48, 0x50, 0xFD, 0xED, 0xB9, 0xDA, 0x5E, 0x15, 0x46, 0x57, 0xA7, 0x8D, 0x9D, 0x84],
    [0x90, 0xD8, 0xAB, 0x00, 0x8C, 0xBC, 0xD3, 0x0A, 0xF7, 0xE4, 0x58, 0x05, 0xB8, 0xB3, 0x45, 0x06],
    [0xD0, 0x2C, 0x1E, 0x8F, 0xCA, 0x3F, 0x0F, 0x02, 0xC1, 0xAF, 0xBD, 0x03, 0x01, 0x13, 0x8A, 0x6B],
    [0x3A, 0x91, 0x11, 0x41, 0x4F, 0x67, 0xDC, 0xEA, 0x97, 0xF2, 0xCF, 0xCE, 0xF0, 0xB4, 0xE6, 0x73],
    [0x96, 0xAC, 0x74, 0x22, 0xE7, 0xAD, 0x35, 0x85, 0xE2, 0xF9, 0x37, 0xE8, 0x1C, 0x75, 0xDF, 0x6E],
    [0x47, 0xF1, 0x1A, 0x71, 0x1D, 0x29, 0xC5, 0x89, 0x6F, 0xB7, 0x62, 0x0E, 0xAA, 0x18, 0xBE, 0x1B],
    [0xFC, 0x56, 0x3E, 0x4B, 0xC6, 0xD2, 0x79, 0x20, 0x9A, 0xDB, 0xC0, 0xFE, 0x78, 0xCD, 0x5A, 0xF4],
    [0x1F, 0xDD, 0xA8, 0x33, 0x88, 0x07, 0xC7, 0x31, 0xB1, 0x12, 0x10, 0x59, 0x27, 0x80, 0xEC, 0x5F],
    [0x60, 0x51, 0x7F, 0xA9, 0x19, 0xB5, 0x4A, 0x0D, 0x2D, 0xE5, 0x7A, 0x9F, 0x93, 0xC9, 0x9C, 0xEF],
    [0xA0, 0xE0, 0x3B, 0x4D, 0xAE, 0x2A, 0xF5, 0xB0, 0xC8, 0xEB, 0xBB, 0x3C, 0x83, 0x53, 0x99, 0x61],
    [0x17, 0x2B, 0x04, 0x7E, 0xBA, 0x77, 0xD6, 0x26, 0xE1, 0x69, 0x14, 0x63, 0x55, 0x21, 0x0C, 0x7D]
  ]

  function SBox(x: Byte): Byte {
    SBOX[(x >> 4) as int][(x & 0x0F) as int]
  }

  function InvSBox(x: Byte): Byte {
    INV_SBOX[(x >> 4) as int][(x & 0x0F) as int]
  }

  // ---- The tables read off, sixteen entries a lemma, so that no other proof has to search them

  lemma SBoxRow0()
    ensures [SBox(0x00), SBox(0x01), SBox(0x02), SBox(0x03), SBox(0x04), SBox(0x05), SBox(0x06), SBox(0x07), SBox(0x08), SBox(0x09), SBox(0x0A), SBox(0x0B), SBox(0x0C), SBox(0x0D), SBox(0x0E), SBox(0x0F)]
         == [0x63, 0x7C, 0x77, 0x7B, 0xF2, 0x6B, 0x6F, 0xC5, 0x30, 0x01, 0x67, 0x2B, 0xFE, 0xD7, 0xAB, 0x76]
  {
  }

  lemma SBoxRow1()
    ensures [SBox(0x10), SBox(0x11), SBox(0x12), SBox(0x13), SBox(0x14), SBox(0x15), SBox(0x16), SBox(0x17), SBox(0x18), SBox(0x19), SBox(0x1A), SBox(0x1B), SBox(0x1C), SBox(0x1D), SBox(0x1E), SBox(0x1F)]
         == [0xCA, 0x82, 0xC9, 0x7D, 0xFA, 0x59, 0x47, 0xF0, 0xAD, 0xD4, 0xA2, 0xAF, 0x9C, 0xA4, 0x72, 0xC0]
  {
  }

  lemma SBoxRow2()
    ensures [SBox(0x20), SBox(0x21), SBox(0x22), SBox(0x23), SBox(0x24), SBox(0x25), SBox(0x26), SBox(0x27), SBox(0x28), SBox(0x29), SBox(0x2A), SBox(0x2B), SBox(0x2C), SBox(0x2D), SBox(0x2E), SBox(0x2F)]
         == [0xB7, 0xFD, 0x93, 0x26, 0x36, 0x3F, 0xF7, 0xCC, 0x34, 0xA5, 0xE5, 0xF1, 0x71, 0xD8, 0x31, 0x15]
  {
  }

  lemma SBoxRow3()
    ensures [SBox(0x30), SBox(0x31), SBox(0x32), SBox(0x33), SBox(0x34), SBox(0x35), SBox(0x36), SBox(0x37), SBox(0x38), SBox(0x39), SBox(0x3A), SBox(0x3B), SBox(0x3C), SBox(0x3D), SBox(0x3E), SBox(0x3F)]
         == [0x04, 0xC7, 0x23, 0xC3, 0x18, 0x96, 0x05, 0x9A, 0x07, 0x12, 0x80, 0xE2, 0xEB, 0x27, 0xB2, 0x75]
  {
  }

  lemma SBoxRow4()
    ensures [SBox(0x40), SBox(0x41), SBox(0x42), SBox(0x43), SBox(0x44), SBox(0x45), SBox(0x46), SBox(0x47), SBox(0x48), SBox(0x49), SBox(0x4A), SBox(0x4B), SBox(0x4C), SBox(0x4D), SBox(0x4E), SBox(0x4F)]
         == [0x09, 0x83, 0x2C, 0x1A, 0x1B, 0x6E, 0x5A, 0xA0, 0x52, 0x3B, 0xD6, 0xB3, 0x29, 0xE3, 0x2F, 0x84]
  {
  }

  lemma SBoxRow5()
    ensures [SBox(0x50), SBox(0x51), SBox(0x52), SBox(0x53), SBox(0x54), SBox(0x55), SBox(0x56), SBox(0x57), SBox(0x58), SBox(0x59), SBox(0x5A), SBox(0x5B), SBox(0x5C), SBox(0x5D), SBox(0x5E), SBox(0x5F)]
         == [0x53, 0xD1, 0x00, 0xED, 0x20, 0xFC, 0xB1, 0x5B, 0x6A, 0xCB, 0xBE, 0x39, 0x4A, 0x4C, 0x58, 0xCF]
  {
  }

  lemma SBoxRow6()
    ensures [SBox(0x60), SBox(0x61), SBox(0x62), SBox(0x63), SBox(0x64), SBox(0x65), SBox(0x66), SBox(0x67), SBox(0x68), SBox(0x69), SBox(0x6A), SBox(0x6B), SBox(0x6C), SBox(0x6D), SBox(0x6E), SBox(0x6F)]
         == [0xD0, 0xEF, 0xAA, 0xFB, 0x43, 0x4D, 0x33, 0x85, 0x45, 0xF9, 0x02, 0x7F, 0x50, 0x3C, 0x9F, 0xA8]
  {
  }

  lemma SBoxRow7()
    ensures [SBox(0x70), SBox(0x71), SBox(0x72), SBox(0x73), SBox(0x74), SBox(0x75), SBox(0x76), SBox(0x77), SBox(0x78), SBox(0x79), SBox(0x7A), SBox(0x7B), SBox(0x7C), SBox(0x7D), SBox(0x7E), SBox(0x7F)]
         == [0x51, 0xA3, 0x40, 0x8F, 0x92, 0x9D, 0x38, 0xF5, 0xBC, 0xB6, 0xDA, 0x21, 0x10, 0xFF, 0xF3, 0xD2]
  {
  }

  lemma SBoxRow8()
    ensures [SBox(0x80), SBox(0x81), SBox(0x82), SBox(0x83), SBox(0x84), SBox(0x85), SBox(0x86), SBox(0x87), SBox(0x88), SBox(0x89), SBox(0x8A), SBox(0x8B), SBox(0x8C), SBox(0x8D), SBox(0x8E), SBox(0x8F)]
         == [0xCD, 0x0C, 0x13, 0xEC, 0x5F, 0x97, 0x44, 0x17, 0xC4, 0xA7, 0x7E, 0x3D, 0x64, 0x5D, 0x19, 0x73]
  {
  }

  lemma SBoxRow9()
    ensures [SBox(0x90), SBox(0x91), SBox(0x92), SBox(0x93), SBox(0x94), SBox(0x95), SBox(0x96), SBox(0x97), SBox(0x98), SBox(0x99), SBox(0x9A), SBox(0x9B), SBox(0x9C), SBox(0x9D), SBox(0x9E), SBox(0x9F)]
         == [0x60, 0x81, 0x4F, 0xDC, 0x22, 0x2A, 0x90, 0x88, 0x46, 0xEE, 0xB8, 0x14, 0xDE, 0x5E, 0x0B, 0xDB]
  {
  }

  lemma SBoxRowA()
    ensures [SBox(0xA0), SBox(0xA1), SBox(0xA2), SBox(0xA3), SBox(0xA4), SBox(0xA5), SBox(0xA6), SBox(0xA7), SBox(0xA8), SBox(0xA9), SBox(0xAA), SBox(0xAB), SBox(0xAC), SBox(0xAD), SBox(0xAE), SBox(0xAF)]
         == [0xE0, 0x32, 0x3A, 0x0A, 0x49, 0x06, 0x24, 0x5C, 0xC2, 0xD3, 0xAC, 0x62, 0x91, 0x95, 0xE4, 0x79]
  {
  }

  lemma SBoxRowB()
    ensures [SBox(0xB0), SBox(0xB1), SBox(0xB2), SBox(0xB3), SBox(0xB4), SBox(0xB5), SBox(0xB6), SBox(0xB7), SBox(0xB8), SBox(0xB9), SBox(0xBA), SBox(0xBB), SBox(0xBC), SBox(0xBD), SBox(0xBE), SBox(0xBF)]
         == [0xE7, 0xC8, 0x37, 0x6D, 0x8D, 0xD5, 0x4E, 0xA9, 0x6C, 0x56, 0xF4, 0xEA, 0x65, 0x7A, 0xAE, 0x08]
  {
  }

  lemma SBoxRowC()
    ensures [SBox(0xC0), SBox(0xC1), SBox(0xC2), SBox(0xC3), SBox(0xC4), SBox(0xC5), SBox(0xC6), SBox(0xC7), SBox(0xC8), SBox(0xC9), SBox(0xCA), SBox(0xCB), SBox(0xCC), SBox(0xCD), SBox(0xCE), SBox(0xCF)]
         == [0xBA, 0x78, 0x25, 0x2E, 0x1C, 0xA6, 0xB4, 0xC6, 0xE8, 0xDD, 0x74, 0x1F, 0x4B, 0xBD, 0x8B, 0x8A]
  {
  }

  lemma SBoxRowD()
    ensures [SBox(0xD0), SBox(0xD1), SBox(0xD2), SBox(0xD3), SBox(0xD4), SBox(0xD5), SBox(0xD6), SBox(0xD7), SBox(0xD8), SBox(0xD9), SBox(0xDA), SBox(0xDB), SBox(0xDC), SBox(0xDD), SBox(0xDE), SBox(0xDF)]
         == [0x70, 0x3E, 0xB5, 0x66, 0x48, 0x03, 0xF6, 0x0E, 0x61, 0x35, 0x57, 0xB9, 0x86, 0xC1, 0x1D, 0x9E]
  {
  }

  lemma SBoxRowE()
    ensures [SBox(0xE0), SBox(0xE1), SBox(0xE2), SBox(0xE3), SBox(0xE4), SBox(0xE5), SBox(0xE6), SBox(0xE7), SBox(0xE8), SBox(0xE9), SBox(0xEA), SBox(0xEB), SBox(0xEC), SBox(0xED), SBox(0xEE), SBox(0xEF)]
         == [0xE1, 0xF8, 0x98, 0x11, 0x69, 0xD9, 0x8E, 0x94, 0x9B, 0x1E, 0x87, 0xE9, 0xCE, 0x55, 0x28, 0xDF]
  {
  }

  lemma SBoxRowF()
    ensures [SBox(0xF0), SBox(0xF1), SBox(0xF2), SBox(0xF3), SBox(0xF4), SBox(0xF5), SBox(0xF6), SBox(0xF7), SBox(0xF8), SBox(0xF9), SBox(0xFA), SBox(0xFB), SBox(0xFC), SBox(0xFD), SBox(0xFE), SBox(0xFF)]
         == [0x8C, 0xA1, 0x89, 0x0D, 0xBF, 0xE6, 0x42, 0x68, 0x41, 0x99, 0x2D, 0x0F, 0xB0, 0x54, 0xBB, 0x16]
  {
  }

  lemma SBoxRows()
    ensures SBox(0x00) == 0x63 && SBox(0x01) == 0x7C && SBox(0x02) == 0x77 && SBox(0x03) == 0x7B && SBox(0x04) == 0xF2 && SBox(0x05) == 0x6B && SBox(0x06) == 0x6F && SBox(0x07) == 0xC5 && SBox(0x08) == 0x30 && SBox(0x09) == 0x01 && SBox(0x0A) == 0x67 && SBox(0x0B) == 0x2B && SBox(0x0C) == 0xFE && SBox(0x0D) == 0xD7 && SBox(0x0E) == 0xAB && SBox(0x0F) == 0x76
    ensures SBox(0x10) == 0xCA && SBox(0x11) == 0x82 && SBox(0x12) == 0xC9 && SBox(0x13) == 0x7D && SBox(0x14) == 0xFA && SBox(0x15) == 0x59 && SBox(0x16) == 0x47 && SBox(0x17) == 0xF0 && SBox(0x18) == 0xAD && SBox(0x19) == 0xD4 && SBox(0x1A) == 0xA2 && SBox(0x1B) == 0xAF && SBox(0x1C) == 0x9C && SBox(0x1D) == 0xA4 && SBox(0x1E) == 0x72 && SBox(0x1F) == 0xC0
    ensures SBox(0x20) == 0xB7 && SBox(0x21) == 0xFD && SBox(0x22) == 0x93 && SBox(0x23) == 0x26 && SBox(0x24) == 0x36 && SBox(0x25) == 0x3F && SBox(0x26) == 0xF7 && SBox(0x27) == 0xCC && SBox(0x28) == 0x34 && SBox(0x29) == 0xA5 && SBox(0x2A) == 0xE5 && SBox(0x2B) == 0xF1 && SBox(0x2C) == 0x71 && SBox(0x2D) == 0xD8 && SBox(0x2E) == 0x31 && SBox(0x2F) == 0x15
    ensures SBox(0x30) == 0x04 && SBox(0x31) == 0xC7 && SBox(0x32) == 0x23 && SBox(0x33) == 0xC3 && SBox(0x34) == 0x18 && SBox(0x35) == 0x96 && SBox(0x36) == 0x05 && SBox(0x37) == 0x9A && SBox(0x38) == 0x07 && SBox(0x39) == 0x12 && SBox(0x3A) == 0x80 && SBox(0x3B) == 0xE2 && SBox(0x3C) == 0xEB && SBox(0x3D) == 0x27 && SBox(0x3E) == 0xB2 && SBox(0x3F) == 0x75
    ensures SBox(0x40) == 0x09 && SBox(0x41) == 0x83 && SBox(0x42) == 0x2C && SBox(0x43) == 0x1A && SBox(0x44) == 0x1B && SBox(0x45) == 0x6E && SBox(0x46) == 0x5A && SBox(0x47) == 0xA0 && SBox(0x48) == 0x52 && SBox(0x49) == 0x3B && SBox(0x4A) == 0xD6 && SBox(0x4B) == 0xB3 && SBox(0x4C) == 0x29 && SBox(0x4D) == 0xE3 && SBox(0x4E) == 0x2F && SBox(0x4F) == 0x84
    ensures SBox(0x50) == 0x53 && SBox(0x51) == 0xD1 && SBox(0x52) == 0x00 && SBox(0x53) == 0xED && SBox(0x54) == 0x20 && SBox(0x55) == 0xFC && SBox(0x56) == 0xB1 && SBox(0x57) == 0x5B && SBox(0x58) == 0x6A && SBox(0x59) == 0xCB && SBox(0x5A) == 0xBE && SBox(0x5B) == 0x39 && SBox(0x5C) == 0x4A && SBox(0x5D) == 0x4C && SBox(0x5E) == 0x58 && SBox(0x5F) == 0xCF
    ensures SBox(0x60) == 0xD0 && SBox(0x61) == 0xEF && SBox(0x62) == 0xAA && SBox(0x63) == 0xFB && SBox(0x64) == 0x43 && SBox(0x65) == 0x4D && SBox(0x66) == 0x33 && SBox(0x67) == 0x85 && SBox(0x68) == 0x45 && SBox(0x69) == 0xF9 && SBox(0x6A) == 0x02 && SBox(0x6B) == 0x7F && SBox(0x6C) == 0x50 && SBox(0x6D) == 0x3C && SBox(0x6E) == 0x9F && SBox(0x6F) == 0xA8
    ensures SBox(0x70) == 0x51 && SBox(0x71) == 0xA3 && SBox(0x72) == 0x40 && SBox(0x73) == 0x8F && SBox(0x74) == 0x92 && SBox(0x75) == 0x9D && SBox(0x76) == 0x38 && SBox(0x77) == 0xF5 && SBox(0x78) == 0xBC && SBox(0x79) == 0xB6 && SBox(0x7A) == 0xDA && SBox(0x7B) == 0x21 && SBox(0x7C) == 0x10 && SBox(0x7D) == 0xFF && SBox(0x7E) == 0xF3 && SBox(0x7F) == 0xD2
    ensures SBox(0x80) == 0xCD && SBox(0x81) == 0x0C && SBox(0x82) == 0x13 && SBox(0x83) == 0xEC && SBox(0x84) == 0x5F && SBox(0x85) == 0x97 && SBox(0x86) == 0x44 && SBox(0x87) == 0x17 && SBox(0x88) == 0xC4 && SBox(0x89) == 0xA7 && SBox(0x8A) == 0x7E && SBox(0x8B) == 0x3D && SBox(0x8C) == 0x64 && SBox(0x8D) == 0x5D && SBox(0x8E) == 0x19 && SBox(0x8F) == 0x73
    ensures SBox(0x90) == 0x60 && SBox(0x91) == 0x81 && SBox(0x92) == 0x4F && SBox(0x93) == 0xDC && SBox(0x94) == 0x22 && SBox(0x95) == 0x2A && SBox(0x96) == 0x90 && SBox(0x97) == 0x88 && SBox(0x98) == 0x46 && SBox(0x99) == 0xEE && SBox(0x9A) == 0xB8 && SBox(0x9B) == 0x14 && SBox(0x9C) == 0xDE && SBox(0x9D) == 0x5E && SBox(0x9E) == 0x0B && SBox(0x9F) == 0xDB
    ensures SBox(0xA0) == 0xE0 && SBox(0xA1) == 0x32 && SBox(0xA2) == 0x3A && SBox(0xA3) == 0x0A && SBox(0xA4) == 0x49 && SBox(0xA5) == 0x06 && SBox(0xA6) == 0x24 && SBox(0xA7) == 0x5C && SBox(0xA8) == 0xC2 && SBox(0xA9) == 0xD3 && SBox(0xAA) == 0xAC && SBox(0xAB) == 0x62 && SBox(0xAC) == 0x91 && SBox(0xAD) == 0x95 && SBox(0xAE) == 0xE4 && SBox(0xAF) == 0x79
    ensures SBox(0xB0) == 0xE7 && SBox(0xB1) == 0xC8 && SBox(0xB2) == 0x37 && SBox(0xB3) == 0x6D && SBox(0xB4) == 0x8D && SBox(0xB5) == 0xD5 && SBox(0xB6) == 0x4E && SBox(0xB7) == 0xA9 && SBox(0xB8) == 0x6C && SBox(0xB9) == 0x56 && SBox(0xBA) == 0xF4 && SBox(0xBB) == 0xEA && SBox(0xBC) == 0x65 && SBox(0xBD) == 0x7A && SBox(0xBE) == 0xAE && SBox(0xBF) == 0x08
    ensures SBox(0xC0) == 0xBA && SBox(0xC1) == 0x78 && SBox(0xC2) == 0x25 && SBox(0xC3) == 0x2E && SBox(0xC4) == 0x1C && SBox(0xC5) == 0xA6 && SBox(0xC6) == 0xB4 && SBox(0xC7) == 0xC6 && SBox(0xC8) == 0xE8 && SBox(0xC9) == 0xDD && SBox(0xCA) == 0x74 && SBox(0xCB) == 0x1F && SBox(0xCC) == 0x4B && SBox(0xCD) == 0xBD && SBox(0xCE) == 0x8B && SBox(0xCF) == 0x8A
    ensures SBox(0xD0) == 0x70 && SBox(0xD1) == 0x3E && SBox(0xD2) == 0xB5 && SBox(0xD3) == 0x66 && SBox(0xD4) == 0x48 && SBox(0xD5) == 0x03 && SBox(0xD6) == 0xF6 && SBox(0xD7) == 0x0E && SBox(0xD8) == 0x61 && SBox(0xD9) == 0x35 && SBox(0xDA) == 0x57 && SBox(0xDB) == 0xB9 && SBox(0xDC) == 0x86 && SBox(0xDD) == 0xC1 && SBox(0xDE) == 0x1D && SBox(0xDF) == 0x9E
    ensures SBox(0xE0) == 0xE1 && SBox(0xE1) == 0xF8 && SBox(0xE2) == 0x98 && SBox(0xE3) == 0x11 && SBox(0xE4) == 0x69 && SBox(0xE5) == 0xD9 && SBox(0xE6) == 0x8E && SBox(0xE7) == 0x94 && SBox(0xE8) == 0x9B && SBox(0xE9) == 0x1E && SBox(0xEA) == 0x87 && SBox(0xEB) == 0xE9 && SBox(0xEC) == 0xCE && SBox(0xED) == 0x55 && SBox(0xEE) == 0x28 && SBox(0xEF) == 0xDF
    ensures SBox(0xF0) == 0x8C && SBox(0xF1) == 0xA1 && SBox(0xF2) == 0x89 && SBox(0xF3) == 0x0D && SBox(0xF4) == 0xBF && SBox(0xF5) == 0xE6 && SBox(0xF6) == 0x42 && SBox(0xF7) == 0x68 && SBox(0xF8) == 0x41 && SBox(0xF9) == 0x99 && SBox(0xFA) == 0x2D && SBox(0xFB) == 0x0F && SBox(0xFC) == 0xB0 && SBox(0xFD) == 0x54 && SBox(0xFE) == 0xBB && SBox(0xFF) == 0x16
  {
    hide SBox;
    SBoxRow0(); SBoxRow1(); SBoxRow2(); SBoxRow3(); SBoxRow4(); SBoxRow5(); SBoxRow6(); SBoxRow7();
    SBoxRow8(); SBoxRow9(); SBoxRowA(); SBoxRowB(); SBoxRowC(); SBoxRowD(); SBoxRowE(); SBoxRowF();
  }

  lemma InvSBoxRow0()
    ensures [InvSBox(0x00), InvSBox(0x01), InvSBox(0x02), InvSBox(0x03), InvSBox(0x04), InvSBox(0x05), InvSBox(0x06), InvSBox(0x07), InvSBox(0x08), InvSBox(0x09), InvSBox(0x0A), InvSBox(0x0B), InvSBox(0x0C), InvSBox(0x0D), InvSBox(0x0E), InvSBox(0x0F)]
         == [0x52, 0x09, 0x6A, 0xD5, 0x30, 0x36, 0xA5, 0x38, 0xBF, 0x40, 0xA3, 0x9E, 0x81, 0xF3, 0xD7, 0xFB]
  {
  }

  lemma InvSBoxRow1()
    ensures [InvSBox(0x10), InvSBox(0x11), InvSBox(0x12), InvSBox(0x13), InvSBox(0x14), InvSBox(0x15), InvSBox(0x16), InvSBox(0x17), InvSBox(0x18), InvSBox(0x19), InvSBox(0x1A), InvSBox(0x1B), InvSBox(0x1C), InvSBox(0x1D), InvSBox(0x1E), InvSBox(0x1F)]
         == [0x7C, 0xE3, 0x39, 0x82, 0x9B, 0x2F, 0xFF, 0x87, 0x34, 0x8E, 0x43, 0x44, 0xC4, 0xDE, 0xE9, 0xCB]
  {
  }

  lemma InvSBoxRow2()
    ensures [InvSBox(0x20), InvSBox(0x21), InvSBox(0x22), InvSBox(0x23), InvSBox(0x24), InvSBox(0x25), InvSBox(0x26), InvSBox(0x27), InvSBox(0x28), InvSBox(0x29), InvSBox(0x2A), InvSBox(0x2B), InvSBox(0x2C), InvSBox(0x2D), InvSBox(0x2E), InvSBox(0x2F)]
         == [0x54, 0x7B, 0x94, 0x32, 0xA6, 0xC2, 0x23, 0x3D, 0xEE, 0x4C, 0x95, 0x0B, 0x42, 0xFA, 0xC3, 0x4E]
  {
  }

  lemma InvSBoxRow3()
    ensures [InvSBox(0x30), InvSBox(0x31), InvSBox(0x32), InvSBox(0x33), InvSBox(0x34), InvSBox(0x35), InvSBox(0x36), InvSBox(0x37), InvSBox(0x38), InvSBox(0x39), InvSBox(0x3A), InvSBox(0x3B), InvSBox(0x3C), InvSBox(0x3D), InvSBox(0x3E), InvSBox(0x3F)]
         == [0x08, 0x2E, 0xA1, 0x66, 0x28, 0xD9, 0x24, 0xB2, 0x76, 0x5B, 0xA2, 0x49, 0x6D, 0x8B, 0xD1, 0x25]
  {
  }

  lemma InvSBoxRow4()
    ensures [InvSBox(0x40), InvSBox(0x41), InvSBox(0x42), InvSBox(0x43), InvSBox(0x44), InvSBox(0x45), InvSBox(0x46), InvSBox(0x47), InvSBox(0x48), InvSBox(0x49), InvSBox(0x4A), InvSBox(0x4B), InvSBox(0x4C), InvSBox(0x4D), InvSBox(0x4E), InvSBox(0x4F)]
         == [0x72, 0xF8, 0xF6, 0x64, 0x86, 0x68, 0x98, 0x16, 0xD4, 0xA4, 0x5C, 0xCC, 0x5D, 0x65, 0xB6, 0x92]
  {
  }

  lemma InvSBoxRow5()
    ensures [InvSBox(0x50), InvSBox(0x51), InvSBox(0x52), InvSBox(0x53), InvSBox(0x54), InvSBox(0x55), InvSBox(0x56), InvSBox(0x57), InvSBox(0x58), InvSBox(0x59), InvSBox(0x5A), InvSBox(0x5B), InvSBox(0x5C), InvSBox(0x5D), InvSBox(0x5E), InvSBox(0x5F)]
         == [0x6C, 0x70, 0x48, 0x50, 0xFD, 0xED, 0xB9, 0xDA, 0x5E, 0x15, 0x46, 0x57, 0xA7, 0x8D, 0x9D, 0x84]
  {
  }

  lemma InvSBoxRow6()
    ensures [InvSBox(0x60), InvSBox(0x61), InvSBox(0x62), InvSBox(0x63), InvSBox(0x64), InvSBox(0x65), InvSBox(0x66), InvSBox(0x67), InvSBox(0x68), InvSBox(0x69), InvSBox(0x6A), InvSBox(0x6B), InvSBox(0x6C), InvSBox(0x6D), InvSBox(0x6E), InvSBox(0x6F)]
         == [0x90, 0xD8, 0xAB, 0x00, 0x8C, 0xBC, 0xD3, 0x0A, 0xF7, 0xE4, 0x58, 0x05, 0xB8, 0xB3, 0x45, 0x06]
  {
  }

  lemma InvSBoxRow7()
    ensures [InvSBox(0x70), InvSBox(0x71), InvSBox(0x72), InvSBox(0x73), InvSBox(0x74), InvSBox(0x75), InvSBox(0x76), InvSBox(0x77), InvSBox(0x78), InvSBox(0x79), InvSBox(0x7A), InvSBox(0x7B), InvSBox(0x7C), InvSBox(0x7D), InvSBox(0x7E), InvSBox(0x7F)]
         == [0xD0, 0x2C, 0x1E, 0x8F, 0xCA, 0x3F, 0x0F, 0x02, 0xC1, 0xAF, 0xBD, 0x03, 0x01, 0x13, 0x8A, 0x6B]
  {
  }

  lemma InvSBoxRow8()
    ensures [InvSBox(0x80), InvSBox(0x81), InvSBox(0x82), InvSBox(0x83), InvSBox(0x84), InvSBox(0x85), InvSBox(0x86), InvSBox(0x87), InvSBox(0x88), InvSBox(0x89), InvSBox(0x8A), InvSBox(0x8B), InvSBox(0x8C), InvSBox(0x8D), InvSBox(0x8E), InvSBox(0x8F)]
         == [0x3A, 0x91, 0x11, 0x41, 0x4F, 0x67, 0xDC, 0xEA, 0x97, 0xF2, 0xCF, 0xCE, 0xF0, 0xB4, 0xE6, 0x73]
  {
  }

  lemma InvSBoxRow9()
    ensures [InvSBox(0x90), InvSBox(0x91), InvSBox(0x92), InvSBox(0x93), InvSBox(0x94), InvSBox(0x95), InvSBox(0x96), InvSBox(0x97), InvSBox(0x98), InvSBox(0x99), InvSBox(0x9A), InvSBox(0x9B), InvSBox(0x9C), InvSBox(0x9D), InvSBox(0x9E), InvSBox(0x9F)]
         == [0x96, 0xAC, 0x74, 0x22, 0xE7, 0xAD, 0x35, 0x85, 0xE2, 0xF9, 0x37, 0xE8, 0x1C, 0x75, 0xDF, 0x6E]
  {
  }

  lemma InvSBoxRowA()
    ensures [InvSBox(0xA0), InvSBox(0xA1), InvSBox(0xA2), InvSBox(0xA3), InvSBox(0xA4), InvSBox(0xA5), InvSBox(0xA6), InvSBox(0xA7), InvSBox(0xA8), InvSBox(0xA9), InvSBox(0xAA), InvSBox(0xAB), InvSBox(0xAC), InvSBox(0xAD), InvSBox(0xAE), InvSBox(0xAF)]
         == [0x47, 0xF1, 0x1A, 0x71, 0x1D, 0x29, 0xC5, 0x89, 0x6F, 0xB7, 0x62, 0x0E, 0xAA, 0x18, 0xBE, 0x1B]
  {
  }

  lemma InvSBoxRowB()
    ensures [InvSBox(0xB0), InvSBox(0xB1), InvSBox(0xB2), InvSBox(0xB3), InvSBox(0xB4), InvSBox(0xB5), InvSBox(0xB6), InvSBox(0xB7), InvSBox(0xB8), InvSBox(0xB9), InvSBox(0xBA), InvSBox(0xBB), InvSBox(0xBC), InvSBox(0xBD), InvSBox(0xBE), InvSBox(0xBF)]
         == [0xFC, 0x56, 0x3E, 0x4B, 0xC6, 0xD2, 0x79, 0x20, 0x9A, 0xDB, 0xC0, 0xFE, 0x78, 0xCD, 0x5A, 0xF4]
  {
  }

  lemma InvSBoxRowC()
    ensures [InvSBox(0xC0), InvSBox(0xC1), InvSBox(0xC2), InvSBox(0xC3), InvSBox(0xC4), InvSBox(0xC5), InvSBox(0xC6), InvSBox(0xC7), InvSBox(0xC8), InvSBox(0xC9), InvSBox(0xCA), InvSBox(0xCB), InvSBox(0xCC), InvSBox(0xCD), InvSBox(0xCE), InvSBox(0xCF)]
         == [0x1F, 0xDD, 0xA8, 0x33, 0x88, 0x07, 0xC7, 0x31, 0xB1, 0x12, 0x10, 0x59, 0x27, 0x80, 0xEC, 0x5F]
  {
  }

  lemma InvSBoxRowD()
    ensures [InvSBox(0xD0), InvSBox(0xD1), InvSBox(0xD2), InvSBox(0xD3), InvSBox(0xD4), InvSBox(0xD5), InvSBox(0xD6), InvSBox(0xD7), InvSBox(0xD8), InvSBox(0xD9), InvSBox(0xDA), InvSBox(0xDB), InvSBox(0xDC), InvSBox(0xDD), InvSBox(0xDE), InvSBox(0xDF)]
         == [0x60, 0x51, 0x7F, 0xA9, 0x19, 0xB5, 0x4A, 0x0D, 0x2D, 0xE5, 0x7A, 0x9F, 0x93, 0xC9, 0x9C, 0xEF]
  {
  }

  lemma InvSBoxRowE()
    ensures [InvSBox(0xE0), InvSBox(0xE1), InvSBox(0xE2), InvSBox(0xE3), InvSBox(0xE4), InvSBox(0xE5), InvSBox(0xE6), InvSBox(0xE7), InvSBox(0xE8), InvSBox(0xE9), InvSBox(0xEA), InvSBox(0xEB), InvSBox(0xEC), InvSBox(0xED), InvSBox(0xEE), InvSBox(0xEF)]
         == [0xA0, 0xE0, 0x3B, 0x4D, 0xAE, 0x2A, 0xF5, 0xB0, 0xC8, 0xEB, 0xBB, 0x3C, 0x83, 0x53, 0x99, 0x61]
  {
  }

  lemma InvSBoxRowF()
    ensures [InvSBox(0xF0), InvSBox(0xF1), InvSBox(0xF2), InvSBox(0xF3), InvSBox(0xF4), InvSBox(0xF5), InvSBox(0xF6), InvSBox(0xF7), InvSBox(0xF8), InvSBox(0xF9), InvSBox(0xFA), InvSBox(0xFB), InvSBox(0xFC), InvSBox(0xFD), InvSBox(0xFE), InvSBox(0xFF)]
         == [0x17, 0x2B, 0x04, 0x7E, 0xBA, 0x77, 0xD6, 0x26, 0xE1, 0x69, 0x14, 0x63, 0x55, 0x21, 0x0C, 0x7D]
  {
  }

  lemma InvSBoxRows()
    ensures InvSBox(0x00) == 0x52 && InvSBox(0x01) == 0x09 && InvSBox(0x02) == 0x6A && InvSBox(0x03) == 0xD5 && InvSBox(0x04) == 0x30 && InvSBox(0x05) == 0x36 && InvSBox(0x06) == 0xA5 && InvSBox(0x07) == 0x38 && InvSBox(0x08) == 0xBF && InvSBox(0x09) == 0x40 && InvSBox(0x0A) == 0xA3 && InvSBox(0x0B) == 0x9E && InvSBox(0x0C) == 0x81 && InvSBox(0x0D) == 0xF3 && InvSBox(0x0E) == 0xD7 && InvSBox(0x0F) == 0xFB
    ensures InvSBox(0x10) == 0x7C && InvSBox(0x11) == 0xE3 && InvSBox(0x12) == 0x39 && InvSBox(0x13) == 0x82 && InvSBox(0x14) == 0x9B && InvSBox(0x15) == 0x2F && InvSBox(0x16) == 0xFF && InvSBox(0x17) == 0x87 && InvSBox(0x18) == 0x34 && InvSBox(0x19) == 0x8E && InvSBox(0x1A) == 0x43 && InvSBox(0x1B) == 0x44 && InvSBox(0x1C) == 0xC4 && InvSBox(0x1D) == 0xDE && InvSBox(0x1E) == 0xE9 && InvSBox(0x1F) == 0xCB
    ensures InvSBox(0x20) == 0x54 && InvSBox(0x21) == 0x7B && InvSBox(0x22) == 0x94 && InvSBox(0x23) == 0x32 && InvSBox(0x24) == 0xA6 && InvSBox(0x25) == 0xC2 && InvSBox(0x26) == 0x23 && InvSBox(0x27) == 0x3D && InvSBox(0x28) == 0xEE && InvSBox(0x29) == 0x4C && InvSBox(0x2A) == 0x95 && InvSBox(0x2B) == 0x0B && InvSBox(0x2C) == 0x42 && InvSBox(0x2D) == 0xFA && InvSBox(0x2E) == 0xC3 && InvSBox(0x2F) == 0x4E
    ensures InvSBox(0x30) == 0x08 && InvSBox(0x31) == 0x2E && InvSBox(0x32) == 0xA1 && InvSBox(0x33) == 0x66 && InvSBox(0x34) == 0x28 && InvSBox(0x35) == 0xD9 && InvSBox(0x36) == 0x24 && InvSBox(0x37) == 0xB2 && InvSBox(0x38) == 0x76 && InvSBox(0x39) == 0x5B && InvSBox(0x3A) == 0xA2 && InvSBox(0x3B) == 0x49 && InvSBox(0x3C) == 0x6D && InvSBox(0x3D) == 0x8B && InvSBox(0x3E) == 0xD1 && InvSBox(0x3F) == 0x25
    ensures InvSBox(0x40) == 0x72 && InvSBox(0x41) == 0xF8 && InvSBox(0x42) == 0xF6 && InvSBox(0x43) == 0x64 && InvSBox(0x44) == 0x86 && InvSBox(0x45) == 0x68 && InvSBox(0x46) == 0x98 && InvSBox(0x47) == 0x16 && InvSBox(0x48) == 0xD4 && InvSBox(0x49) == 0xA4 && InvSBox(0x4A) == 0x5C && InvSBox(0x4B) == 0xCC && InvSBox(0x4C) == 0x5D && InvSBox(0x4D) == 0x65 && InvSBox(0x4E) == 0xB6 && InvSBox(0x4F) == 0x92
    ensures InvSBox(0x50) == 0x6C && InvSBox(0x51) == 0x70 && InvSBox(0x52) == 0x48 && InvSBox(0x53) == 0x50 && InvSBox(0x54) == 0xFD && InvSBox(0x55) == 0xED && InvSBox(0x56) == 0xB9 && InvSBox(0x57) == 0xDA && InvSBox(0x58) == 0x5E && InvSBox(0x59) == 0x15 && InvSBox(0x5A) == 0x46 && InvSBox(0x5B) == 0x57 && InvSBox(0x5C) == 0xA7 && InvSBox(0x5D) == 0x8D && InvSBox(0x5E) == 0x9D && InvSBox(0x5F) == 0x84
    ensures InvSBox(0x60) == 0x90 && InvSBox(0x61) == 0xD8 && InvSBox(0x62) == 0xAB && InvSBox(0x63) == 0x00 && InvSBox(0x64) == 0x8C && InvSBox(0x65) == 0xBC && InvSBox(0x66) == 0xD3 && InvSBox(0x67) == 0x0A && InvSBox(0x68) == 0xF7 && InvSBox(0x69) == 0xE4 && InvSBox(0x6A) == 0x58 && InvSBox(0x6B) == 0x05 && InvSBox(0x6C) == 0xB8 && InvSBox(0x6D) == 0xB3 && InvSBox(0x6E) == 0x45 && InvSBox(0x6F) == 0x06
    ensures InvSBox(0x70) == 0xD0 && InvSBox(0x71) == 0x2C && InvSBox(0x72) == 0x1E && InvSBox(0x73) == 0x8F && InvSBox(0x74) == 0xCA && InvSBox(0x75) == 0x3F && InvSBox(0x76) == 0x0F && InvSBox(0x77) == 0x02 && InvSBox(0x78) == 0xC1 && InvSBox(0x79) == 0xAF && InvSBox(0x7A) == 0xBD && InvSBox(0x7B) == 0x03 && InvSBox(0x7C) == 0x01 && InvSBox(0x7D) == 0x13 && InvSBox(0x7E) == 0x8A && InvSBox(0x7F) == 0x6B
    ensures InvSBox(0x80) == 0x3A && InvSBox(0x81) == 0x91 && InvSBox(0x82) == 0x11 && InvSBox(0x83) == 0x41 && InvSBox(0x84) == 0x4F && InvSBox(0x85) == 0x67 && InvSBox(0x86) == 0xDC && InvSBox(0x87) == 0xEA && InvSBox(0x88) == 0x97 && InvSBox(0x89) == 0xF2 && InvSBox(0x8A) == 0xCF && InvSBox(0x8B) == 0xCE && InvSBox(0x8C) == 0xF0 && InvSBox(0x8D) == 0xB4 && InvSBox(0x8E) == 0xE6 && InvSBox(0x8F) == 0x73
    ensures InvSBox(0x90) == 0x96 && InvSBox(0x91) == 0xAC && InvSBox(0x92) == 0x74 && InvSBox(0x93) == 0x22 && InvSBox(0x94) == 0xE7 && InvSBox(0x95) == 0xAD && InvSBox(0x96) == 0x35 && InvSBox(0x97) == 0x85 && InvSBox(0x98) == 0xE2 && InvSBox(0x99) == 0xF9 && InvSBox(0x9A) == 0x37 && InvSBox(0x9B) == 0xE8 && InvSBox(0x9C) == 0x1C && InvSBox(0x9D) == 0x75 && InvSBox(0x9E) == 0xDF && InvSBox(0x9F) == 0x6E
    ensures InvSBox(0xA0) == 0x47 && InvSBox(0xA1) == 0xF1 && InvSBox(0xA2) == 0x1A && InvSBox(0xA3) == 0x71 && InvSBox(0xA4) == 0x1D && InvSBox(0xA5) == 0x29 && InvSBox(0xA6) == 0xC5 && InvSBox(0xA7) == 0x89 && InvSBox(0xA8) == 0x6F && InvSBox(0xA9) == 0xB7 && InvSBox(0xAA) == 0x62 && InvSBox(0xAB) == 0x0E && InvSBox(0xAC) == 0xAA && InvSBox(0xAD) == 0x18 && InvSBox(0xAE) == 0xBE && InvSBox(0xAF) == 0x1B
    ensures InvSBox(0xB0) == 0xFC && InvSBox(0xB1) == 0x56 && InvSBox(0xB2) == 0x3E && InvSBox(0xB3) == 0x4B && InvSBox(0xB4) == 0xC6 && InvSBox(0xB5) == 0xD2 && InvSBox(0xB6) == 0x79 && InvSBox(0xB7) == 0x20 && InvSBox(0xB8) == 0x9A && InvSBox(0xB9) == 0xDB && InvSBox(0xBA) == 0xC0 && InvSBox(0xBB) == 0xFE && InvSBox(0xBC) == 0x78 && InvSBox(0xBD) == 0xCD && InvSBox(0xBE) == 0x5A && InvSBox(0xBF) == 0xF4
    ensures InvSBox(0xC0) == 0x1F && InvSBox(0xC1) == 0xDD && InvSBox(0xC2) == 0xA8 && InvSBox(0xC3) == 0x33 && InvSBox(0xC4) == 0x88 && InvSBox(0xC5) == 0x07 && InvSBox(0xC6) == 0xC7 && InvSBox(0xC7) == 0x31 && InvSBox(0xC8) == 0xB1 && InvSBox(0xC9) == 0x12 && InvSBox(0xCA) == 0x10 && InvSBox(0xCB) == 0x59 && InvSBox(0xCC) == 0x27 && InvSBox(0xCD) == 0x80 && InvSBox(0xCE) == 0xEC && InvSBox(0xCF) == 0x5F
    ensures InvSBox(0xD0) == 0x60 && InvSBox(0xD1) == 0x51 && InvSBox(0xD2) == 0x7F && InvSBox(0xD3) == 0xA9 && InvSBox(0xD4) == 0x19 && InvSBox(0xD5) == 0xB5 && InvSBox(0xD6) == 0x4A && InvSBox(0xD7) == 0x0D && InvSBox(0xD8) == 0x2D && InvSBox(0xD9) == 0xE5 && InvSBox(0xDA) == 0x7A && InvSBox(0xDB) == 0x9F && InvSBox(0xDC) == 0x93 && InvSBox(0xDD) == 0xC9 && InvSBox(0xDE) == 0x9C && InvSBox(0xDF) == 0xEF
    ensures InvSBox(0xE0) == 0xA0 && InvSBox(0xE1) == 0xE0 && InvSBox(0xE2) == 0x3B && InvSBox(0xE3) == 0x4D && InvSBox(0xE4) == 0xAE && InvSBox(0xE5) == 0x2A && InvSBox(0xE6) == 0xF5 && InvSBox(0xE7) == 0xB0 && InvSBox(0xE8) == 0xC8 && InvSBox(0xE9) == 0xEB && InvSBox(0xEA) == 0xBB && InvSBox(0xEB) == 0x3C && InvSBox(0xEC) == 0x83 && InvSBox(0xED) == 0x53 && InvSBox(0xEE) == 0x99 && InvSBox(0xEF) == 0x61
    ensures InvSBox(0xF0) == 0x17 && InvSBox(0xF1) == 0x2B && InvSBox(0xF2) == 0x04 && InvSBox(0xF3) == 0x7E && InvSBox(0xF4) == 0xBA && InvSBox(0xF5) == 0x77 && InvSBox(0xF6) == 0xD6 && InvSBox(0xF7) == 0x26 && InvSBox(0xF8) == 0xE1 && InvSBox(0xF9) == 0x69 && InvSBox(0xFA) == 0x14 && InvSBox(0xFB) == 0x63 && InvSBox(0xFC) == 0x55 && InvSBox(0xFD) == 0x21 && InvSBox(0xFE) == 0x0C && InvSBox(0xFF) == 0x7D
  {
    hide InvSBox;
    InvSBoxRow0(); InvSBoxRow1(); InvSBoxRow2(); InvSBoxRow3(); InvSBoxRow4(); InvSBoxRow5(); InvSBoxRow6(); InvSBoxRow7();
    InvSBoxRow8(); InvSBoxRow9(); InvSBoxRowA(); InvSBoxRowB(); InvSBoxRowC(); InvSBoxRowD(); InvSBoxRowE(); InvSBoxRowF();
  }

  /** Each table inverts the other on all 256 bytes. */
  lemma TablesInverse(x: Byte)
    ensures InvSBox(SBox(x)) == x
    ensures SBox(InvSBox(x)) == x
  {
    hide SBox, InvSBox;
    SBoxRows();
    InvSBoxRows();
    if
    case x == 0x00 => case x == 0x01 => case x == 0x02 => case x == 0x03 => case x == 0x04 => case x == 0x05 => case x == 0x06 => case x == 0x07 =>
    case x == 0x08 => case x == 0x09 => case x == 0x0A => case x == 0x0B => case x == 0x0C => case x == 0x0D => case x == 0x0E => case x == 0x0F =>
    case x == 0x10 => case x == 0x11 => case x == 0x12 => case x == 0x13 => case x == 0x14 => case x == 0x15 => case x == 0x16 => case x == 0x17 =>
    case x == 0x18 => case x == 0x19 => case x == 0x1A => case x == 0x1B => case x == 0x1C => case x == 0x1D => case x == 0x1E => case x == 0x1F =>
    case x == 0x20 => case x == 0x21 => case x == 0x22 => case x == 0x23 => case x == 0x24 => case x == 0x25 => case x == 0x26 => case x == 0x27 =>
    case x == 0x28 => case x == 0x29 => case x == 0x2A => case x == 0x2B => case x == 0x2C => case x == 0x2D => case x == 0x2E => case x == 0x2F =>
    case x == 0x30 => case x == 0x31 => case x == 0x32 => case x == 0x33 => case x == 0x34 => case x == 0x35 => case x == 0x36 => case x == 0x37 =>
    case x == 0x38 => case x == 0x39 => case x == 0x3A => case x == 0x3B => case x == 0x3C => case x == 0x3D => case x == 0x3E => case x == 0x3F =>
    case x == 0x40 => case x == 0x41 => case x == 0x42 => case x == 0x43 => case x == 0x44 => case x == 0x45 => case x == 0x46 => case x == 0x47 =>
    case x == 0x48 => case x == 0x49 => case x == 0x4A => case x == 0x4B => case x == 0x4C => case x == 0x4D => case x == 0x4E => case x == 0x4F =>
    case x == 0x50 => case x == 0x51 => case x == 0x52 => case x == 0x53 => case x == 0x54 => case x == 0x55 => case x == 0x56 => case x == 0x57 =>
    case x == 0x58 => case x == 0x59 => case x == 0x5A => case x == 0x5B => case x == 0x5C => case x == 0x5D => case x == 0x5E => case x == 0x5F =>
    case x == 0x60 => case x == 0x61 => case x == 0x62 => case x == 0x63 => case x == 0x64 => case x == 0x65 => case x == 0x66 => case x == 0x67 =>
    case x == 0x68 => case x == 0x69 => case x == 0x6A => case x == 0x6B => case x == 0x6C => case x == 0x6D => case x == 0x6E => case x == 0x6F =>
    case x == 0x70 => case x == 0x71 => case x == 0x72 => case x == 0x73 => case x == 0x74 => case x == 0x75 => case x == 0x76 => case x == 0x77 =>
    case x == 0x78 => case x == 0x79 => case x == 0x7A => case x == 0x7B => case x == 0x7C => case x == 0x7D => case x == 0x7E => case x == 0x7F =>
    case x == 0x80 => case x == 0x81 => case x == 0x82 => case x == 0x83 => case x == 0x84 => case x == 0x85 => case x == 0x86 => case x == 0x87 =>
    case x == 0x88 => case x == 0x89 => case x == 0x8A => case x == 0x8B => case x == 0x8C => case x == 0x8D => case x == 0x8E => case x == 0x8F =>
    case x == 0x90 => case x == 0x91 => case x == 0x92 => case x == 0x93 => case x == 0x94 => case x == 0x95 => case x == 0x96 => case x == 0x97 =>
    case x == 0x98 => case x == 0x99 => case x == 0x9A => case x == 0x9B => case x == 0x9C => case x == 0x9D => case x == 0x9E => case x == 0x9F =>
    case x == 0xA0 => case x == 0xA1 => case x == 0xA2 => case x == 0xA3 => case x == 0xA4 => case x == 0xA5 => case x == 0xA6 => case x == 0xA7 =>
    case x == 0xA8 => case x == 0xA9 => case x == 0xAA => case x == 0xAB => case x == 0xAC => case x == 0xAD => case x == 0xAE => case x == 0xAF =>
    case x == 0xB0 => case x == 0xB1 => case x == 0xB2 => case x == 0xB3 => case x == 0xB4 => case x == 0xB5 => case x == 0xB6 => case x == 0xB7 =>
    case x == 0xB8 => case x == 0xB9 => case x == 0xBA => case x == 0xBB => case x == 0xBC => case x == 0xBD => case x == 0xBE => case x == 0xBF =>
    case x == 0xC0 => case x == 0xC1 => case x == 0xC2 => case x == 0xC3 => case x == 0xC4 => case x == 0xC5 => case x == 0xC6 => case x == 0xC7 =>
    case x == 0xC8 => case x == 0xC9 => case x == 0xCA => case x == 0xCB => case x == 0xCC => case x == 0xCD => case x == 0xCE => case x == 0xCF =>
    case x == 0xD0 => case x == 0xD1 => case x == 0xD2 => case x == 0xD3 => case x == 0xD4 => case x == 0xD5 => case x == 0xD6 => case x == 0xD7 =>
    case x == 0xD8 => case x == 0xD9 => case x == 0xDA => case x == 0xDB => case x == 0xDC => case x == 0xDD => case x == 0xDE => case x == 0xDF =>
    case x == 0xE0 => case x == 0xE1 => case x == 0xE2 => case x == 0xE3 => case x == 0xE4 => case x == 0xE5 => case x == 0xE6 => case x == 0xE7 =>
    case x == 0xE8 => case x == 0xE9 => case x == 0xEA => case x == 0xEB => case x == 0xEC => case x == 0xED => case x == 0xEE => case x == 0xEF =>
    case x == 0xF0 => case x == 0xF1 => case x == 0xF2 => case x == 0xF3 => case x == 0xF4 => case x == 0xF5 => case x == 0xF6 => case x == 0xF7 =>
    case x == 0xF8 => case x == 0xF9 => case x == 0xFA => case x == 0xFB => case x == 0xFC => case x == 0xFD => case x == 0xFE => case x == 0xFF =>
  }
}

/**
 The constant tables of `examples/aes_encrypt/aes.c`, entry for entry: the two substitution
 tables (lines 94-130) and the six columns of `gf_mul` (lines 139-268). A table of 256 bytes is
 a function of its row (the high nibble of the index) and its column (the low nibble); only the
 low nibbles 0 to 15 are ever passed.
 */
module AesTables {

  function AesSboxRow0(col: bv8): bv8 {
    match col
    case 0 => 0x63 case 1 => 0x7c case 2 => 0x77 case 3 => 0x7b
    case 4 => 0xf2 case 5 => 0x6b case 6 => 0x6f case 7 => 0xc5
    case 8 => 0x30 case 9 => 0x01 case 10 => 0x67 case 11 => 0x2b
    case 12 => 0xfe case 13 => 0xd7 case 14 => 0xab case _ => 0x76
  }

  function AesSboxRow1(col: bv8): bv8 {
    match col
    case 0 => 0xca case 1 => 0x82 case 2 => 0xc9 case 3 => 0x7d
    case 4 => 0xfa case 5 => 0x59 case 6 => 0x47 case 7 => 0xf0
    case 8 => 0xad case 9 => 0xd4 case 10 => 0xa2 case 11 => 0xaf
    case 12 => 0x9c case 13 => 0xa4 case 14 => 0x72 case _ => 0xc0
  }

  function AesSboxRow2(col: bv8): bv8 {
    match col
    case 0 => 0xb7 case 1 => 0xfd case 2 => 0x93 case 3 => 0x26
    case 4 => 0x36 case 5 => 0x3f case 6 => 0xf7 case 7 => 0xcc
    case 8 => 0x34 case 9 => 0xa5 case 10 => 0xe5 case 11 => 0xf1
    case 12 => 0x71 case 13 => 0xd8 case 14 => 0x31 case _ => 0x15
  }

  function AesSboxRow3(col: bv8): bv8 {
    match col
    case 0 => 0x04 case 1 => 0xc7 case 2 => 0x23 case 3 => 0xc3
    case 4 => 0x18 case 5 => 0x96 case 6 => 0x05 case 7 => 0x9a
    case 8 => 0x07 case 9 => 0x12 case 10 => 0x80 case 11 => 0xe2
    case 12 => 0xeb case 13 => 0x27 case 14 => 0xb2 case _ => 0x75
  }

  function AesSboxRow4(col: bv8): bv8 {
    match col
    case 0 => 0x09 case 1 => 0x83 case 2 => 0x2c case 3 => 0x1a
    case 4 => 0x1b case 5 => 0x6e case 6 => 0x5a case 7 => 0xa0
    case 8 => 0x52 case 9 => 0x3b case 10 => 0xd6 case 11 => 0xb3
    case 12 => 0x29 case 13 => 0xe3 case 14 => 0x2f case _ => 0x84
  }

  function AesSboxRow5(col: bv8): bv8 {
    match col
    case 0 => 0x53 case 1 => 0xd1 case 2 => 0x00 case 3 => 0xed
    case 4 => 0x20 case 5 => 0xfc case 6 => 0xb1 case 7 => 0x5b
    case 8 => 0x6a case 9 => 0xcb case 10 => 0xbe case 11 => 0x39
    case 12 => 0x4a case 13 => 0x4c case 14 => 0x58 case _ => 0xcf
  }

  function AesSboxRow6(col: bv8): bv8 {
    match col
    case 0 => 0xd0 case 1 => 0xef case 2 => 0xaa case 3 => 0xfb
    case 4 => 0x43 case 5 => 0x4d case 6 => 0x33 case 7 => 0x85
    case 8 => 0x45 case 9 => 0xf9 case 10 => 0x02 case 11 => 0x7f
    case 12 => 0x50 case 13 => 0x3c case 14 => 0x9f case _ => 0xa8
  }

  function AesSboxRow7(col: bv8): bv8 {
    match col
    case 0 => 0x51 case 1 => 0xa3 case 2 => 0x40 case 3 => 0x8f
    case 4 => 0x92 case 5 => 0x9d case 6 => 0x38 case 7 => 0xf5
    case 8 => 0xbc case 9 => 0xb6 case 10 => 0xda case 11 => 0x21
    case 12 => 0x10 case 13 => 0xff case 14 => 0xf3 case _ => 0xd2
  }

  function AesSboxRow8(col: bv8): bv8 {
    match col
    case 0 => 0xcd case 1 => 0x0c case 2 => 0x13 case 3 => 0xec
    case 4 => 0x5f case 5 => 0x97 case 6 => 0x44 case 7 => 0x17
    case 8 => 0xc4 case 9 => 0xa7 case 10 => 0x7e case 11 => 0x3d
    case 12 => 0x64 case 13 => 0x5d case 14 => 0x19 case _ => 0x73
  }

  function AesSboxRow9(col: bv8): bv8 {
    match col
    case 0 => 0x60 case 1 => 0x81 case 2 => 0x4f case 3 => 0xdc
    case 4 => 0x22 case 5 => 0x2a case 6 => 0x90 case 7 => 0x88
    case 8 => 0x46 case 9 => 0xee case 10 => 0xb8 case 11 => 0x14
    case 12 => 0xde case 13 => 0x5e case 14 => 0x0b case _ => 0xdb
  }

  function AesSboxRowA(col: bv8): bv8 {
    match col
    case 0 => 0xe0 case 1 => 0x32 case 2 => 0x3a case 3 => 0x0a
    case 4 => 0x49 case 5 => 0x06 case 6 => 0x24 case 7 => 0x5c
    case 8 => 0xc2 case 9 => 0xd3 case 10 => 0xac case 11 => 0x62
    case 12 => 0x91 case 13 => 0x95 case 14 => 0xe4 case _ => 0x79
  }

  function AesSboxRowB(col: bv8): bv8 {
    match col
    case 0 => 0xe7 case 1 => 0xc8 case 2 => 0x37 case 3 => 0x6d
    case 4 => 0x8d case 5 => 0xd5 case 6 => 0x4e case 7 => 0xa9
    case 8 => 0x6c case 9 => 0x56 case 10 => 0xf4 case 11 => 0xea
    case 12 => 0x65 case 13 => 0x7a case 14 => 0xae case _ => 0x08
  }

  function AesSboxRowC(col: bv8): bv8 {
    match col
    case 0 => 0xba case 1 => 0x78 case 2 => 0x25 case 3 => 0x2e
    case 4 => 0x1c case 5 => 0xa6 case 6 => 0xb4 case 7 => 0xc6
    case 8 => 0xe8 case 9 => 0xdd case 10 => 0x74 case 11 => 0x1f
    case 12 => 0x4b case 13 => 0xbd case 14 => 0x8b case _ => 0x8a
  }

  function AesSboxRowD(col: bv8): bv8 {
    match col
    case 0 => 0x70 case 1 => 0x3e case 2 => 0xb5 case 3 => 0x66
    case 4 => 0x48 case 5 => 0x03 case 6 => 0xf6 case 7 => 0x0e
    case 8 => 0x61 case 9 => 0x35 case 10 => 0x57 case 11 => 0xb9
    case 12 => 0x86 case 13 => 0xc1 case 14 => 0x1d case _ => 0x9e
  }

  function AesSboxRowE(col: bv8): bv8 {
    match col
    case 0 => 0xe1 case 1 => 0xf8 case 2 => 0x98 case 3 => 0x11
    case 4 => 0x69 case 5 => 0xd9 case 6 => 0x8e case 7 => 0x94
    case 8 => 0x9b case 9 => 0x1e case 10 => 0x87 case 11 => 0xe9
    case 12 => 0xce case 13 => 0x55 case 14 => 0x28 case _ => 0xdf
  }

  function AesSboxRowF(col: bv8): bv8 {
    match col
    case 0 => 0x8c case 1 => 0xa1 case 2 => 0x89 case 3 => 0x0d
    case 4 => 0xbf case 5 => 0xe6 case 6 => 0x42 case 7 => 0x68
    case 8 => 0x41 case 9 => 0x99 case 10 => 0x2d case 11 => 0x0f
    case 12 => 0xb0 case 13 => 0x54 case 14 => 0xbb case _ => 0x16
  }

  // `aes_sbox[row][col]`
  function AesSbox(row: bv8, col: bv8): bv8 {
    match row
    case 0 => AesSboxRow0(col) case 1 => AesSboxRow1(col)
    case 2 => AesSboxRow2(col) case 3 => AesSboxRow3(col)
    case 4 => AesSboxRow4(col) case 5 => AesSboxRow5(col)
    case 6 => AesSboxRow6(col) case 7 => AesSboxRow7(col)
    case 8 => AesSboxRow8(col) case 9 => AesSboxRow9(col)
    case 10 => AesSboxRowA(col) case 11 => AesSboxRowB(col)
    case 12 => AesSboxRowC(col) case 13 => AesSboxRowD(col)
    case 14 => AesSboxRowE(col) case _ => AesSboxRowF(col)
  }

  function AesInvSboxRow0(col: bv8): bv8 {
    match col
    case 0 => 0x52 case 1 => 0x09 case 2 => 0x6a case 3 => 0xd5
    case 4 => 0x30 case 5 => 0x36 case 6 => 0xa5 case 7 => 0x38
    case 8 => 0xbf case 9 => 0x40 case 10 => 0xa3 case 11 => 0x9e
    case 12 => 0x81 case 13 => 0xf3 case 14 => 0xd7 case _ => 0xfb
  }

  function AesInvSboxRow1(col: bv8): bv8 {
    match col
    case 0 => 0x7c case 1 => 0xe3 case 2 => 0x39 case 3 => 0x82
    case 4 => 0x9b case 5 => 0x2f case 6 => 0xff case 7 => 0x87
    case 8 => 0x34 case 9 => 0x8e case 10 => 0x43 case 11 => 0x44
    case 12 => 0xc4 case 13 => 0xde case 14 => 0xe9 case _ => 0xcb
  }

  function AesInvSboxRow2(col: bv8): bv8 {
    match col
    case 0 => 0x54 case 1 => 0x7b case 2 => 0x94 case 3 => 0x32
    case 4 => 0xa6 case 5 => 0xc2 case 6 => 0x23 case 7 => 0x3d
    case 8 => 0xee case 9 => 0x4c case 10 => 0x95 case 11 => 0x0b
    case 12 => 0x42 case 13 => 0xfa case 14 => 0xc3 case _ => 0x4e
  }

  function AesInvSboxRow3(col: bv8): bv8 {
    match col
    case 0 => 0x08 case 1 => 0x2e case 2 => 0xa1 case 3 => 0x66
    case 4 => 0x28 case 5 => 0xd9 case 6 => 0x24 case 7 => 0xb2
    case 8 => 0x76 case 9 => 0x5b case 10 => 0xa2 case 11 => 0x49
    case 12 => 0x6d case 13 => 0x8b case 14 => 0xd1 case _ => 0x25
  }

  function AesInvSboxRow4(col: bv8): bv8 {
    match col
    case 0 => 0x72 case 1 => 0xf8 case 2 => 0xf6 case 3 => 0x64
    case 4 => 0x86 case 5 => 0x68 case 6 => 0x98 case 7 => 0x16
    case 8 => 0xd4 case 9 => 0xa4 case 10 => 0x5c case 11 => 0xcc
    case 12 => 0x5d case 13 => 0x65 case 14 => 0xb6 case _ => 0x92
  }

  function AesInvSboxRow5(col: bv8): bv8 {
    match col
    case 0 => 0x6c case 1 => 0x70 case 2 => 0x48 case 3 => 0x50
    case 4 => 0xfd case 5 => 0xed case 6 => 0xb9 case 7 => 0xda
    case 8 => 0x5e case 9 => 0x15 case 10 => 0x46 case 11 => 0x57
    case 12 => 0xa7 case 13 => 0x8d case 14 => 0x9d case _ => 0x84
  }

  function AesInvSboxRow6(col: bv8): bv8 {
    match col
    case 0 => 0x90 case 1 => 0xd8 case 2 => 0xab case 3 => 0x00
    case 4 => 0x8c case 5 => 0xbc case 6 => 0xd3 case 7 => 0x0a
    case 8 => 0xf7 case 9 => 0xe4 case 10 => 0x58 case 11 => 0x05
    case 12 => 0xb8 case 13 => 0xb3 case 14 => 0x45 case _ => 0x06
  }

  function AesInvSboxRow7(col: bv8): bv8 {
    match col
    case 0 => 0xd0 case 1 => 0x2c case 2 => 0x1e case 3 => 0x8f
    case 4 => 0xca case 5 => 0x3f case 6 => 0x0f case 7 => 0x02
    case 8 => 0xc1 case 9 => 0xaf case 10 => 0xbd case 11 => 0x03
    case 12 => 0x01 case 13 => 0x13 case 14 => 0x8a case _ => 0x6b
  }

  function AesInvSboxRow8(col: bv8): bv8 {
    match col
    case 0 => 0x3a case 1 => 0x91 case 2 => 0x11 case 3 => 0x41
    case 4 => 0x4f case 5 => 0x67 case 6 => 0xdc case 7 => 0xea
    case 8 => 0x97 case 9 => 0xf2 case 10 => 0xcf case 11 => 0xce
    case 12 => 0xf0 case 13 => 0xb4 case 14 => 0xe6 case _ => 0x73
  }

  function AesInvSboxRow9(col: bv8): bv8 {
    match col
    case 0 => 0x96 case 1 => 0xac case 2 => 0x74 case 3 => 0x22
    case 4 => 0xe7 case 5 => 0xad case 6 => 0x35 case 7 => 0x85
    case 8 => 0xe2 case 9 => 0xf9 case 10 => 0x37 case 11 => 0xe8
    case 12 => 0x1c case 13 => 0x75 case 14 => 0xdf case _ => 0x6e
  }

  function AesInvSboxRowA(col: bv8): bv8 {
    match col
    case 0 => 0x47 case 1 => 0xf1 case 2 => 0x1a case 3 => 0x71
    case 4 => 0x1d case 5 => 0x29 case 6 => 0xc5 case 7 => 0x89
    case 8 => 0x6f case 9 => 0xb7 case 10 => 0x62 case 11 => 0x0e
    case 12 => 0xaa case 13 => 0x18 case 14 => 0xbe case _ => 0x1b
  }

  function AesInvSboxRowB(col: bv8): bv8 {
    match col
    case 0 => 0xfc case 1 => 0x56 case 2 => 0x3e case 3 => 0x4b
    case 4 => 0xc6 case 5 => 0xd2 case 6 => 0x79 case 7 => 0x20
    case 8 => 0x9a case 9 => 0xdb case 10 => 0xc0 case 11 => 0xfe
    case 12 => 0x78 case 13 => 0xcd case 14 => 0x5a case _ => 0xf4
  }

  function AesInvSboxRowC(col: bv8): bv8 {
    match col
    case 0 => 0x1f case 1 => 0xdd case 2 => 0xa8 case 3 => 0x33
    case 4 => 0x88 case 5 => 0x07 case 6 => 0xc7 case 7 => 0x31
    case 8 => 0xb1 case 9 => 0x12 case 10 => 0x10 case 11 => 0x59
    case 12 => 0x27 case 13 => 0x80 case 14 => 0xec case _ => 0x5f
  }

  function AesInvSboxRowD(col: bv8): bv8 {
    match col
    case 0 => 0x60 case 1 => 0x51 case 2 => 0x7f case 3 => 0xa9
    case 4 => 0x19 case 5 => 0xb5 case 6 => 0x4a case 7 => 0x0d
    case 8 => 0x2d case 9 => 0xe5 case 10 => 0x7a case 11 => 0x9f
    case 12 => 0x93 case 13 => 0xc9 case 14 => 0x9c case _ => 0xef
  }

  function AesInvSboxRowE(col: bv8): bv8 {
    match col
    case 0 => 0xa0 case 1 => 0xe0 case 2 => 0x3b case 3 => 0x4d
    case 4 => 0xae case 5 => 0x2a case 6 => 0xf5 case 7 => 0xb0
    case 8 => 0xc8 case 9 => 0xeb case 10 => 0xbb case 11 => 0x3c
    case 12 => 0x83 case 13 => 0x53 case 14 => 0x99 case _ => 0x61
  }

  function AesInvSboxRowF(col: bv8): bv8 {
    match col
    case 0 => 0x17 case 1 => 0x2b case 2 => 0x04 case 3 => 0x7e
    case 4 => 0xba case 5 => 0x77 case 6 => 0xd6 case 7 => 0x26
    case 8 => 0xe1 case 9 => 0x69 case 10 => 0x14 case 11 => 0x63
    case 12 => 0x55 case 13 => 0x21 case 14 => 0x0c case _ => 0x7d
  }

  // `aes_invsbox[row][col]`
  function AesInvSbox(row: bv8, col: bv8): bv8 {
    match row
    case 0 => AesInvSboxRow0(col) case 1 => AesInvSboxRow1(col)
    case 2 => AesInvSboxRow2(col) case 3 => AesInvSboxRow3(col)
    case 4 => AesInvSboxRow4(col) case 5 => AesInvSboxRow5(col)
    case 6 => AesInvSboxRow6(col) case 7 => AesInvSboxRow7(col)
    case 8 => AesInvSboxRow8(col) case 9 => AesInvSboxRow9(col)
    case 10 => AesInvSboxRowA(col) case 11 => AesInvSboxRowB(col)
    case 12 => AesInvSboxRowC(col) case 13 => AesInvSboxRowD(col)
    case 14 => AesInvSboxRowE(col) case _ => AesInvSboxRowF(col)
  }

  function GfMul02Row0(col: bv8): bv8 {
    match col
    case 0 => 0x00 case 1 => 0x02 case 2 => 0x04 case 3 => 0x06
    case 4 => 0x08 case 5 => 0x0a case 6 => 0x0c case 7 => 0x0e
    case 8 => 0x10 case 9 => 0x12 case 10 => 0x14 case 11 => 0x16
    case 12 => 0x18 case 13 => 0x1a case 14 => 0x1c case _ => 0x1e
  }

  function GfMul02Row1(col: bv8): bv8 {
    match col
    case 0 => 0x20 case 1 => 0x22 case 2 => 0x24 case 3 => 0x26
    case 4 => 0x28 case 5 => 0x2a case 6 => 0x2c case 7 => 0x2e
    case 8 => 0x30 case 9 => 0x32 case 10 => 0x34 case 11 => 0x36
    case 12 => 0x38 case 13 => 0x3a case 14 => 0x3c case _ => 0x3e
  }

  function GfMul02Row2(col: bv8): bv8 {
    match col
    case 0 => 0x40 case 1 => 0x42 case 2 => 0x44 case 3 => 0x46
    case 4 => 0x48 case 5 => 0x4a case 6 => 0x4c case 7 => 0x4e
    case 8 => 0x50 case 9 => 0x52 case 10 => 0x54 case 11 => 0x56
    case 12 => 0x58 case 13 => 0x5a case 14 => 0x5c case _ => 0x5e
  }

  function GfMul02Row3(col: bv8): bv8 {
    match col
    case 0 => 0x60 case 1 => 0x62 case 2 => 0x64 case 3 => 0x66
    case 4 => 0x68 case 5 => 0x6a case 6 => 0x6c case 7 => 0x6e
    case 8 => 0x70 case 9 => 0x72 case 10 => 0x74 case 11 => 0x76
    case 12 => 0x78 case 13 => 0x7a case 14 => 0x7c case _ => 0x7e
  }

  function GfMul02Row4(col: bv8): bv8 {
    match col
    case 0 => 0x80 case 1 => 0x82 case 2 => 0x84 case 3 => 0x86
    case 4 => 0x88 case 5 => 0x8a case 6 => 0x8c case 7 => 0x8e
    case 8 => 0x90 case 9 => 0x92 case 10 => 0x94 case 11 => 0x96
    case 12 => 0x98 case 13 => 0x9a case 14 => 0x9c case _ => 0x9e
  }

  function GfMul02Row5(col: bv8): bv8 {
    match col
    case 0 => 0xa0 case 1 => 0xa2 case 2 => 0xa4 case 3 => 0xa6
    case 4 => 0xa8 case 5 => 0xaa case 6 => 0xac case 7 => 0xae
    case 8 => 0xb0 case 9 => 0xb2 case 10 => 0xb4 case 11 => 0xb6
    case 12 => 0xb8 case 13 => 0xba case 14 => 0xbc case _ => 0xbe
  }

  function GfMul02Row6(col: bv8): bv8 {
    match col
    case 0 => 0xc0 case 1 => 0xc2 case 2 => 0xc4 case 3 => 0xc6
    case 4 => 0xc8 case 5 => 0xca case 6 => 0xcc case 7 => 0xce
    case 8 => 0xd0 case 9 => 0xd2 case 10 => 0xd4 case 11 => 0xd6
    case 12 => 0xd8 case 13 => 0xda case 14 => 0xdc case _ => 0xde
  }

  function GfMul02Row7(col: bv8): bv8 {
    match col
    case 0 => 0xe0 case 1 => 0xe2 case 2 => 0xe4 case 3 => 0xe6
    case 4 => 0xe8 case 5 => 0xea case 6 => 0xec case 7 => 0xee
    case 8 => 0xf0 case 9 => 0xf2 case 10 => 0xf4 case 11 => 0xf6
    case 12 => 0xf8 case 13 => 0xfa case 14 => 0xfc case _ => 0xfe
  }

  function GfMul02Row8(col: bv8): bv8 {
    match col
    case 0 => 0x1b case 1 => 0x19 case 2 => 0x1f case 3 => 0x1d
    case 4 => 0x13 case 5 => 0x11 case 6 => 0x17 case 7 => 0x15
    case 8 => 0x0b case 9 => 0x09 case 10 => 0x0f case 11 => 0x0d
    case 12 => 0x03 case 13 => 0x01 case 14 => 0x07 case _ => 0x05
  }

  function GfMul02Row9(col: bv8): bv8 {
    match col
    case 0 => 0x3b case 1 => 0x39 case 2 => 0x3f case 3 => 0x3d
    case 4 => 0x33 case 5 => 0x31 case 6 => 0x37 case 7 => 0x35
    case 8 => 0x2b case 9 => 0x29 case 10 => 0x2f case 11 => 0x2d
    case 12 => 0x23 case 13 => 0x21 case 14 => 0x27 case _ => 0x25
  }

  function GfMul02RowA(col: bv8): bv8 {
    match col
    case 0 => 0x5b case 1 => 0x59 case 2 => 0x5f case 3 => 0x5d
    case 4 => 0x53 case 5 => 0x51 case 6 => 0x57 case 7 => 0x55
    case 8 => 0x4b case 9 => 0x49 case 10 => 0x4f case 11 => 0x4d
    case 12 => 0x43 case 13 => 0x41 case 14 => 0x47 case _ => 0x45
  }

  function GfMul02RowB(col: bv8): bv8 {
    match col
    case 0 => 0x7b case 1 => 0x79 case 2 => 0x7f case 3 => 0x7d
    case 4 => 0x73 case 5 => 0x71 case 6 => 0x77 case 7 => 0x75
    case 8 => 0x6b case 9 => 0x69 case 10 => 0x6f case 11 => 0x6d
    case 12 => 0x63 case 13 => 0x61 case 14 => 0x67 case _ => 0x65
  }

  function GfMul02RowC(col: bv8): bv8 {
    match col
    case 0 => 0x9b case 1 => 0x99 case 2 => 0x9f case 3 => 0x9d
    case 4 => 0x93 case 5 => 0x91 case 6 => 0x97 case 7 => 0x95
    case 8 => 0x8b case 9 => 0x89 case 10 => 0x8f case 11 => 0x8d
    case 12 => 0x83 case 13 => 0x81 case 14 => 0x87 case _ => 0x85
  }

  function GfMul02RowD(col: bv8): bv8 {
    match col
    case 0 => 0xbb case 1 => 0xb9 case 2 => 0xbf case 3 => 0xbd
    case 4 => 0xb3 case 5 => 0xb1 case 6 => 0xb7 case 7 => 0xb5
    case 8 => 0xab case 9 => 0xa9 case 10 => 0xaf case 11 => 0xad
    case 12 => 0xa3 case 13 => 0xa1 case 14 => 0xa7 case _ => 0xa5
  }

  function GfMul02RowE(col: bv8): bv8 {
    match col
    case 0 => 0xdb case 1 => 0xd9 case 2 => 0xdf case 3 => 0xdd
    case 4 => 0xd3 case 5 => 0xd1 case 6 => 0xd7 case 7 => 0xd5
    case 8 => 0xcb case 9 => 0xc9 case 10 => 0xcf case 11 => 0xcd
    case 12 => 0xc3 case 13 => 0xc1 case 14 => 0xc7 case _ => 0xc5
  }

  function GfMul02RowF(col: bv8): bv8 {
    match col
    case 0 => 0xfb case 1 => 0xf9 case 2 => 0xff case 3 => 0xfd
    case 4 => 0xf3 case 5 => 0xf1 case 6 => 0xf7 case 7 => 0xf5
    case 8 => 0xeb case 9 => 0xe9 case 10 => 0xef case 11 => 0xed
    case 12 => 0xe3 case 13 => 0xe1 case 14 => 0xe7 case _ => 0xe5
  }

  // `gf_mul[16 * row + col][0]`: the products with the coefficient 0x02
  function GfMul02(row: bv8, col: bv8): bv8 {
    match row
    case 0 => GfMul02Row0(col) case 1 => GfMul02Row1(col)
    case 2 => GfMul02Row2(col) case 3 => GfMul02Row3(col)
    case 4 => GfMul02Row4(col) case 5 => GfMul02Row5(col)
    case 6 => GfMul02Row6(col) case 7 => GfMul02Row7(col)
    case 8 => GfMul02Row8(col) case 9 => GfMul02Row9(col)
    case 10 => GfMul02RowA(col) case 11 => GfMul02RowB(col)
    case 12 => GfMul02RowC(col) case 13 => GfMul02RowD(col)
    case 14 => GfMul02RowE(col) case _ => GfMul02RowF(col)
  }

  function GfMul03Row0(col: bv8): bv8 {
    match col
    case 0 => 0x00 case 1 => 0x03 case 2 => 0x06 case 3 => 0x05
    case 4 => 0x0c case 5 => 0x0f case 6 => 0x0a case 7 => 0x09
    case 8 => 0x18 case 9 => 0x1b case 10 => 0x1e case 11 => 0x1d
    case 12 => 0x14 case 13 => 0x17 case 14 => 0x12 case _ => 0x11
  }

  function GfMul03Row1(col: bv8): bv8 {
    match col
    case 0 => 0x30 case 1 => 0x33 case 2 => 0x36 case 3 => 0x35
    case 4 => 0x3c case 5 => 0x3f case 6 => 0x3a case 7 => 0x39
    case 8 => 0x28 case 9 => 0x2b case 10 => 0x2e case 11 => 0x2d
    case 12 => 0x24 case 13 => 0x27 case 14 => 0x22 case _ => 0x21
  }

  function GfMul03Row2(col: bv8): bv8 {
    match col
    case 0 => 0x60 case 1 => 0x63 case 2 => 0x66 case 3 => 0x65
    case 4 => 0x6c case 5 => 0x6f case 6 => 0x6a case 7 => 0x69
    case 8 => 0x78 case 9 => 0x7b case 10 => 0x7e case 11 => 0x7d
    case 12 => 0x74 case 13 => 0x77 case 14 => 0x72 case _ => 0x71
  }

  function GfMul03Row3(col: bv8): bv8 {
    match col
    case 0 => 0x50 case 1 => 0x53 case 2 => 0x56 case 3 => 0x55
    case 4 => 0x5c case 5 => 0x5f case 6 => 0x5a case 7 => 0x59
    case 8 => 0x48 case 9 => 0x4b case 10 => 0x4e case 11 => 0x4d
    case 12 => 0x44 case 13 => 0x47 case 14 => 0x42 case _ => 0x41
  }

  function GfMul03Row4(col: bv8): bv8 {
    match col
    case 0 => 0xc0 case 1 => 0xc3 case 2 => 0xc6 case 3 => 0xc5
    case 4 => 0xcc case 5 => 0xcf case 6 => 0xca case 7 => 0xc9
    case 8 => 0xd8 case 9 => 0xdb case 10 => 0xde case 11 => 0xdd
    case 12 => 0xd4 case 13 => 0xd7 case 14 => 0xd2 case _ => 0xd1
  }

  function GfMul03Row5(col: bv8): bv8 {
    match col
    case 0 => 0xf0 case 1 => 0xf3 case 2 => 0xf6 case 3 => 0xf5
    case 4 => 0xfc case 5 => 0xff case 6 => 0xfa case 7 => 0xf9
    case 8 => 0xe8 case 9 => 0xeb case 10 => 0xee case 11 => 0xed
    case 12 => 0xe4 case 13 => 0xe7 case 14 => 0xe2 case _ => 0xe1
  }

  function GfMul03Row6(col: bv8): bv8 {
    match col
    case 0 => 0xa0 case 1 => 0xa3 case 2 => 0xa6 case 3 => 0xa5
    case 4 => 0xac case 5 => 0xaf case 6 => 0xaa case 7 => 0xa9
    case 8 => 0xb8 case 9 => 0xbb case 10 => 0xbe case 11 => 0xbd
    case 12 => 0xb4 case 13 => 0xb7 case 14 => 0xb2 case _ => 0xb1
  }

  function GfMul03Row7(col: bv8): bv8 {
    match col
    case 0 => 0x90 case 1 => 0x93 case 2 => 0x96 case 3 => 0x95
    case 4 => 0x9c case 5 => 0x9f case 6 => 0x9a case 7 => 0x99
    case 8 => 0x88 case 9 => 0x8b case 10 => 0x8e case 11 => 0x8d
    case 12 => 0x84 case 13 => 0x87 case 14 => 0x82 case _ => 0x81
  }

  function GfMul03Row8(col: bv8): bv8 {
    match col
    case 0 => 0x9b case 1 => 0x98 case 2 => 0x9d case 3 => 0x9e
    case 4 => 0x97 case 5 => 0x94 case 6 => 0x91 case 7 => 0x92
    case 8 => 0x83 case 9 => 0x80 case 10 => 0x85 case 11 => 0x86
    case 12 => 0x8f case 13 => 0x8c case 14 => 0x89 case _ => 0x8a
  }

  function GfMul03Row9(col: bv8): bv8 {
    match col
    case 0 => 0xab case 1 => 0xa8 case 2 => 0xad case 3 => 0xae
    case 4 => 0xa7 case 5 => 0xa4 case 6 => 0xa1 case 7 => 0xa2
    case 8 => 0xb3 case 9 => 0xb0 case 10 => 0xb5 case 11 => 0xb6
    case 12 => 0xbf case 13 => 0xbc case 14 => 0xb9 case _ => 0xba
  }

  function GfMul03RowA(col: bv8): bv8 {
    match col
    case 0 => 0xfb case 1 => 0xf8 case 2 => 0xfd case 3 => 0xfe
    case 4 => 0xf7 case 5 => 0xf4 case 6 => 0xf1 case 7 => 0xf2
    case 8 => 0xe3 case 9 => 0xe0 case 10 => 0xe5 case 11 => 0xe6
    case 12 => 0xef case 13 => 0xec case 14 => 0xe9 case _ => 0xea
  }

  function GfMul03RowB(col: bv8): bv8 {
    match col
    case 0 => 0xcb case 1 => 0xc8 case 2 => 0xcd case 3 => 0xce
    case 4 => 0xc7 case 5 => 0xc4 case 6 => 0xc1 case 7 => 0xc2
    case 8 => 0xd3 case 9 => 0xd0 case 10 => 0xd5 case 11 => 0xd6
    case 12 => 0xdf case 13 => 0xdc case 14 => 0xd9 case _ => 0xda
  }

  function GfMul03RowC(col: bv8): bv8 {
    match col
    case 0 => 0x5b case 1 => 0x58 case 2 => 0x5d case 3 => 0x5e
    case 4 => 0x57 case 5 => 0x54 case 6 => 0x51 case 7 => 0x52
    case 8 => 0x43 case 9 => 0x40 case 10 => 0x45 case 11 => 0x46
    case 12 => 0x4f case 13 => 0x4c case 14 => 0x49 case _ => 0x4a
  }

  function GfMul03RowD(col: bv8): bv8 {
    match col
    case 0 => 0x6b case 1 => 0x68 case 2 => 0x6d case 3 => 0x6e
    case 4 => 0x67 case 5 => 0x64 case 6 => 0x61 case 7 => 0x62
    case 8 => 0x73 case 9 => 0x70 case 10 => 0x75 case 11 => 0x76
    case 12 => 0x7f case 13 => 0x7c case 14 => 0x79 case _ => 0x7a
  }

  function GfMul03RowE(col: bv8): bv8 {
    match col
    case 0 => 0x3b case 1 => 0x38 case 2 => 0x3d case 3 => 0x3e
    case 4 => 0x37 case 5 => 0x34 case 6 => 0x31 case 7 => 0x32
    case 8 => 0x23 case 9 => 0x20 case 10 => 0x25 case 11 => 0x26
    case 12 => 0x2f case 13 => 0x2c case 14 => 0x29 case _ => 0x2a
  }

  function GfMul03RowF(col: bv8): bv8 {
    match col
    case 0 => 0x0b case 1 => 0x08 case 2 => 0x0d case 3 => 0x0e
    case 4 => 0x07 case 5 => 0x04 case 6 => 0x01 case 7 => 0x02
    case 8 => 0x13 case 9 => 0x10 case 10 => 0x15 case 11 => 0x16
    case 12 => 0x1f case 13 => 0x1c case 14 => 0x19 case _ => 0x1a
  }

  // `gf_mul[16 * row + col][1]`: the products with the coefficient 0x03
  function GfMul03(row: bv8, col: bv8): bv8 {
    match row
    case 0 => GfMul03Row0(col) case 1 => GfMul03Row1(col)
    case 2 => GfMul03Row2(col) case 3 => GfMul03Row3(col)
    case 4 => GfMul03Row4(col) case 5 => GfMul03Row5(col)
    case 6 => GfMul03Row6(col) case 7 => GfMul03Row7(col)
    case 8 => GfMul03Row8(col) case 9 => GfMul03Row9(col)
    case 10 => GfMul03RowA(col) case 11 => GfMul03RowB(col)
    case 12 => GfMul03RowC(col) case 13 => GfMul03RowD(col)
    case 14 => GfMul03RowE(col) case _ => GfMul03RowF(col)
  }

  function GfMul09Row0(col: bv8): bv8 {
    match col
    case 0 => 0x00 case 1 => 0x09 case 2 => 0x12 case 3 => 0x1b
    case 4 => 0x24 case 5 => 0x2d case 6 => 0x36 case 7 => 0x3f
    case 8 => 0x48 case 9 => 0x41 case 10 => 0x5a case 11 => 0x53
    case 12 => 0x6c case 13 => 0x65 case 14 => 0x7e case _ => 0x77
  }

  function GfMul09Row1(col: bv8): bv8 {
    match col
    case 0 => 0x90 case 1 => 0x99 case 2 => 0x82 case 3 => 0x8b
    case 4 => 0xb4 case 5 => 0xbd case 6 => 0xa6 case 7 => 0xaf
    case 8 => 0xd8 case 9 => 0xd1 case 10 => 0xca case 11 => 0xc3
    case 12 => 0xfc case 13 => 0xf5 case 14 => 0xee case _ => 0xe7
  }

  function GfMul09Row2(col: bv8): bv8 {
    match col
    case 0 => 0x3b case 1 => 0x32 case 2 => 0x29 case 3 => 0x20
    case 4 => 0x1f case 5 => 0x16 case 6 => 0x0d case 7 => 0x04
    case 8 => 0x73 case 9 => 0x7a case 10 => 0x61 case 11 => 0x68
    case 12 => 0x57 case 13 => 0x5e case 14 => 0x45 case _ => 0x4c
  }

  function GfMul09Row3(col: bv8): bv8 {
    match col
    case 0 => 0xab case 1 => 0xa2 case 2 => 0xb9 case 3 => 0xb0
    case 4 => 0x8f case 5 => 0x86 case 6 => 0x9d case 7 => 0x94
    case 8 => 0xe3 case 9 => 0xea case 10 => 0xf1 case 11 => 0xf8
    case 12 => 0xc7 case 13 => 0xce case 14 => 0xd5 case _ => 0xdc
  }

  function GfMul09Row4(col: bv8): bv8 {
    match col
    case 0 => 0x76 case 1 => 0x7f case 2 => 0x64 case 3 => 0x6d
    case 4 => 0x52 case 5 => 0x5b case 6 => 0x40 case 7 => 0x49
    case 8 => 0x3e case 9 => 0x37 case 10 => 0x2c case 11 => 0x25
    case 12 => 0x1a case 13 => 0x13 case 14 => 0x08 case _ => 0x01
  }

  function GfMul09Row5(col: bv8): bv8 {
    match col
    case 0 => 0xe6 case 1 => 0xef case 2 => 0xf4 case 3 => 0xfd
    case 4 => 0xc2 case 5 => 0xcb case 6 => 0xd0 case 7 => 0xd9
    case 8 => 0xae case 9 => 0xa7 case 10 => 0xbc case 11 => 0xb5
    case 12 => 0x8a case 13 => 0x83 case 14 => 0x98 case _ => 0x91
  }

  function GfMul09Row6(col: bv8): bv8 {
    match col
    case 0 => 0x4d case 1 => 0x44 case 2 => 0x5f case 3 => 0x56
    case 4 => 0x69 case 5 => 0x60 case 6 => 0x7b case 7 => 0x72
    case 8 => 0x05 case 9 => 0x0c case 10 => 0x17 case 11 => 0x1e
    case 12 => 0x21 case 13 => 0x28 case 14 => 0x33 case _ => 0x3a
  }

  function GfMul09Row7(col: bv8): bv8 {
    match col
    case 0 => 0xdd case 1 => 0xd4 case 2 => 0xcf case 3 => 0xc6
    case 4 => 0xf9 case 5 => 0xf0 case 6 => 0xeb case 7 => 0xe2
    case 8 => 0x95 case 9 => 0x9c case 10 => 0x87 case 11 => 0x8e
    case 12 => 0xb1 case 13 => 0xb8 case 14 => 0xa3 case _ => 0xaa
  }

  function GfMul09Row8(col: bv8): bv8 {
    match col
    case 0 => 0xec case 1 => 0xe5 case 2 => 0xfe case 3 => 0xf7
    case 4 => 0xc8 case 5 => 0xc1 case 6 => 0xda case 7 => 0xd3
    case 8 => 0xa4 case 9 => 0xad case 10 => 0xb6 case 11 => 0xbf
    case 12 => 0x80 case 13 => 0x89 case 14 => 0x92 case _ => 0x9b
  }

  function GfMul09Row9(col: bv8): bv8 {
    match col
    case 0 => 0x7c case 1 => 0x75 case 2 => 0x6e case 3 => 0x67
    case 4 => 0x58 case 5 => 0x51 case 6 => 0x4a case 7 => 0x43
    case 8 => 0x34 case 9 => 0x3d case 10 => 0x26 case 11 => 0x2f
    case 12 => 0x10 case 13 => 0x19 case 14 => 0x02 case _ => 0x0b
  }

  function GfMul09RowA(col: bv8): bv8 {
    match col
    case 0 => 0xd7 case 1 => 0xde case 2 => 0xc5 case 3 => 0xcc
    case 4 => 0xf3 case 5 => 0xfa case 6 => 0xe1 case 7 => 0xe8
    case 8 => 0x9f case 9 => 0x96 case 10 => 0x8d case 11 => 0x84
    case 12 => 0xbb case 13 => 0xb2 case 14 => 0xa9 case _ => 0xa0
  }

  function GfMul09RowB(col: bv8): bv8 {
    match col
    case 0 => 0x47 case 1 => 0x4e case 2 => 0x55 case 3 => 0x5c
    case 4 => 0x63 case 5 => 0x6a case 6 => 0x71 case 7 => 0x78
    case 8 => 0x0f case 9 => 0x06 case 10 => 0x1d case 11 => 0x14
    case 12 => 0x2b case 13 => 0x22 case 14 => 0x39 case _ => 0x30
  }

  function GfMul09RowC(col: bv8): bv8 {
    match col
    case 0 => 0x9a case 1 => 0x93 case 2 => 0x88 case 3 => 0x81
    case 4 => 0xbe case 5 => 0xb7 case 6 => 0xac case 7 => 0xa5
    case 8 => 0xd2 case 9 => 0xdb case 10 => 0xc0 case 11 => 0xc9
    case 12 => 0xf6 case 13 => 0xff case 14 => 0xe4 case _ => 0xed
  }

  function GfMul09RowD(col: bv8): bv8 {
    match col
    case 0 => 0x0a case 1 => 0x03 case 2 => 0x18 case 3 => 0x11
    case 4 => 0x2e case 5 => 0x27 case 6 => 0x3c case 7 => 0x35
    case 8 => 0x42 case 9 => 0x4b case 10 => 0x50 case 11 => 0x59
    case 12 => 0x66 case 13 => 0x6f case 14 => 0x74 case _ => 0x7d
  }

  function GfMul09RowE(col: bv8): bv8 {
    match col
    case 0 => 0xa1 case 1 => 0xa8 case 2 => 0xb3 case 3 => 0xba
    case 4 => 0x85 case 5 => 0x8c case 6 => 0x97 case 7 => 0x9e
    case 8 => 0xe9 case 9 => 0xe0 case 10 => 0xfb case 11 => 0xf2
    case 12 => 0xcd case 13 => 0xc4 case 14 => 0xdf case _ => 0xd6
  }

  function GfMul09RowF(col: bv8): bv8 {
    match col
    case 0 => 0x31 case 1 => 0x38 case 2 => 0x23 case 3 => 0x2a
    case 4 => 0x15 case 5 => 0x1c case 6 => 0x07 case 7 => 0x0e
    case 8 => 0x79 case 9 => 0x70 case 10 => 0x6b case 11 => 0x62
    case 12 => 0x5d case 13 => 0x54 case 14 => 0x4f case _ => 0x46
  }

  // `gf_mul[16 * row + col][2]`: the products with the coefficient 0x09
  function GfMul09(row: bv8, col: bv8): bv8 {
    match row
    case 0 => GfMul09Row0(col) case 1 => GfMul09Row1(col)
    case 2 => GfMul09Row2(col) case 3 => GfMul09Row3(col)
    case 4 => GfMul09Row4(col) case 5 => GfMul09Row5(col)
    case 6 => GfMul09Row6(col) case 7 => GfMul09Row7(col)
    case 8 => GfMul09Row8(col) case 9 => GfMul09Row9(col)
    case 10 => GfMul09RowA(col) case 11 => GfMul09RowB(col)
    case 12 => GfMul09RowC(col) case 13 => GfMul09RowD(col)
    case 14 => GfMul09RowE(col) case _ => GfMul09RowF(col)
  }

  function GfMul0BRow0(col: bv8): bv8 {
    match col
    case 0 => 0x00 case 1 => 0x0b case 2 => 0x16 case 3 => 0x1d
    case 4 => 0x2c case 5 => 0x27 case 6 => 0x3a case 7 => 0x31
    case 8 => 0x58 case 9 => 0x53 case 10 => 0x4e case 11 => 0x45
    case 12 => 0x74 case 13 => 0x7f case 14 => 0x62 case _ => 0x69
  }

  function GfMul0BRow1(col: bv8): bv8 {
    match col
    case 0 => 0xb0 case 1 => 0xbb case 2 => 0xa6 case 3 => 0xad
    case 4 => 0x9c case 5 => 0x97 case 6 => 0x8a case 7 => 0x81
    case 8 => 0xe8 case 9 => 0xe3 case 10 => 0xfe case 11 => 0xf5
    case 12 => 0xc4 case 13 => 0xcf case 14 => 0xd2 case _ => 0xd9
  }

  function GfMul0BRow2(col: bv8): bv8 {
    match col
    case 0 => 0x7b case 1 => 0x70 case 2 => 0x6d case 3 => 0x66
    case 4 => 0x57 case 5 => 0x5c case 6 => 0x41 case 7 => 0x4a
    case 8 => 0x23 case 9 => 0x28 case 10 => 0x35 case 11 => 0x3e
    case 12 => 0x0f case 13 => 0x04 case 14 => 0x19 case _ => 0x12
  }

  function GfMul0BRow3(col: bv8): bv8 {
    match col
    case 0 => 0xcb case 1 => 0xc0 case 2 => 0xdd case 3 => 0xd6
    case 4 => 0xe7 case 5 => 0xec case 6 => 0xf1 case 7 => 0xfa
    case 8 => 0x93 case 9 => 0x98 case 10 => 0x85 case 11 => 0x8e
    case 12 => 0xbf case 13 => 0xb4 case 14 => 0xa9 case _ => 0xa2
  }

  function GfMul0BRow4(col: bv8): bv8 {
    match col
    case 0 => 0xf6 case 1 => 0xfd case 2 => 0xe0 case 3 => 0xeb
    case 4 => 0xda case 5 => 0xd1 case 6 => 0xcc case 7 => 0xc7
    case 8 => 0xae case 9 => 0xa5 case 10 => 0xb8 case 11 => 0xb3
    case 12 => 0x82 case 13 => 0x89 case 14 => 0x94 case _ => 0x9f
  }

  function GfMul0BRow5(col: bv8): bv8 {
    match col
    case 0 => 0x46 case 1 => 0x4d case 2 => 0x50 case 3 => 0x5b
    case 4 => 0x6a case 5 => 0x61 case 6 => 0x7c case 7 => 0x77
    case 8 => 0x1e case 9 => 0x15 case 10 => 0x08 case 11 => 0x03
    case 12 => 0x32 case 13 => 0x39 case 14 => 0x24 case _ => 0x2f
  }

  function GfMul0BRow6(col: bv8): bv8 {
    match col
    case 0 => 0x8d case 1 => 0x86 case 2 => 0x9b case 3 => 0x90
    case 4 => 0xa1 case 5 => 0xaa case 6 => 0xb7 case 7 => 0xbc
    case 8 => 0xd5 case 9 => 0xde case 10 => 0xc3 case 11 => 0xc8
    case 12 => 0xf9 case 13 => 0xf2 case 14 => 0xef case _ => 0xe4
  }

  function GfMul0BRow7(col: bv8): bv8 {
    match col
    case 0 => 0x3d case 1 => 0x36 case 2 => 0x2b case 3 => 0x20
    case 4 => 0x11 case 5 => 0x1a case 6 => 0x07 case 7 => 0x0c
    case 8 => 0x65 case 9 => 0x6e case 10 => 0x73 case 11 => 0x78
    case 12 => 0x49 case 13 => 0x42 case 14 => 0x5f case _ => 0x54
  }

  function GfMul0BRow8(col: bv8): bv8 {
    match col
    case 0 => 0xf7 case 1 => 0xfc case 2 => 0xe1 case 3 => 0xea
    case 4 => 0xdb case 5 => 0xd0 case 6 => 0xcd case 7 => 0xc6
    case 8 => 0xaf case 9 => 0xa4 case 10 => 0xb9 case 11 => 0xb2
    case 12 => 0x83 case 13 => 0x88 case 14 => 0x95 case _ => 0x9e
  }

  function GfMul0BRow9(col: bv8): bv8 {
    match col
    case 0 => 0x47 case 1 => 0x4c case 2 => 0x51 case 3 => 0x5a
    case 4 => 0x6b case 5 => 0x60 case 6 => 0x7d case 7 => 0x76
    case 8 => 0x1f case 9 => 0x14 case 10 => 0x09 case 11 => 0x02
    case 12 => 0x33 case 13 => 0x38 case 14 => 0x25 case _ => 0x2e
  }

  function GfMul0BRowA(col: bv8): bv8 {
    match col
    case 0 => 0x8c case 1 => 0x87 case 2 => 0x9a case 3 => 0x91
    case 4 => 0xa0 case 5 => 0xab case 6 => 0xb6 case 7 => 0xbd
    case 8 => 0xd4 case 9 => 0xdf case 10 => 0xc2 case 11 => 0xc9
    case 12 => 0xf8 case 13 => 0xf3 case 14 => 0xee case _ => 0xe5
  }

  function GfMul0BRowB(col: bv8): bv8 {
    match col
    case 0 => 0x3c case 1 => 0x37 case 2 => 0x2a case 3 => 0x21
    case 4 => 0x10 case 5 => 0x1b case 6 => 0x06 case 7 => 0x0d
    case 8 => 0x64 case 9 => 0x6f case 10 => 0x72 case 11 => 0x79
    case 12 => 0x48 case 13 => 0x43 case 14 => 0x5e case _ => 0x55
  }

  function GfMul0BRowC(col: bv8): bv8 {
    match col
    case 0 => 0x01 case 1 => 0x0a case 2 => 0x17 case 3 => 0x1c
    case 4 => 0x2d case 5 => 0x26 case 6 => 0x3b case 7 => 0x30
    case 8 => 0x59 case 9 => 0x52 case 10 => 0x4f case 11 => 0x44
    case 12 => 0x75 case 13 => 0x7e case 14 => 0x63 case _ => 0x68
  }

  function GfMul0BRowD(col: bv8): bv8 {
    match col
    case 0 => 0xb1 case 1 => 0xba case 2 => 0xa7 case 3 => 0xac
    case 4 => 0x9d case 5 => 0x96 case 6 => 0x8b case 7 => 0x80
    case 8 => 0xe9 case 9 => 0xe2 case 10 => 0xff case 11 => 0xf4
    case 12 => 0xc5 case 13 => 0xce case 14 => 0xd3 case _ => 0xd8
  }

  function GfMul0BRowE(col: bv8): bv8 {
    match col
    case 0 => 0x7a case 1 => 0x71 case 2 => 0x6c case 3 => 0x67
    case 4 => 0x56 case 5 => 0x5d case 6 => 0x40 case 7 => 0x4b
    case 8 => 0x22 case 9 => 0x29 case 10 => 0x34 case 11 => 0x3f
    case 12 => 0x0e case 13 => 0x05 case 14 => 0x18 case _ => 0x13
  }

  function GfMul0BRowF(col: bv8): bv8 {
    match col
    case 0 => 0xca case 1 => 0xc1 case 2 => 0xdc case 3 => 0xd7
    case 4 => 0xe6 case 5 => 0xed case 6 => 0xf0 case 7 => 0xfb
    case 8 => 0x92 case 9 => 0x99 case 10 => 0x84 case 11 => 0x8f
    case 12 => 0xbe case 13 => 0xb5 case 14 => 0xa8 case _ => 0xa3
  }

  // `gf_mul[16 * row + col][3]`: the products with the coefficient 0x0b
  function GfMul0B(row: bv8, col: bv8): bv8 {
    match row
    case 0 => GfMul0BRow0(col) case 1 => GfMul0BRow1(col)
    case 2 => GfMul0BRow2(col) case 3 => GfMul0BRow3(col)
    case 4 => GfMul0BRow4(col) case 5 => GfMul0BRow5(col)
    case 6 => GfMul0BRow6(col) case 7 => GfMul0BRow7(col)
    case 8 => GfMul0BRow8(col) case 9 => GfMul0BRow9(col)
    case 10 => GfMul0BRowA(col) case 11 => GfMul0BRowB(col)
    case 12 => GfMul0BRowC(col) case 13 => GfMul0BRowD(col)
    case 14 => GfMul0BRowE(col) case _ => GfMul0BRowF(col)
  }

  function GfMul0DRow0(col: bv8): bv8 {
    match col
    case 0 => 0x00 case 1 => 0x0d case 2 => 0x1a case 3 => 0x17
    case 4 => 0x34 case 5 => 0x39 case 6 => 0x2e case 7 => 0x23
    case 8 => 0x68 case 9 => 0x65 case 10 => 0x72 case 11 => 0x7f
    case 12 => 0x5c case 13 => 0x51 case 14 => 0x46 case _ => 0x4b
  }

  function GfMul0DRow1(col: bv8): bv8 {
    match col
    case 0 => 0xd0 case 1 => 0xdd case 2 => 0xca case 3 => 0xc7
    case 4 => 0xe4 case 5 => 0xe9 case 6 => 0xfe case 7 => 0xf3
    case 8 => 0xb8 case 9 => 0xb5 case 10 => 0xa2 case 11 => 0xaf
    case 12 => 0x8c case 13 => 0x81 case 14 => 0x96 case _ => 0x9b
  }

  function GfMul0DRow2(col: bv8): bv8 {
    match col
    case 0 => 0xbb case 1 => 0xb6 case 2 => 0xa1 case 3 => 0xac
    case 4 => 0x8f case 5 => 0x82 case 6 => 0x95 case 7 => 0x98
    case 8 => 0xd3 case 9 => 0xde case 10 => 0xc9 case 11 => 0xc4
    case 12 => 0xe7 case 13 => 0xea case 14 => 0xfd case _ => 0xf0
  }

  function GfMul0DRow3(col: bv8): bv8 {
    match col
    case 0 => 0x6b case 1 => 0x66 case 2 => 0x71 case 3 => 0x7c
    case 4 => 0x5f case 5 => 0x52 case 6 => 0x45 case 7 => 0x48
    case 8 => 0x03 case 9 => 0x0e case 10 => 0x19 case 11 => 0x14
    case 12 => 0x37 case 13 => 0x3a case 14 => 0x2d case _ => 0x20
  }

  function GfMul0DRow4(col: bv8): bv8 {
    match col
    case 0 => 0x6d case 1 => 0x60 case 2 => 0x77 case 3 => 0x7a
    case 4 => 0x59 case 5 => 0x54 case 6 => 0x43 case 7 => 0x4e
    case 8 => 0x05 case 9 => 0x08 case 10 => 0x1f case 11 => 0x12
    case 12 => 0x31 case 13 => 0x3c case 14 => 0x2b case _ => 0x26
  }

  function GfMul0DRow5(col: bv8): bv8 {
    match col
    case 0 => 0xbd case 1 => 0xb0 case 2 => 0xa7 case 3 => 0xaa
    case 4 => 0x89 case 5 => 0x84 case 6 => 0x93 case 7 => 0x9e
    case 8 => 0xd5 case 9 => 0xd8 case 10 => 0xcf case 11 => 0xc2
    case 12 => 0xe1 case 13 => 0xec case 14 => 0xfb case _ => 0xf6
  }

  function GfMul0DRow6(col: bv8): bv8 {
    match col
    case 0 => 0xd6 case 1 => 0xdb case 2 => 0xcc case 3 => 0xc1
    case 4 => 0xe2 case 5 => 0xef case 6 => 0xf8 case 7 => 0xf5
    case 8 => 0xbe case 9 => 0xb3 case 10 => 0xa4 case 11 => 0xa9
    case 12 => 0x8a case 13 => 0x87 case 14 => 0x90 case _ => 0x9d
  }

  function GfMul0DRow7(col: bv8): bv8 {
    match col
    case 0 => 0x06 case 1 => 0x0b case 2 => 0x1c case 3 => 0x11
    case 4 => 0x32 case 5 => 0x3f case 6 => 0x28 case 7 => 0x25
    case 8 => 0x6e case 9 => 0x63 case 10 => 0x74 case 11 => 0x79
    case 12 => 0x5a case 13 => 0x57 case 14 => 0x40 case _ => 0x4d
  }

  function GfMul0DRow8(col: bv8): bv8 {
    match col
    case 0 => 0xda case 1 => 0xd7 case 2 => 0xc0 case 3 => 0xcd
    case 4 => 0xee case 5 => 0xe3 case 6 => 0xf4 case 7 => 0xf9
    case 8 => 0xb2 case 9 => 0xbf case 10 => 0xa8 case 11 => 0xa5
    case 12 => 0x86 case 13 => 0x8b case 14 => 0x9c case _ => 0x91
  }

  function GfMul0DRow9(col: bv8): bv8 {
    match col
    case 0 => 0x0a case 1 => 0x07 case 2 => 0x10 case 3 => 0x1d
    case 4 => 0x3e case 5 => 0x33 case 6 => 0x24 case 7 => 0x29
    case 8 => 0x62 case 9 => 0x6f case 10 => 0x78 case 11 => 0x75
    case 12 => 0x56 case 13 => 0x5b case 14 => 0x4c case _ => 0x41
  }

  function GfMul0DRowA(col: bv8): bv8 {
    match col
    case 0 => 0x61 case 1 => 0x6c case 2 => 0x7b case 3 => 0x76
    case 4 => 0x55 case 5 => 0x58 case 6 => 0x4f case 7 => 0x42
    case 8 => 0x09 case 9 => 0x04 case 10 => 0x13 case 11 => 0x1e
    case 12 => 0x3d case 13 => 0x30 case 14 => 0x27 case _ => 0x2a
  }

  function GfMul0DRowB(col: bv8): bv8 {
    match col
    case 0 => 0xb1 case 1 => 0xbc case 2 => 0xab case 3 => 0xa6
    case 4 => 0x85 case 5 => 0x88 case 6 => 0x9f case 7 => 0x92
    case 8 => 0xd9 case 9 => 0xd4 case 10 => 0xc3 case 11 => 0xce
    case 12 => 0xed case 13 => 0xe0 case 14 => 0xf7 case _ => 0xfa
  }

  function GfMul0DRowC(col: bv8): bv8 {
    match col
    case 0 => 0xb7 case 1 => 0xba case 2 => 0xad case 3 => 0xa0
    case 4 => 0x83 case 5 => 0x8e case 6 => 0x99 case 7 => 0x94
    case 8 => 0xdf case 9 => 0xd2 case 10 => 0xc5 case 11 => 0xc8
    case 12 => 0xeb case 13 => 0xe6 case 14 => 0xf1 case _ => 0xfc
  }

  function GfMul0DRowD(col: bv8): bv8 {
    match col
    case 0 => 0x67 case 1 => 0x6a case 2 => 0x7d case 3 => 0x70
    case 4 => 0x53 case 5 => 0x5e case 6 => 0x49 case 7 => 0x44
    case 8 => 0x0f case 9 => 0x02 case 10 => 0x15 case 11 => 0x18
    case 12 => 0x3b case 13 => 0x36 case 14 => 0x21 case _ => 0x2c
  }

  function GfMul0DRowE(col: bv8): bv8 {
    match col
    case 0 => 0x0c case 1 => 0x01 case 2 => 0x16 case 3 => 0x1b
    case 4 => 0x38 case 5 => 0x35 case 6 => 0x22 case 7 => 0x2f
    case 8 => 0x64 case 9 => 0x69 case 10 => 0x7e case 11 => 0x73
    case 12 => 0x50 case 13 => 0x5d case 14 => 0x4a case _ => 0x47
  }

  function GfMul0DRowF(col: bv8): bv8 {
    match col
    case 0 => 0xdc case 1 => 0xd1 case 2 => 0xc6 case 3 => 0xcb
    case 4 => 0xe8 case 5 => 0xe5 case 6 => 0xf2 case 7 => 0xff
    case 8 => 0xb4 case 9 => 0xb9 case 10 => 0xae case 11 => 0xa3
    case 12 => 0x80 case 13 => 0x8d case 14 => 0x9a case _ => 0x97
  }

  // `gf_mul[16 * row + col][4]`: the products with the coefficient 0x0d
  function GfMul0D(row: bv8, col: bv8): bv8 {
    match row
    case 0 => GfMul0DRow0(col) case 1 => GfMul0DRow1(col)
    case 2 => GfMul0DRow2(col) case 3 => GfMul0DRow3(col)
    case 4 => GfMul0DRow4(col) case 5 => GfMul0DRow5(col)
    case 6 => GfMul0DRow6(col) case 7 => GfMul0DRow7(col)
    case 8 => GfMul0DRow8(col) case 9 => GfMul0DRow9(col)
    case 10 => GfMul0DRowA(col) case 11 => GfMul0DRowB(col)
    case 12 => GfMul0DRowC(col) case 13 => GfMul0DRowD(col)
    case 14 => GfMul0DRowE(col) case _ => GfMul0DRowF(col)
  }

  function GfMul0ERow0(col: bv8): bv8 {
    match col
    case 0 => 0x00 case 1 => 0x0e case 2 => 0x1c case 3 => 0x12
    case 4 => 0x38 case 5 => 0x36 case 6 => 0x24 case 7 => 0x2a
    case 8 => 0x70 case 9 => 0x7e case 10 => 0x6c case 11 => 0x62
    case 12 => 0x48 case 13 => 0x46 case 14 => 0x54 case _ => 0x5a
  }

  function GfMul0ERow1(col: bv8): bv8 {
    match col
    case 0 => 0xe0 case 1 => 0xee case 2 => 0xfc case 3 => 0xf2
    case 4 => 0xd8 case 5 => 0xd6 case 6 => 0xc4 case 7 => 0xca
    case 8 => 0x90 case 9 => 0x9e case 10 => 0x8c case 11 => 0x82
    case 12 => 0xa8 case 13 => 0xa6 case 14 => 0xb4 case _ => 0xba
  }

  function GfMul0ERow2(col: bv8): bv8 {
    match col
    case 0 => 0xdb case 1 => 0xd5 case 2 => 0xc7 case 3 => 0xc9
    case 4 => 0xe3 case 5 => 0xed case 6 => 0xff case 7 => 0xf1
    case 8 => 0xab case 9 => 0xa5 case 10 => 0xb7 case 11 => 0xb9
    case 12 => 0x93 case 13 => 0x9d case 14 => 0x8f case _ => 0x81
  }

  function GfMul0ERow3(col: bv8): bv8 {
    match col
    case 0 => 0x3b case 1 => 0x35 case 2 => 0x27 case 3 => 0x29
    case 4 => 0x03 case 5 => 0x0d case 6 => 0x1f case 7 => 0x11
    case 8 => 0x4b case 9 => 0x45 case 10 => 0x57 case 11 => 0x59
    case 12 => 0x73 case 13 => 0x7d case 14 => 0x6f case _ => 0x61
  }

  function GfMul0ERow4(col: bv8): bv8 {
    match col
    case 0 => 0xad case 1 => 0xa3 case 2 => 0xb1 case 3 => 0xbf
    case 4 => 0x95 case 5 => 0x9b case 6 => 0x89 case 7 => 0x87
    case 8 => 0xdd case 9 => 0xd3 case 10 => 0xc1 case 11 => 0xcf
    case 12 => 0xe5 case 13 => 0xeb case 14 => 0xf9 case _ => 0xf7
  }

  function GfMul0ERow5(col: bv8): bv8 {
    match col
    case 0 => 0x4d case 1 => 0x43 case 2 => 0x51 case 3 => 0x5f
    case 4 => 0x75 case 5 => 0x7b case 6 => 0x69 case 7 => 0x67
    case 8 => 0x3d case 9 => 0x33 case 10 => 0x21 case 11 => 0x2f
    case 12 => 0x05 case 13 => 0x0b case 14 => 0x19 case _ => 0x17
  }

  function GfMul0ERow6(col: bv8): bv8 {
    match col
    case 0 => 0x76 case 1 => 0x78 case 2 => 0x6a case 3 => 0x64
    case 4 => 0x4e case 5 => 0x40 case 6 => 0x52 case 7 => 0x5c
    case 8 => 0x06 case 9 => 0x08 case 10 => 0x1a case 11 => 0x14
    case 12 => 0x3e case 13 => 0x30 case 14 => 0x22 case _ => 0x2c
  }

  function GfMul0ERow7(col: bv8): bv8 {
    match col
    case 0 => 0x96 case 1 => 0x98 case 2 => 0x8a case 3 => 0x84
    case 4 => 0xae case 5 => 0xa0 case 6 => 0xb2 case 7 => 0xbc
    case 8 => 0xe6 case 9 => 0xe8 case 10 => 0xfa case 11 => 0xf4
    case 12 => 0xde case 13 => 0xd0 case 14 => 0xc2 case _ => 0xcc
  }

  function GfMul0ERow8(col: bv8): bv8 {
    match col
    case 0 => 0x41 case 1 => 0x4f case 2 => 0x5d case 3 => 0x53
    case 4 => 0x79 case 5 => 0x77 case 6 => 0x65 case 7 => 0x6b
    case 8 => 0x31 case 9 => 0x3f case 10 => 0x2d case 11 => 0x23
    case 12 => 0x09 case 13 => 0x07 case 14 => 0x15 case _ => 0x1b
  }

  function GfMul0ERow9(col: bv8): bv8 {
    match col
    case 0 => 0xa1 case 1 => 0xaf case 2 => 0xbd case 3 => 0xb3
    case 4 => 0x99 case 5 => 0x97 case 6 => 0x85 case 7 => 0x8b
    case 8 => 0xd1 case 9 => 0xdf case 10 => 0xcd case 11 => 0xc3
    case 12 => 0xe9 case 13 => 0xe7 case 14 => 0xf5 case _ => 0xfb
  }

  function GfMul0ERowA(col: bv8): bv8 {
    match col
    case 0 => 0x9a case 1 => 0x94 case 2 => 0x86 case 3 => 0x88
    case 4 => 0xa2 case 5 => 0xac case 6 => 0xbe case 7 => 0xb0
    case 8 => 0xea case 9 => 0xe4 case 10 => 0xf6 case 11 => 0xf8
    case 12 => 0xd2 case 13 => 0xdc case 14 => 0xce case _ => 0xc0
  }

  function GfMul0ERowB(col: bv8): bv8 {
    match col
    case 0 => 0x7a case 1 => 0x74 case 2 => 0x66 case 3 => 0x68
    case 4 => 0x42 case 5 => 0x4c case 6 => 0x5e case 7 => 0x50
    case 8 => 0x0a case 9 => 0x04 case 10 => 0x16 case 11 => 0x18
    case 12 => 0x32 case 13 => 0x3c case 14 => 0x2e case _ => 0x20
  }

  function GfMul0ERowC(col: bv8): bv8 {
    match col
    case 0 => 0xec case 1 => 0xe2 case 2 => 0xf0 case 3 => 0xfe
    case 4 => 0xd4 case 5 => 0xda case 6 => 0xc8 case 7 => 0xc6
    case 8 => 0x9c case 9 => 0x92 case 10 => 0x80 case 11 => 0x8e
    case 12 => 0xa4 case 13 => 0xaa case 14 => 0xb8 case _ => 0xb6
  }

  function GfMul0ERowD(col: bv8): bv8 {
    match col
    case 0 => 0x0c case 1 => 0x02 case 2 => 0x10 case 3 => 0x1e
    case 4 => 0x34 case 5 => 0x3a case 6 => 0x28 case 7 => 0x26
    case 8 => 0x7c case 9 => 0x72 case 10 => 0x60 case 11 => 0x6e
    case 12 => 0x44 case 13 => 0x4a case 14 => 0x58 case _ => 0x56
  }

  function GfMul0ERowE(col: bv8): bv8 {
    match col
    case 0 => 0x37 case 1 => 0x39 case 2 => 0x2b case 3 => 0x25
    case 4 => 0x0f case 5 => 0x01 case 6 => 0x13 case 7 => 0x1d
    case 8 => 0x47 case 9 => 0x49 case 10 => 0x5b case 11 => 0x55
    case 12 => 0x7f case 13 => 0x71 case 14 => 0x63 case _ => 0x6d
  }

  function GfMul0ERowF(col: bv8): bv8 {
    match col
    case 0 => 0xd7 case 1 => 0xd9 case 2 => 0xcb case 3 => 0xc5
    case 4 => 0xef case 5 => 0xe1 case 6 => 0xf3 case 7 => 0xfd
    case 8 => 0xa7 case 9 => 0xa9 case 10 => 0xbb case 11 => 0xb5
    case 12 => 0x9f case 13 => 0x91 case 14 => 0x83 case _ => 0x8d
  }

  // `gf_mul[16 * row + col][5]`: the products with the coefficient 0x0e
  function GfMul0E(row: bv8, col: bv8): bv8 {
    match row
    case 0 => GfMul0ERow0(col) case 1 => GfMul0ERow1(col)
    case 2 => GfMul0ERow2(col) case 3 => GfMul0ERow3(col)
    case 4 => GfMul0ERow4(col) case 5 => GfMul0ERow5(col)
    case 6 => GfMul0ERow6(col) case 7 => GfMul0ERow7(col)
    case 8 => GfMul0ERow8(col) case 9 => GfMul0ERow9(col)
    case 10 => GfMul0ERowA(col) case 11 => GfMul0ERowB(col)
    case 12 => GfMul0ERowC(col) case 13 => GfMul0ERowD(col)
    case 14 => GfMul0ERowE(col) case _ => GfMul0ERowF(col)
  }
}

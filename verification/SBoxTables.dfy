/** The tables row by row, as facts about numbers: what a calculation with given bytes needs instead of the
    tables themselves. */
module SBoxTables {
  import opened SBoxes

  lemma SRow0()
    ensures S(0x00) == 0x63 && S(0x01) == 0x7c && S(0x02) == 0x77 && S(0x03) == 0x7b
    ensures S(0x04) == 0xf2 && S(0x05) == 0x6b && S(0x06) == 0x6f && S(0x07) == 0xc5
    ensures S(0x08) == 0x30 && S(0x09) == 0x01 && S(0x0a) == 0x67 && S(0x0b) == 0x2b
    ensures S(0x0c) == 0xfe && S(0x0d) == 0xd7 && S(0x0e) == 0xab && S(0x0f) == 0x76
  {
  }

  lemma SRow1()
    ensures S(0x10) == 0xca && S(0x11) == 0x82 && S(0x12) == 0xc9 && S(0x13) == 0x7d
    ensures S(0x14) == 0xfa && S(0x15) == 0x59 && S(0x16) == 0x47 && S(0x17) == 0xf0
    ensures S(0x18) == 0xad && S(0x19) == 0xd4 && S(0x1a) == 0xa2 && S(0x1b) == 0xaf
    ensures S(0x1c) == 0x9c && S(0x1d) == 0xa4 && S(0x1e) == 0x72 && S(0x1f) == 0xc0
  {
  }

  lemma SRow2()
    ensures S(0x20) == 0xb7 && S(0x21) == 0xfd && S(0x22) == 0x93 && S(0x23) == 0x26
    ensures S(0x24) == 0x36 && S(0x25) == 0x3f && S(0x26) == 0xf7 && S(0x27) == 0xcc
    ensures S(0x28) == 0x34 && S(0x29) == 0xa5 && S(0x2a) == 0xe5 && S(0x2b) == 0xf1
    ensures S(0x2c) == 0x71 && S(0x2d) == 0xd8 && S(0x2e) == 0x31 && S(0x2f) == 0x15
  {
  }

  lemma SRow3()
    ensures S(0x30) == 0x04 && S(0x31) == 0xc7 && S(0x32) == 0x23 && S(0x33) == 0xc3
    ensures S(0x34) == 0x18 && S(0x35) == 0x96 && S(0x36) == 0x05 && S(0x37) == 0x9a
    ensures S(0x38) == 0x07 && S(0x39) == 0x12 && S(0x3a) == 0x80 && S(0x3b) == 0xe2
    ensures S(0x3c) == 0xeb && S(0x3d) == 0x27 && S(0x3e) == 0xb2 && S(0x3f) == 0x75
  {
  }

  lemma SRow4()
    ensures S(0x40) == 0x09 && S(0x41) == 0x83 && S(0x42) == 0x2c && S(0x43) == 0x1a
    ensures S(0x44) == 0x1b && S(0x45) == 0x6e && S(0x46) == 0x5a && S(0x47) == 0xa0
    ensures S(0x48) == 0x52 && S(0x49) == 0x3b && S(0x4a) == 0xd6 && S(0x4b) == 0xb3
    ensures S(0x4c) == 0x29 && S(0x4d) == 0xe3 && S(0x4e) == 0x2f && S(0x4f) == 0x84
  {
  }

  lemma SRow5()
    ensures S(0x50) == 0x53 && S(0x51) == 0xd1 && S(0x52) == 0x00 && S(0x53) == 0xed
    ensures S(0x54) == 0x20 && S(0x55) == 0xfc && S(0x56) == 0xb1 && S(0x57) == 0x5b
    ensures S(0x58) == 0x6a && S(0x59) == 0xcb && S(0x5a) == 0xbe && S(0x5b) == 0x39
    ensures S(0x5c) == 0x4a && S(0x5d) == 0x4c && S(0x5e) == 0x58 && S(0x5f) == 0xcf
  {
  }

  lemma SRow6()
    ensures S(0x60) == 0xd0 && S(0x61) == 0xef && S(0x62) == 0xaa && S(0x63) == 0xfb
    ensures S(0x64) == 0x43 && S(0x65) == 0x4d && S(0x66) == 0x33 && S(0x67) == 0x85
    ensures S(0x68) == 0x45 && S(0x69) == 0xf9 && S(0x6a) == 0x02 && S(0x6b) == 0x7f
    ensures S(0x6c) == 0x50 && S(0x6d) == 0x3c && S(0x6e) == 0x9f && S(0x6f) == 0xa8
  {
  }

  lemma SRow7()
    ensures S(0x70) == 0x51 && S(0x71) == 0xa3 && S(0x72) == 0x40 && S(0x73) == 0x8f
    ensures S(0x74) == 0x92 && S(0x75) == 0x9d && S(0x76) == 0x38 && S(0x77) == 0xf5
    ensures S(0x78) == 0xbc && S(0x79) == 0xb6 && S(0x7a) == 0xda && S(0x7b) == 0x21
    ensures S(0x7c) == 0x10 && S(0x7d) == 0xff && S(0x7e) == 0xf3 && S(0x7f) == 0xd2
  {
  }

  lemma SRow8()
    ensures S(0x80) == 0xcd && S(0x81) == 0x0c && S(0x82) == 0x13 && S(0x83) == 0xec
    ensures S(0x84) == 0x5f && S(0x85) == 0x97 && S(0x86) == 0x44 && S(0x87) == 0x17
    ensures S(0x88) == 0xc4 && S(0x89) == 0xa7 && S(0x8a) == 0x7e && S(0x8b) == 0x3d
    ensures S(0x8c) == 0x64 && S(0x8d) == 0x5d && S(0x8e) == 0x19 && S(0x8f) == 0x73
  {
  }

  lemma SRow9()
    ensures S(0x90) == 0x60 && S(0x91) == 0x81 && S(0x92) == 0x4f && S(0x93) == 0xdc
    ensures S(0x94) == 0x22 && S(0x95) == 0x2a && S(0x96) == 0x90 && S(0x97) == 0x88
    ensures S(0x98) == 0x46 && S(0x99) == 0xee && S(0x9a) == 0xb8 && S(0x9b) == 0x14
    ensures S(0x9c) == 0xde && S(0x9d) == 0x5e && S(0x9e) == 0x0b && S(0x9f) == 0xdb
  {
  }

  lemma SRowA()
    ensures S(0xa0) == 0xe0 && S(0xa1) == 0x32 && S(0xa2) == 0x3a && S(0xa3) == 0x0a
    ensures S(0xa4) == 0x49 && S(0xa5) == 0x06 && S(0xa6) == 0x24 && S(0xa7) == 0x5c
    ensures S(0xa8) == 0xc2 && S(0xa9) == 0xd3 && S(0xaa) == 0xac && S(0xab) == 0x62
    ensures S(0xac) == 0x91 && S(0xad) == 0x95 && S(0xae) == 0xe4 && S(0xaf) == 0x79
  {
  }

  lemma SRowB()
    ensures S(0xb0) == 0xe7 && S(0xb1) == 0xc8 && S(0xb2) == 0x37 && S(0xb3) == 0x6d
    ensures S(0xb4) == 0x8d && S(0xb5) == 0xd5 && S(0xb6) == 0x4e && S(0xb7) == 0xa9
    ensures S(0xb8) == 0x6c && S(0xb9) == 0x56 && S(0xba) == 0xf4 && S(0xbb) == 0xea
    ensures S(0xbc) == 0x65 && S(0xbd) == 0x7a && S(0xbe) == 0xae && S(0xbf) == 0x08
  {
  }

  lemma SRowC()
    ensures S(0xc0) == 0xba && S(0xc1) == 0x78 && S(0xc2) == 0x25 && S(0xc3) == 0x2e
    ensures S(0xc4) == 0x1c && S(0xc5) == 0xa6 && S(0xc6) == 0xb4 && S(0xc7) == 0xc6
    ensures S(0xc8) == 0xe8 && S(0xc9) == 0xdd && S(0xca) == 0x74 && S(0xcb) == 0x1f
    ensures S(0xcc) == 0x4b && S(0xcd) == 0xbd && S(0xce) == 0x8b && S(0xcf) == 0x8a
  {
  }

  lemma SRowD()
    ensures S(0xd0) == 0x70 && S(0xd1) == 0x3e && S(0xd2) == 0xb5 && S(0xd3) == 0x66
    ensures S(0xd4) == 0x48 && S(0xd5) == 0x03 && S(0xd6) == 0xf6 && S(0xd7) == 0x0e
    ensures S(0xd8) == 0x61 && S(0xd9) == 0x35 && S(0xda) == 0x57 && S(0xdb) == 0xb9
    ensures S(0xdc) == 0x86 && S(0xdd) == 0xc1 && S(0xde) == 0x1d && S(0xdf) == 0x9e
  {
  }

  lemma SRowE()
    ensures S(0xe0) == 0xe1 && S(0xe1) == 0xf8 && S(0xe2) == 0x98 && S(0xe3) == 0x11
    ensures S(0xe4) == 0x69 && S(0xe5) == 0xd9 && S(0xe6) == 0x8e && S(0xe7) == 0x94
    ensures S(0xe8) == 0x9b && S(0xe9) == 0x1e && S(0xea) == 0x87 && S(0xeb) == 0xe9
    ensures S(0xec) == 0xce && S(0xed) == 0x55 && S(0xee) == 0x28 && S(0xef) == 0xdf
  {
  }

  lemma SRowF()
    ensures S(0xf0) == 0x8c && S(0xf1) == 0xa1 && S(0xf2) == 0x89 && S(0xf3) == 0x0d
    ensures S(0xf4) == 0xbf && S(0xf5) == 0xe6 && S(0xf6) == 0x42 && S(0xf7) == 0x68
    ensures S(0xf8) == 0x41 && S(0xf9) == 0x99 && S(0xfa) == 0x2d && S(0xfb) == 0x0f
    ensures S(0xfc) == 0xb0 && S(0xfd) == 0x54 && S(0xfe) == 0xbb && S(0xff) == 0x16
  {
  }

  lemma SQRow0()
    ensures SQ(0x00) == 0x25 && SQ(0x01) == 0x24 && SQ(0x02) == 0x73 && SQ(0x03) == 0x67
    ensures SQ(0x04) == 0xd7 && SQ(0x05) == 0xae && SQ(0x06) == 0x5c && SQ(0x07) == 0x30
    ensures SQ(0x08) == 0xa4 && SQ(0x09) == 0xee && SQ(0x0a) == 0x6e && SQ(0x0b) == 0xcb
    ensures SQ(0x0c) == 0x7d && SQ(0x0d) == 0xb5 && SQ(0x0e) == 0x82 && SQ(0x0f) == 0xdb
  {
  }

  lemma SQRow1()
    ensures SQ(0x10) == 0xe4 && SQ(0x11) == 0x8e && SQ(0x12) == 0x48 && SQ(0x13) == 0x49
    ensures SQ(0x14) == 0x4f && SQ(0x15) == 0x5d && SQ(0x16) == 0x6a && SQ(0x17) == 0x78
    ensures SQ(0x18) == 0x70 && SQ(0x19) == 0x88 && SQ(0x1a) == 0xe8 && SQ(0x1b) == 0x5f
    ensures SQ(0x1c) == 0x5e && SQ(0x1d) == 0x84 && SQ(0x1e) == 0x65 && SQ(0x1f) == 0xe2
  {
  }

  lemma SQRow2()
    ensures SQ(0x20) == 0xd8 && SQ(0x21) == 0xe9 && SQ(0x22) == 0xcc && SQ(0x23) == 0xed
    ensures SQ(0x24) == 0x40 && SQ(0x25) == 0x2f && SQ(0x26) == 0x11 && SQ(0x27) == 0x28
    ensures SQ(0x28) == 0x57 && SQ(0x29) == 0xd2 && SQ(0x2a) == 0xac && SQ(0x2b) == 0xe3
    ensures SQ(0x2c) == 0x4a && SQ(0x2d) == 0x15 && SQ(0x2e) == 0x1b && SQ(0x2f) == 0xb9
  {
  }

  lemma SQRow3()
    ensures SQ(0x30) == 0xb2 && SQ(0x31) == 0x80 && SQ(0x32) == 0x85 && SQ(0x33) == 0xa6
    ensures SQ(0x34) == 0x2e && SQ(0x35) == 0x02 && SQ(0x36) == 0x47 && SQ(0x37) == 0x29
    ensures SQ(0x38) == 0x07 && SQ(0x39) == 0x4b && SQ(0x3a) == 0x0e && SQ(0x3b) == 0xc1
    ensures SQ(0x3c) == 0x51 && SQ(0x3d) == 0xaa && SQ(0x3e) == 0x89 && SQ(0x3f) == 0xd4
  {
  }

  lemma SQRow4()
    ensures SQ(0x40) == 0xca && SQ(0x41) == 0x01 && SQ(0x42) == 0x46 && SQ(0x43) == 0xb3
    ensures SQ(0x44) == 0xef && SQ(0x45) == 0xdd && SQ(0x46) == 0x44 && SQ(0x47) == 0x7b
    ensures SQ(0x48) == 0xc2 && SQ(0x49) == 0x7f && SQ(0x4a) == 0xbe && SQ(0x4b) == 0xc3
    ensures SQ(0x4c) == 0x9f && SQ(0x4d) == 0x20 && SQ(0x4e) == 0x4c && SQ(0x4f) == 0x64
  {
  }

  lemma SQRow5()
    ensures SQ(0x50) == 0x83 && SQ(0x51) == 0xa2 && SQ(0x52) == 0x68 && SQ(0x53) == 0x42
    ensures SQ(0x54) == 0x13 && SQ(0x55) == 0xb4 && SQ(0x56) == 0x41 && SQ(0x57) == 0xcd
    ensures SQ(0x58) == 0xba && SQ(0x59) == 0xc6 && SQ(0x5a) == 0xbb && SQ(0x5b) == 0x6d
    ensures SQ(0x5c) == 0x4d && SQ(0x5d) == 0x71 && SQ(0x5e) == 0x21 && SQ(0x5f) == 0xf4
  {
  }

  lemma SQRow6()
    ensures SQ(0x60) == 0x8d && SQ(0x61) == 0xb0 && SQ(0x62) == 0xe5 && SQ(0x63) == 0x93
    ensures SQ(0x64) == 0xfe && SQ(0x65) == 0x8f && SQ(0x66) == 0xe6 && SQ(0x67) == 0xcf
    ensures SQ(0x68) == 0x43 && SQ(0x69) == 0x45 && SQ(0x6a) == 0x31 && SQ(0x6b) == 0x22
    ensures SQ(0x6c) == 0x37 && SQ(0x6d) == 0x36 && SQ(0x6e) == 0x96 && SQ(0x6f) == 0xfa
  {
  }

  lemma SQRow7()
    ensures SQ(0x70) == 0xbc && SQ(0x71) == 0x0f && SQ(0x72) == 0x08 && SQ(0x73) == 0x52
    ensures SQ(0x74) == 0x1d && SQ(0x75) == 0x55 && SQ(0x76) == 0x1a && SQ(0x77) == 0xc5
    ensures SQ(0x78) == 0x4e && SQ(0x79) == 0x23 && SQ(0x7a) == 0x69 && SQ(0x7b) == 0x7a
    ensures SQ(0x7c) == 0x92 && SQ(0x7d) == 0xff && SQ(0x7e) == 0x5b && SQ(0x7f) == 0x5a
  {
  }

  lemma SQRow8()
    ensures SQ(0x80) == 0xeb && SQ(0x81) == 0x9a && SQ(0x82) == 0x1c && SQ(0x83) == 0xa9
    ensures SQ(0x84) == 0xd1 && SQ(0x85) == 0x7e && SQ(0x86) == 0x0d && SQ(0x87) == 0xfc
    ensures SQ(0x88) == 0x50 && SQ(0x89) == 0x8a && SQ(0x8a) == 0xb6 && SQ(0x8b) == 0x62
    ensures SQ(0x8c) == 0xf5 && SQ(0x8d) == 0x0a && SQ(0x8e) == 0xf8 && SQ(0x8f) == 0xdc
  {
  }

  lemma SQRow9()
    ensures SQ(0x90) == 0x03 && SQ(0x91) == 0x3c && SQ(0x92) == 0x0c && SQ(0x93) == 0x39
    ensures SQ(0x94) == 0xf1 && SQ(0x95) == 0xb8 && SQ(0x96) == 0xf3 && SQ(0x97) == 0x3d
    ensures SQ(0x98) == 0xf2 && SQ(0x99) == 0xd5 && SQ(0x9a) == 0x97 && SQ(0x9b) == 0x66
    ensures SQ(0x9c) == 0x81 && SQ(0x9d) == 0x32 && SQ(0x9e) == 0xa0 && SQ(0x9f) == 0x00
  {
  }

  lemma SQRowA()
    ensures SQ(0xa0) == 0x06 && SQ(0xa1) == 0xce && SQ(0xa2) == 0xf6 && SQ(0xa3) == 0xea
    ensures SQ(0xa4) == 0xb7 && SQ(0xa5) == 0x17 && SQ(0xa6) == 0xf7 && SQ(0xa7) == 0x8c
    ensures SQ(0xa8) == 0x79 && SQ(0xa9) == 0xd6 && SQ(0xaa) == 0xa7 && SQ(0xab) == 0xbf
    ensures SQ(0xac) == 0x8b && SQ(0xad) == 0x3f && SQ(0xae) == 0x1f && SQ(0xaf) == 0x53
  {
  }

  lemma SQRowB()
    ensures SQ(0xb0) == 0x63 && SQ(0xb1) == 0x75 && SQ(0xb2) == 0x35 && SQ(0xb3) == 0x2c
    ensures SQ(0xb4) == 0x60 && SQ(0xb5) == 0xfd && SQ(0xb6) == 0x27 && SQ(0xb7) == 0xd3
    ensures SQ(0xb8) == 0x94 && SQ(0xb9) == 0xa5 && SQ(0xba) == 0x7c && SQ(0xbb) == 0xa1
    ensures SQ(0xbc) == 0x05 && SQ(0xbd) == 0x58 && SQ(0xbe) == 0x2d && SQ(0xbf) == 0xbd
  {
  }

  lemma SQRowC()
    ensures SQ(0xc0) == 0xd9 && SQ(0xc1) == 0xc7 && SQ(0xc2) == 0xaf && SQ(0xc3) == 0x6b
    ensures SQ(0xc4) == 0x54 && SQ(0xc5) == 0x0b && SQ(0xc6) == 0xe0 && SQ(0xc7) == 0x38
    ensures SQ(0xc8) == 0x04 && SQ(0xc9) == 0xc8 && SQ(0xca) == 0x9d && SQ(0xcb) == 0xe7
    ensures SQ(0xcc) == 0x14 && SQ(0xcd) == 0xb1 && SQ(0xce) == 0x87 && SQ(0xcf) == 0x9c
  {
  }

  lemma SQRowD()
    ensures SQ(0xd0) == 0xdf && SQ(0xd1) == 0x6f && SQ(0xd2) == 0xf9 && SQ(0xd3) == 0xda
    ensures SQ(0xd4) == 0x2a && SQ(0xd5) == 0xc4 && SQ(0xd6) == 0x59 && SQ(0xd7) == 0x16
    ensures SQ(0xd8) == 0x74 && SQ(0xd9) == 0x91 && SQ(0xda) == 0xab && SQ(0xdb) == 0x26
    ensures SQ(0xdc) == 0x61 && SQ(0xdd) == 0x76 && SQ(0xde) == 0x34 && SQ(0xdf) == 0x2b
  {
  }

  lemma SQRowE()
    ensures SQ(0xe0) == 0xad && SQ(0xe1) == 0x99 && SQ(0xe2) == 0xfb && SQ(0xe3) == 0x72
    ensures SQ(0xe4) == 0xec && SQ(0xe5) == 0x33 && SQ(0xe6) == 0x12 && SQ(0xe7) == 0xde
    ensures SQ(0xe8) == 0x98 && SQ(0xe9) == 0x3b && SQ(0xea) == 0xc0 && SQ(0xeb) == 0x9b
    ensures SQ(0xec) == 0x3e && SQ(0xed) == 0x18 && SQ(0xee) == 0x10 && SQ(0xef) == 0x3a
  {
  }

  lemma SQRowF()
    ensures SQ(0xf0) == 0x56 && SQ(0xf1) == 0xe1 && SQ(0xf2) == 0x77 && SQ(0xf3) == 0xc9
    ensures SQ(0xf4) == 0x1e && SQ(0xf5) == 0x9e && SQ(0xf6) == 0x95 && SQ(0xf7) == 0xa3
    ensures SQ(0xf8) == 0x90 && SQ(0xf9) == 0x19 && SQ(0xfa) == 0xa8 && SQ(0xfb) == 0x6c
    ensures SQ(0xfc) == 0x09 && SQ(0xfd) == 0xd0 && SQ(0xfe) == 0xf0 && SQ(0xff) == 0x86
  {
  }

  lemma XTimeRow0()
    ensures XTime(0x00) == 0x00 && XTime(0x01) == 0x02 && XTime(0x02) == 0x04 && XTime(0x03) == 0x06
    ensures XTime(0x04) == 0x08 && XTime(0x05) == 0x0a && XTime(0x06) == 0x0c && XTime(0x07) == 0x0e
    ensures XTime(0x08) == 0x10 && XTime(0x09) == 0x12 && XTime(0x0a) == 0x14 && XTime(0x0b) == 0x16
    ensures XTime(0x0c) == 0x18 && XTime(0x0d) == 0x1a && XTime(0x0e) == 0x1c && XTime(0x0f) == 0x1e
  {
  }

  lemma XTimeRow1()
    ensures XTime(0x10) == 0x20 && XTime(0x11) == 0x22 && XTime(0x12) == 0x24 && XTime(0x13) == 0x26
    ensures XTime(0x14) == 0x28 && XTime(0x15) == 0x2a && XTime(0x16) == 0x2c && XTime(0x17) == 0x2e
    ensures XTime(0x18) == 0x30 && XTime(0x19) == 0x32 && XTime(0x1a) == 0x34 && XTime(0x1b) == 0x36
    ensures XTime(0x1c) == 0x38 && XTime(0x1d) == 0x3a && XTime(0x1e) == 0x3c && XTime(0x1f) == 0x3e
  {
  }

  lemma XTimeRow2()
    ensures XTime(0x20) == 0x40 && XTime(0x21) == 0x42 && XTime(0x22) == 0x44 && XTime(0x23) == 0x46
    ensures XTime(0x24) == 0x48 && XTime(0x25) == 0x4a && XTime(0x26) == 0x4c && XTime(0x27) == 0x4e
    ensures XTime(0x28) == 0x50 && XTime(0x29) == 0x52 && XTime(0x2a) == 0x54 && XTime(0x2b) == 0x56
    ensures XTime(0x2c) == 0x58 && XTime(0x2d) == 0x5a && XTime(0x2e) == 0x5c && XTime(0x2f) == 0x5e
  {
  }

  lemma XTimeRow3()
    ensures XTime(0x30) == 0x60 && XTime(0x31) == 0x62 && XTime(0x32) == 0x64 && XTime(0x33) == 0x66
    ensures XTime(0x34) == 0x68 && XTime(0x35) == 0x6a && XTime(0x36) == 0x6c && XTime(0x37) == 0x6e
    ensures XTime(0x38) == 0x70 && XTime(0x39) == 0x72 && XTime(0x3a) == 0x74 && XTime(0x3b) == 0x76
    ensures XTime(0x3c) == 0x78 && XTime(0x3d) == 0x7a && XTime(0x3e) == 0x7c && XTime(0x3f) == 0x7e
  {
  }

  lemma XTimeRow4()
    ensures XTime(0x40) == 0x80 && XTime(0x41) == 0x82 && XTime(0x42) == 0x84 && XTime(0x43) == 0x86
    ensures XTime(0x44) == 0x88 && XTime(0x45) == 0x8a && XTime(0x46) == 0x8c && XTime(0x47) == 0x8e
    ensures XTime(0x48) == 0x90 && XTime(0x49) == 0x92 && XTime(0x4a) == 0x94 && XTime(0x4b) == 0x96
    ensures XTime(0x4c) == 0x98 && XTime(0x4d) == 0x9a && XTime(0x4e) == 0x9c && XTime(0x4f) == 0x9e
  {
  }

  lemma XTimeRow5()
    ensures XTime(0x50) == 0xa0 && XTime(0x51) == 0xa2 && XTime(0x52) == 0xa4 && XTime(0x53) == 0xa6
    ensures XTime(0x54) == 0xa8 && XTime(0x55) == 0xaa && XTime(0x56) == 0xac && XTime(0x57) == 0xae
    ensures XTime(0x58) == 0xb0 && XTime(0x59) == 0xb2 && XTime(0x5a) == 0xb4 && XTime(0x5b) == 0xb6
    ensures XTime(0x5c) == 0xb8 && XTime(0x5d) == 0xba && XTime(0x5e) == 0xbc && XTime(0x5f) == 0xbe
  {
  }

  lemma XTimeRow6()
    ensures XTime(0x60) == 0xc0 && XTime(0x61) == 0xc2 && XTime(0x62) == 0xc4 && XTime(0x63) == 0xc6
    ensures XTime(0x64) == 0xc8 && XTime(0x65) == 0xca && XTime(0x66) == 0xcc && XTime(0x67) == 0xce
    ensures XTime(0x68) == 0xd0 && XTime(0x69) == 0xd2 && XTime(0x6a) == 0xd4 && XTime(0x6b) == 0xd6
    ensures XTime(0x6c) == 0xd8 && XTime(0x6d) == 0xda && XTime(0x6e) == 0xdc && XTime(0x6f) == 0xde
  {
  }

  lemma XTimeRow7()
    ensures XTime(0x70) == 0xe0 && XTime(0x71) == 0xe2 && XTime(0x72) == 0xe4 && XTime(0x73) == 0xe6
    ensures XTime(0x74) == 0xe8 && XTime(0x75) == 0xea && XTime(0x76) == 0xec && XTime(0x77) == 0xee
    ensures XTime(0x78) == 0xf0 && XTime(0x79) == 0xf2 && XTime(0x7a) == 0xf4 && XTime(0x7b) == 0xf6
    ensures XTime(0x7c) == 0xf8 && XTime(0x7d) == 0xfa && XTime(0x7e) == 0xfc && XTime(0x7f) == 0xfe
  {
  }

  lemma XTimeRow8()
    ensures XTime(0x80) == 0x1b && XTime(0x81) == 0x19 && XTime(0x82) == 0x1f && XTime(0x83) == 0x1d
    ensures XTime(0x84) == 0x13 && XTime(0x85) == 0x11 && XTime(0x86) == 0x17 && XTime(0x87) == 0x15
    ensures XTime(0x88) == 0x0b && XTime(0x89) == 0x09 && XTime(0x8a) == 0x0f && XTime(0x8b) == 0x0d
    ensures XTime(0x8c) == 0x03 && XTime(0x8d) == 0x01 && XTime(0x8e) == 0x07 && XTime(0x8f) == 0x05
  {
  }

  lemma XTimeRow9()
    ensures XTime(0x90) == 0x3b && XTime(0x91) == 0x39 && XTime(0x92) == 0x3f && XTime(0x93) == 0x3d
    ensures XTime(0x94) == 0x33 && XTime(0x95) == 0x31 && XTime(0x96) == 0x37 && XTime(0x97) == 0x35
    ensures XTime(0x98) == 0x2b && XTime(0x99) == 0x29 && XTime(0x9a) == 0x2f && XTime(0x9b) == 0x2d
    ensures XTime(0x9c) == 0x23 && XTime(0x9d) == 0x21 && XTime(0x9e) == 0x27 && XTime(0x9f) == 0x25
  {
  }

  lemma XTimeRowA()
    ensures XTime(0xa0) == 0x5b && XTime(0xa1) == 0x59 && XTime(0xa2) == 0x5f && XTime(0xa3) == 0x5d
    ensures XTime(0xa4) == 0x53 && XTime(0xa5) == 0x51 && XTime(0xa6) == 0x57 && XTime(0xa7) == 0x55
    ensures XTime(0xa8) == 0x4b && XTime(0xa9) == 0x49 && XTime(0xaa) == 0x4f && XTime(0xab) == 0x4d
    ensures XTime(0xac) == 0x43 && XTime(0xad) == 0x41 && XTime(0xae) == 0x47 && XTime(0xaf) == 0x45
  {
  }

  lemma XTimeRowB()
    ensures XTime(0xb0) == 0x7b && XTime(0xb1) == 0x79 && XTime(0xb2) == 0x7f && XTime(0xb3) == 0x7d
    ensures XTime(0xb4) == 0x73 && XTime(0xb5) == 0x71 && XTime(0xb6) == 0x77 && XTime(0xb7) == 0x75
    ensures XTime(0xb8) == 0x6b && XTime(0xb9) == 0x69 && XTime(0xba) == 0x6f && XTime(0xbb) == 0x6d
    ensures XTime(0xbc) == 0x63 && XTime(0xbd) == 0x61 && XTime(0xbe) == 0x67 && XTime(0xbf) == 0x65
  {
  }

  lemma XTimeRowC()
    ensures XTime(0xc0) == 0x9b && XTime(0xc1) == 0x99 && XTime(0xc2) == 0x9f && XTime(0xc3) == 0x9d
    ensures XTime(0xc4) == 0x93 && XTime(0xc5) == 0x91 && XTime(0xc6) == 0x97 && XTime(0xc7) == 0x95
    ensures XTime(0xc8) == 0x8b && XTime(0xc9) == 0x89 && XTime(0xca) == 0x8f && XTime(0xcb) == 0x8d
    ensures XTime(0xcc) == 0x83 && XTime(0xcd) == 0x81 && XTime(0xce) == 0x87 && XTime(0xcf) == 0x85
  {
  }

  lemma XTimeRowD()
    ensures XTime(0xd0) == 0xbb && XTime(0xd1) == 0xb9 && XTime(0xd2) == 0xbf && XTime(0xd3) == 0xbd
    ensures XTime(0xd4) == 0xb3 && XTime(0xd5) == 0xb1 && XTime(0xd6) == 0xb7 && XTime(0xd7) == 0xb5
    ensures XTime(0xd8) == 0xab && XTime(0xd9) == 0xa9 && XTime(0xda) == 0xaf && XTime(0xdb) == 0xad
    ensures XTime(0xdc) == 0xa3 && XTime(0xdd) == 0xa1 && XTime(0xde) == 0xa7 && XTime(0xdf) == 0xa5
  {
  }

  lemma XTimeRowE()
    ensures XTime(0xe0) == 0xdb && XTime(0xe1) == 0xd9 && XTime(0xe2) == 0xdf && XTime(0xe3) == 0xdd
    ensures XTime(0xe4) == 0xd3 && XTime(0xe5) == 0xd1 && XTime(0xe6) == 0xd7 && XTime(0xe7) == 0xd5
    ensures XTime(0xe8) == 0xcb && XTime(0xe9) == 0xc9 && XTime(0xea) == 0xcf && XTime(0xeb) == 0xcd
    ensures XTime(0xec) == 0xc3 && XTime(0xed) == 0xc1 && XTime(0xee) == 0xc7 && XTime(0xef) == 0xc5
  {
  }

  lemma XTimeRowF()
    ensures XTime(0xf0) == 0xfb && XTime(0xf1) == 0xf9 && XTime(0xf2) == 0xff && XTime(0xf3) == 0xfd
    ensures XTime(0xf4) == 0xf3 && XTime(0xf5) == 0xf1 && XTime(0xf6) == 0xf7 && XTime(0xf7) == 0xf5
    ensures XTime(0xf8) == 0xeb && XTime(0xf9) == 0xe9 && XTime(0xfa) == 0xef && XTime(0xfb) == 0xed
    ensures XTime(0xfc) == 0xe3 && XTime(0xfd) == 0xe1 && XTime(0xfe) == 0xe7 && XTime(0xff) == 0xe5
  {
  }
}

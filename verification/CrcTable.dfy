/** Eight-bit numbers as bit vectors and as integers. */
module Octets {

  lemma IntBack(x: int)
    requires 0 <= x < 0x100
    ensures (x as bv8) as int == x
  {
  }

  lemma BitsBack(x: bv8)
    ensures (x as int) as bv8 == x
  {
  }
}

/** The CRC table of src/dvbpsi.cpp, entry by entry. */
module CrcTable {

  /** One step of the division by 0x04c11db7. */
  function Shift(c: bv32): bv32 {
    if c & 0x8000_0000 != 0 then (c << 1) ^ 0x04c1_1db7 else c << 1
  }

  function Shift8(c: bv32): bv32 {
    Shift(Shift(Shift(Shift(Shift(Shift(Shift(Shift(c))))))))
  }

  /** The table of the source, sixteen entries a row. */
  function Table(i: bv32): bv32 {
    var j := i & 0xF;
    match i >> 4
    case 0x0 => Row0(j)
    case 0x1 => Row1(j)
    case 0x2 => Row2(j)
    case 0x3 => Row3(j)
    case 0x4 => Row4(j)
    case 0x5 => Row5(j)
    case 0x6 => Row6(j)
    case 0x7 => Row7(j)
    case 0x8 => Row8(j)
    case 0x9 => Row9(j)
    case 0xa => RowA(j)
    case 0xb => RowB(j)
    case 0xc => RowC(j)
    case 0xd => RowD(j)
    case 0xe => RowE(j)
    case 0xf => RowF(j)
    case _ => 0
  }

  function Row0(j: bv32): bv32 {
    match j
    case 0x0 => 0x00000000 case 0x1 => 0x04c11db7 case 0x2 => 0x09823b6e case 0x3 => 0x0d4326d9
    case 0x4 => 0x130476dc case 0x5 => 0x17c56b6b case 0x6 => 0x1a864db2 case 0x7 => 0x1e475005
    case 0x8 => 0x2608edb8 case 0x9 => 0x22c9f00f case 0xa => 0x2f8ad6d6 case 0xb => 0x2b4bcb61
    case 0xc => 0x350c9b64 case 0xd => 0x31cd86d3 case 0xe => 0x3c8ea00a case 0xf => 0x384fbdbd
    case _ => 0
  }

  function Row1(j: bv32): bv32 {
    match j
    case 0x0 => 0x4c11db70 case 0x1 => 0x48d0c6c7 case 0x2 => 0x4593e01e case 0x3 => 0x4152fda9
    case 0x4 => 0x5f15adac case 0x5 => 0x5bd4b01b case 0x6 => 0x569796c2 case 0x7 => 0x52568b75
    case 0x8 => 0x6a1936c8 case 0x9 => 0x6ed82b7f case 0xa => 0x639b0da6 case 0xb => 0x675a1011
    case 0xc => 0x791d4014 case 0xd => 0x7ddc5da3 case 0xe => 0x709f7b7a case 0xf => 0x745e66cd
    case _ => 0
  }

  function Row2(j: bv32): bv32 {
    match j
    case 0x0 => 0x9823b6e0 case 0x1 => 0x9ce2ab57 case 0x2 => 0x91a18d8e case 0x3 => 0x95609039
    case 0x4 => 0x8b27c03c case 0x5 => 0x8fe6dd8b case 0x6 => 0x82a5fb52 case 0x7 => 0x8664e6e5
    case 0x8 => 0xbe2b5b58 case 0x9 => 0xbaea46ef case 0xa => 0xb7a96036 case 0xb => 0xb3687d81
    case 0xc => 0xad2f2d84 case 0xd => 0xa9ee3033 case 0xe => 0xa4ad16ea case 0xf => 0xa06c0b5d
    case _ => 0
  }

  function Row3(j: bv32): bv32 {
    match j
    case 0x0 => 0xd4326d90 case 0x1 => 0xd0f37027 case 0x2 => 0xddb056fe case 0x3 => 0xd9714b49
    case 0x4 => 0xc7361b4c case 0x5 => 0xc3f706fb case 0x6 => 0xceb42022 case 0x7 => 0xca753d95
    case 0x8 => 0xf23a8028 case 0x9 => 0xf6fb9d9f case 0xa => 0xfbb8bb46 case 0xb => 0xff79a6f1
    case 0xc => 0xe13ef6f4 case 0xd => 0xe5ffeb43 case 0xe => 0xe8bccd9a case 0xf => 0xec7dd02d
    case _ => 0
  }

  function Row4(j: bv32): bv32 {
    match j
    case 0x0 => 0x34867077 case 0x1 => 0x30476dc0 case 0x2 => 0x3d044b19 case 0x3 => 0x39c556ae
    case 0x4 => 0x278206ab case 0x5 => 0x23431b1c case 0x6 => 0x2e003dc5 case 0x7 => 0x2ac12072
    case 0x8 => 0x128e9dcf case 0x9 => 0x164f8078 case 0xa => 0x1b0ca6a1 case 0xb => 0x1fcdbb16
    case 0xc => 0x018aeb13 case 0xd => 0x054bf6a4 case 0xe => 0x0808d07d case 0xf => 0x0cc9cdca
    case _ => 0
  }

  function Row5(j: bv32): bv32 {
    match j
    case 0x0 => 0x7897ab07 case 0x1 => 0x7c56b6b0 case 0x2 => 0x71159069 case 0x3 => 0x75d48dde
    case 0x4 => 0x6b93dddb case 0x5 => 0x6f52c06c case 0x6 => 0x6211e6b5 case 0x7 => 0x66d0fb02
    case 0x8 => 0x5e9f46bf case 0x9 => 0x5a5e5b08 case 0xa => 0x571d7dd1 case 0xb => 0x53dc6066
    case 0xc => 0x4d9b3063 case 0xd => 0x495a2dd4 case 0xe => 0x44190b0d case 0xf => 0x40d816ba
    case _ => 0
  }

  function Row6(j: bv32): bv32 {
    match j
    case 0x0 => 0xaca5c697 case 0x1 => 0xa864db20 case 0x2 => 0xa527fdf9 case 0x3 => 0xa1e6e04e
    case 0x4 => 0xbfa1b04b case 0x5 => 0xbb60adfc case 0x6 => 0xb6238b25 case 0x7 => 0xb2e29692
    case 0x8 => 0x8aad2b2f case 0x9 => 0x8e6c3698 case 0xa => 0x832f1041 case 0xb => 0x87ee0df6
    case 0xc => 0x99a95df3 case 0xd => 0x9d684044 case 0xe => 0x902b669d case 0xf => 0x94ea7b2a
    case _ => 0
  }

  function Row7(j: bv32): bv32 {
    match j
    case 0x0 => 0xe0b41de7 case 0x1 => 0xe4750050 case 0x2 => 0xe9362689 case 0x3 => 0xedf73b3e
    case 0x4 => 0xf3b06b3b case 0x5 => 0xf771768c case 0x6 => 0xfa325055 case 0x7 => 0xfef34de2
    case 0x8 => 0xc6bcf05f case 0x9 => 0xc27dede8 case 0xa => 0xcf3ecb31 case 0xb => 0xcbffd686
    case 0xc => 0xd5b88683 case 0xd => 0xd1799b34 case 0xe => 0xdc3abded case 0xf => 0xd8fba05a
    case _ => 0
  }

  function Row8(j: bv32): bv32 {
    match j
    case 0x0 => 0x690ce0ee case 0x1 => 0x6dcdfd59 case 0x2 => 0x608edb80 case 0x3 => 0x644fc637
    case 0x4 => 0x7a089632 case 0x5 => 0x7ec98b85 case 0x6 => 0x738aad5c case 0x7 => 0x774bb0eb
    case 0x8 => 0x4f040d56 case 0x9 => 0x4bc510e1 case 0xa => 0x46863638 case 0xb => 0x42472b8f
    case 0xc => 0x5c007b8a case 0xd => 0x58c1663d case 0xe => 0x558240e4 case 0xf => 0x51435d53
    case _ => 0
  }

  function Row9(j: bv32): bv32 {
    match j
    case 0x0 => 0x251d3b9e case 0x1 => 0x21dc2629 case 0x2 => 0x2c9f00f0 case 0x3 => 0x285e1d47
    case 0x4 => 0x36194d42 case 0x5 => 0x32d850f5 case 0x6 => 0x3f9b762c case 0x7 => 0x3b5a6b9b
    case 0x8 => 0x0315d626 case 0x9 => 0x07d4cb91 case 0xa => 0x0a97ed48 case 0xb => 0x0e56f0ff
    case 0xc => 0x1011a0fa case 0xd => 0x14d0bd4d case 0xe => 0x19939b94 case 0xf => 0x1d528623
    case _ => 0
  }

  function RowA(j: bv32): bv32 {
    match j
    case 0x0 => 0xf12f560e case 0x1 => 0xf5ee4bb9 case 0x2 => 0xf8ad6d60 case 0x3 => 0xfc6c70d7
    case 0x4 => 0xe22b20d2 case 0x5 => 0xe6ea3d65 case 0x6 => 0xeba91bbc case 0x7 => 0xef68060b
    case 0x8 => 0xd727bbb6 case 0x9 => 0xd3e6a601 case 0xa => 0xdea580d8 case 0xb => 0xda649d6f
    case 0xc => 0xc423cd6a case 0xd => 0xc0e2d0dd case 0xe => 0xcda1f604 case 0xf => 0xc960ebb3
    case _ => 0
  }

  function RowB(j: bv32): bv32 {
    match j
    case 0x0 => 0xbd3e8d7e case 0x1 => 0xb9ff90c9 case 0x2 => 0xb4bcb610 case 0x3 => 0xb07daba7
    case 0x4 => 0xae3afba2 case 0x5 => 0xaafbe615 case 0x6 => 0xa7b8c0cc case 0x7 => 0xa379dd7b
    case 0x8 => 0x9b3660c6 case 0x9 => 0x9ff77d71 case 0xa => 0x92b45ba8 case 0xb => 0x9675461f
    case 0xc => 0x8832161a case 0xd => 0x8cf30bad case 0xe => 0x81b02d74 case 0xf => 0x857130c3
    case _ => 0
  }

  function RowC(j: bv32): bv32 {
    match j
    case 0x0 => 0x5d8a9099 case 0x1 => 0x594b8d2e case 0x2 => 0x5408abf7 case 0x3 => 0x50c9b640
    case 0x4 => 0x4e8ee645 case 0x5 => 0x4a4ffbf2 case 0x6 => 0x470cdd2b case 0x7 => 0x43cdc09c
    case 0x8 => 0x7b827d21 case 0x9 => 0x7f436096 case 0xa => 0x7200464f case 0xb => 0x76c15bf8
    case 0xc => 0x68860bfd case 0xd => 0x6c47164a case 0xe => 0x61043093 case 0xf => 0x65c52d24
    case _ => 0
  }

  function RowD(j: bv32): bv32 {
    match j
    case 0x0 => 0x119b4be9 case 0x1 => 0x155a565e case 0x2 => 0x18197087 case 0x3 => 0x1cd86d30
    case 0x4 => 0x029f3d35 case 0x5 => 0x065e2082 case 0x6 => 0x0b1d065b case 0x7 => 0x0fdc1bec
    case 0x8 => 0x3793a651 case 0x9 => 0x3352bbe6 case 0xa => 0x3e119d3f case 0xb => 0x3ad08088
    case 0xc => 0x2497d08d case 0xd => 0x2056cd3a case 0xe => 0x2d15ebe3 case 0xf => 0x29d4f654
    case _ => 0
  }

  function RowE(j: bv32): bv32 {
    match j
    case 0x0 => 0xc5a92679 case 0x1 => 0xc1683bce case 0x2 => 0xcc2b1d17 case 0x3 => 0xc8ea00a0
    case 0x4 => 0xd6ad50a5 case 0x5 => 0xd26c4d12 case 0x6 => 0xdf2f6bcb case 0x7 => 0xdbee767c
    case 0x8 => 0xe3a1cbc1 case 0x9 => 0xe760d676 case 0xa => 0xea23f0af case 0xb => 0xeee2ed18
    case 0xc => 0xf0a5bd1d case 0xd => 0xf464a0aa case 0xe => 0xf9278673 case 0xf => 0xfde69bc4
    case _ => 0
  }

  function RowF(j: bv32): bv32 {
    match j
    case 0x0 => 0x89b8fd09 case 0x1 => 0x8d79e0be case 0x2 => 0x803ac667 case 0x3 => 0x84fbdbd0
    case 0x4 => 0x9abc8bd5 case 0x5 => 0x9e7d9662 case 0x6 => 0x933eb0bb case 0x7 => 0x97ffad0c
    case 0x8 => 0xafb010b1 case 0x9 => 0xab710d06 case 0xa => 0xa6322bdf case 0xb => 0xa2f33668
    case 0xc => 0xbcb4666d case 0xd => 0xb8757bda case 0xe => 0xb5365d03 case 0xf => 0xb1f740b4
    case _ => 0
  }

  /** Every entry is its index, divided bit by bit. */
  lemma TableIs(i: bv32)
    requires i < 256
    ensures Table(i) == Shift8(i << 24)
  {
    hide Row0, Row1, Row2, Row3, Row4, Row5, Row6, Row7, Row8, Row9, RowA, RowB, RowC, RowD, RowE, RowF, Shift8;
    if i >> 4 == 0x0 { Row0Is(i & 0xF); }
    else if i >> 4 == 0x1 { Row1Is(i & 0xF); }
    else if i >> 4 == 0x2 { Row2Is(i & 0xF); }
    else if i >> 4 == 0x3 { Row3Is(i & 0xF); }
    else if i >> 4 == 0x4 { Row4Is(i & 0xF); }
    else if i >> 4 == 0x5 { Row5Is(i & 0xF); }
    else if i >> 4 == 0x6 { Row6Is(i & 0xF); }
    else if i >> 4 == 0x7 { Row7Is(i & 0xF); }
    else if i >> 4 == 0x8 { Row8Is(i & 0xF); }
    else if i >> 4 == 0x9 { Row9Is(i & 0xF); }
    else if i >> 4 == 0xa { RowAIs(i & 0xF); }
    else if i >> 4 == 0xb { RowBIs(i & 0xF); }
    else if i >> 4 == 0xc { RowCIs(i & 0xF); }
    else if i >> 4 == 0xd { RowDIs(i & 0xF); }
    else if i >> 4 == 0xe { RowEIs(i & 0xF); }
    else if i >> 4 == 0xf { RowFIs(i & 0xF); }
    SplitIndex(i);
  }

  lemma SplitIndex(i: bv32)
    requires i < 256
    ensures i >> 4 < 16 && i & 0xF < 16 && i << 24 == ((i >> 4) << 28) | ((i & 0xF) << 24)
  {
  }

  lemma Row0Is(j: bv32)
    requires j < 16
    ensures Row0(j) == Shift8(0x0000_0000 | (j << 24))
  {
  }

  lemma Row1Is(j: bv32)
    requires j < 16
    ensures Row1(j) == Shift8(0x1000_0000 | (j << 24))
  {
  }

  lemma Row2Is(j: bv32)
    requires j < 16
    ensures Row2(j) == Shift8(0x2000_0000 | (j << 24))
  {
  }

  lemma Row3Is(j: bv32)
    requires j < 16
    ensures Row3(j) == Shift8(0x3000_0000 | (j << 24))
  {
  }

  lemma Row4Is(j: bv32)
    requires j < 16
    ensures Row4(j) == Shift8(0x4000_0000 | (j << 24))
  {
  }

  lemma Row5Is(j: bv32)
    requires j < 16
    ensures Row5(j) == Shift8(0x5000_0000 | (j << 24))
  {
  }

  lemma Row6Is(j: bv32)
    requires j < 16
    ensures Row6(j) == Shift8(0x6000_0000 | (j << 24))
  {
  }

  lemma Row7Is(j: bv32)
    requires j < 16
    ensures Row7(j) == Shift8(0x7000_0000 | (j << 24))
  {
  }

  lemma Row8Is(j: bv32)
    requires j < 16
    ensures Row8(j) == Shift8(0x8000_0000 | (j << 24))
  {
  }

  lemma Row9Is(j: bv32)
    requires j < 16
    ensures Row9(j) == Shift8(0x9000_0000 | (j << 24))
  {
  }

  lemma RowAIs(j: bv32)
    requires j < 16
    ensures RowA(j) == Shift8(0xa000_0000 | (j << 24))
  {
  }

  lemma RowBIs(j: bv32)
    requires j < 16
    ensures RowB(j) == Shift8(0xb000_0000 | (j << 24))
  {
  }

  lemma RowCIs(j: bv32)
    requires j < 16
    ensures RowC(j) == Shift8(0xc000_0000 | (j << 24))
  {
  }

  lemma RowDIs(j: bv32)
    requires j < 16
    ensures RowD(j) == Shift8(0xd000_0000 | (j << 24))
  {
  }

  lemma RowEIs(j: bv32)
    requires j < 16
    ensures RowE(j) == Shift8(0xe000_0000 | (j << 24))
  {
  }

  lemma RowFIs(j: bv32)
    requires j < 16
    ensures RowF(j) == Shift8(0xf000_0000 | (j << 24))
  {
  }
}

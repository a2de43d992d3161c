// The constant tables of the DES code, one source row per case.  Every use in the code masks the
// subscript to six (or four) bits, so a table is a total function of that many bits.
module DesTables {
  // Element i mod 4 of a row of four.
  function Quad(i: bv6, a: bv32, b: bv32, c: bv32, d: bv32): bv32 {
    if i & 2 == 0 then (if i & 1 == 0 then a else b) else (if i & 1 == 0 then c else d)
  }

  // Selection functions fused with permutation P and rotated left by one.
  function SB1(i: bv6): bv32 {
    match i >> 2
    case 0 => Quad(i, 0x01010400, 0x00000000, 0x00010000, 0x01010404)
    case 1 => Quad(i, 0x01010004, 0x00010404, 0x00000004, 0x00010000)
    case 2 => Quad(i, 0x00000400, 0x01010400, 0x01010404, 0x00000400)
    case 3 => Quad(i, 0x01000404, 0x01010004, 0x01000000, 0x00000004)
    case 4 => Quad(i, 0x00000404, 0x01000400, 0x01000400, 0x00010400)
    case 5 => Quad(i, 0x00010400, 0x01010000, 0x01010000, 0x01000404)
    case 6 => Quad(i, 0x00010004, 0x01000004, 0x01000004, 0x00010004)
    case 7 => Quad(i, 0x00000000, 0x00000404, 0x00010404, 0x01000000)
    case 8 => Quad(i, 0x00010000, 0x01010404, 0x00000004, 0x01010000)
    case 9 => Quad(i, 0x01010400, 0x01000000, 0x01000000, 0x00000400)
    case 10 => Quad(i, 0x01010004, 0x00010000, 0x00010400, 0x01000004)
    case 11 => Quad(i, 0x00000400, 0x00000004, 0x01000404, 0x00010404)
    case 12 => Quad(i, 0x01010404, 0x00010004, 0x01010000, 0x01000404)
    case 13 => Quad(i, 0x01000004, 0x00000404, 0x00010404, 0x01010400)
    case 14 => Quad(i, 0x00000404, 0x01000400, 0x01000400, 0x00000000)
    case _ => Quad(i, 0x00010004, 0x00010400, 0x00000000, 0x01010004)
  }

  function SB2(i: bv6): bv32 {
    match i >> 2
    case 0 => Quad(i, 0x80108020, 0x80008000, 0x00008000, 0x00108020)
    case 1 => Quad(i, 0x00100000, 0x00000020, 0x80100020, 0x80008020)
    case 2 => Quad(i, 0x80000020, 0x80108020, 0x80108000, 0x80000000)
    case 3 => Quad(i, 0x80008000, 0x00100000, 0x00000020, 0x80100020)
    case 4 => Quad(i, 0x00108000, 0x00100020, 0x80008020, 0x00000000)
    case 5 => Quad(i, 0x80000000, 0x00008000, 0x00108020, 0x80100000)
    case 6 => Quad(i, 0x00100020, 0x80000020, 0x00000000, 0x00108000)
    case 7 => Quad(i, 0x00008020, 0x80108000, 0x80100000, 0x00008020)
    case 8 => Quad(i, 0x00000000, 0x00108020, 0x80100020, 0x00100000)
    case 9 => Quad(i, 0x80008020, 0x80100000, 0x80108000, 0x00008000)
    case 10 => Quad(i, 0x80100000, 0x80008000, 0x00000020, 0x80108020)
    case 11 => Quad(i, 0x00108020, 0x00000020, 0x00008000, 0x80000000)
    case 12 => Quad(i, 0x00008020, 0x80108000, 0x00100000, 0x80000020)
    case 13 => Quad(i, 0x00100020, 0x80008020, 0x80000020, 0x00100020)
    case 14 => Quad(i, 0x00108000, 0x00000000, 0x80008000, 0x00008020)
    case _ => Quad(i, 0x80000000, 0x80100020, 0x80108020, 0x00108000)
  }

  function SB3(i: bv6): bv32 {
    match i >> 2
    case 0 => Quad(i, 0x00000208, 0x08020200, 0x00000000, 0x08020008)
    case 1 => Quad(i, 0x08000200, 0x00000000, 0x00020208, 0x08000200)
    case 2 => Quad(i, 0x00020008, 0x08000008, 0x08000008, 0x00020000)
    case 3 => Quad(i, 0x08020208, 0x00020008, 0x08020000, 0x00000208)
    case 4 => Quad(i, 0x08000000, 0x00000008, 0x08020200, 0x00000200)
    case 5 => Quad(i, 0x00020200, 0x08020000, 0x08020008, 0x00020208)
    case 6 => Quad(i, 0x08000208, 0x00020200, 0x00020000, 0x08000208)
    case 7 => Quad(i, 0x00000008, 0x08020208, 0x00000200, 0x08000000)
    case 8 => Quad(i, 0x08020200, 0x08000000, 0x00020008, 0x00000208)
    case 9 => Quad(i, 0x00020000, 0x08020200, 0x08000200, 0x00000000)
    case 10 => Quad(i, 0x00000200, 0x00020008, 0x08020208, 0x08000200)
    case 11 => Quad(i, 0x08000008, 0x00000200, 0x00000000, 0x08020008)
    case 12 => Quad(i, 0x08000208, 0x00020000, 0x08000000, 0x08020208)
    case 13 => Quad(i, 0x00000008, 0x00020208, 0x00020200, 0x08000008)
    case 14 => Quad(i, 0x08020000, 0x08000208, 0x00000208, 0x08020000)
    case _ => Quad(i, 0x00020208, 0x00000008, 0x08020008, 0x00020200)
  }

  function SB4(i: bv6): bv32 {
    match i >> 2
    case 0 => Quad(i, 0x00802001, 0x00002081, 0x00002081, 0x00000080)
    case 1 => Quad(i, 0x00802080, 0x00800081, 0x00800001, 0x00002001)
    case 2 => Quad(i, 0x00000000, 0x00802000, 0x00802000, 0x00802081)
    case 3 => Quad(i, 0x00000081, 0x00000000, 0x00800080, 0x00800001)
    case 4 => Quad(i, 0x00000001, 0x00002000, 0x00800000, 0x00802001)
    case 5 => Quad(i, 0x00000080, 0x00800000, 0x00002001, 0x00002080)
    case 6 => Quad(i, 0x00800081, 0x00000001, 0x00002080, 0x00800080)
    case 7 => Quad(i, 0x00002000, 0x00802080, 0x00802081, 0x00000081)
    case 8 => Quad(i, 0x00800080, 0x00800001, 0x00802000, 0x00802081)
    case 9 => Quad(i, 0x00000081, 0x00000000, 0x00000000, 0x00802000)
    case 10 => Quad(i, 0x00002080, 0x00800080, 0x00800081, 0x00000001)
    case 11 => Quad(i, 0x00802001, 0x00002081, 0x00002081, 0x00000080)
    case 12 => Quad(i, 0x00802081, 0x00000081, 0x00000001, 0x00002000)
    case 13 => Quad(i, 0x00800001, 0x00002001, 0x00802080, 0x00800081)
    case 14 => Quad(i, 0x00002001, 0x00002080, 0x00800000, 0x00802001)
    case _ => Quad(i, 0x00000080, 0x00800000, 0x00002000, 0x00802080)
  }

  function SB5(i: bv6): bv32 {
    match i >> 2
    case 0 => Quad(i, 0x00000100, 0x02080100, 0x02080000, 0x42000100)
    case 1 => Quad(i, 0x00080000, 0x00000100, 0x40000000, 0x02080000)
    case 2 => Quad(i, 0x40080100, 0x00080000, 0x02000100, 0x40080100)
    case 3 => Quad(i, 0x42000100, 0x42080000, 0x00080100, 0x40000000)
    case 4 => Quad(i, 0x02000000, 0x40080000, 0x40080000, 0x00000000)
    case 5 => Quad(i, 0x40000100, 0x42080100, 0x42080100, 0x02000100)
    case 6 => Quad(i, 0x42080000, 0x40000100, 0x00000000, 0x42000000)
    case 7 => Quad(i, 0x02080100, 0x02000000, 0x42000000, 0x00080100)
    case 8 => Quad(i, 0x00080000, 0x42000100, 0x00000100, 0x02000000)
    case 9 => Quad(i, 0x40000000, 0x02080000, 0x42000100, 0x40080100)
    case 10 => Quad(i, 0x02000100, 0x40000000, 0x42080000, 0x02080100)
    case 11 => Quad(i, 0x40080100, 0x00000100, 0x02000000, 0x42080000)
    case 12 => Quad(i, 0x42080100, 0x00080100, 0x42000000, 0x42080100)
    case 13 => Quad(i, 0x02080000, 0x00000000, 0x40080000, 0x42000000)
    case 14 => Quad(i, 0x00080100, 0x02000100, 0x40000100, 0x00080000)
    case _ => Quad(i, 0x00000000, 0x40080000, 0x02080100, 0x40000100)
  }

  function SB6(i: bv6): bv32 {
    match i >> 2
    case 0 => Quad(i, 0x20000010, 0x20400000, 0x00004000, 0x20404010)
    case 1 => Quad(i, 0x20400000, 0x00000010, 0x20404010, 0x00400000)
    case 2 => Quad(i, 0x20004000, 0x00404010, 0x00400000, 0x20000010)
    case 3 => Quad(i, 0x00400010, 0x20004000, 0x20000000, 0x00004010)
    case 4 => Quad(i, 0x00000000, 0x00400010, 0x20004010, 0x00004000)
    case 5 => Quad(i, 0x00404000, 0x20004010, 0x00000010, 0x20400010)
    case 6 => Quad(i, 0x20400010, 0x00000000, 0x00404010, 0x20404000)
    case 7 => Quad(i, 0x00004010, 0x00404000, 0x20404000, 0x20000000)
    case 8 => Quad(i, 0x20004000, 0x00000010, 0x20400010, 0x00404000)
    case 9 => Quad(i, 0x20404010, 0x00400000, 0x00004010, 0x20000010)
    case 10 => Quad(i, 0x00400000, 0x20004000, 0x20000000, 0x00004010)
    case 11 => Quad(i, 0x20000010, 0x20404010, 0x00404000, 0x20400000)
    case 12 => Quad(i, 0x00404010, 0x20404000, 0x00000000, 0x20400010)
    case 13 => Quad(i, 0x00000010, 0x00004000, 0x20400000, 0x00404010)
    case 14 => Quad(i, 0x00004000, 0x00400010, 0x20004010, 0x00000000)
    case _ => Quad(i, 0x20404000, 0x20000000, 0x00400010, 0x20004010)
  }

  function SB7(i: bv6): bv32 {
    match i >> 2
    case 0 => Quad(i, 0x00200000, 0x04200002, 0x04000802, 0x00000000)
    case 1 => Quad(i, 0x00000800, 0x04000802, 0x00200802, 0x04200800)
    case 2 => Quad(i, 0x04200802, 0x00200000, 0x00000000, 0x04000002)
    case 3 => Quad(i, 0x00000002, 0x04000000, 0x04200002, 0x00000802)
    case 4 => Quad(i, 0x04000800, 0x00200802, 0x00200002, 0x04000800)
    case 5 => Quad(i, 0x04000002, 0x04200000, 0x04200800, 0x00200002)
    case 6 => Quad(i, 0x04200000, 0x00000800, 0x00000802, 0x04200802)
    case 7 => Quad(i, 0x00200800, 0x00000002, 0x04000000, 0x00200800)
    case 8 => Quad(i, 0x04000000, 0x00200800, 0x00200000, 0x04000802)
    case 9 => Quad(i, 0x04000802, 0x04200002, 0x04200002, 0x00000002)
    case 10 => Quad(i, 0x00200002, 0x04000000, 0x04000800, 0x00200000)
    case 11 => Quad(i, 0x04200800, 0x00000802, 0x00200802, 0x04200800)
    case 12 => Quad(i, 0x00000802, 0x04000002, 0x04200802, 0x04200000)
    case 13 => Quad(i, 0x00200800, 0x00000000, 0x00000002, 0x04200802)
    case 14 => Quad(i, 0x00000000, 0x00200802, 0x04200000, 0x00000800)
    case _ => Quad(i, 0x04000002, 0x04000800, 0x00000800, 0x00200002)
  }

  function SB8(i: bv6): bv32 {
    match i >> 2
    case 0 => Quad(i, 0x10001040, 0x00001000, 0x00040000, 0x10041040)
    case 1 => Quad(i, 0x10000000, 0x10001040, 0x00000040, 0x10000000)
    case 2 => Quad(i, 0x00040040, 0x10040000, 0x10041040, 0x00041000)
    case 3 => Quad(i, 0x10041000, 0x00041040, 0x00001000, 0x00000040)
    case 4 => Quad(i, 0x10040000, 0x10000040, 0x10001000, 0x00001040)
    case 5 => Quad(i, 0x00041000, 0x00040040, 0x10040040, 0x10041000)
    case 6 => Quad(i, 0x00001040, 0x00000000, 0x00000000, 0x10040040)
    case 7 => Quad(i, 0x10000040, 0x10001000, 0x00041040, 0x00040000)
    case 8 => Quad(i, 0x00041040, 0x00040000, 0x10041000, 0x00001000)
    case 9 => Quad(i, 0x00000040, 0x10040040, 0x00001000, 0x00041040)
    case 10 => Quad(i, 0x10001000, 0x00000040, 0x10000040, 0x10040000)
    case 11 => Quad(i, 0x10040040, 0x10000000, 0x00040000, 0x10001040)
    case 12 => Quad(i, 0x00000000, 0x10041040, 0x00040040, 0x10000040)
    case 13 => Quad(i, 0x10040000, 0x10001000, 0x10001040, 0x00000000)
    case 14 => Quad(i, 0x10041040, 0x00041000, 0x00041000, 0x00001040)
    case _ => Quad(i, 0x00001040, 0x00040040, 0x10000000, 0x10041000)
  }

  // Permuted choice 1: left and right halves bit-swap.
  function LHs(i: bv4): bv32 {
    match i >> 2
    case 0 => Quad(i as bv6, 0x00000000, 0x00000001, 0x00000100, 0x00000101)
    case 1 => Quad(i as bv6, 0x00010000, 0x00010001, 0x00010100, 0x00010101)
    case 2 => Quad(i as bv6, 0x01000000, 0x01000001, 0x01000100, 0x01000101)
    case _ => Quad(i as bv6, 0x01010000, 0x01010001, 0x01010100, 0x01010101)
  }

  function RHs(i: bv4): bv32 {
    match i >> 2
    case 0 => Quad(i as bv6, 0x00000000, 0x01000000, 0x00010000, 0x01010000)
    case 1 => Quad(i as bv6, 0x00000100, 0x01000100, 0x00010100, 0x01010100)
    case 2 => Quad(i as bv6, 0x00000001, 0x01000001, 0x00010001, 0x01010001)
    case _ => Quad(i as bv6, 0x00000101, 0x01000101, 0x00010101, 0x01010101)
  }
}

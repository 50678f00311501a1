/**
 * CRC-32C (Castagnoli), section 12.1 of RFC 3720, in three forms: a fold of single
 * register shifts, the bit-by-bit loop of the vector generator and the table-driven
 * loop of the C core. The error-detection theorems are about the fold.
 */
module Crc32c {
  import opened Bytes

  const POLYNOMIAL: bv32 := 0x82F63B78

  /** One shift of the reflected register. */
  function Shift(register: bv32): bv32 {
    if register & 1 == 1 then (register >> 1) ^ POLYNOMIAL else register >> 1
  }

  function Shift8(register: bv32): bv32 {
    Shift(Shift(Shift(Shift(Shift(Shift(Shift(Shift(register))))))))
  }

  function Xor(a: bv32, b: bv32): bv32 {
    a ^ b
  }

  function Octet(b: byte): bv32 {
    b as bv8 as bv32
  }

  function Absorb(register: bv32, octet: byte): bv32 {
    Shift8(Xor(register, Octet(octet)))
  }

  function Fold<T>(step: (T, byte) -> T, start: T, data: seq<byte>): T
    decreases |data|
  {
    if data == [] then start else Fold(step, step(start, data[0]), data[1..])
  }

  const INITIAL: bv32 := 0xffff_ffff

  function Part0(v: bv32): bv8 {
    (v >> 24) as bv8
  }

  function Part1(v: bv32): bv8 {
    ((v >> 16) & 0xff) as bv8
  }

  function Part2(v: bv32): bv8 {
    ((v >> 8) & 0xff) as bv8
  }

  function Part3(v: bv32): bv8 {
    (v & 0xff) as bv8
  }

  function Value(c: bv8): byte {
    c as int
  }

  /** The values of a register's octets, high octet first. */
  function Spread(value: bv8 -> byte, v: bv32): (s: seq<byte>)
    ensures |s| == 4
  {
    [value(Part0(v)), value(Part1(v)), value(Part2(v)), value(Part3(v))]
  }

  function HighFirst(v: bv32): (s: seq<byte>)
    ensures |s| == 4
  {
    Spread(Value, v)
  }

  /** The complement of a register as an unsigned number. */
  function Complement(register: bv32): u32 {
    ReadU32(HighFirst(!register))
  }

  /** The checksum of `data` as an unsigned 32-bit number. */
  function Checksum(data: seq<byte>): u32 {
    Complement(Fold(Absorb, INITIAL, data))
  }

  /** `crc32c_table`, sixteen entries a row. */
  function TableRow(high: bv4): (row: seq<bv32>)
    ensures |row| == 16
  {
    match high
    case 0 =>
      [0x00000000, 0xf26b8303, 0xe13b70f7, 0x1350f3f4, 0xc79a971f, 0x35f1141c, 0x26a1e7e8, 0xd4ca64eb,
       0x8ad958cf, 0x78b2dbcc, 0x6be22838, 0x9989ab3b, 0x4d43cfd0, 0xbf284cd3, 0xac78bf27, 0x5e133c24]
    case 1 =>
      [0x105ec76f, 0xe235446c, 0xf165b798, 0x030e349b, 0xd7c45070, 0x25afd373, 0x36ff2087, 0xc494a384,
       0x9a879fa0, 0x68ec1ca3, 0x7bbcef57, 0x89d76c54, 0x5d1d08bf, 0xaf768bbc, 0xbc267848, 0x4e4dfb4b]
    case 2 =>
      [0x20bd8ede, 0xd2d60ddd, 0xc186fe29, 0x33ed7d2a, 0xe72719c1, 0x154c9ac2, 0x061c6936, 0xf477ea35,
       0xaa64d611, 0x580f5512, 0x4b5fa6e6, 0xb93425e5, 0x6dfe410e, 0x9f95c20d, 0x8cc531f9, 0x7eaeb2fa]
    case 3 =>
      [0x30e349b1, 0xc288cab2, 0xd1d83946, 0x23b3ba45, 0xf779deae, 0x05125dad, 0x1642ae59, 0xe4292d5a,
       0xba3a117e, 0x4851927d, 0x5b016189, 0xa96ae28a, 0x7da08661, 0x8fcb0562, 0x9c9bf696, 0x6ef07595]
    case 4 =>
      [0x417b1dbc, 0xb3109ebf, 0xa0406d4b, 0x522bee48, 0x86e18aa3, 0x748a09a0, 0x67dafa54, 0x95b17957,
       0xcba24573, 0x39c9c670, 0x2a993584, 0xd8f2b687, 0x0c38d26c, 0xfe53516f, 0xed03a29b, 0x1f682198]
    case 5 =>
      [0x5125dad3, 0xa34e59d0, 0xb01eaa24, 0x42752927, 0x96bf4dcc, 0x64d4cecf, 0x77843d3b, 0x85efbe38,
       0xdbfc821c, 0x2997011f, 0x3ac7f2eb, 0xc8ac71e8, 0x1c661503, 0xee0d9600, 0xfd5d65f4, 0x0f36e6f7]
    case 6 =>
      [0x61c69362, 0x93ad1061, 0x80fde395, 0x72966096, 0xa65c047d, 0x5437877e, 0x4767748a, 0xb50cf789,
       0xeb1fcbad, 0x197448ae, 0x0a24bb5a, 0xf84f3859, 0x2c855cb2, 0xdeeedfb1, 0xcdbe2c45, 0x3fd5af46]
    case 7 =>
      [0x7198540d, 0x83f3d70e, 0x90a324fa, 0x62c8a7f9, 0xb602c312, 0x44694011, 0x5739b3e5, 0xa55230e6,
       0xfb410cc2, 0x092a8fc1, 0x1a7a7c35, 0xe811ff36, 0x3cdb9bdd, 0xceb018de, 0xdde0eb2a, 0x2f8b6829]
    case 8 =>
      [0x82f63b78, 0x709db87b, 0x63cd4b8f, 0x91a6c88c, 0x456cac67, 0xb7072f64, 0xa457dc90, 0x563c5f93,
       0x082f63b7, 0xfa44e0b4, 0xe9141340, 0x1b7f9043, 0xcfb5f4a8, 0x3dde77ab, 0x2e8e845f, 0xdce5075c]
    case 9 =>
      [0x92a8fc17, 0x60c37f14, 0x73938ce0, 0x81f80fe3, 0x55326b08, 0xa759e80b, 0xb4091bff, 0x466298fc,
       0x1871a4d8, 0xea1a27db, 0xf94ad42f, 0x0b21572c, 0xdfeb33c7, 0x2d80b0c4, 0x3ed04330, 0xccbbc033]
    case 10 =>
      [0xa24bb5a6, 0x502036a5, 0x4370c551, 0xb11b4652, 0x65d122b9, 0x97baa1ba, 0x84ea524e, 0x7681d14d,
       0x2892ed69, 0xdaf96e6a, 0xc9a99d9e, 0x3bc21e9d, 0xef087a76, 0x1d63f975, 0x0e330a81, 0xfc588982]
    case 11 =>
      [0xb21572c9, 0x407ef1ca, 0x532e023e, 0xa145813d, 0x758fe5d6, 0x87e466d5, 0x94b49521, 0x66df1622,
       0x38cc2a06, 0xcaa7a905, 0xd9f75af1, 0x2b9cd9f2, 0xff56bd19, 0x0d3d3e1a, 0x1e6dcdee, 0xec064eed]
    case 12 =>
      [0xc38d26c4, 0x31e6a5c7, 0x22b65633, 0xd0ddd530, 0x0417b1db, 0xf67c32d8, 0xe52cc12c, 0x1747422f,
       0x49547e0b, 0xbb3ffd08, 0xa86f0efc, 0x5a048dff, 0x8ecee914, 0x7ca56a17, 0x6ff599e3, 0x9d9e1ae0]
    case 13 =>
      [0xd3d3e1ab, 0x21b862a8, 0x32e8915c, 0xc083125f, 0x144976b4, 0xe622f5b7, 0xf5720643, 0x07198540,
       0x590ab964, 0xab613a67, 0xb831c993, 0x4a5a4a90, 0x9e902e7b, 0x6cfbad78, 0x7fab5e8c, 0x8dc0dd8f]
    case 14 =>
      [0xe330a81a, 0x115b2b19, 0x020bd8ed, 0xf0605bee, 0x24aa3f05, 0xd6c1bc06, 0xc5914ff2, 0x37faccf1,
       0x69e9f0d5, 0x9b8273d6, 0x88d28022, 0x7ab90321, 0xae7367ca, 0x5c18e4c9, 0x4f48173d, 0xbd23943e]
    case _ =>
      [0xf36e6f75, 0x0105ec76, 0x12551f82, 0xe03e9c81, 0x34f4f86a, 0xc69f7b69, 0xd5cf889d, 0x27a40b9e,
       0x79b737ba, 0x8bdcb4b9, 0x988c474d, 0x6ae7c44e, 0xbe2da0a5, 0x4c4623a6, 0x5f16d052, 0xad7d5351]
  }

  function Entry(index: bv8): bv32 {
    TableRow((index >> 4) as bv4)[(index & 0xf) as int]
  }

  /** What `f` gives on `base` with each value of the low four bits. */
  function RowOf(f: bv32 -> bv32, base: bv32): (row: seq<bv32>)
    ensures |row| == 16
  {
    [f(base), f(base | 1), f(base | 2), f(base | 3), f(base | 4), f(base | 5), f(base | 6), f(base | 7),
     f(base | 8), f(base | 9), f(base | 10), f(base | 11), f(base | 12), f(base | 13), f(base | 14), f(base | 15)]
  }

  lemma Row0()
    ensures TableRow(0) == RowOf(Shift8, 0x00)
  {
  }

  lemma Row1()
    ensures TableRow(1) == RowOf(Shift8, 0x10)
  {
  }

  lemma Row2()
    ensures TableRow(2) == RowOf(Shift8, 0x20)
  {
  }

  lemma Row3()
    ensures TableRow(3) == RowOf(Shift8, 0x30)
  {
  }

  lemma Row4()
    ensures TableRow(4) == RowOf(Shift8, 0x40)
  {
  }

  lemma Row5()
    ensures TableRow(5) == RowOf(Shift8, 0x50)
  {
  }

  lemma Row6()
    ensures TableRow(6) == RowOf(Shift8, 0x60)
  {
  }

  lemma Row7()
    ensures TableRow(7) == RowOf(Shift8, 0x70)
  {
  }

  lemma Row8()
    ensures TableRow(8) == RowOf(Shift8, 0x80)
  {
  }

  lemma Row9()
    ensures TableRow(9) == RowOf(Shift8, 0x90)
  {
  }

  lemma RowA()
    ensures TableRow(10) == RowOf(Shift8, 0xA0)
  {
  }

  lemma RowB()
    ensures TableRow(11) == RowOf(Shift8, 0xB0)
  {
  }

  lemma RowC()
    ensures TableRow(12) == RowOf(Shift8, 0xC0)
  {
  }

  lemma RowD()
    ensures TableRow(13) == RowOf(Shift8, 0xD0)
  {
  }

  lemma RowE()
    ensures TableRow(14) == RowOf(Shift8, 0xE0)
  {
  }

  lemma RowF()
    ensures TableRow(15) == RowOf(Shift8, 0xF0)
  {
  }

  lemma RowIsShifted(high: bv4)
    ensures TableRow(high) == RowOf(Shift8, (high as bv32) << 4)
  {
    match high
    case 0 => Row0(); case 1 => Row1(); case 2 => Row2(); case 3 => Row3();
    case 4 => Row4(); case 5 => Row5(); case 6 => Row6(); case 7 => Row7();
    case 8 => Row8(); case 9 => Row9(); case 10 => RowA(); case 11 => RowB();
    case 12 => RowC(); case 13 => RowD(); case 14 => RowE(); case _ => RowF();
  }

  /** Every table entry is the register obtained by eight shifts of its index. */
  lemma EntryIsShifted(index: bv8)
    ensures Entry(index) == Shift8(index as bv32)
  {
    RowIsShifted((index >> 4) as bv4);
    var base := ((index >> 4) as bv4 as bv32) << 4;
    assert index as bv32 == base | (index & 0xf) as bv32;
    RowOfAt(Shift8, base, index & 0xf);
  }

  lemma RowOfAt(f: bv32 -> bv32, base: bv32, low: bv8)
    requires low < 16
    ensures RowOf(f, base)[low as int] == f(base | low as bv32)
  {
    match low
    case 0 => case 1 => case 2 => case 3 => case 4 => case 5 => case 6 => case 7 =>
    case 8 => case 9 => case 10 => case 11 => case 12 => case 13 => case 14 => case _ =>
  }

  lemma LinearOddOdd(a: bv32, b: bv32)
    requires a & 1 == 1 && b & 1 == 1
    ensures Shift(a ^ b) == Shift(a) ^ Shift(b)
  {
  }

  lemma LinearOddEven(a: bv32, b: bv32)
    requires a & 1 == 1 && b & 1 == 0
    ensures Shift(a ^ b) == Shift(a) ^ Shift(b)
    ensures Shift(b ^ a) == Shift(b) ^ Shift(a)
  {
  }

  lemma LinearEvenEven(a: bv32, b: bv32)
    requires a & 1 == 0 && b & 1 == 0
    ensures Shift(a ^ b) == Shift(a) ^ Shift(b)
  {
  }

  lemma LowBit(a: bv32)
    ensures a & 1 == 0 || a & 1 == 1
  {
  }

  /** The register step is linear over exclusive or. */
  lemma ShiftLinear(a: bv32, b: bv32)
    ensures Shift(a ^ b) == Shift(a) ^ Shift(b)
  {
    LowBit(a);
    LowBit(b);
    if a & 1 == 1 && b & 1 == 1 {
      LinearOddOdd(a, b);
    } else if a & 1 == 1 {
      LinearOddEven(a, b);
    } else if b & 1 == 1 {
      LinearOddEven(b, a);
    } else {
      LinearEvenEven(a, b);
    }
  }

  function Iterate<T>(f: T -> T, x: T, n: nat): T
    decreases n
  {
    if n == 0 then x else Iterate(f, f(x), n - 1)
  }

  lemma EightTimes<T>(f: T -> T, x: T)
    ensures Iterate(f, x, 8) == f(f(f(f(f(f(f(f(x))))))))
  {
    assert Iterate(f, x, 8) == Iterate(f, f(x), 7) == Iterate(f, f(f(x)), 6);
    var y := f(f(x));
    assert Iterate(f, y, 6) == Iterate(f, f(y), 5) == Iterate(f, f(f(y)), 4);
    var z := f(f(y));
    assert Iterate(f, z, 4) == Iterate(f, f(z), 3) == Iterate(f, f(f(z)), 2);
  }

  ghost predicate Injective<T(!new)>(f: T -> T) {
    forall a, b :: f(a) == f(b) ==> a == b
  }

  ghost predicate Linear<T(!new)>(f: T -> T, op: (T, T) -> T) {
    forall a, b {:trigger f(op(a, b))} :: f(op(a, b)) == op(f(a), f(b))
  }

  lemma {:induction false} IterateInjective<T(!new)>(f: T -> T, a: T, b: T, n: nat)
    requires Injective(f) && Iterate(f, a, n) == Iterate(f, b, n)
    ensures a == b
    decreases n
  {
    if n > 0 {
      IterateInjective(f, f(a), f(b), n - 1);
    }
  }

  lemma {:induction false} IterateLinear<T(!new)>(f: T -> T, op: (T, T) -> T, a: T, b: T, n: nat)
    requires Linear(f, op)
    ensures Iterate(f, op(a, b), n) == op(Iterate(f, a, n), Iterate(f, b, n))
    decreases n
  {
    if n > 0 {
      assert f(op(a, b)) == op(f(a), f(b));
      IterateLinear(f, op, f(a), f(b), n - 1);
    }
  }

  lemma ShiftInjective(a: bv32, b: bv32)
    requires Shift(a) == Shift(b)
    ensures a == b
  {
  }

  lemma EightTimesAlgebra<T(!new)>(f: T -> T, f8: T -> T, op: (T, T) -> T)
    requires Injective(f) && Linear(f, op)
    requires forall x :: f8(x) == f(f(f(f(f(f(f(f(x))))))))
    ensures Injective(f8) && Linear(f8, op)
  {
    forall a, b | f8(a) == f8(b) ensures a == b {
      EightTimes(f, a);
      EightTimes(f, b);
      IterateInjective(f, a, b, 8);
    }
    forall a, b ensures f8(op(a, b)) == op(f8(a), f8(b)) {
      EightTimes(f, op(a, b));
      EightTimes(f, a);
      EightTimes(f, b);
      IterateLinear(f, op, a, b, 8);
    }
  }

  /** Eight shifts are injective, because the reflected polynomial has its top bit set, and linear. */
  lemma Shift8Algebra()
    ensures Injective(Shift8) && Linear(Shift8, Xor)
  {
    assert Injective(Shift) by {
      forall a, b | Shift(a) == Shift(b) ensures a == b { ShiftInjective(a, b); }
    }
    assert Linear(Shift, Xor) by {
      forall a, b ensures Shift(Xor(a, b)) == Xor(Shift(a), Shift(b)) { ShiftLinear(a, b); }
    }
    EightTimesAlgebra(Shift, Shift8, Xor);
  }

  lemma Shift8OfHigh(register: bv32)
    ensures Shift8(register & 0xffff_ff00) == register >> 8
  {
  }

  // ----- the table-driven step -----

  lemma SplitLowByte(v: bv32)
    ensures Xor(v & 0xff, v & 0xffff_ff00) == v
    ensures ((v & 0xff) as bv8) as bv32 == v & 0xff
  {
  }

  lemma OctetKeepsHigh(register: bv32, octet: bv8)
    ensures (register ^ (octet as bv32)) >> 8 == register >> 8
  {
  }

  lemma Shift8Split(v: bv32)
    ensures Shift8(v) == Xor(Shift8(v & 0xff), Shift8(v & 0xffff_ff00))
  {
    SplitLowByte(v);
    LinearAt(Shift8, Xor, v & 0xff, v & 0xffff_ff00) by { Shift8Algebra(); }
  }

  lemma LinearAt<T(!new)>(f: T -> T, op: (T, T) -> T, a: T, b: T)
    requires Linear(f, op)
    ensures f(op(a, b)) == op(f(a), f(b))
  {
  }

  function TableAbsorb(register: bv32, octet: byte): bv32 {
    Xor(Entry((Xor(register, Octet(octet)) & 0xff) as bv8), register >> 8)
  }

  lemma TableShift(v: bv32)
    ensures Shift8(v) == Xor(Entry((v & 0xff) as bv8), v >> 8)
  {
    Shift8Split(v);
    Shift8OfHigh(v);
    SplitLowByte(v);
    EntryIsShifted((v & 0xff) as bv8);
  }

  /** One table look-up does the work of eight register shifts. */
  lemma TableStep(register: bv32, octet: byte)
    ensures Absorb(register, octet) == TableAbsorb(register, octet)
  {
    TableShift(Xor(register, Octet(octet)));
    OctetKeepsHigh(register, octet as bv8);
  }

  // ----- error detection, first for any register machine -----

  lemma {:induction false} FoldConcat<T>(step: (T, byte) -> T, start: T, a: seq<byte>, b: seq<byte>)
    ensures Fold(step, start, a + b) == Fold(step, Fold(step, start, a), b)
    decreases |a|
  {
    if a == [] {
      assert a + b == b;
    } else {
      assert (a + b)[1..] == a[1..] + b;
      FoldConcat(step, step(start, a[0]), a[1..], b);
    }
  }

  ghost predicate StepInjective<T(!new)>(step: (T, byte) -> T) {
    forall a, b, octet :: step(a, octet) == step(b, octet) ==> a == b
  }

  /** No information is lost: equal final registers mean equal initial registers. */
  lemma {:induction false} FoldInjective<T(!new)>(step: (T, byte) -> T, a: T, b: T, data: seq<byte>)
    requires StepInjective(step) && Fold(step, a, data) == Fold(step, b, data)
    ensures a == b
    decreases |data|
  {
    if data != [] {
      FoldInjective(step, step(a, data[0]), step(b, data[0]), data[1..]);
    }
  }

  /** Up to four octets packed into one word, first octet lowest. */
  function Pack<T>(op: (T, T) -> T, embed: byte -> T, up: T -> T, zero: T, w: seq<byte>): T
    decreases |w|
  {
    if w == [] then zero else op(embed(w[0]), up(Pack(op, embed, up, zero, w[1..])))
  }

  ghost predicate Associative<T(!new)>(op: (T, T) -> T) {
    forall a, b, c {:trigger op(op(a, b), c)} :: op(op(a, b), c) == op(a, op(b, c))
  }

  lemma AssociativeAt<T(!new)>(op: (T, T) -> T, a: T, b: T, c: T)
    requires Associative(op)
    ensures op(op(a, b), c) == op(a, op(b, c))
  {
  }

  ghost predicate Neutral<T(!new)>(op: (T, T) -> T, zero: T) {
    forall a {:trigger op(a, zero)} :: op(a, zero) == a
  }

  ghost predicate Absorbs<T(!new)>(step: (T, byte) -> T, shift8: T -> T, op: (T, T) -> T, embed: byte -> T) {
    forall r, octet {:trigger step(r, octet)} :: step(r, octet) == shift8(op(r, embed(octet)))
  }

  /** `shift8` undoes `up` on words of at most three octets. */
  ghost predicate Undoes<T(!new)>(shift8: T -> T, op: (T, T) -> T, embed: byte -> T, up: T -> T, zero: T) {
    forall v {:trigger shift8(up(Pack(op, embed, up, zero, v)))} ::
      |v| <= 3 ==> shift8(up(Pack(op, embed, up, zero, v))) == Pack(op, embed, up, zero, v)
  }

  /** Absorbing up to four octets is absorbing their word at once and shifting. */
  lemma {:induction false} AbsorbPacked<T(!new)>(
      shift8: T -> T, op: (T, T) -> T, embed: byte -> T, up: T -> T, zero: T,
      step: (T, byte) -> T, register: T, w: seq<byte>)
    requires |w| <= 4
    requires Absorbs(step, shift8, op, embed)
    requires Linear(shift8, op)
    requires Associative(op)
    requires Neutral(op, zero)
    requires Undoes(shift8, op, embed, up, zero)
    ensures Fold(step, register, w) == Iterate(shift8, op(register, Pack(op, embed, up, zero, w)), |w|)
    decreases |w|
  {
    if w == [] {
      assert op(register, zero) == register;
    } else {
      var octet, rest := embed(w[0]), Pack(op, embed, up, zero, w[1..]);
      assert step(register, w[0]) == shift8(op(register, octet));
      AbsorbPacked(shift8, op, embed, up, zero, step, shift8(op(register, octet)), w[1..]);
      assert shift8(up(rest)) == rest;
      MergeWord(shift8, op, register, octet, rest, up(rest));
    }
  }

  lemma MergeWord<T(!new)>(shift8: T -> T, op: (T, T) -> T, register: T, octet: T, rest: T, raised: T)
    requires Linear(shift8, op) && Associative(op) && shift8(raised) == rest
    ensures op(shift8(op(register, octet)), rest) == shift8(op(register, op(octet, raised)))
  {
    LinearAt(shift8, op, op(register, octet), raised);
    AssociativeAt(op, register, octet, raised);
  }

  function Up(w: bv32): bv32 {
    w << 8
  }

  function Word(w: seq<byte>): bv32 {
    Pack(Xor, Octet, Up, 0, w)
  }

  lemma WordBoundStep(octet: byte, rest: bv32)
    ensures rest & 0xffff_0000 == 0 ==> Xor(Octet(octet), Up(rest)) & 0xff00_0000 == 0
    ensures rest & 0xffff_ff00 == 0 ==> Xor(Octet(octet), Up(rest)) & 0xffff_0000 == 0
    ensures rest == 0 ==> Xor(Octet(octet), Up(rest)) & 0xffff_ff00 == 0
  {
  }

  lemma {:induction false} WordBound(w: seq<byte>)
    requires |w| <= 3
    ensures Word(w) & 0xff00_0000 == 0
    ensures |w| <= 2 ==> Word(w) & 0xffff_0000 == 0
    ensures |w| <= 1 ==> Word(w) & 0xffff_ff00 == 0
    decreases |w|
  {
    if w != [] {
      WordBound(w[1..]);
      WordBoundStep(w[0], Word(w[1..]));
    }
  }

  lemma UpBack(rest: bv32)
    requires rest & 0xff00_0000 == 0
    ensures Shift8(Up(rest)) == rest
  {
    Shift8OfHigh(Up(rest));
    assert Up(rest) & 0xffff_ff00 == Up(rest);
  }

  lemma PushWord(octet: bv8, rest: bv32)
    requires rest & 0xff00_0000 == 0
    ensures ((octet as bv32) ^ (rest << 8)) & 0xff == octet as bv32
    ensures ((octet as bv32) ^ (rest << 8)) >> 8 == rest
  {
  }

  lemma NextOctet(c: bv8, n: int)
    requires c as int == n < 255
    ensures (c + 1) as int == n + 1
  {
  }

  /** The bit-vector with value `n`, by counting. */
  ghost function OctetWithValue(n: byte): (c: bv8)
    ensures c as int == n
  {
    if n == 0 then 0 else
      NextOctet(OctetWithValue(n - 1), n - 1);
      OctetWithValue(n - 1) + 1
  }

  lemma OctetAgrees(n: byte, c: bv8)
    requires c as int == n
    ensures n as bv8 == c
  {
  }

  lemma OctetOfInt(n: byte)
    ensures (n as bv8) as int == n
  {
    OctetAgrees(n, OctetWithValue(n));
  }

  lemma WidenInjective(a: bv8, b: bv8)
    requires a as bv32 == b as bv32
    ensures a == b
  {
  }

  lemma {:induction false} WordInjective(a: seq<byte>, b: seq<byte>)
    requires |a| == |b| <= 4 && Word(a) == Word(b)
    ensures a == b
    decreases |a|
  {
    if a != [] {
      WordBound(a[1..]);
      WordBound(b[1..]);
      PushWord(a[0] as bv8, Word(a[1..]));
      PushWord(b[0] as bv8, Word(b[1..]));
      WidenInjective(a[0] as bv8, b[0] as bv8);
      OctetOfInt(a[0]);
      OctetOfInt(b[0]);
      WordInjective(a[1..], b[1..]);
      assert a == [a[0]] + a[1..] && b == [b[0]] + b[1..];
    }
  }

  lemma XorAssociative()
    ensures Associative(Xor)
  {
    forall a, b, c ensures Xor(Xor(a, b), c) == Xor(a, Xor(b, c)) {
    }
  }

  lemma XorNeutral()
    ensures Neutral(Xor, 0)
  {
  }

  lemma AbsorbAbsorbs()
    ensures Absorbs(Absorb, Shift8, Xor, Octet)
  {
  }

  lemma WordComesBack(v: seq<byte>)
    requires |v| <= 3
    ensures Shift8(Up(Pack(Xor, Octet, Up, 0, v))) == Pack(Xor, Octet, Up, 0, v)
  {
    WordBound(v);
    UpBack(Word(v));
  }

  lemma Shift8Undoes()
    ensures Undoes(Shift8, Xor, Octet, Up, 0)
  {
    forall v: seq<byte> | |v| <= 3 ensures Shift8(Up(Pack(Xor, Octet, Up, 0, v))) == Pack(Xor, Octet, Up, 0, v) {
      WordComesBack(v);
    }
  }

  lemma AbsorbWord(register: bv32, w: seq<byte>)
    requires |w| <= 4
    ensures Fold(Absorb, register, w) == Iterate(Shift8, Xor(register, Word(w)), |w|)
  {
    Shift8Algebra();
    XorAssociative();
    XorNeutral();
    AbsorbAbsorbs();
    Shift8Undoes();
    AbsorbPacked(Shift8, Xor, Octet, Up, 0, Absorb, register, w);
  }

  lemma XorCancel(a: bv32, b: bv32, c: bv32)
    ensures Xor(a, c) == Xor(b, c) ==> a == b
    ensures Xor(c, a) == Xor(c, b) ==> a == b
  {
  }

  lemma AbsorbInjective()
    ensures StepInjective(Absorb)
  {
    Shift8Algebra();
    forall a, b, octet | Absorb(a, octet) == Absorb(b, octet) ensures a == b {
      XorCancel(a, b, Octet(octet));
    }
  }

  lemma WordFoldInjective(start: bv32, v: seq<byte>, w: seq<byte>)
    requires |v| == |w| <= 4
    requires Fold(Absorb, start, v) == Fold(Absorb, start, w)
    ensures v == w
  {
    AbsorbWord(start, v);
    AbsorbWord(start, w);
    assert Xor(start, Word(v)) == Xor(start, Word(w)) by {
      Shift8Algebra();
      IterateInjective(Shift8, Xor(start, Word(v)), Xor(start, Word(w)), |v|);
    }
    XorCancel(Word(v), Word(w), start);
    WordInjective(v, w);
  }

  lemma WindowFold(start: bv32, prefix: seq<byte>, v: seq<byte>, w: seq<byte>, suffix: seq<byte>)
    requires |v| == |w| <= 4
    requires Fold(Absorb, start, prefix + (v + suffix)) == Fold(Absorb, start, prefix + (w + suffix))
    ensures v == w
  {
    FoldConcat(Absorb, start, prefix, v + suffix);
    FoldConcat(Absorb, start, prefix, w + suffix);
    var middle := Fold(Absorb, start, prefix);
    FoldConcat(Absorb, middle, v, suffix);
    FoldConcat(Absorb, middle, w, suffix);
    AbsorbInjective();
    FoldInjective(Absorb, Fold(Absorb, middle, v), Fold(Absorb, middle, w), suffix);
    WordFoldInjective(middle, v, w);
  }

  lemma IntOfOctet(c: bv8)
    ensures (c as int) as bv8 == c
  {
  }

  ghost predicate Distinguishes(value: bv8 -> byte) {
    forall a, b {:trigger value(a), value(b)} :: value(a) == value(b) ==> a == b
  }

  lemma ValueDistinguishes()
    ensures Distinguishes(Value)
  {
    forall a, b | Value(a) == Value(b) ensures a == b {
      IntOfOctet(a);
      IntOfOctet(b);
    }
  }

  lemma SameParts(a: bv32, b: bv32)
    requires Part0(a) == Part0(b) && Part1(a) == Part1(b) && Part2(a) == Part2(b) && Part3(a) == Part3(b)
    ensures a == b
  {
  }

  lemma SpreadInjective(value: bv8 -> byte, a: bv32, b: bv32)
    requires Distinguishes(value) && Spread(value, a) == Spread(value, b)
    ensures a == b
  {
    var s, t := Spread(value, a), Spread(value, b);
    assert s[0] == t[0] && s[1] == t[1] && s[2] == t[2] && s[3] == t[3];
    SameParts(a, b);
  }

  /** A register is determined by its octets. */
  lemma HighFirstInjective(a: bv32, b: bv32)
    requires HighFirst(a) == HighFirst(b)
    ensures a == b
  {
    ValueDistinguishes();
    SpreadInjective(Value, a, b);
  }

  lemma NotInjective(a: bv32, b: bv32)
    requires !a == !b
    ensures a == b
  {
  }

  lemma ComplementInjective(a: bv32, b: bv32)
    requires Complement(a) == Complement(b)
    ensures a == b
  {
    U32Injective(HighFirst(!a));
    U32Injective(HighFirst(!b));
    HighFirstInjective(!a, !b);
    NotInjective(a, b);
  }

  lemma ChecksumWindow(prefix: seq<byte>, v: seq<byte>, w: seq<byte>, suffix: seq<byte>)
    requires |v| == |w| <= 4
    requires Checksum(prefix + (v + suffix)) == Checksum(prefix + (w + suffix))
    ensures v == w
  {
    ComplementInjective(Fold(Absorb, INITIAL, prefix + (v + suffix)), Fold(Absorb, INITIAL, prefix + (w + suffix)));
    WindowFold(INITIAL, prefix, v, w, suffix);
  }

  lemma Cut(a: seq<byte>, lo: nat, hi: nat)
    requires lo <= hi <= |a|
    ensures a == a[..lo] + (a[lo..hi] + a[hi..])
  {
  }

  /** Two messages that differ only inside four consecutive octets have different checksums. */
  lemma WindowDetected(a: seq<byte>, b: seq<byte>, at: nat)
    requires |a| == |b|
    requires forall k :: 0 <= k < |a| && !(at <= k < at + 4) ==> a[k] == b[k]
    ensures Checksum(a) == Checksum(b) <==> a == b
  {
    var lo, hi := Min(at, |a|), Min(at + 4, |a|);
    Cut(a, lo, hi);
    Cut(b, lo, hi);
    assert a[..lo] == b[..lo] && a[hi..] == b[hi..];
    if Checksum(a) == Checksum(b) {
      ChecksumWindow(a[..lo], a[lo..hi], b[lo..hi], a[hi..]);
    }
  }

  /** `a` and `b` agree outside the four octets that start at `at`. */
  predicate AgreeOutside(a: seq<byte>, b: seq<byte>, at: nat) {
    |a| == |b| && forall k :: 0 <= k < |a| && !(at <= k < at + 4) ==> a[k] == b[k]
  }

  /** A checksum that tells any two messages apart that differ in one window of four octets. */
  ghost predicate Detects(check: Check) {
    forall a, b, at {:trigger AgreeOutside(a, b, at)} :: AgreeOutside(a, b, at) && check(a) == check(b) ==> a == b
  }

  lemma ChecksumDetects()
    ensures Detects(Checksum)
  {
    forall a, b, at | AgreeOutside(a, b, at) && Checksum(a) == Checksum(b) ensures a == b {
      WindowDetected(a, b, at);
    }
  }

  // ----- the two loops -----

  lemma FoldStep<T>(step: (T, byte) -> T, start: T, data: seq<byte>, index: nat)
    requires index < |data|
    ensures Fold(step, start, data[index..]) == Fold(step, step(start, data[index]), data[index + 1..])
  {
    assert data[index..][1..] == data[index + 1..];
  }

  /** The bit-by-bit loop of the vector generator. */
  method BitwiseChecksum(data: seq<byte>) returns (value: u32)
    ensures value == Checksum(data)
  {
    var register := INITIAL;
    for index := 0 to |data|
      invariant Fold(Absorb, register, data[index..]) == Fold(Absorb, INITIAL, data)
    {
      FoldStep(Absorb, register, data, index);
      register := Xor(register, Octet(data[index]));
      EightTimes(Shift, register);
      ghost var mixed := register;
      for bit := 0 to 8
        invariant Iterate(Shift, register, 8 - bit) == Iterate(Shift, mixed, 8)
      {
        register := Shift(register);
      }
    }
    value := Complement(register);
  }

  /** The table-driven loop of the C core. */
  method TableChecksum(data: seq<byte>) returns (value: u32)
    ensures value == Checksum(data)
  {
    var crc := INITIAL;
    for index := 0 to |data|
      invariant Fold(Absorb, crc, data[index..]) == Fold(Absorb, INITIAL, data)
    {
      FoldStep(Absorb, crc, data, index);
      TableStep(crc, data[index]);
      crc := TableAbsorb(crc, data[index]);
    }
    value := Complement(crc);
  }
}

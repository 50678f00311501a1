/**
 * CRC-32C stored high octet first behind the message it covers: exactly which changes of up to
 * three last octets of a message leave as many last octets of its checksum alone.
 */
module CrcTrailer {
  import opened Bytes
  import opened Crc32c

  // ----- shifting whole octets -----

  /** The word that eight shifts turn into an octet at the top. */
  function OctetBack(b: bv8): bv32 {
    (if b & 0x01 != 0 then 0x05ec_76f1 else 0)
    ^ (if b & 0x02 != 0 then 0x0bd8_ede2 else 0)
    ^ (if b & 0x04 != 0 then 0x17b1_dbc4 else 0)
    ^ (if b & 0x08 != 0 then 0x2f63_b788 else 0)
    ^ (if b & 0x10 != 0 then 0x5ec7_6f10 else 0)
    ^ (if b & 0x20 != 0 then 0xbd8e_de20 else 0)
    ^ (if b & 0x40 != 0 then 0x7ef1_cab1 else 0)
    ^ (if b & 0x80 != 0 then 0xfde3_9562 else 0)
  }

  /** Eight shifts undone. */
  function Back8(v: bv32): bv32 {
    Xor(OctetBack(Part0(v)), v << 8)
  }

  lemma OctetReturns(b: bv8)
    ensures Shift8(OctetBack(b)) == (b as bv32) << 24
  {
  }

  lemma TopAndRest(v: bv32)
    ensures v << 8 == Up(v & 0x00ff_ffff)
    ensures Xor((Part0(v) as bv32) << 24, v & 0x00ff_ffff) == v
    ensures (v & 0x00ff_ffff) & 0xff00_0000 == 0
  {
  }

  lemma ShiftOfBack(v: bv32)
    ensures Shift8(Back8(v)) == v
  {
    var top := Part0(v);
    LinearAt(Shift8, Xor, OctetBack(top), v << 8) by { Shift8Algebra(); }
    OctetReturns(top);
    TopAndRest(v);
    UpBack(v & 0x00ff_ffff);
  }

  lemma BackOfShift(v: bv32)
    ensures Back8(Shift8(v)) == v
  {
    ShiftOfBack(Shift8(v));
    Shift8Algebra();
  }

  // ----- the kernels of one, two and three octets -----

  /** Of all single octets only 0x5d leaves the low octet clear after one shift. */
  ghost predicate OneKernel(f: bv32 -> bv32) {
    forall w {:trigger f(w)} :: w & 0xffff_ff00 == 0 && f(w) & 0xff == 0 ==> w == 0 || w == 0x5d
  }

  /** Of all pairs only 0x4d, 0x90 leaves the two low octets clear after two shifts. */
  ghost predicate TwoKernel(f: bv32 -> bv32) {
    forall w {:trigger f(f(w))} :: w & 0xffff_0000 == 0 && f(f(w)) & 0xffff == 0 ==> w == 0 || w == 0x904d
  }

  /** No three octets leave the three low octets clear after three shifts. */
  ghost predicate ThreeKernel(f: bv32 -> bv32) {
    forall w {:trigger f(f(f(w)))} :: w & 0xff00_0000 == 0 && f(f(f(w))) & 0x00ff_ffff == 0 ==> w == 0
  }

  lemma OneOctet(w: bv32)
    requires w & 0xffff_ff00 == 0 && Shift8(w) & 0xff == 0
    ensures w == 0 || w == 0x5d
  {
  }

  ghost predicate Undone(f: bv32 -> bv32, back: bv32 -> bv32) {
    forall v {:trigger f(v)} :: back(f(v)) == v
  }

  /** Which words with clear low octets `back` takes to two octets. */
  ghost predicate OnlyPairBack(back: bv32 -> bv32) {
    forall v {:trigger back(back(v))} ::
      v & 0xffff == 0 && back(back(v)) & 0xffff_0000 == 0 ==> v == 0 || v == 0xad83_0000
  }

  ghost predicate TwoBack(back: bv32 -> bv32) {
    back(back(0)) == 0 && back(back(0xad83_0000)) == 0x904d && OnlyPairBack(back)
  }

  /** Which words with clear low octets `back` takes to three octets. */
  ghost predicate ThreeBack(back: bv32 -> bv32) {
    && back(back(back(0))) == 0
    && forall v {:trigger back(back(back(v)))} ::
         v & 0x00ff_ffff == 0 && back(back(back(v))) & 0xff00_0000 == 0 ==> v == 0
  }

  lemma TwoKernelOf(f: bv32 -> bv32, back: bv32 -> bv32)
    requires Undone(f, back) && TwoBack(back)
    ensures TwoKernel(f)
  {
    forall w | w & 0xffff_0000 == 0 && f(f(w)) & 0xffff == 0 ensures w == 0 || w == 0x904d {
      assert back(f(w)) == w && back(f(f(w))) == f(w);
      assert back(back(f(f(w)))) == w;
    }
  }

  lemma ThreeKernelOf(f: bv32 -> bv32, back: bv32 -> bv32)
    requires Undone(f, back) && ThreeBack(back)
    ensures ThreeKernel(f)
  {
    forall w | w & 0xff00_0000 == 0 && f(f(f(w))) & 0x00ff_ffff == 0 ensures w == 0 {
      assert back(f(w)) == w && back(f(f(w))) == f(w) && back(f(f(f(w)))) == f(f(w));
      assert back(back(back(f(f(f(w)))))) == w;
    }
  }

  /** Which two octets `a` and `c`, brought back to `x` and `y`, leave the two high octets of the word clear. */
  predicate Paired(a: bv8, x: bv32, c: bv8, y: bv32) {
    Xor(y, x << 8) & 0xffff_0000 == 0 ==> (a == 0 && x == 0 && c == 0) || (a == 0xad && x == 0x7d53_51ff && c == 0xfe)
  }

  lemma PairBack(a: bv8, c: bv8)
    ensures Paired(a, OctetBack(a), c, OctetBack(c))
  {
  }

  lemma TwoBackValues(v: bv32, x: bv32, one: bv32, y: bv32, two: bv32)
    requires v & 0xffff == 0 && one == Xor(x, v << 8) && two == Xor(y, one << 8) && two & 0xffff_0000 == 0
    requires Paired(Part0(v), x, Part0(one), y)
    ensures v == 0 || v == 0xad83_0000
  {
  }

  /** `back` brings an octet back with `octetBack`. */
  ghost predicate BacksBy(back: bv32 -> bv32, octetBack: bv8 -> bv32) {
    forall v {:trigger back(v)} :: back(v) == Xor(octetBack(Part0(v)), v << 8)
  }

  ghost predicate AllPaired(octetBack: bv8 -> bv32) {
    forall a, c {:trigger Paired(a, octetBack(a), c, octetBack(c))} :: Paired(a, octetBack(a), c, octetBack(c))
  }

  lemma PairedAt(octetBack: bv8 -> bv32, a: bv8, c: bv8)
    requires AllPaired(octetBack)
    ensures Paired(a, octetBack(a), c, octetBack(c))
  {
  }

  lemma TwoBackAt(back: bv32 -> bv32, octetBack: bv8 -> bv32, v: bv32)
    requires BacksBy(back, octetBack) && AllPaired(octetBack)
    requires v & 0xffff == 0 && back(back(v)) & 0xffff_0000 == 0
    ensures v == 0 || v == 0xad83_0000
  {
    PairedAt(octetBack, Part0(v), Part0(back(v)));
    TwoBackValues(v, octetBack(Part0(v)), back(v), octetBack(Part0(back(v))), back(back(v)));
  }

  lemma TwoBackOf(back: bv32 -> bv32, octetBack: bv8 -> bv32)
    requires BacksBy(back, octetBack) && AllPaired(octetBack)
    ensures OnlyPairBack(back)
  {
    forall v | v & 0xffff == 0 && back(back(v)) & 0xffff_0000 == 0 ensures v == 0 || v == 0xad83_0000 {
      TwoBackAt(back, octetBack, v);
    }
  }

  lemma Back8Pairs()
    ensures BacksBy(Back8, OctetBack) && AllPaired(OctetBack)
  {
    forall a, c ensures Paired(a, OctetBack(a), c, OctetBack(c)) {
      PairBack(a, c);
    }
  }

  lemma ThreeOctetsBack(v: bv32)
    requires v & 0x00ff_ffff == 0 && Back8(Back8(Back8(v))) & 0xff00_0000 == 0
    ensures v == 0
  {
  }

  lemma BackImages()
    ensures Back8(Back8(0)) == 0 && Back8(Back8(0xad83_0000)) == 0x904d && Back8(Back8(Back8(0))) == 0
  {
  }

  lemma Back8Undoes()
    ensures Undone(Shift8, Back8)
  {
    forall v ensures Back8(Shift8(v)) == v {
      BackOfShift(v);
    }
  }

  lemma Back8Two()
    ensures TwoBack(Back8)
  {
    BackImages();
    Back8Pairs();
    TwoBackOf(Back8, OctetBack);
  }

  lemma Back8Three()
    ensures ThreeBack(Back8)
  {
    BackImages();
    forall v | v & 0x00ff_ffff == 0 && Back8(Back8(Back8(v))) & 0xff00_0000 == 0 ensures v == 0 {
      ThreeOctetsBack(v);
    }
  }

  /** What is needed of eight shifts below. */
  ghost predicate Kernels(f: bv32 -> bv32) {
    && OneKernel(f) && TwoKernel(f) && ThreeKernel(f)
    && f(0) == 0 && f(0x5d) == 0xee0d_9600 && f(f(0x904d)) == 0xad83_0000
  }

  lemma KernelImages()
    ensures Shift8(0) == 0 && Shift8(0x5d) == 0xee0d_9600 && Shift8(Shift8(0x904d)) == 0xad83_0000
  {
  }

  lemma Shift8Kernels()
    ensures Kernels(Shift8)
  {
    forall w | w & 0xffff_ff00 == 0 && Shift8(w) & 0xff == 0 ensures w == 0 || w == 0x5d {
      OneOctet(w);
    }
    Back8Undoes();
    Back8Two();
    Back8Three();
    TwoKernelOf(Shift8, Back8);
    ThreeKernelOf(Shift8, Back8);
    KernelImages();
  }

  // ----- octets under exclusive or -----

  function OctetXor(a: byte, b: byte): byte {
    ((a as bv8) ^ (b as bv8)) as int
  }

  function MaskedBy(xor: (byte, byte) -> byte, s: seq<byte>, mask: seq<byte>): (r: seq<byte>)
    requires |s| == |mask|
    ensures |r| == |s|
  {
    seq(|s|, i requires 0 <= i < |s| => xor(s[i], mask[i]))
  }

  /** Each octet of `s` changed by the octet of `mask` at its place. */
  function Masked(s: seq<byte>, mask: seq<byte>): (r: seq<byte>)
    requires |s| == |mask|
    ensures |r| == |s|
  {
    MaskedBy(OctetXor, s, mask)
  }

  lemma OctetOfXor(a: byte, b: byte)
    ensures Octet(OctetXor(a, b)) == Xor(Octet(a), Octet(b))
  {
    IntOfOctet((a as bv8) ^ (b as bv8));
  }

  ghost predicate Commutative<T(!new)>(op: (T, T) -> T) {
    forall a, b {:trigger op(a, b)} :: op(a, b) == op(b, a)
  }

  lemma Interchange<T(!new)>(op: (T, T) -> T, a: T, b: T, c: T, d: T)
    requires Associative(op) && Commutative(op)
    ensures op(op(a, b), op(c, d)) == op(op(a, c), op(b, d))
  {
    AssociativeAt(op, a, b, op(c, d));
    AssociativeAt(op, b, c, d);
    assert op(b, c) == op(c, b);
    AssociativeAt(op, c, b, d);
    AssociativeAt(op, a, c, op(b, d));
  }

  lemma XorCommutes()
    ensures Commutative(Xor)
  {
    forall a, b ensures Xor(a, b) == Xor(b, a) {
    }
  }

  lemma UpXor(x: bv32, y: bv32)
    ensures Up(Xor(x, y)) == Xor(Up(x), Up(y))
  {
    assert (x ^ y) << 8 == (x << 8) ^ (y << 8);
  }

  lemma PushXor(a: bv32, b: bv32, x: bv32, y: bv32)
    ensures Xor(Xor(a, b), Up(Xor(x, y))) == Xor(Xor(a, Up(x)), Xor(b, Up(y)))
  {
    UpXor(x, y);
    XorAssociative();
    XorCommutes();
    Interchange(Xor, a, b, Up(x), Up(y));
  }

  lemma {:induction false} WordMasked(x: seq<byte>, mask: seq<byte>)
    requires |x| == |mask|
    ensures Word(Masked(x, mask)) == Xor(Word(x), Word(mask))
    decreases |x|
  {
    if x != [] {
      WordMasked(x[1..], mask[1..]);
      assert Masked(x, mask)[1..] == Masked(x[1..], mask[1..]);
      OctetOfXor(x[0], mask[0]);
      PushXor(Octet(x[0]), Octet(mask[0]), Word(x[1..]), Word(mask[1..]));
    }
  }

  lemma SameXor(x: bv8, y: bv8, a: bv8, b: bv8)
    requires x == a && y == b
    ensures (x ^ y) as int == (a ^ b) as int
  {
  }

  lemma OctetsOfXor(a: bv8, b: bv8)
    ensures (a ^ b) as int == OctetXor(a as int, b as int)
  {
    IntOfOctet(a);
    IntOfOctet(b);
    SameXor((a as int) as bv8, (b as int) as bv8, a, b);
  }

  lemma PartsOfXor(v: bv32, d: bv32)
    ensures Part0(v ^ d) == Part0(v) ^ Part0(d) && Part1(v ^ d) == Part1(v) ^ Part1(d)
    ensures Part2(v ^ d) == Part2(v) ^ Part2(d) && Part3(v ^ d) == Part3(v) ^ Part3(d)
  {
  }

  /** `xor` does on values what exclusive or does on octets. */
  ghost predicate Follows(xor: (byte, byte) -> byte, value: bv8 -> byte) {
    forall a, b {:trigger xor(value(a), value(b))} :: xor(value(a), value(b)) == value(a ^ b)
  }

  lemma SpreadMasked(xor: (byte, byte) -> byte, value: bv8 -> byte, v: bv32, d: bv32)
    requires Follows(xor, value)
    ensures Spread(value, v ^ d) == MaskedBy(xor, Spread(value, v), Spread(value, d))
  {
    PartsOfXor(v, d);
    var r := MaskedBy(xor, Spread(value, v), Spread(value, d));
    assert r[0] == xor(value(Part0(v)), value(Part0(d))) && r[1] == xor(value(Part1(v)), value(Part1(d)));
    assert r[2] == xor(value(Part2(v)), value(Part2(d))) && r[3] == xor(value(Part3(v)), value(Part3(d)));
  }

  lemma HighFirstMasked(v: bv32, d: bv32)
    ensures HighFirst(v ^ d) == Masked(HighFirst(v), HighFirst(d))
  {
    assert Follows(OctetXor, Value) by {
      forall a, b ensures OctetXor(Value(a), Value(b)) == Value(a ^ b) {
        OctetsOfXor(a, b);
      }
    }
    SpreadMasked(OctetXor, Value, v, d);
  }

  lemma LowClear(u: bv32, v: bv32)
    ensures Part3(u) == Part3(v) <==> (u ^ v) & 0xff == 0
    ensures Part2(u) == Part2(v) <==> (u ^ v) & 0xff00 == 0
    ensures Part1(u) == Part1(v) <==> (u ^ v) & 0x00ff_0000 == 0
  {
  }

  lemma JoinClear(d: bv32)
    ensures d & 0xffff == 0 <==> d & 0xff == 0 && d & 0xff00 == 0
    ensures d & 0x00ff_ffff == 0 <==> d & 0xff == 0 && d & 0xff00 == 0 && d & 0x00ff_0000 == 0
  {
  }

  lemma SpreadAgree(value: bv8 -> byte, u: bv32, v: bv32)
    requires Distinguishes(value)
    ensures Spread(value, u)[3..] == Spread(value, v)[3..] <==> (u ^ v) & 0xff == 0
    ensures Spread(value, u)[2..] == Spread(value, v)[2..] <==> (u ^ v) & 0xffff == 0
    ensures Spread(value, u)[1..] == Spread(value, v)[1..] <==> (u ^ v) & 0x00ff_ffff == 0
  {
    LowClear(u, v);
    JoinClear(u ^ v);
    LastThree(Spread(value, u), Spread(value, v));
  }

  /** When the last octets of two registers agree. */
  lemma LastAgree(u: bv32, v: bv32)
    ensures HighFirst(u)[3..] == HighFirst(v)[3..] <==> (u ^ v) & 0xff == 0
    ensures HighFirst(u)[2..] == HighFirst(v)[2..] <==> (u ^ v) & 0xffff == 0
    ensures HighFirst(u)[1..] == HighFirst(v)[1..] <==> (u ^ v) & 0x00ff_ffff == 0
  {
    ValueDistinguishes();
    SpreadAgree(Value, u, v);
  }

  lemma LastThree(s: seq<byte>, t: seq<byte>)
    requires |s| == |t| == 4
    ensures s[3..] == t[3..] <==> s[3] == t[3]
    ensures s[2..] == t[2..] <==> s[3] == t[3] && s[2] == t[2]
    ensures s[1..] == t[1..] <==> s[3] == t[3] && s[2] == t[2] && s[1] == t[1]
  {
    assert s[3] == s[3..][0] && t[3] == t[3..][0];
    assert s[2] == s[2..][0] && t[2] == t[2..][0] && s[3] == s[2..][1] && t[3] == t[2..][1];
    assert s[1] == s[1..][0] && t[1] == t[1..][0] && s[2] == s[1..][1] && t[2] == t[1..][1];
    assert s[3] == s[1..][2] && t[3] == t[1..][2];
  }

  // ----- what a change of the last octets does to the checksum -----

  lemma CancelBits(r: bv32, p: bv32, q: bv32)
    ensures (r ^ p) ^ (r ^ q) == p ^ q
  {
  }

  lemma XorSides(r: bv32, p: bv32, q: bv32)
    ensures Xor(Xor(r, p), Xor(r, q)) == Xor(p, q)
  {
    CancelBits(r, p, q);
  }

  lemma ComplementKeeps(u: bv32, v: bv32)
    ensures (!u) ^ (!v) == u ^ v
  {
  }

  lemma FoldDifference(register: bv32, x: seq<byte>, y: seq<byte>)
    requires |x| == |y| <= 4
    ensures Xor(Fold(Absorb, register, x), Fold(Absorb, register, y)) == Iterate(Shift8, Xor(Word(x), Word(y)), |x|)
  {
    AbsorbWord(register, x);
    AbsorbWord(register, y);
    XorSides(register, Word(x), Word(y));
    Shift8Algebra();
    IterateLinear(Shift8, Xor, Xor(register, Word(x)), Xor(register, Word(y)), |x|);
  }

  predicate LowOctetsClear(d: bv32, k: nat) {
    if k == 1 then d & 0xff == 0 else if k == 2 then d & 0xffff == 0 else d & 0x00ff_ffff == 0
  }

  predicate HighOctetsClear(w: bv32, k: nat) {
    if k == 1 then w & 0xffff_ff00 == 0 else if k == 2 then w & 0xffff_0000 == 0 else w & 0xff00_0000 == 0
  }

  lemma OneTwoThree<T>(f: T -> T, x: T)
    ensures Iterate(f, x, 1) == f(x) && Iterate(f, x, 2) == f(f(x)) && Iterate(f, x, 3) == f(f(f(x)))
  {
    assert Iterate(f, x, 3) == Iterate(f, f(x), 2) == Iterate(f, f(f(x)), 1);
  }

  /** Which words of `k` octets leave `k` octets clear after as many shifts, and what they become. */
  lemma KernelDecides(f: bv32 -> bv32, w: bv32, k: nat)
    requires Kernels(f) && 1 <= k <= 3 && HighOctetsClear(w, k)
    ensures LowOctetsClear(Iterate(f, w, k), k) <==> w == 0 || (k == 1 && w == 0x5d) || (k == 2 && w == 0x904d)
    ensures k == 1 && w == 0x5d ==> Iterate(f, w, k) == 0xee0d_9600
    ensures k == 2 && w == 0x904d ==> Iterate(f, w, k) == 0xad83_0000
  {
    OneTwoThree(f, w);
  }

  lemma ChecksumOctets(data: seq<byte>)
    ensures U32Bytes(Checksum(data)) == HighFirst(!Fold(Absorb, INITIAL, data))
  {
    U32Injective(HighFirst(!Fold(Absorb, INITIAL, data)));
  }

  lemma RegisterDifference(p: seq<byte>, x: seq<byte>, y: seq<byte>)
    requires |x| == |y| <= 4
    ensures (!Fold(Absorb, INITIAL, p + x)) ^ (!Fold(Absorb, INITIAL, p + y))
            == Iterate(Shift8, Xor(Word(x), Word(y)), |x|)
  {
    FoldConcat(Absorb, INITIAL, p, x);
    FoldConcat(Absorb, INITIAL, p, y);
    FoldDifference(Fold(Absorb, INITIAL, p), x, y);
    ComplementKeeps(Fold(Absorb, INITIAL, p + x), Fold(Absorb, INITIAL, p + y));
  }

  lemma XorBound(a: bv32, b: bv32)
    ensures a & 0xffff_ff00 == 0 && b & 0xffff_ff00 == 0 ==> (a ^ b) & 0xffff_ff00 == 0
    ensures a & 0xffff_0000 == 0 && b & 0xffff_0000 == 0 ==> (a ^ b) & 0xffff_0000 == 0
    ensures a & 0xff00_0000 == 0 && b & 0xff00_0000 == 0 ==> (a ^ b) & 0xff00_0000 == 0
  {
  }

  lemma WordsBound(x: seq<byte>, y: seq<byte>)
    requires 1 <= |x| == |y| <= 3
    ensures HighOctetsClear(Xor(Word(x), Word(y)), |x|)
  {
    WordBound(x);
    WordBound(y);
    XorBound(Word(x), Word(y));
  }

  const SLIP1: seq<byte> := [0x5d]
  const SLIP2: seq<byte> := [0x4d, 0x90]

  /** The one change of a last octet, and the one change of the last two, that can be made up for. */
  predicate Slips(x: seq<byte>, y: seq<byte>)
    requires |x| == |y|
  {
    (|x| == 1 && y == Masked(x, SLIP1)) || (|x| == 2 && y == Masked(x, SLIP2))
  }

  lemma SlipWords()
    ensures Word(SLIP1) == 0x5d && Word(SLIP2) == 0x904d
  {
    assert SLIP1[1..] == [] && SLIP2[1..] == [0x90] && SLIP2[1..][1..] == [];
    assert Word([0x90]) == Xor(Octet(0x90), Up(Word([])));
  }

  lemma ChangeBack(u: bv32, v: bv32)
    ensures u ^ (u ^ v) == v
  {
  }

  lemma XorSolves(a: bv32, b: bv32, c: bv32)
    requires Xor(a, b) == c
    ensures b == Xor(a, c)
  {
    ChangeBack(a, b);
  }

  lemma WordsDifferBy(x: seq<byte>, y: seq<byte>, mask: seq<byte>)
    requires |x| == |y| == |mask| <= 4
    ensures Xor(Word(x), Word(y)) == Word(mask) <==> y == Masked(x, mask)
  {
    WordMasked(x, mask);
    if Xor(Word(x), Word(y)) == Word(mask) {
      XorSolves(Word(x), Word(y), Word(mask));
      WordInjective(y, Masked(x, mask));
    }
    if y == Masked(x, mask) {
      ChangeBack(Word(x), Word(mask));
    }
  }

  lemma NoDifference(a: bv32, b: bv32)
    ensures a ^ b == 0 <==> a == b
  {
  }

  lemma WordsSame(x: seq<byte>, y: seq<byte>)
    requires |x| == |y| <= 4
    ensures Xor(Word(x), Word(y)) == 0 <==> x == y
  {
    NoDifference(Word(x), Word(y));
    if Word(x) == Word(y) {
      WordInjective(x, y);
    }
  }

  /** Slipping, said of words. */
  lemma SlipsInWords(x: seq<byte>, y: seq<byte>)
    requires 1 <= |x| == |y| <= 3
    ensures var w := Xor(Word(x), Word(y));
            && (w == 0 <==> x == y)
            && (Slips(x, y) <==> (|x| == 1 && w == 0x5d) || (|x| == 2 && w == 0x904d))
  {
    SlipWords();
    WordsSame(x, y);
    if |x| == 1 {
      WordsDifferBy(x, y, SLIP1);
    } else if |x| == 2 {
      WordsDifferBy(x, y, SLIP2);
    }
  }

  /** The register-level statement of the two theorems below, for whatever the shifts are. */
  lemma DifferenceDecides(f: bv32 -> bv32, x: seq<byte>, y: seq<byte>)
    requires Kernels(f) && 1 <= |x| == |y| <= 3
    ensures var d := Iterate(f, Xor(Word(x), Word(y)), |x|);
            && (LowOctetsClear(d, |x|) <==> x == y || Slips(x, y))
            && (Slips(x, y) ==> d == if |x| == 1 then 0xee0d_9600 else 0xad83_0000)
  {
    SlipsInWords(x, y);
    WordsBound(x, y);
    KernelDecides(f, Xor(Word(x), Word(y)), |x|);
  }

  lemma AgreeDecides(u: bv32, v: bv32, k: nat)
    requires 1 <= k <= 3
    ensures HighFirst(u)[4 - k..] == HighFirst(v)[4 - k..] <==> LowOctetsClear(u ^ v, k)
  {
    LastAgree(u, v);
  }

  /** The difference `d` of two registers tells whether the last octets `x` and `y` slip. */
  predicate Tells(d: bv32, x: seq<byte>, y: seq<byte>)
    requires |x| == |y|
  {
    && (LowOctetsClear(d, |x|) <==> x == y || Slips(x, y))
    && (Slips(x, y) ==> d == if |x| == 1 then 0xee0d_9600 else 0xad83_0000)
  }

  lemma DifferenceTells(f: bv32 -> bv32, d: bv32, x: seq<byte>, y: seq<byte>)
    requires Kernels(f) && 1 <= |x| == |y| <= 3 && d == Iterate(f, Xor(Word(x), Word(y)), |x|)
    ensures Tells(d, x, y)
  {
    DifferenceDecides(f, x, y);
  }

  const MADE1: seq<byte> := [0xee, 0x0d, 0x96, 0x00]
  const MADE2: seq<byte> := [0xad, 0x83, 0x00, 0x00]

  lemma MadeOctets()
    ensures HighFirst(0xee0d_9600) == MADE1 && HighFirst(0xad83_0000) == MADE2
  {
  }

  lemma OctetsChange(u: bv32, v: bv32, d: bv32)
    requires u ^ v == d
    ensures HighFirst(v) == Masked(HighFirst(u), HighFirst(d))
  {
    ChangeBack(u, v);
    HighFirstMasked(u, d);
  }

  /** What the octets `s` and `t` of two checksums say when `x` and `y` are the last octets of the messages. */
  predicate Trails(s: seq<byte>, t: seq<byte>, x: seq<byte>, y: seq<byte>)
    requires |s| == |t| == 4 && 1 <= |x| == |y| <= 3
  {
    && (s[4 - |x|..] == t[4 - |x|..] <==> x == y || Slips(x, y))
    && (Slips(x, y) ==> t == Masked(s, if |x| == 1 then MADE1 else MADE2))
  }

  lemma TrailsOf(u: bv32, v: bv32, x: seq<byte>, y: seq<byte>)
    requires 1 <= |x| == |y| <= 3 && Tells(u ^ v, x, y)
    ensures Trails(HighFirst(u), HighFirst(v), x, y)
  {
    AgreeDecides(u, v, |x|);
    OctetsChange(u, v, u ^ v);
    MadeOctets();
  }

  function RegisterOf(data: seq<byte>): bv32 {
    !Fold(Absorb, INITIAL, data)
  }

  lemma RegistersTell(p: seq<byte>, x: seq<byte>, y: seq<byte>)
    requires 1 <= |x| == |y| <= 3
    ensures Tells(RegisterOf(p + x) ^ RegisterOf(p + y), x, y)
  {
    RegisterDifference(p, x, y);
    Shift8Kernels();
    DifferenceTells(Shift8, RegisterOf(p + x) ^ RegisterOf(p + y), x, y);
  }

  /** The octets of `check` are those of the registers. */
  ghost predicate ShownBy(check: Check, register: seq<byte> -> bv32) {
    forall data {:trigger check(data)} :: U32Bytes(check(data)) == HighFirst(register(data))
  }

  ghost predicate AllTell(register: seq<byte> -> bv32) {
    forall p, x, y {:trigger register(p + x), register(p + y)} ::
      1 <= |x| == |y| <= 3 ==> Tells(register(p + x) ^ register(p + y), x, y)
  }

  /** The octets of any two checksums of messages that differ only behind `p`. */
  ghost predicate TrailsAlways(check: Check) {
    forall p, x, y {:trigger check(p + x), check(p + y)} ::
      1 <= |x| == |y| <= 3 ==> Trails(U32Bytes(check(p + x)), U32Bytes(check(p + y)), x, y)
  }

  lemma TrailsFrom(check: Check, register: seq<byte> -> bv32)
    requires ShownBy(check, register) && AllTell(register)
    ensures TrailsAlways(check)
  {
    forall p, x, y | 1 <= |x| == |y| <= 3 ensures Trails(U32Bytes(check(p + x)), U32Bytes(check(p + y)), x, y) {
      assert Tells(register(p + x) ^ register(p + y), x, y);
      TrailsOf(register(p + x), register(p + y), x, y);
    }
  }

  /**
   * Two messages that differ at most in their last one, two or three octets have checksums that
   * agree in as many last octets exactly when they are the same or the change is one of the two
   * that slip; and what such a change does to the checksum.
   */
  lemma ChecksumTrails()
    ensures TrailsAlways(Checksum)
  {
    forall data ensures U32Bytes(Checksum(data)) == HighFirst(RegisterOf(data)) {
      ChecksumOctets(data);
    }
    forall p, x, y | 1 <= |x| == |y| <= 3 ensures Tells(RegisterOf(p + x) ^ RegisterOf(p + y), x, y) {
      RegistersTell(p, x, y);
    }
    TrailsFrom(Checksum, RegisterOf);
  }
}

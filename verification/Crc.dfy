/** The CRC-32 of src/dvbpsi.cpp: a table-driven loop over bytes, against division bit by bit (Annex A of
    ISO/IEC 13818-1). */
module Crc {
  import opened Bytes
  import opened CrcTable
  import Octets

  /** The bit operations of the division, named so that the algebra below needs no bit-level reasoning. */
  function Xor(a: bv32, b: bv32): bv32 {
    a ^ b
  }

  function Shl(a: bv32): bv32 {
    a << 1
  }

  predicate Top(a: bv32) {
    a & 0x8000_0000 != 0
  }

  function Poly(): bv32 {
    0x04c1_1db7
  }

  /** A byte in the highest place of the register. */
  function High(b: bv32): bv32 {
    b << 24
  }

  function Reg(b: byte): bv32 {
    (b as bv8) as bv32
  }

  /** The register moved by one byte. */
  function Up8(c: bv32): bv32 {
    c << 8
  }

  function Down8(c: bv32): bv32 {
    c >> 8
  }

  /** The register after one more message bit, and after the `n` high bits of `w`, highest first. */
  function FeedBit(c: bv32, bit: bool): bv32 {
    if Top(c) != bit then Xor(Shl(c), Poly()) else Shl(c)
  }

  function FeedBits(c: bv32, w: bv32, n: nat): bv32
    decreases n
  {
    if n == 0 then c else FeedBits(FeedBit(c, Top(w)), Shl(w), n - 1)
  }

  /** The register after a message, divided bit by bit. */
  function Divide(c: bv32, m: seq<byte>): bv32
    decreases |m|
  {
    if m == [] then c else Divide(FeedBits(c, High(Reg(m[0])), 8), m[1..])
  }

  /** The source's step for one byte, and for a message. */
  function Update(c: bv32, b: byte): bv32 {
    (c << 8) ^ Table((c >> 24) ^ Reg(b))
  }

  function Running(c: bv32, m: seq<byte>): bv32
    decreases |m|
  {
    if m == [] then c else Update(Running(c, m[..|m| - 1]), m[|m| - 1])
  }

  /** `n` division steps without a message, and `n` places to the left. */
  function Shifts(c: bv32, n: nat): bv32
    decreases n
  {
    if n == 0 then c else Shifts(Shift(c), n - 1)
  }

  function Left(w: bv32, n: nat): bv32
    decreases n
  {
    if n == 0 then w else Left(Shl(w), n - 1)
  }

  lemma RegSmall(b: byte)
    ensures Reg(b) < 0x100
  {
  }

  lemma ShiftIs(c: bv32)
    ensures Shift(c) == if Top(c) then Xor(Shl(c), Poly()) else Shl(c)
  {
  }

  lemma XorShl(a: bv32, b: bv32)
    ensures Shl(Xor(a, b)) == Xor(Shl(a), Shl(b))
  {
  }

  lemma XorTop(a: bv32, b: bv32)
    ensures Top(Xor(a, b)) == (Top(a) != Top(b))
  {
  }

  lemma XorMoves(x: bv32, y: bv32, p: bv32)
    ensures Xor(Xor(x, p), y) == Xor(Xor(x, y), p)
    ensures Xor(x, Xor(y, p)) == Xor(Xor(x, y), p)
    ensures Xor(Xor(x, p), Xor(y, p)) == Xor(x, y)
  {
  }

  lemma XorZero(a: bv32)
    ensures Xor(a, 0) == a && Xor(0, a) == a
  {
  }

  lemma ShiftMeets(c: bv32, w: bv32)
    ensures Shift(Xor(c, w)) == Xor(FeedBit(c, Top(w)), Shl(w))
  {
    hide Xor, Shl, Top, Shift, Poly;
    ShiftIs(Xor(c, w));
    XorShl(c, w);
    XorTop(c, w);
    XorMoves(Shl(c), Shl(w), Poly());
  }

  /** Feeding bits one by one is shifting the register with the bits already added. */
  lemma {:induction false} FeedIsShift(c: bv32, w: bv32, n: nat)
    ensures Xor(FeedBits(c, w, n), Left(w, n)) == Shifts(Xor(c, w), n)
    decreases n
  {
    hide Xor, Shl, Top, Shift, FeedBit;
    if n > 0 {
      ShiftMeets(c, w);
      FeedIsShift(FeedBit(c, Top(w)), Shl(w), n - 1);
    }
  }

  lemma Shl8(x: bv32)
    ensures Shl(Shl(Shl(Shl(Shl(Shl(Shl(Shl(x)))))))) == Up8(x)
  {
  }

  lemma Left8(w: bv32)
    ensures Left(w, 8) == Up8(w)
  {
    Shl8(w);
    hide Shl, Up8;
    var x := Shl(Shl(Shl(Shl(w))));
    assert Left(w, 8) == Left(Shl(w), 7) == Left(Shl(Shl(w)), 6) == Left(Shl(Shl(Shl(w))), 5) == Left(x, 4);
    assert Left(x, 4) == Left(Shl(x), 3) == Left(Shl(Shl(x)), 2) == Left(Shl(Shl(Shl(x))), 1);
  }

  lemma Shifts8(c: bv32)
    ensures Shifts(c, 8) == Shift8(c)
  {
    hide Shift;
    var x := Shift(Shift(Shift(Shift(c))));
    assert Shifts(c, 8) == Shifts(Shift(c), 7) == Shifts(Shift(Shift(c)), 6) == Shifts(Shift(Shift(Shift(c))), 5) == Shifts(x, 4);
    assert Shifts(x, 4) == Shifts(Shift(x), 3) == Shifts(Shift(Shift(x)), 2) == Shifts(Shift(Shift(Shift(x))), 1);
  }

  lemma HighGone(b: bv32)
    requires b < 0x100
    ensures Up8(High(b)) == 0
  {
  }

  /** One byte, divided bit by bit. */
  lemma FeedByte(c: bv32, b: byte)
    ensures FeedBits(c, High(Reg(b)), 8) == Shift8(Xor(c, High(Reg(b))))
  {
    hide Xor, Shift8, FeedBits, Left, Shifts, Reg, High, Up8;
    var w := High(Reg(b));
    RegSmall(b);
    FeedIsShift(c, w, 8);
    Left8(w);
    HighGone(Reg(b));
    Shifts8(Xor(c, w));
    XorZero(FeedBits(c, w, 8));
  }

  /** The division is linear over exclusive or. */
  lemma ShiftLinear(a: bv32, b: bv32)
    ensures Shift(Xor(a, b)) == Xor(Shift(a), Shift(b))
  {
    hide Xor, Shl, Top, Shift, Poly;
    ShiftIs(Xor(a, b));
    ShiftIs(a);
    ShiftIs(b);
    XorShl(a, b);
    XorTop(a, b);
    XorMoves(Shl(a), Shl(b), Poly());
  }

  lemma Shift8Linear(a: bv32, b: bv32)
    ensures Shift8(Xor(a, b)) == Xor(Shift8(a), Shift8(b))
  {
    hide Shift, Xor;
    var a1, b1 := Shift(a), Shift(b);
    var a2, b2 := Shift(a1), Shift(b1);
    var a3, b3 := Shift(a2), Shift(b2);
    var a4, b4 := Shift(a3), Shift(b3);
    var a5, b5 := Shift(a4), Shift(b4);
    var a6, b6 := Shift(a5), Shift(b5);
    ShiftLinear(a, b);
    ShiftLinear(a1, b1);
    ShiftLinear(a2, b2);
    ShiftLinear(a3, b3);
    ShiftLinear(a4, b4);
    ShiftLinear(a5, b5);
    ShiftLinear(a6, b6);
    ShiftLinear(Shift(a6), Shift(b6));
  }

  lemma LowBits(a: bv32)
    requires a < 0x100_0000
    ensures !Top(a) && !Top(Shl(a)) && !Top(Shl(Shl(a))) && !Top(Shl(Shl(Shl(a)))) && !Top(Shl(Shl(Shl(Shl(a)))))
    ensures !Top(Shl(Shl(Shl(Shl(Shl(a)))))) && !Top(Shl(Shl(Shl(Shl(Shl(Shl(a)))))))
            && !Top(Shl(Shl(Shl(Shl(Shl(Shl(Shl(a))))))))
  {
  }

  /** Eight steps only shift a register whose high byte is zero. */
  lemma Shift8Low(a: bv32)
    requires a < 0x100_0000
    ensures Shift8(a) == Up8(a)
  {
    LowBits(a);
    Shl8(a);
    hide Shift, Shl, Top, Xor, Up8;
    var a1 := Shl(a);
    var a2 := Shl(a1);
    var a3 := Shl(a2);
    var a4 := Shl(a3);
    var a5 := Shl(a4);
    var a6 := Shl(a5);
    ShiftIs(a);
    ShiftIs(a1);
    ShiftIs(a2);
    ShiftIs(a3);
    ShiftIs(a4);
    ShiftIs(a5);
    ShiftIs(a6);
    ShiftIs(Shl(a6));
  }

  /** The register's three low bytes. */
  function Low(c: bv32): bv32 {
    c & 0xFF_FFFF
  }

  function Index(c: bv32, b: bv32): bv32 {
    (c >> 24) ^ b
  }

  lemma SplitRegister(c: bv32, w: bv32)
    requires w < 0x100
    ensures Xor(c, High(w)) == Xor(High(Index(c, w)), Low(c))
  {
    SplitTop(c, w);
    hide Xor, High, Low, Index;
    XorMoves(High(c >> 24), High(w), Low(c));
  }

  lemma SplitTop(c: bv32, w: bv32)
    ensures c == Xor(High(c >> 24), Low(c)) && High(Index(c, w)) == Xor(High(c >> 24), High(w))
  {
  }

  lemma RegisterParts(c: bv32, w: bv32)
    requires w < 0x100
    ensures Low(c) < 0x100_0000 && Up8(Low(c)) == Up8(c) && Index(c, w) < 0x100
  {
  }

  lemma UpdateParts(c: bv32, b: byte)
    ensures Update(c, b) == Xor(Table(Index(c, Reg(b))), Up8(c))
  {
    hide Table, Reg;
  }

  /** The table step is eight bitwise steps. */
  lemma UpdateIs(c: bv32, b: byte)
    ensures Update(c, b) == Shift8(Xor(c, High(Reg(b))))
  {
    hide Shift8, Table, Reg, Xor, High, Index, Low, Update, Up8;
    var i := Index(c, Reg(b));
    RegSmall(b);
    UpdateParts(c, b);
    SplitRegister(c, Reg(b));
    RegisterParts(c, Reg(b));
    TableEntry(i);
    Shift8Linear(High(i), Low(c));
    Shift8Low(Low(c));
  }

  lemma TableEntry(i: bv32)
    requires i < 0x100
    ensures Table(i) == Shift8(High(i))
  {
    hide Table, Shift8;
    TableIs(i);
  }

  lemma {:induction false} RunningFirst(c: bv32, m: seq<byte>)
    requires m != []
    ensures Running(c, m) == Running(Update(c, m[0]), m[1..])
    decreases |m|
  {
    hide Update;
    if |m| > 1 {
      RunningFirst(c, m[..|m| - 1]);
      assert m[..|m| - 1][1..] == m[1..][..|m| - 2];
      assert m[..|m| - 1][0] == m[0];
    } else {
      assert m[..0] == [] && m[1..] == [];
      assert Running(c, m[..0]) == c;
    }
  }

  /** For every message, the table-driven loop computes what division bit by bit computes. */
  lemma {:induction false} TableDivides(c: bv32, m: seq<byte>)
    ensures Running(c, m) == Divide(c, m)
    decreases |m|
  {
    if m != [] {
      hide Update, FeedBits, Running, High, Reg, Xor, Shift8;
      RunningFirst(c, m);
      UpdateIs(c, m[0]);
      FeedByte(c, m[0]);
      TableDivides(Update(c, m[0]), m[1..]);
    }
  }

  function Octet(c: bv32): bv8 {
    (c & 0xFF) as bv8
  }

  /** The four bytes in which a register is stored, highest first. */
  function CrcBytes(c: bv32): (b: seq<byte>)
    ensures |b| == 4
  {
    [Octet(c >> 24) as int, Octet(c >> 16) as int, Octet(c >> 8) as int, Octet(c) as int]
  }

  lemma RegOf(x: bv8)
    ensures Reg(x as int) == x as bv32
  {
    hide Reg;
    Octets.BitsBack(x);
    RegDef(x as int, x);
  }

  lemma RegDef(b: byte, y: bv8)
    requires b as bv8 == y
    ensures Reg(b) == y as bv32
  {
  }

  function HighByte(c: bv32): bv32 {
    c >> 24
  }

  lemma CrcByte(c: bv32)
    ensures Reg(CrcBytes(c)[0]) == HighByte(c) && Reg(CrcBytes(c)[1]) == HighByte(Up8(c))
    ensures Reg(CrcBytes(c)[2]) == HighByte(Up8(Up8(c))) && Reg(CrcBytes(c)[3]) == HighByte(Up8(Up8(Up8(c))))
  {
    hide *;
    CrcByte0(c);
    CrcByte1(c);
    CrcByte2(c);
    CrcByte3(c);
  }

  lemma CrcByte0(c: bv32)
    ensures Reg(CrcBytes(c)[0]) == HighByte(c)
  {
    hide Reg, Octet;
    NextTop(c);
    RegOf(Octet(c >> 24));
  }

  lemma CrcByte1(c: bv32)
    ensures Reg(CrcBytes(c)[1]) == HighByte(Up8(c))
  {
    hide Reg, Octet;
    NextTop(c);
    RegOf(Octet(c >> 16));
  }

  lemma CrcByte2(c: bv32)
    ensures Reg(CrcBytes(c)[2]) == HighByte(Up8(Up8(c)))
  {
    hide Reg, Octet;
    NextTop(c);
    RegOf(Octet(c >> 8));
  }

  lemma CrcByte3(c: bv32)
    ensures Reg(CrcBytes(c)[3]) == HighByte(Up8(Up8(Up8(c))))
  {
    hide Reg, Octet;
    NextTop(c);
    RegOf(Octet(c));
  }

  lemma NextTop(c: bv32)
    ensures Octet(c >> 24) as bv32 == HighByte(c)
    ensures Octet(c >> 16) as bv32 == HighByte(Up8(c))
    ensures Octet(c >> 8) as bv32 == HighByte(Up8(Up8(c)))
    ensures Octet(c) as bv32 == HighByte(Up8(Up8(Up8(c))))
  {
  }

  lemma AllGone(c: bv32)
    ensures Up8(Up8(Up8(Up8(c)))) == 0
  {
  }

  /** A byte equal to the register's highest one leaves it shifted. */
  lemma TopByteCancels(c: bv32, b: byte)
    requires Reg(b) == HighByte(c)
    ensures Update(c, b) == Up8(c)
  {
    hide Shift8, Update, Reg, Xor, High, Low, Up8, HighByte;
    UpdateIs(c, b);
    ClearTop(c);
    RegisterParts(c, 0);
    Shift8Low(Low(c));
  }

  lemma ClearTop(c: bv32)
    ensures Xor(c, High(HighByte(c))) == Low(c)
  {
  }

  lemma RunningAppend(c: bv32, a: seq<byte>, b: byte)
    ensures Running(c, a + [b]) == Update(Running(c, a), b)
  {
    hide Update;
    assert (a + [b])[..|a|] == a;
  }

  lemma RunningNothing(c: bv32, m: seq<byte>)
    requires m == []
    ensures Running(c, m) == c
  {
  }

  /** A message followed by its own CRC leaves a zero register. */
  lemma OwnCrcIsZero(c: bv32, m: seq<byte>)
    ensures Running(c, m + CrcBytes(Running(c, m))) == 0
  {
    hide Update, Running, Reg, CrcBytes, Up8, HighByte;
    var r := Running(c, m);
    var b := CrcBytes(r);
    CrcByte(r);
    var m1 := m + [b[0]];
    var m2 := m1 + [b[1]];
    var m3 := m2 + [b[2]];
    RunningAppend(c, m, b[0]);
    RunningAppend(c, m1, b[1]);
    RunningAppend(c, m2, b[2]);
    RunningAppend(c, m3, b[3]);
    TopByteCancels(r, b[0]);
    TopByteCancels(Up8(r), b[1]);
    TopByteCancels(Up8(Up8(r)), b[2]);
    TopByteCancels(Up8(Up8(Up8(r))), b[3]);
    AllGone(r);
    assert m + b == m3 + [b[3]];
  }

  lemma ShiftZero(x: bv32)
    requires Shift(x) == 0
    ensures x == 0
  {
  }

  lemma Shift8Zero(x: bv32)
    requires Shift8(x) == 0
    ensures x == 0
  {
    hide Shift;
    var a1 := Shift(x);
    var a2 := Shift(a1);
    var a3 := Shift(a2);
    var a4 := Shift(a3);
    var a5 := Shift(a4);
    var a6 := Shift(a5);
    ShiftZero(Shift(a6));
    ShiftZero(a6);
    ShiftZero(a5);
    ShiftZero(a4);
    ShiftZero(a3);
    ShiftZero(a2);
    ShiftZero(a1);
    ShiftZero(x);
  }

  lemma XorEqual(a: bv32, b: bv32)
    ensures Xor(a, b) == 0 <==> a == b
  {
    hide Xor;
    XorBack(a, b);
    XorBack(b, b);
    XorZero(b);
  }

  lemma XorBack(a: bv32, b: bv32)
    ensures Xor(Xor(a, b), b) == a && Xor(b, Xor(b, a)) == a && Xor(b, b) == 0
  {
  }

  /** Division steps lose nothing. */
  lemma Shift8Injective(a: bv32, b: bv32)
    requires Shift8(a) == Shift8(b)
    ensures a == b
  {
    hide Shift8, Xor;
    Shift8Linear(a, b);
    XorEqual(Shift8(a), Shift8(b));
    Shift8Zero(Xor(a, b));
    XorEqual(a, b);
  }

  /** Different registers stay different over equal messages. */
  lemma {:induction false} RunningInjective(a: bv32, b: bv32, m: seq<byte>)
    requires Running(a, m) == Running(b, m)
    ensures a == b
    decreases |m|
  {
    if m != [] {
      hide Update, Shift8, Xor, Reg, High;
      var front, l := m[..|m| - 1], m[|m| - 1];
      var p, q, h := Running(a, front), Running(b, front), High(Reg(l));
      UpdateIs(p, l);
      UpdateIs(q, l);
      Shift8Injective(Xor(p, h), Xor(q, h));
      XorMoves(p, q, h);
      XorEqual(Xor(p, h), Xor(q, h));
      XorEqual(p, q);
      RunningInjective(a, b, front);
    }
  }

  lemma {:induction false} RunningJoin(c: bv32, a: seq<byte>, b: seq<byte>)
    ensures Running(c, a + b) == Running(Running(c, a), b)
    decreases |b|
  {
    hide Update;
    if b == [] {
      assert a + b == a;
    } else {
      var front := b[..|b| - 1];
      RunningJoin(c, a, front);
      assert (a + b)[..|a + b| - 1] == a + front;
    }
  }

  /** Up to four bytes as one word, the first in the highest place. */
  function Word(w: seq<byte>): bv32
    decreases |w|
  {
    if w == [] then 0 else Xor(High(Reg(w[0])), Down8(Word(w[1..])))
  }

  /** The `k` lowest bytes of `x` are zero. */
  predicate Room(x: bv32, k: nat) {
    (k >= 1 ==> x & 0xFF == 0) && (k >= 2 ==> x & 0xFFFF == 0) && (k >= 3 ==> x & 0xFF_FFFF == 0) && (k >= 4 ==> x == 0)
  }

  lemma RoomStep(b: bv32, x: bv32, k: nat)
    requires Room(x, k + 1) && k <= 3
    ensures Room(Xor(High(b), Down8(x)), k)
  {
    RoomStep1(b, x);
    RoomStep2(b, x);
    RoomStep3(b, x);
  }

  lemma RoomStep1(b: bv32, x: bv32)
    ensures x & 0xFFFF == 0 ==> Xor(High(b), Down8(x)) & 0xFF == 0
  {
  }

  lemma RoomStep2(b: bv32, x: bv32)
    ensures x & 0xFF_FFFF == 0 ==> Xor(High(b), Down8(x)) & 0xFFFF == 0
  {
  }

  lemma RoomStep3(b: bv32, x: bv32)
    ensures x == 0 ==> Xor(High(b), Down8(x)) & 0xFF_FFFF == 0
  {
  }

  /** A word of fewer than four bytes leaves its lowest bytes zero. */
  lemma {:induction false} WordRoom(w: seq<byte>)
    requires |w| <= 4
    ensures Room(Word(w), 4 - |w|)
    decreases |w|
  {
    if w != [] {
      hide Reg, Room, Xor, High, Down8;
      WordRoom(w[1..]);
      RoomStep(Reg(w[0]), Word(w[1..]), 4 - |w|);
    } else {
      assert Room(0, 4);
    }
  }

  function Rounds(c: bv32, n: nat): bv32
    decreases n
  {
    if n == 0 then c else Rounds(Shift8(c), n - 1)
  }

  lemma ShiftedDown(x: bv32, k: nat)
    requires Room(x, k) && k >= 1
    ensures Down8(x) < 0x100_0000 && Up8(Down8(x)) == x
  {
  }

  lemma XorAssoc(a: bv32, b: bv32, c: bv32)
    ensures Xor(Xor(a, b), c) == Xor(a, Xor(b, c))
  {
  }

  /** Dividing up to four bytes is adding them as one word and shifting. */
  lemma {:induction false} RunningWord(c: bv32, w: seq<byte>)
    requires |w| <= 4
    ensures Running(c, w) == Rounds(Xor(c, Word(w)), |w|)
    decreases |w|
  {
    if w == [] {
      XorZero(c);
    } else {
      hide Update, Shift8, Xor, Reg, High, Running, Up8, Down8, Room;
      var h, rest := High(Reg(w[0])), w[1..];
      var x := Word(rest);
      RunningFirst(c, w);
      UpdateIs(c, w[0]);
      RunningWord(Update(c, w[0]), rest);
      WordRoom(rest);
      ShiftedDown(x, 4 - |rest|);
      Shift8Low(Down8(x));
      Shift8Linear(Xor(c, h), Down8(x));
      XorAssoc(c, h, Down8(x));
    }
  }

  lemma {:induction false} RoundsInjective(a: bv32, b: bv32, n: nat)
    requires Rounds(a, n) == Rounds(b, n)
    ensures a == b
    decreases n
  {
    if n > 0 {
      hide Shift8;
      RoundsInjective(Shift8(a), Shift8(b), n - 1);
      Shift8Injective(a, b);
    }
  }

  lemma TopByte(a: bv32, x: bv32, b: bv32, y: bv32)
    requires a < 0x100 && b < 0x100 && Room(x, 1) && Room(y, 1)
    requires Xor(High(a), Down8(x)) == Xor(High(b), Down8(y))
    ensures a == b && x == y
  {
  }

  lemma RoomOne(x: bv32, k: nat)
    requires Room(x, k) && k >= 1
    ensures Room(x, 1)
  {
  }

  lemma RegBits(a: byte, b: byte)
    requires Reg(a) == Reg(b)
    ensures a as bv8 == b as bv8
  {
  }

  lemma SameByte(a: byte, b: byte)
    requires Reg(a) == Reg(b)
    ensures a == b
  {
    hide Reg;
    RegBits(a, b);
    Octets.IntBack(a);
    Octets.IntBack(b);
  }

  lemma WordSplit(v: seq<byte>)
    requires 0 < |v| <= 4
    ensures Word(v) == Xor(High(Reg(v[0])), Down8(Word(v[1..]))) && Reg(v[0]) < 0x100 && Room(Word(v[1..]), 1)
  {
    hide Xor, High, Reg, Room, Down8;
    RegSmall(v[0]);
    WordRoom(v[1..]);
    RoomOne(Word(v[1..]), 5 - |v|);
  }

  lemma {:induction false} WordInjective(v: seq<byte>, w: seq<byte>)
    requires |v| == |w| <= 4 && Word(v) == Word(w)
    ensures v == w
    decreases |v|
  {
    if v != [] {
      hide *;
      WordSplit(v);
      WordSplit(w);
      TopByte(Reg(v[0]), Word(v[1..]), Reg(w[0]), Word(w[1..]));
      SameByte(v[0], w[0]);
      WordInjective(v[1..], w[1..]);
      assert v == [v[0]] + v[1..] && w == [w[0]] + w[1..];
    }
  }

  /** A burst of up to four changed bytes, anywhere in a message, always changes the CRC. */
  lemma BurstDetected(c: bv32, front: seq<byte>, v: seq<byte>, w: seq<byte>, back: seq<byte>)
    requires |v| == |w| <= 4 && v != w
    ensures Running(c, front + v + back) != Running(c, front + w + back)
  {
    hide Running, Xor, Word, Rounds;
    var r := Running(c, front);
    RunningJoin(c, front, v);
    RunningJoin(c, front, w);
    RunningJoin(c, front + v, back);
    RunningJoin(c, front + w, back);
    if Running(c, front + v + back) == Running(c, front + w + back) {
      RunningInjective(Running(r, v), Running(r, w), back);
      RunningWord(r, v);
      RunningWord(r, w);
      RoundsInjective(Xor(r, Word(v)), Xor(r, Word(w)), |v|);
      XorLeft(r, Word(v), Word(w));
      WordInjective(v, w);
    }
  }

  lemma XorLeft(r: bv32, a: bv32, b: bv32)
    requires Xor(r, a) == Xor(r, b)
    ensures a == b
  {
    hide Xor;
    XorBack(a, r);
    XorBack(b, r);
  }

  /** A byte with every bit turned over. */
  function Complement(b: byte): byte {
    (!(b as bv8)) as int
  }

  /** A message with its first 32 bits turned over: dividing this from a zero register is what a register of ones stands
      for. */
  function Complemented(m: seq<byte>): (r: seq<byte>)
    ensures |r| == |m|
  {
    seq(|m|, i requires 0 <= i < |m| => if i < 4 then Complement(m[i]) else m[i])
  }

  /** The register with its `n` highest bytes all ones. */
  function Ones(n: nat): bv32 {
    if n == 0 then 0 else Xor(High(0xFF), Down8(Ones(n - 1)))
  }

  lemma RegComplement(b: byte)
    ensures Reg(Complement(b)) == Xor(0xFF, Reg(b))
  {
    var y: bv8 := !(b as bv8);
    Octets.BitsBack(y);
    NotIsXor(b as bv8);
  }

  lemma NotIsXor(y: bv8)
    ensures (!y) as bv32 == 0xFF ^ (y as bv32)
  {
  }

  lemma OnesSpread(a: bv32, o: bv32, x: bv32)
    ensures Xor(High(Xor(0xFF, a)), Down8(Xor(o, x))) == Xor(Xor(High(0xFF), Down8(o)), Xor(High(a), Down8(x)))
  {
    hide Xor, High, Down8;
    XorSpreads(0xFF, a, o, x);
    var p, q, r, t := High(0xFF), High(a), Down8(o), Down8(x);
    XorAssoc(p, q, Xor(r, t));
    XorAssoc(q, r, t);
    XorTurn(q, r);
    XorAssoc(r, q, t);
    XorAssoc(p, r, Xor(q, t));
  }

  lemma XorSpreads(a: bv32, b: bv32, c: bv32, d: bv32)
    ensures High(Xor(a, b)) == Xor(High(a), High(b)) && Down8(Xor(c, d)) == Xor(Down8(c), Down8(d))
  {
  }

  lemma XorTurn(a: bv32, b: bv32)
    ensures Xor(a, b) == Xor(b, a)
  {
  }

  lemma {:induction false} WordComplement(v: seq<byte>, w: seq<byte>)
    requires |v| == |w| <= 4 && forall i {:trigger v[i]} :: 0 <= i < |v| ==> v[i] == Complement(w[i])
    ensures Word(v) == Xor(Ones(|w|), Word(w))
    decreases |v|
  {
    if v == [] {
      XorZero(0);
    } else {
      hide Xor, High, Down8, Reg, Complement;
      RegComplement(w[0]);
      WordComplement(v[1..], w[1..]);
      OnesSpread(Reg(w[0]), Ones(|w| - 1), Word(w[1..]));
    }
  }

  lemma AllOnes()
    ensures Ones(4) == 0xffff_ffff
  {
    assert Ones(1) == 0xff00_0000;
    assert Ones(2) == 0xffff_0000;
    assert Ones(3) == 0xffff_ff00;
  }

  /** The table-driven loop from a register of ones is the division of Annex A, for every message of at least 32 bits. */
  lemma OnesDivide(m: seq<byte>)
    requires |m| >= 4
    ensures Running(0xffff_ffff, m) == Divide(0, Complemented(m))
  {
    hide Update, Running, Divide, Rounds, Word, Xor, Complement, Ones;
    var n := Complemented(m);
    WordComplement(n[..4], m[..4]);
    AllOnes();
    RunningWord(0xffff_ffff, m[..4]);
    RunningWord(0, n[..4]);
    XorZero(Word(n[..4]));
    assert m == m[..4] + m[4..] && n == n[..4] + m[4..];
    RunningJoin(0xffff_ffff, m[..4], m[4..]);
    RunningJoin(0, n[..4], m[4..]);
    TableDivides(0, n);
  }
}

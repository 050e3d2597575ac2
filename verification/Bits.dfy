// Python's bit operators on non-negative ints, and the two bit accessors of
// parser.py: _get_bit_from_bytes and _set_bit.

module Bits {
  import opened Bytes

  // Bit k of x, the least significant bit being bit 0.
  predicate Bit(x: nat, k: nat) {
    if k == 0 then x % 2 == 1 else Bit(x / 2, k - 1)
  }

  function One(b: bool): nat {
    if b then 1 else 0
  }

  function And(x: nat, y: nat): (r: nat)
    ensures r <= y
  {
    if x == 0 then 0 else 2 * And(x / 2, y / 2) + One(x % 2 == 1 && y % 2 == 1)
  }

  function Or(x: nat, y: nat): nat
    decreases x + y
  {
    if x + y == 0 then 0 else 2 * Or(x / 2, y / 2) + One(x % 2 == 1 || y % 2 == 1)
  }

  function ShiftRight(x: nat, n: nat): nat {
    if n == 0 then x else ShiftRight(x / 2, n - 1)
  }

  function ShiftLeft(x: nat, n: nat): nat {
    if n == 0 then x else 2 * ShiftLeft(x, n - 1)
  }

  function SetBit(value: byte, position: nat, on: bool): byte {
    var bit := position % 8;
    var kept := And(And(ShiftRight(0xFF7F, bit), value), 0x00FF);
    And(Or(ShiftLeft(One(on), 8 - (bit + 1)), kept), 0xFF)
  }

  // None is the IndexError of data[position // 8].
  function GetBit(data: seq<byte>, position: nat): Option<bool> {
    if position / 8 >= |data| then None
    else Some(And(ShiftRight(data[position / 8], 8 - (position % 8 + 1)), 0x0001) >= 1)
  }

  // ------------------------------------------------------ bitwise meaning

  lemma {:induction false} AndBit(x: nat, y: nat, k: nat)
    ensures Bit(And(x, y), k) <==> Bit(x, k) && Bit(y, k)
  {
    if x == 0 {
      ZeroBit(k);
    } else if k > 0 {
      AndBit(x / 2, y / 2, k - 1);
      assert And(x, y) / 2 == And(x / 2, y / 2);
    }
  }

  lemma {:induction false} OrBit(x: nat, y: nat, k: nat)
    ensures Bit(Or(x, y), k) <==> Bit(x, k) || Bit(y, k)
  {
    if x + y == 0 {
      ZeroBit(k);
    } else if k > 0 {
      OrBit(x / 2, y / 2, k - 1);
      assert Or(x, y) / 2 == Or(x / 2, y / 2);
    }
  }

  lemma {:induction false} ZeroBit(k: nat)
    ensures !Bit(0, k)
  {
    if k > 0 {
      ZeroBit(k - 1);
    }
  }

  lemma {:induction false} OneBit(on: bool, k: nat)
    ensures Bit(One(on), k) <==> on && k == 0
  {
    if k > 0 {
      ZeroBit(k - 1);
    }
  }

  lemma {:induction false} ShiftRightBit(x: nat, n: nat, k: nat)
    ensures Bit(ShiftRight(x, n), k) == Bit(x, k + n)
  {
    if n > 0 {
      ShiftRightBit(x / 2, n - 1, k);
    }
  }

  lemma {:induction false} ShiftLeftBit(x: nat, n: nat, k: nat)
    ensures Bit(ShiftLeft(x, n), k) <==> k >= n && Bit(x, k - n)
    decreases n
  {
    if n > 0 && k > 0 {
      ShiftLeftBit(x, n - 1, k - 1);
      assert ShiftLeft(x, n) / 2 == ShiftLeft(x, n - 1);
    }
  }

  // The two masks of _set_bit: 0xFF has its low eight bits set, 0xFF7F all of
  // its sixteen except bit 7.
  lemma {:induction false} Masks(k: nat)
    ensures k < 8 ==> Bit(0xFF, k)
    ensures k < 16 ==> (Bit(0xFF7F, k) <==> k != 7)
  {
    assert Bit(0xFF, 0) && Bit(0xFF, 1) && Bit(0xFF, 2) && Bit(0xFF, 3);
    assert Bit(0xFF, 4) && Bit(0xFF, 5) && Bit(0xFF, 6) && Bit(0xFF, 7);
    assert Bit(0xFF7F, 0) && Bit(0xFF7F, 1) && Bit(0xFF7F, 2) && Bit(0xFF7F, 3);
    assert Bit(0xFF7F, 4) && Bit(0xFF7F, 5) && Bit(0xFF7F, 6) && !Bit(0xFF7F, 7);
    assert Bit(0xFF7F, 8) && Bit(0xFF7F, 9) && Bit(0xFF7F, 10) && Bit(0xFF7F, 11);
    assert Bit(0xFF7F, 12) && Bit(0xFF7F, 13) && Bit(0xFF7F, 14) && Bit(0xFF7F, 15);
  }

  // _set_bit writes the addressed bit, counted from the left, and no other.
  lemma {:induction false} SetBitWritesOneBit(value: byte, position: nat, on: bool, k: nat)
    requires k < 8
    ensures Bit(SetBit(value, position, on), k) == if k == 7 - position % 8 then on else Bit(value, k)
  {
    var bit := position % 8;
    var shifted := ShiftLeft(One(on), 8 - (bit + 1));
    var mask := ShiftRight(0xFF7F, bit);
    var kept := And(And(mask, value), 0x00FF);
    AndBit(Or(shifted, kept), 0xFF, k);
    Masks(k);
    OrBit(shifted, kept, k);
    AndBit(And(mask, value), 0x00FF, k);
    AndBit(mask, value, k);
    ShiftRightBit(0xFF7F, bit, k);
    Masks(k + bit);
    ShiftLeftBit(One(on), 8 - (bit + 1), k);
    if k >= 7 - bit {
      OneBit(on, k - (7 - bit));
    }
  }

  lemma {:induction false} GetBitReadsOneBit(data: seq<byte>, position: nat)
    requires position / 8 < |data|
    ensures GetBit(data, position) == Some(Bit(data[position / 8], 7 - position % 8))
  {
    var x := data[position / 8];
    var n := 7 - position % 8;
    var r := And(ShiftRight(x, n), 1);
    AndBit(ShiftRight(x, n), 1, 0);
    ShiftRightBit(x, n, 0);
    assert r <= 1;
  }

  function Power2(n: nat): nat {
    if n == 0 then 1 else 2 * Power2(n - 1)
  }

  // Bytes with the same eight bits are the same byte.
  lemma {:induction false} BitsDetermine(a: nat, b: nat, n: nat)
    requires a < Power2(n) && b < Power2(n)
    requires forall k :: 0 <= k < n ==> Bit(a, k) == Bit(b, k)
    ensures a == b
  {
    if n > 0 {
      assert Bit(a, 0) == Bit(b, 0);
      forall k | 0 <= k < n - 1
        ensures Bit(a / 2, k) == Bit(b / 2, k)
      {
        assert Bit(a, k + 1) == Bit(b, k + 1);
      }
      BitsDetermine(a / 2, b / 2, n - 1);
    }
  }
}

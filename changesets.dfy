/** The change set of an update record (the flag word of UpdateBase): an integer
    bitmask with one bit per field of the entity that changed in the current tick.
    Bitwise AND and OR are defined on natural numbers bit by bit, least
    significant bit first. */
module ChangeSets {
  /** A flag word; an entity kind with at most eight fields needs one byte. */
  type Flags = b: nat | b < 256

  /** 2 to the power i. */
  function Pow2(i: nat): (p: nat)
    ensures p >= 1
  {
    if i == 0 then 1 else 2 * Pow2(i - 1)
  }

  /** Whether bit i of n is set. */
  predicate TestBit(n: nat, i: nat)
  {
    if i == 0 then n % 2 == 1 else TestBit(n / 2, i - 1)
  }

  /** Bitwise OR. */
  function Or(a: nat, b: nat): nat
  {
    if a == 0 then b
    else if b == 0 then a
    else 2 * Or(a / 2, b / 2) + (if a % 2 == 1 || b % 2 == 1 then 1 else 0)
  }

  /** Bitwise AND. */
  function And(a: nat, b: nat): nat
  {
    if a == 0 || b == 0 then 0
    else 2 * And(a / 2, b / 2) + (if a % 2 == 1 && b % 2 == 1 then 1 else 0)
  }

  /** 0 has no bit set. */
  lemma {:induction false} ZeroHasNoBit(i: nat)
    ensures !TestBit(0, i)
  {
    if i > 0 {
      ZeroHasNoBit(i - 1);
    }
  }

  /** Every positive number has a bit set. */
  lemma {:induction false} SomeBit(n: nat) returns (i: nat)
    requires n != 0
    ensures TestBit(n, i)
  {
    if n % 2 == 1 {
      i := 0;
    } else {
      var j := SomeBit(n / 2);
      i := j + 1;
    }
  }

  /** Pow2(i) has exactly bit i set. */
  lemma {:induction false} Pow2Bit(i: nat, j: nat)
    ensures TestBit(Pow2(i), j) <==> i == j
  {
    if i == 0 {
      if j > 0 {
        assert Pow2(0) / 2 == 0;
        ZeroHasNoBit(j - 1);
      }
    } else if j > 0 {
      assert Pow2(i) / 2 == Pow2(i - 1);
      Pow2Bit(i - 1, j - 1);
    }
  }

  /** Two numbers with the same bits are equal. */
  lemma {:induction false} SameBits(a: nat, b: nat)
    requires forall i: nat :: TestBit(a, i) == TestBit(b, i)
    ensures a == b
    decreases a + b
  {
    if a != 0 || b != 0 {
      forall i: nat ensures TestBit(a / 2, i) == TestBit(b / 2, i) {
        assert TestBit(a, i + 1) == TestBit(b, i + 1);
      }
      SameBits(a / 2, b / 2);
      assert TestBit(a, 0) == TestBit(b, 0);
    }
  }

  /** A bit of a OR b is set iff it is set in a or in b. */
  lemma {:induction false} OrBit(a: nat, b: nat, i: nat)
    ensures TestBit(Or(a, b), i) <==> TestBit(a, i) || TestBit(b, i)
  {
    if a == 0 {
      ZeroHasNoBit(i);
    } else if b == 0 {
      ZeroHasNoBit(i);
    } else if i > 0 {
      OrBit(a / 2, b / 2, i - 1);
    }
  }

  /** A bit of a AND b is set iff it is set in both a and b. */
  lemma {:induction false} AndBit(a: nat, b: nat, i: nat)
    ensures TestBit(And(a, b), i) <==> TestBit(a, i) && TestBit(b, i)
  {
    if a == 0 || b == 0 {
      ZeroHasNoBit(i);
    } else if i > 0 {
      AndBit(a / 2, b / 2, i - 1);
    }
  }

  /** OR of two numbers below 2^k stays below 2^k. */
  lemma {:induction false} OrBelow(a: nat, b: nat, k: nat)
    requires a < Pow2(k) && b < Pow2(k)
    ensures Or(a, b) < Pow2(k)
  {
    if a != 0 && b != 0 {
      assert k > 0;
      OrBelow(a / 2, b / 2, k - 1);
    }
  }

  /** Whether any bit of `field` is set in the flag word (UpdateBase.HasChanged). */
  predicate HasChanged(flags: Flags, field: nat)
  {
    And(flags, field) != 0
  }

  /** Marks `field` as changed: a bitwise OR into the flag word (UpdateBase.Change). */
  function Change(flags: Flags, field: Flags): (r: Flags)
    ensures forall i: nat :: TestBit(r, i) <==> TestBit(flags, i) || TestBit(field, i)
  {
    OrBelow(flags, field, 8);
    forall i: nat ensures TestBit(Or(flags, field), i) <==> TestBit(flags, i) || TestBit(field, i) {
      OrBit(flags, field, i);
    }
    Or(flags, field)
  }

  /** For a single bit, HasChanged tests exactly that bit. */
  lemma HasChangedBit(flags: Flags, i: nat)
    ensures HasChanged(flags, Pow2(i)) <==> TestBit(flags, i)
  {
    if HasChanged(flags, Pow2(i)) {
      var j := SomeBit(And(flags, Pow2(i)));
      AndBit(flags, Pow2(i), j);
      Pow2Bit(i, j);
    } else {
      AndBit(flags, Pow2(i), i);
      Pow2Bit(i, i);
      ZeroHasNoBit(i);
    }
  }

  /** After marking a non-empty field it reads as changed. */
  lemma ChangeThenHasChanged(flags: Flags, field: Flags)
    requires field != 0
    ensures HasChanged(Change(flags, field), field)
  {
    var i := SomeBit(field);
    AndBit(Change(flags, field), field, i);
    ZeroHasNoBit(i);
  }

  /** Marking a field twice is the same as marking it once. */
  lemma ChangeIdempotent(flags: Flags, field: Flags)
    ensures Change(Change(flags, field), field) == Change(flags, field)
  {
    SameBits(Change(Change(flags, field), field), Change(flags, field));
  }

  /** Marking one field does not alter whether a disjoint field is marked. */
  lemma ChangeLeavesOthers(flags: Flags, field: Flags, other: nat)
    requires And(field, other) == 0
    ensures HasChanged(Change(flags, field), other) == HasChanged(flags, other)
  {
    var r := Change(flags, field);
    forall i: nat ensures TestBit(And(r, other), i) == TestBit(And(flags, other), i) {
      AndBit(r, other, i);
      AndBit(flags, other, i);
      AndBit(field, other, i);
      ZeroHasNoBit(i);
    }
    SameBits(And(r, other), And(flags, other));
  }
}

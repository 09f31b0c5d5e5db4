/** The 16-bit register arithmetic at both ends of the foreign bus: a winning value is scaled, rounded half
    away from zero and cast to 16 bits on its way out (main.cpp:454-460); a register word is read back as a
    signed number of tenths (main.cpp:418). Doubles are modelled as reals. */
module Registers {
  type Word = w: int | 0 <= w < 0x1_0000

  /** A BACnet REAL as it arrives in a WriteProperty: the guard must also see the values that are no number. */
  datatype Real = Finite(r: real) | NaN | PlusInfinity | MinusInfinity

  /** IEEE comparisons: every comparison with NaN is false. */
  predicate AtLeast(x: Real, bound: real) { x.PlusInfinity? || (x.Finite? && x.r >= bound) }

  predicate AtMost(x: Real, bound: real) { x.MinusInfinity? || (x.Finite? && x.r <= bound) }

  // The binary32 values nearest to -3276.8 and 3276.7.
  const SETPOINT_MINIMUM: real := -3276.800048828125
  const SETPOINT_MAXIMUM: real := 3276.699951171875

  predicate SetpointAccepted(x: Real) { AtLeast(x, SETPOINT_MINIMUM) && AtMost(x, SETPOINT_MAXIMUM) }

  /** The cast (int16_t)word. */
  function Signed(w: Word): int { if w < 0x8000 then w else w - 0x1_0000 }

  /** The cast (long)x: toward zero. */
  function Truncate(x: real): int { if x >= 0.0 then x.Floor else -((-x).Floor) }

  function Scaled(v: real, scale: real): int
  {
    Truncate(v * scale + (if v < 0.0 then -0.5 else 0.5))
  }

  /** The cast (uint16_t) of the scaled value. */
  function Encode(v: real, scale: real): Word { Scaled(v, scale) % 0x1_0000 }

  function Decode(w: Word): real { Signed(w) as real / 10.0 }

  /** What a coil stores when it is written. */
  function CoilBit(w: Word): Word { if w != 0 then 1 else 0 }

  // -- Lemmas ---------------------------------------------------------------

  lemma FloorBounds(x: real, n: int)
    requires n as real <= x < n as real + 1.0
    ensures x.Floor == n
  {
  }

  /** Half away from zero: the distance to the scaled value is at most a half, and which integer is
      chosen at a tie depends on the sign only. */
  lemma ScaledIsNearest(v: real, scale: real)
    requires scale > 0.0
    ensures v >= 0.0 ==> v * scale - 0.5 < Scaled(v, scale) as real <= v * scale + 0.5
    ensures v < 0.0 ==> v * scale - 0.5 <= Scaled(v, scale) as real < v * scale + 0.5
  {
    var x := v * scale;
    if v >= 0.0 {
      assert x >= 0.0;
    } else {
      assert x < 0.0;
    }
  }

  /** The 16-bit cast loses nothing exactly on the open interval between the rounding limits of the
      register, which contains everything the write guard accepts. */
  lemma NoWrapIffInRange(v: real)
    ensures Signed(Encode(v, 10.0)) == Scaled(v, 10.0) <==> -3276.85 < v < 3276.75
  {
    ScaledIsNearest(v, 10.0);
    var n := Scaled(v, 10.0);
    assert Signed(Encode(v, 10.0)) == n <==> -0x8000 <= n < 0x8000;
    if -3276.85 < v < 3276.75 {
      assert -32769.0 < n as real < 32768.0;
    } else if v >= 3276.75 {
      assert n as real > 32767.0;
    } else {
      assert n as real < -32768.0;
    }
  }

  lemma AcceptedIsInRange(x: Real)
    ensures SetpointAccepted(x) ==> x.Finite? && -3276.85 < x.r < 3276.75
  {
  }

  /** Reading back what was written is within half a step of the commanded value. */
  lemma EncodeThenDecode(v: real)
    requires -3276.85 < v < 3276.75
    ensures -0.05 <= Decode(Encode(v, 10.0)) - v <= 0.05
  {
    NoWrapIffInRange(v);
    ScaledIsNearest(v, 10.0);
  }

  lemma ScaledIsMonotone(v: real, w: real)
    requires v <= w
    ensures Scaled(v, 10.0) <= Scaled(w, 10.0)
  {
    if v < 0.0 <= w {
      ScaledIsNearest(v, 10.0);
      ScaledIsNearest(w, 10.0);
    }
  }

  lemma EncodeIsMonotone(v: real, w: real)
    requires -3276.85 < v <= w < 3276.75
    ensures Decode(Encode(v, 10.0)) <= Decode(Encode(w, 10.0))
  {
    NoWrapIffInRange(v);
    NoWrapIffInRange(w);
    ScaledIsMonotone(v, w);
  }

  /** Every register word survives the trip through the BACnet side. */
  lemma DecodeThenEncode(w: Word)
    ensures Encode(Decode(w), 10.0) == w
  {
    var v := Decode(w);
    assert v * 10.0 == Signed(w) as real;
    ScaledIsNearest(v, 10.0);
    assert Scaled(v, 10.0) == Signed(w);
  }

  /** A Binary Output's two values reach the coil as they are. */
  lemma CoilRoundTrip(v: real)
    requires v == 0.0 || v == 1.0
    ensures CoilBit(Encode(v, 1.0)) == Encode(v, 1.0)
    ensures Encode(v, 1.0) as real == v
  {
    assert Scaled(0.0, 1.0) == 0 by { FloorBounds(0.5, 0); }
    assert Scaled(1.0, 1.0) == 1 by { FloorBounds(1.5, 1); }
  }
}

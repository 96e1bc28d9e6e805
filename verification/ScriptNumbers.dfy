/** Script numbers: minimal, little-endian, sign-magnitude byte strings of any size. */
module ScriptNumbers {
  import opened Base

  function LittleEndian(n: nat): bytes
  {
    if n == 0 then [] else [n % 256] + LittleEndian(n / 256)
  }

  function FromLittleEndian(b: bytes): nat
  {
    if b == [] then 0 else b[0] + 256 * FromLittleEndian(b[1..])
  }

  function Abs(n: int): nat { if n < 0 then -n else n }

  /** The byte string a number is pushed as. */
  function NumBytes(n: int): bytes
  {
    if n == 0 then []
    else
      LittleEndianTop(Abs(n));
      var m := LittleEndian(Abs(n));
      var top := m[|m| - 1];
      if top >= 128 then m + [if n < 0 then 128 else 0]
      else m[..|m| - 1] + [if n < 0 then top + 128 else top]
  }

  /** The number a byte string is read as. */
  function BytesNum(b: bytes): int
  {
    if b == [] then 0
    else
      var top := b[|b| - 1];
      var magnitude: int := FromLittleEndian(b[..|b| - 1] + [top % 128]);
      if top >= 128 then -magnitude else magnitude
  }

  lemma {:induction false} LittleEndianRoundTrip(n: nat)
    ensures FromLittleEndian(LittleEndian(n)) == n
  {
    if n > 0 {
      LittleEndianRoundTrip(n / 256);
      assert LittleEndian(n)[1..] == LittleEndian(n / 256);
    }
  }

  lemma {:induction false} LittleEndianTop(n: nat)
    requires n > 0
    ensures var m := LittleEndian(n); |m| > 0 && m[|m| - 1] > 0
  {
    if n >= 256 {
      LittleEndianTop(n / 256);
    }
  }

  lemma {:induction false} TrailingZero(b: bytes)
    ensures FromLittleEndian(b + [0]) == FromLittleEndian(b)
  {
    if b == [] {
      assert ([] + [0])[1..] == [];
    } else {
      TrailingZero(b[1..]);
      assert (b + [0])[1..] == b[1..] + [0];
    }
  }

  /** Reading a pushed number gives it back, so pushes of different numbers differ. */
  lemma NumRoundTrip(n: int)
    ensures BytesNum(NumBytes(n)) == n
  {
    if n != 0 {
      LittleEndianTop(Abs(n));
      LittleEndianRoundTrip(Abs(n));
      UnsignedBytes(n);
    }
  }

  /** A pushed number without its sign bit is its magnitude, with at most a zero byte on top. */
  lemma UnsignedBytes(n: int)
    requires n != 0
    ensures var m, b := LittleEndian(Abs(n)), NumBytes(n);
            && b != [] && (b[|b| - 1] >= 128 <==> n < 0)
            && FromLittleEndian(b[..|b| - 1] + [b[|b| - 1] % 128]) == FromLittleEndian(m)
  {
    hide FromLittleEndian, LittleEndian;
    LittleEndianTop(Abs(n));
    var m, b := LittleEndian(Abs(n)), NumBytes(n);
    if m[|m| - 1] >= 128 {
      assert b[..|b| - 1] + [b[|b| - 1] % 128] == m + [0];
      TrailingZero(m);
    } else {
      assert b[..|b| - 1] + [b[|b| - 1] % 128] == m;
    }
  }

  /**
   * The shape of a pushed number: zero is empty; otherwise the top bit of the last byte is the sign, the
   * first byte holds the low bits of the magnitude, and no byte could be left out.
   */
  lemma NumShape(n: int)
    ensures var b := NumBytes(n);
            && (b == [] <==> n == 0)
            && (n != 0 ==>
                  && (b[|b| - 1] >= 128 <==> n < 0)
                  && (if |b| == 1 then b[0] % 128 == Abs(n) else b[0] == Abs(n) % 256)
                  && (b[|b| - 1] % 128 == 0 ==> |b| > 1 && b[|b| - 2] >= 128))
  {
    if n != 0 {
      LittleEndianTop(Abs(n));
      var m := LittleEndian(Abs(n));
      assert m[0] == Abs(n) % 256;
      if |m| == 1 {
        assert LittleEndian(Abs(n) / 256) == [];
        assert Abs(n) < 256;
      }
    }
  }
}

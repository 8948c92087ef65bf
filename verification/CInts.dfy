/** C++ integer arithmetic where it differs from the mathematical one. */
module CInts {

  // C++ division truncates towards zero.
  function CDiv(a: int, b: int): int
    requires b > 0
  {
    if a >= 0 then a / b else -((-a) / b)
  }

  // The quotient is the largest one whose product stays between 0 and a.
  lemma CDivTruncates(a: int, b: int)
    requires b > 0
    ensures var q := CDiv(a, b);
      && (a >= 0 ==> q >= 0 && b * q <= a < b * q + b)
      && (a <= 0 ==> q <= 0 && b * q - b < a <= b * q)
  {
  }

  // Arithmetic on `unsigned` wraps.
  function U32(x: int): nat {
    x % 0x1_0000_0000
  }

  lemma U32Wraps(x: int)
    ensures 0 <= x < 4294967296 ==> U32(x) == x
    ensures U32(x + 4294967296) == U32(x)
  {
  }
}

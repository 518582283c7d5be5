/** Numbers in decimal, as `std::to_string` writes them. */
module Decimal {
  function Digit(n: nat): char
    requires n < 10
  { '0' + n as char }

  function ToString(n: nat): (s: string)
    ensures |s| > 0
    ensures forall i :: 0 <= i < |s| ==> '0' <= s[i] <= '9'
  {
    if n < 10 then [Digit(n)] else ToString(n / 10) + [Digit(n % 10)]
  }
}

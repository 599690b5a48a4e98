/** Powers of two, and the range of 32-bit integers. */
module Numbers {

  const INT_MIN := -2147483648
  const INT_MAX := 2147483647

  function Pow2(k: nat): (r: nat)
    ensures r > 0
  {
    if k == 0 then 1 else 2 * Pow2(k - 1)
  }
}

/** Integer division as the source's bigint type performs it. */
module Bigint {
  /** Division that truncates toward zero, whatever the signs. */
  function Div(a: int, b: int): (q: int)
    requires b != 0
    ensures a >= 0 && b > 0 ==> q == a / b && q >= 0
  {
    if a >= 0 then a / b else -((-a) / b)
  }
}

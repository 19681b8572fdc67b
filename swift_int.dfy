/**
 * Swift's `/` and `%` on `Int`, which truncate toward zero, unlike Dafny's
 * Euclidean operators.
 */
module SwiftInt {

  /** Swift's `%`: the remainder takes the sign of the dividend. */
  function SwiftRemainder(a: int, b: int): (r: int)
    requires b != 0
    ensures a >= 0 && b > 0 ==> r == a % b
    ensures a < 0 && b > 0 ==> r == -((-a) % b)
  {
    var m := if b < 0 then -b else b;
    if a >= 0 then a % m else -((-a) % m)
  }

  /** Swift's `/`: the quotient is truncated toward zero. */
  function SwiftQuotient(a: int, b: int): int
    requires b > 0
  {
    if a >= 0 then a / b else -((-a) / b)
  }

  /**
   * The two operators agree with each other as Swift promises: the dividend
   * is quotient times divisor plus remainder, and the remainder is smaller
   * than the divisor and never has the opposite sign of the dividend.
   */
  lemma SwiftDivision(a: int, b: int)
    requires b > 0
    ensures a == SwiftQuotient(a, b) * b + SwiftRemainder(a, b)
    ensures -b < SwiftRemainder(a, b) < b
    ensures a >= 0 ==> SwiftRemainder(a, b) >= 0
    ensures a <= 0 ==> SwiftRemainder(a, b) <= 0
  {
    if a < 0 {
      assert -a == ((-a) / b) * b + (-a) % b;
    }
  }
}

/** Facts about real arithmetic that the solver does not find on its own:
    signs of products and monotonicity of division. */
module Arith {

  lemma ProductNonNegative(p: real, q: real)
    requires p >= 0.0 && q >= 0.0
    ensures p * q >= 0.0
  {
  }

  lemma SquareNonNegative(d: real)
    ensures d * d >= 0.0
  {
    if d < 0.0 {
      ProductNonNegative(-d, -d);
    } else {
      ProductNonNegative(d, d);
    }
  }

  lemma DivideMonotone(x: real, y: real, k: real)
    requires k > 0.0 && x <= y
    ensures x / k <= y / k
  {
    assert y / k - x / k == (y - x) / k;
  }

  lemma DivideStrict(x: real, y: real, k: real)
    requires k > 0.0 && x < y
    ensures x / k < y / k
  {
    assert y / k - x / k == (y - x) / k;
  }
}

/** Square roots, as far as their laws go. */
module SquareRoots {
  import opened GridVectors

  /** root takes the square root of every number that has one. */
  ghost predicate IsRoot(root: real -> real) {
    forall x: real :: x >= 0.0 ==> root(x) >= 0.0 && Mul(root(x), root(x)) == x
  }

  lemma RootAt(root: real -> real, x: real)
    requires IsRoot(root) && x >= 0.0
    ensures root(x) >= 0.0 && Mul(root(x), root(x)) == x
    ensures x > 0.0 <==> root(x) > 0.0
  {
    hide Mul;
    ProductSign(root(x), root(x));
    TimesZero(root(x));
  }

  lemma TimesZero(a: real)
    ensures Mul(a, 0.0) == 0.0 == Mul(0.0, a)
  {
  }

  lemma ProductSign(a: real, b: real)
    requires a >= 0.0 && b >= 0.0
    ensures Mul(a, b) >= 0.0 && (a > 0.0 && b > 0.0 ==> Mul(a, b) > 0.0)
  {
  }

  lemma DifferenceOfSquares(a: real, b: real)
    ensures Mul(b - a, b + a) == Mul(b, b) - Mul(a, a)
  {
  }

  lemma SquaresInOrder(a: real, b: real)
    requires a >= 0.0 && b >= 0.0
    ensures a < b <==> Mul(a, a) < Mul(b, b)
  {
    hide Mul;
    if a < b {
      DifferenceOfSquares(a, b);
      ProductSign(b - a, b + a);
    } else {
      DifferenceOfSquares(b, a);
      ProductSign(a - b, a + b);
    }
  }

  lemma RootOfOne(root: real -> real)
    requires IsRoot(root)
    ensures root(1.0) == 1.0
  {
    assert Mul(1.0, 1.0) == 1.0;
    RootAt(root, 1.0);
    hide Mul, IsRoot;
    SquaresInOrder(root(1.0), 1.0);
    SquaresInOrder(1.0, root(1.0));
  }

  lemma SquareOfProduct(a: real, b: real)
    ensures Mul(Mul(a, b), Mul(a, b)) == Mul(Mul(a, a), Mul(b, b))
  {
  }

  /** A root below a multiple of another, in terms of the squares. */
  lemma RootBelow(root: real -> real, x: real, c: real, y: real)
    requires IsRoot(root) && x >= 0.0 && y >= 0.0 && c >= 0.0
    ensures root(x) < Mul(c, root(y)) <==> x < Mul(Mul(c, c), y)
  {
    RootAt(root, x);
    RootAt(root, y);
    hide Mul, IsRoot;
    SquareOfProduct(c, root(y));
    ProductSign(c, root(y));
    SquaresInOrder(root(x), Mul(c, root(y)));
  }
}

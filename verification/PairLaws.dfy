/** What two atoms give each other, as a function of their separation: the Lennard-Jones
    law, and the two pair passes of the embedded atom method. */
module PairLaws {
  import opened Triples
  import opened LoadSums

  /** What a table yields: a value and its derivative. */
  datatype Value = Value(f: real, df: real)

  /** The law of a pass over all pairs.  root is the square root, phi and rho are the
      tables of the embedded atom method, and dfEmbed the derivatives of the embedding
      energy, one for each slot. */
  datatype Law =
    | LennardJones(sigma: real, epsilon: real)
    | Density(root: real -> real, phi: real -> Value, rho: real -> Value)
    | Embedding(root: real -> real, rho: real -> Value, dfEmbed: seq<real>)

  /** Pairs count up to the cutoff, and at the cutoff itself unless that is strict. */
  datatype Potential = Potential(law: Law, cutoff: real, strict: bool)

  ghost predicate Good(p: Potential) {
    p.cutoff > 0.0 && GoodLaw(p.law)
  }

  ghost predicate GoodLaw(law: Law) {
    match law
    case LennardJones(_, _) => true
    case Density(root, _, _) => forall x: real :: x > 0.0 ==> root(x) > 0.0
    case Embedding(root, _, _) => forall x: real :: x > 0.0 ==> root(x) > 0.0
  }

  function Times(a: real, b: real): real {
    a * b
  }

  function Cut2(p: Potential): real {
    Times(p.cutoff, p.cutoff)
  }

  /** A pair at this distance does not count. */
  predicate Beyond(p: Potential, r2: real) {
    if p.strict then r2 >= Cut2(p) else r2 > Cut2(p)
  }

  function Power6(x: real): real {
    x * x * x * x * x * x
  }

  function Cubed(c: real): real {
    Times(Times(c, c), c)
  }

  lemma TimesPositive(a: real, b: real)
    requires a > 0.0 && b > 0.0
    ensures Times(a, b) > 0.0
  {
  }

  lemma CutPositive(p: Potential)
    requires p.cutoff > 0.0
    ensures Cut2(p) > 0.0 && Cubed(Cut2(p)) > 0.0
  {
    hide Times;
    var c := Cut2(p);
    TimesPositive(p.cutoff, p.cutoff);
    TimesPositive(c, c);
    TimesPositive(Times(c, c), c);
  }

  // ----- Lennard-Jones

  /** (sigma / r)^6 from the square of r. */
  function R6(sigma: real, r2: real): real
    requires r2 > 0.0
  {
    var q := 1.0 / r2;
    Power6(sigma) * (q * q * q)
  }

  /** The energy at the cutoff, by which the potential is shifted. */
  function EnergyShift(sigma: real, rCut2: real): real
    requires Cubed(rCut2) > 0.0
  {
    var rCut6 := Power6(sigma) / Cubed(rCut2);
    1.0 * rCut6 * (rCut6 - 1.0)
  }

  /** eLocal */
  function LjEnergy(sigma: real, r2: real, rCut2: real): real
    requires r2 > 0.0 && Cubed(rCut2) > 0.0
  {
    R6(sigma, r2) * (R6(sigma, r2) - 1.0) - EnergyShift(sigma, rCut2)
  }

  /** fr */
  function LjSlope(sigma: real, epsilon: real, r2: real): real
    requires r2 > 0.0
  {
    -4.0 * epsilon * R6(sigma, r2) * (1.0 / r2) * (12.0 * R6(sigma, r2) - 6.0)
  }

  // ----- any law

  /** The energy of a pair: eLocal, phiTmp, or none in the last pass. */
  function PairEnergy(p: Potential, r2: real): real
    requires Good(p) && r2 > 0.0
  {
    match p.law
    case LennardJones(sigma, _) => CutPositive(p); LjEnergy(sigma, r2, Cut2(p))
    case Density(root, phi, _) => phi(root(r2)).f
    case Embedding(_, _, _) => 0.0
  }

  /** The factor of the separation in the force; s is what the atoms of the pair put in
      together. */
  function PairSlope(p: Potential, s: real, r2: real): real
    requires r2 > 0.0
  {
    match p.law
    case LennardJones(sigma, epsilon) => LjSlope(sigma, epsilon, r2)
    case Density(root, phi, _) => Over(phi(root(r2)).df, root(r2))
    case Embedding(root, rho, _) => Over(Times(s, rho(root(r2)).df), root(r2))
  }

  /** The distance of a pair is not zero. */
  function Over(a: real, r: real): real {
    if r != 0.0 then a / r else 0.0
  }

  /** The density that the atoms of a pair give each other. */
  function PairDensity(p: Potential, r2: real): real {
    match p.law
    case LennardJones(_, _) => 0.0
    case Density(root, _, rho) => rho(root(r2)).f
    case Embedding(_, _, _) => 0.0
  }

  function Difference(a: Triple<real>, b: Triple<real>): Triple<real> {
    Triple(a.x - b.x, a.y - b.y, a.z - b.z)
  }

  function Square(v: Triple<real>): real {
    v.x * v.x + v.y * v.y + v.z * v.z
  }

  /** What one atom of a pair gets, for the separation dr with square r2. */
  function Contribution(p: Potential, s: real, dr: Triple<real>, r2: real): Load
    requires Good(p) && r2 > 0.0
  {
    var fr := PairSlope(p, s, r2);
    Load(Times(0.5, PairEnergy(p, r2)), Triple(Scaled(dr.x, fr), Scaled(dr.y, fr), Scaled(dr.z, fr)),
         PairDensity(p, r2))
  }

  /** f -= dr * fr */
  function Scaled(dr: real, fr: real): real {
    -(dr * fr)
  }

  /** What the other atom gets: the same energy and density, and the opposite force. */
  function Opposite(c: Load): Load {
    Load(c.u, Triple(-c.f.x, -c.f.y, -c.f.z), c.rho)
  }

  lemma ScaledOdd(dr: real, fr: real)
    ensures Scaled(-dr, fr) == -Scaled(dr, fr)
  {
  }

  lemma SquareEven(a: Triple<real>, b: Triple<real>)
    ensures Square(Difference(a, b)) == Square(Difference(b, a))
  {
    EvenProduct(a.x - b.x);
    EvenProduct(a.y - b.y);
    EvenProduct(a.z - b.z);
  }

  lemma EvenProduct(x: real)
    ensures x * x == (-x) * (-x)
  {
  }

  /** Newton's third law. */
  lemma ContributionOpposite(p: Potential, s: real, a: Triple<real>, b: Triple<real>, r2: real)
    requires Good(p) && r2 > 0.0
    ensures Contribution(p, s, Difference(b, a), r2) == Opposite(Contribution(p, s, Difference(a, b), r2))
  {
    hide Scaled, PairEnergy, PairSlope, PairDensity, Times;
    var fr := PairSlope(p, s, r2);
    ScaledOdd(a.x - b.x, fr);
    ScaledOdd(a.y - b.y, fr);
    ScaledOdd(a.z - b.z, fr);
  }

  /** What two atoms put in together: the sum of their derivatives in the last pass. */
  function Couple(p: Potential, i: int, j: int): real {
    match p.law
    case LennardJones(_, _) => 0.0
    case Density(_, _, _) => 0.0
    case Embedding(_, _, dfEmbed) =>
      if 0 <= i < |dfEmbed| && 0 <= j < |dfEmbed| then dfEmbed[i] + dfEmbed[j] else 0.0
  }

  lemma CoupleEven(p: Potential, i: int, j: int)
    ensures Couple(p, i, j) == Couple(p, j, i)
  {
  }
}

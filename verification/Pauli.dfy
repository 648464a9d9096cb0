/** Pauli matrices over the Gaussian integers (every entry of a fold is exact, so
    the code's 1e-9 tolerance reduces to equality), and the fold of a history. */
module Pauli {
  import opened Options
  import opened Twists

  datatype Gauss = Gauss(re: int, im: int)

  const ZERO := Gauss(0, 0)
  const ONE := Gauss(1, 0)
  const NEG_ONE := Gauss(-1, 0)
  const I := Gauss(0, 1)
  const NEG_I := Gauss(0, -1)

  function Add(a: Gauss, b: Gauss): Gauss { Gauss(a.re + b.re, a.im + b.im) }

  function Times(a: Gauss, b: Gauss): Gauss {
    Gauss(a.re * b.re - a.im * b.im, a.re * b.im + a.im * b.re)
  }

  /** Row-major 2x2 matrix [[a, b], [c, d]]. */
  datatype Matrix = Matrix(a: Gauss, b: Gauss, c: Gauss, d: Gauss)

  const IDENTITY := Matrix(ONE, ZERO, ZERO, ONE)

  function Mul(m: Matrix, n: Matrix): Matrix {
    Matrix(Add(Times(m.a, n.a), Times(m.b, n.c)),
           Add(Times(m.a, n.b), Times(m.b, n.d)),
           Add(Times(m.c, n.a), Times(m.d, n.c)),
           Add(Times(m.c, n.b), Times(m.d, n.d)))
  }

  function TwistMatrix(t: Twist): Matrix {
    match t
    case Up => Matrix(ZERO, NEG_I, I, ZERO)
    case Down => Matrix(ZERO, I, NEG_I, ZERO)
    case Right => Matrix(ZERO, ONE, ONE, ZERO)
    case Left => Matrix(ZERO, NEG_ONE, NEG_ONE, ZERO)
    case Slash => Matrix(ONE, ZERO, ZERO, NEG_ONE)
    case BSlash => Matrix(NEG_ONE, ZERO, ZERO, ONE)
    case Plus => IDENTITY
    case Minus => Matrix(NEG_ONE, ZERO, ZERO, NEG_ONE)
  }

  /** The crate's fold: the matrix product of the twists, left to right. */
  function Product(h: History): Matrix {
    if h == [] then IDENTITY else Mul(Product(h[..|h| - 1]), TwistMatrix(h[|h| - 1]))
  }

  function Negate(m: Matrix): Matrix {
    Matrix(Gauss(-m.a.re, -m.a.im), Gauss(-m.b.re, -m.b.im), Gauss(-m.c.re, -m.c.im), Gauss(-m.d.re, -m.d.im))
  }

  function Signed(positive: bool, m: Matrix): Matrix { if positive then m else Negate(m) }

  /** What right multiplication by a twist does to the entries. */
  function Act(m: Matrix, t: Twist): Matrix {
    match t
    case Up => Matrix(Gauss(-m.b.im, m.b.re), Gauss(m.a.im, -m.a.re), Gauss(-m.d.im, m.d.re), Gauss(m.c.im, -m.c.re))
    case Down => Matrix(Gauss(m.b.im, -m.b.re), Gauss(-m.a.im, m.a.re), Gauss(m.d.im, -m.d.re), Gauss(-m.c.im, m.c.re))
    case Right => Matrix(m.b, m.a, m.d, m.c)
    case Left => Negate(Matrix(m.b, m.a, m.d, m.c))
    case Slash => Matrix(m.a, Gauss(-m.b.re, -m.b.im), m.c, Gauss(-m.d.re, -m.d.im))
    case BSlash => Matrix(Gauss(-m.a.re, -m.a.im), m.b, Gauss(-m.c.re, -m.c.im), m.d)
    case Plus => m
    case Minus => Negate(m)
  }

  lemma TimesUnits(g: Gauss)
    ensures Times(g, ZERO) == ZERO && Times(g, ONE) == g && Times(g, NEG_ONE) == Gauss(-g.re, -g.im)
    ensures Times(g, I) == Gauss(-g.im, g.re) && Times(g, NEG_I) == Gauss(g.im, -g.re)
  {
  }

  lemma MulIsAct(m: Matrix, t: Twist)
    ensures Mul(m, TwistMatrix(t)) == Act(m, t)
  {
    TimesUnits(m.a);
    TimesUnits(m.b);
    TimesUnits(m.c);
    TimesUnits(m.d);
  }

  /** Each matrix is its own inverse. */
  lemma Involution(t: Twist)
    ensures Mul(TwistMatrix(t), TwistMatrix(t)) == TwistMatrix(Plus) == Matrix(ONE, ZERO, ZERO, ONE)
  {
    hide Mul;
    MulIsAct(TwistMatrix(t), t);
  }

  /** Opposite twists multiply to -1. */
  lemma OppositesNegate()
    ensures Mul(TwistMatrix(Right), TwistMatrix(Left)) == Matrix(NEG_ONE, ZERO, ZERO, NEG_ONE)
    ensures Mul(TwistMatrix(Up), TwistMatrix(Down)) == Matrix(NEG_ONE, ZERO, ZERO, NEG_ONE)
    ensures Mul(TwistMatrix(Slash), TwistMatrix(BSlash)) == Matrix(NEG_ONE, ZERO, ZERO, NEG_ONE)
    ensures Mul(TwistMatrix(Plus), TwistMatrix(Minus)) == Matrix(NEG_ONE, ZERO, ZERO, NEG_ONE)
  {
    hide Mul;
    MulIsAct(TwistMatrix(Right), Left);
    MulIsAct(TwistMatrix(Up), Down);
    MulIsAct(TwistMatrix(Slash), BSlash);
    MulIsAct(TwistMatrix(Plus), Minus);
  }

  /** X, Y and Z multiply in this order to i. */
  lemma CyclicProduct()
    ensures Mul(Mul(TwistMatrix(Right), TwistMatrix(Up)), TwistMatrix(Slash)) == Matrix(I, ZERO, ZERO, I)
  {
    hide Mul;
    MulIsAct(TwistMatrix(Right), Up);
    MulIsAct(Act(TwistMatrix(Right), Up), Slash);
  }

  /** The fold with each right multiplication written out entry by entry. */
  function PauliFold(h: History): Matrix {
    if h == [] then IDENTITY else Act(PauliFold(h[..|h| - 1]), h[|h| - 1])
  }

  lemma {:induction false} FoldIsProduct(h: History)
    ensures PauliFold(h) == Product(h)
  {
    hide Mul, Act, TwistMatrix;
    if h != [] {
      FoldIsProduct(h[..|h| - 1]);
      MulIsAct(PauliFold(h[..|h| - 1]), h[|h| - 1]);
    }
  }

  predicate IsPauliClosed(h: History) {
    var m := PauliFold(h);
    m.b == ZERO && m.c == ZERO && m.a == m.d && m.a in {ONE, NEG_ONE, I, NEG_I}
  }

  datatype Scalar = PosOne | NegOne | PosI | NegI

  function ScalarOfMatrix(m: Matrix): Option<Scalar> {
    if m.b != ZERO || m.c != ZERO || m.a != m.d then None
    else if m.a == ONE then Some(PosOne)
    else if m.a == NEG_ONE then Some(NegOne)
    else if m.a == I then Some(PosI)
    else if m.a == NEG_I then Some(NegI)
    else None
  }

  function PauliScalarOf(h: History): Option<Scalar> { ScalarOfMatrix(PauliFold(h)) }

  /** The browser's loop, multiplying matrices as it goes. */
  method ComputeScalar(twists: seq<Twist>) returns (s: Option<Scalar>)
    ensures s == PauliScalarOf(twists)
  {
    hide Mul, Act, TwistMatrix, ScalarOfMatrix;
    var m := IDENTITY;
    for i := 0 to |twists|
      invariant m == PauliFold(twists[..i])
    {
      assert twists[..i + 1][..i] == twists[..i];
      MulIsAct(m, twists[i]);
      m := Mul(m, TwistMatrix(twists[i]));
    }
    assert twists[..|twists|] == twists;
    s := ScalarOfMatrix(m);
  }

  /** Parity of the number of twists on each axis, gauge twists not counted. */
  datatype Parities = Parities(x: bool, y: bool, z: bool)

  function Toggle(p: Parities, t: Twist): Parities {
    match t
    case Right | Left => p.(x := !p.x)
    case Up | Down => p.(y := !p.y)
    case Slash | BSlash => p.(z := !p.z)
    case Plus | Minus => p
  }

  function ParitiesOf(h: History): Parities {
    if h == [] then Parities(false, false, false)
    else Toggle(ParitiesOf(h[..|h| - 1]), h[|h| - 1])
  }

  /** The matrix X^x Y^y Z^z: every fold is this matrix up to sign. */
  function Canonical(p: Parities): Matrix {
    match p
    case Parities(false, false, false) => IDENTITY
    case Parities(true, false, false) => Matrix(ZERO, ONE, ONE, ZERO)
    case Parities(false, true, false) => Matrix(ZERO, NEG_I, I, ZERO)
    case Parities(false, false, true) => Matrix(ONE, ZERO, ZERO, NEG_ONE)
    case Parities(true, true, false) => Matrix(I, ZERO, ZERO, NEG_I)
    case Parities(true, false, true) => Matrix(ZERO, NEG_ONE, ONE, ZERO)
    case Parities(false, true, true) => Matrix(ZERO, I, I, ZERO)
    case Parities(true, true, true) => Matrix(I, ZERO, ZERO, I)
  }

  /** Does moving `t` into its place in X^x Y^y Z^z keep the sign? A Y passes the Z,
      an X passes the Z and the Y, and each passing flips the sign. */
  predicate KeepsSign(p: Parities, t: Twist) {
    match t
    case Plus | Slash => true
    case Minus | BSlash => false
    case Up => !p.z
    case Down => p.z
    case Right => p.y == p.z
    case Left => p.y != p.z
  }

  predicate FoldPositive(h: History) {
    h == [] || FoldPositive(h[..|h| - 1]) == KeepsSign(ParitiesOf(h[..|h| - 1]), h[|h| - 1])
  }

  lemma CanonicalStep(p: Parities, t: Twist)
    ensures Act(Canonical(p), t) == Signed(KeepsSign(p, t), Canonical(Toggle(p, t)))
  {
  }

  /** Normal form: a fold is, up to sign, the product of one X, one Y and one Z for
      each axis met an odd number of times. */
  lemma {:induction false} FoldNormalForm(h: History)
    ensures PauliFold(h) == Signed(FoldPositive(h), Canonical(ParitiesOf(h)))
  {
    if h == [] {
    } else {
      hide Act, Canonical, KeepsSign, Toggle;
      var g, t := h[..|h| - 1], h[|h| - 1];
      FoldNormalForm(g);
      CanonicalStep(ParitiesOf(g), t);
      SignedAct(FoldPositive(g), Canonical(ParitiesOf(g)), t);
    }
  }

  lemma SignedAct(positive: bool, m: Matrix, t: Twist)
    ensures Act(Signed(positive, m), t) == Signed(positive, Act(m, t))
  {
  }

  /** A history folds to a scalar exactly when its three axis counts share a parity;
      the scalar is imaginary exactly when all three are odd. */
  lemma ScalarIffSharedParity(h: History)
    ensures var p := ParitiesOf(h);
            && (IsPauliClosed(h) <==> p.x == p.y == p.z)
            && (PauliScalarOf(h).Some? <==> IsPauliClosed(h))
            && (PauliScalarOf(h) in {Some(PosI), Some(NegI)} <==> p.x && p.y && p.z)
            && (PauliScalarOf(h) in {Some(PosOne), Some(NegOne)} <==> !p.x && !p.y && !p.z)
  {
    FoldNormalForm(h);
  }
}

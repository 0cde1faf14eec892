/**
 * The `Fraccion` abstract data type of exercise 3: a fraction kept in lowest
 * terms with a positive denominator, and the four arithmetic operators, each
 * of which cross-multiplies and builds a new fraction through the constructor.
 */
module Fracciones {
  import opened Comun

  datatype Fraccion = Fraccion(numerador: int, denominador: int)

  function Abs(x: int): nat
  {
    if x < 0 then -x else x
  }

  /** Euclid's algorithm: `math.gcd` on non-negative arguments. */
  function Gcd(a: nat, b: nat): nat
    decreases b
  {
    if b == 0 then a else Gcd(b, a % b)
  }

  /** The invariant every constructed `Fraccion` satisfies after `_simplificar`. */
  predicate Normalizada(f: Fraccion)
  {
    f.denominador > 0 && Gcd(Abs(f.numerador), f.denominador) == 1
  }

  type FraccionValida = f: Fraccion | Normalizada(f) witness Fraccion(0, 1)

  /** The rational number a fraction denotes. */
  function Valor(f: Fraccion): real
    requires f.denominador != 0
  {
    f.numerador as real / f.denominador as real
  }

  // ---------------------------------------------------------------------
  // Divisibility and gcd facts
  // ---------------------------------------------------------------------

  lemma MulPositivo(c: int, t: int)
    requires c > 0 && t >= 1
    ensures c * t >= c
  {
    assert c * t == c + c * (t - 1);
  }

  /** Euclidean quotient and remainder are unique. */
  lemma DivModUnico(x: int, c: int, q: int, r: int)
    requires c > 0 && 0 <= r < c && x == c * q + r
    ensures x / c == q && x % c == r
  {
    var q0, r0 := x / c, x % c;
    assert x == c * q0 + r0;
    assert c * (q - q0) == r0 - r;
    if q - q0 >= 1 {
      MulPositivo(c, q - q0);
    } else if q0 - q >= 1 {
      MulPositivo(c, q0 - q);
    }
  }

  lemma MultiploMod(c: nat, k: int)
    requires c > 0
    ensures (c * k) % c == 0 && (c * k) / c == k
  {
    DivModUnico(c * k, c, k, 0);
  }

  lemma DivideSuma(c: nat, x: int, y: int, q: int)
    requires c > 0 && x % c == 0 && y % c == 0
    ensures (q * x + y) % c == 0
  {
    var i, j := x / c, y / c;
    assert x == c * i && y == c * j;
    assert q * x + y == c * (q * i + j);
    MultiploMod(c, q * i + j);
  }

  lemma DivideNegado(c: nat, x: int)
    requires c > 0 && x % c == 0
    ensures (-x) % c == 0 && Abs(x) % c == 0
  {
    DivideSuma(c, x, 0, -1);
  }

  /** A positive multiple of m is at least m. */
  lemma MultiploAcotado(m: nat, x: nat)
    requires m > 0 && x > 0 && x % m == 0
    ensures m <= x
  {
    var q := x / m;
    assert x == m * q;
    assert q >= 1;
    MulPositivo(m, q);
  }

  /** `Gcd(a, b)` is a positive common divisor when not both are 0. */
  lemma {:induction false} GcdDivide(a: nat, b: nat)
    requires a > 0 || b > 0
    ensures Gcd(a, b) > 0 && a % Gcd(a, b) == 0 && b % Gcd(a, b) == 0
    decreases b
  {
    if b != 0 {
      var r := a % b;
      GcdDivide(b, r);
      assert a == (a / b) * b + r;
      DivideSuma(Gcd(b, r), b, r, a / b);
    }
  }

  /** Every common divisor of a and b divides `Gcd(a, b)`. */
  lemma {:induction false} GcdMaximo(a: nat, b: nat, c: nat)
    requires c > 0 && a % c == 0 && b % c == 0
    ensures Gcd(a, b) % c == 0
    decreases b
  {
    if b != 0 {
      assert a % b == -(a / b) * b + a;
      DivideSuma(c, b, a, -(a / b));
      GcdMaximo(b, a % b, c);
    }
  }

  /** An exact quotient of a natural number by a positive one is natural, and positive when x is. */
  lemma Cociente(x: nat, g: nat)
    requires g > 0 && x % g == 0
    ensures x == g * (x / g) && x / g >= 0 && (x > 0 ==> x / g > 0)
  {
    assert x == g * (x / g) + x % g;
  }

  /** If h divides a' then h * g divides g * a'. */
  lemma DivideProducto(h: nat, g: nat, a': int, a: int)
    requires h > 0 && g > 0 && a' % h == 0 && a == g * a'
    ensures h * g > 0 && a % (h * g) == 0
  {
    var i := a' / h;
    assert a' == h * i;
    assert a == (h * g) * i;
    MultiploMod(h * g, i);
  }

  lemma FactorUno(h: nat, g: nat)
    requires g > 0 && h > 0 && h * g <= g
    ensures h == 1
  {
  }

  /** Division of naturals, with a natural result. */
  function DivNat(x: nat, g: nat): nat
    requires g > 0
  {
    x / g
  }

  /** Dividing both arguments by their gcd leaves coprime numbers. */
  lemma Coprimos(a: nat, b: nat)
    requires a > 0 || b > 0
    ensures Gcd(a, b) > 0 && a % Gcd(a, b) == 0 && b % Gcd(a, b) == 0
    ensures Gcd(DivNat(a, Gcd(a, b)), DivNat(b, Gcd(a, b))) == 1
  {
    GcdDivide(a, b);
    var g := Gcd(a, b);
    var a', b' := DivNat(a, g), DivNat(b, g);
    Cociente(a, g);
    Cociente(b, g);
    assert a' > 0 || b' > 0;
    GcdDivide(a', b');
    var h := Gcd(a', b');
    DivideProducto(h, g, a', a);
    DivideProducto(h, g, b', b);
    GcdMaximo(a, b, h * g);
    MultiploAcotado(h * g, g);
    FactorUno(h, g);
  }

  /** Exact division of a signed number commutes with taking absolute values. */
  lemma DivAbs(n: int, g: nat)
    requires g > 0 && Abs(n) % g == 0
    ensures n == g * (n / g) && Abs(n / g) == DivNat(Abs(n), g)
  {
    var k: int := DivNat(Abs(n), g);
    Cociente(Abs(n), g);
    if n >= 0 {
      DivModUnico(n, g, k, 0);
    } else {
      assert n == g * (-k);
      DivModUnico(n, g, -k, 0);
    }
  }

  // ---------------------------------------------------------------------
  // Construction: `Fraccion.__init__` and `_simplificar`
  // ---------------------------------------------------------------------

  lemma SimplificarLema(n: int, d: int)
    requires d != 0
    ensures Gcd(Abs(n), Abs(d)) > 0
    ensures n == Gcd(Abs(n), Abs(d)) * (n / Gcd(Abs(n), Abs(d)))
    ensures d == Gcd(Abs(n), Abs(d)) * (d / Gcd(Abs(n), Abs(d)))
    ensures Gcd(Abs(n / Gcd(Abs(n), Abs(d))), Abs(d / Gcd(Abs(n), Abs(d)))) == 1
  {
    var g := Gcd(Abs(n), Abs(d));
    Coprimos(Abs(n), Abs(d));
    DivAbs(n, g);
    DivAbs(d, g);
  }

  lemma Cruzado(g: int, p: int, q: int)
    ensures p * (g * q) == (g * p) * q
  {
  }

  /** Divide numerator and denominator by their gcd; the sign goes to the numerator. */
  function Reducida(n: int, d: int): Fraccion
    requires d != 0
  {
    SimplificarLema(n, d);
    var mcd := Gcd(Abs(n), Abs(d));
    var num, den := n / mcd, d / mcd;
    if den < 0 then Fraccion(-num, -den) else Fraccion(num, den)
  }

  lemma SignoAlNumerador(n: int, d: int, g: nat, num: int, den: int)
    requires n == g * num && d == g * den && den != 0 && Gcd(Abs(num), Abs(den)) == 1
    ensures var f := if den < 0 then Fraccion(-num, -den) else Fraccion(num, den);
      Normalizada(f) && f.numerador * d == n * f.denominador
  {
    Cruzado(g, num, den);
    if den < 0 {
      assert Abs(-num) == Abs(num) && -den == Abs(den);
      assert (-num) * d == n * (-den);
    } else {
      assert den == Abs(den);
    }
  }

  lemma ReducidaCorrecta(n: int, d: int)
    requires d != 0
    ensures Normalizada(Reducida(n, d))
    ensures Reducida(n, d).numerador * d == n * Reducida(n, d).denominador
  {
    SimplificarLema(n, d);
    var mcd := Gcd(Abs(n), Abs(d));
    SignoAlNumerador(n, d, mcd, n / mcd, d / mcd);
  }

  /**
   * `_simplificar`: the fraction in lowest terms, sign on the numerator,
   * that denotes n / d.
   */
  function Simplificar(n: int, d: int): (f: FraccionValida)
    requires d != 0
    ensures f.numerador * d == n * f.denominador
  {
    ReducidaCorrecta(n, d);
    Reducida(n, d)
  }

  /** Cross-multiplied equality means equal rational values. */
  lemma MismoValor(n1: int, d1: int, n2: int, d2: int)
    requires d1 > 0 && d2 > 0 && n1 * d2 == n2 * d1
    ensures n1 as real / d1 as real == n2 as real / d2 as real
  {
    var x, y := n1 as real / d1 as real, n2 as real / d2 as real;
    assert x * (d1 as real) == n1 as real;
    assert y * (d2 as real) == n2 as real;
    assert (n1 * d2) as real == n1 as real * d2 as real;
    assert (n2 * d1) as real == n2 as real * d1 as real;
    assert x * (d1 as real * d2 as real) == y * (d1 as real * d2 as real);
  }

  /** A cross-multiplied identity with a positive q gives the same quotient. */
  lemma CrearValor(n: int, d: int, p: int, q: int)
    requires d != 0 && q > 0 && p * d == n * q
    ensures p as real / q as real == n as real / d as real
  {
    if d > 0 {
      MismoValor(p, q, n, d);
    } else {
      assert p * (-d) == (-n) * q;
      MismoValor(p, q, -n, -d);
      assert (-n) as real / (-d) as real == n as real / d as real;
    }
  }

  /**
   * `Fraccion(numerador, denominador)`: a zero denominator raises
   * `ValueError`; otherwise the result is in lowest terms, has a positive
   * denominator and denotes numerador / denominador.
   */
  function Crear(numerador: int, denominador: int): (r: Result<FraccionValida, Error>)
    ensures r.Err? <==> denominador == 0
    ensures r.Err? ==> r.error == ValueError
    ensures r.Ok? ==> Valor(r.value) == numerador as real / denominador as real
  {
    if denominador == 0 then Err(ValueError)
    else
      var f := Simplificar(numerador, denominador);
      CrearValor(numerador, denominador, f.numerador, f.denominador);
      Ok(f)
  }

  // ---------------------------------------------------------------------
  // Operators: `__add__`, `__sub__`, `__mul__`, `__truediv__`
  // ---------------------------------------------------------------------

  lemma SumaReal(a: int, b: int, c: int, d: int)
    requires b > 0 && d > 0
    ensures b * d > 0
    ensures (a * d + b * c) as real / (b * d) as real == a as real / b as real + c as real / d as real
  {
    MulPositivo(b, d);
    assert (a * d + b * c) as real == a as real * d as real + b as real * c as real;
    assert (b * d) as real == b as real * d as real;
  }

  lemma RestaReal(a: int, b: int, c: int, d: int)
    requires b > 0 && d > 0
    ensures b * d > 0
    ensures (a * d - b * c) as real / (b * d) as real == a as real / b as real - c as real / d as real
  {
    MulPositivo(b, d);
    assert (a * d - b * c) as real == a as real * d as real - b as real * c as real;
    assert (b * d) as real == b as real * d as real;
  }

  lemma ProductoReal(a: int, b: int, c: int, d: int)
    requires b > 0 && d > 0
    ensures b * d > 0
    ensures (a * c) as real / (b * d) as real == (a as real / b as real) * (c as real / d as real)
  {
    MulPositivo(b, d);
    assert (a * c) as real == a as real * c as real;
    assert (b * d) as real == b as real * d as real;
  }

  lemma CocienteReal(a: int, b: int, c: int, d: int)
    requires b > 0 && d > 0
    ensures b * c != 0 <==> c != 0
    ensures c != 0 ==> (a * d) as real / (b * c) as real == (a as real / b as real) / (c as real / d as real)
  {
    assert (a * d) as real == a as real * d as real;
    assert (b * c) as real == b as real * c as real;
  }

  /** `__add__`: a/b + c/d is built as (a*d + b*c)/(b*d) and renormalised. */
  function Sumar(x: FraccionValida, y: FraccionValida): (r: FraccionValida)
    ensures Valor(r) == Valor(x) + Valor(y)
  {
    SumaReal(x.numerador, x.denominador, y.numerador, y.denominador);
    Crear(x.numerador * y.denominador + x.denominador * y.numerador,
          x.denominador * y.denominador).value
  }

  /** `__sub__`: a/b - c/d is built as (a*d - b*c)/(b*d) and renormalised. */
  function Restar(x: FraccionValida, y: FraccionValida): (r: FraccionValida)
    ensures Valor(r) == Valor(x) - Valor(y)
  {
    RestaReal(x.numerador, x.denominador, y.numerador, y.denominador);
    Crear(x.numerador * y.denominador - x.denominador * y.numerador,
          x.denominador * y.denominador).value
  }

  /** `__mul__`: (a/b) * (c/d) is built as (a*c)/(b*d) and renormalised. */
  function Multiplicar(x: FraccionValida, y: FraccionValida): (r: FraccionValida)
    ensures Valor(r) == Valor(x) * Valor(y)
  {
    ProductoReal(x.numerador, x.denominador, y.numerador, y.denominador);
    Crear(x.numerador * y.numerador, x.denominador * y.denominador).value
  }

  /**
   * `__truediv__`: (a/b) / (c/d) is built as (a*d)/(b*c); when c is 0 the
   * new denominator is 0 and the constructor raises `ValueError`.
   */
  function Dividir(x: FraccionValida, y: FraccionValida): (r: Result<FraccionValida, Error>)
    ensures r.Err? <==> Valor(y) == 0.0
    ensures r.Err? ==> r.error == ValueError
    ensures r.Ok? ==> Valor(r.value) == Valor(x) / Valor(y)
  {
    CocienteReal(x.numerador, x.denominador, y.numerador, y.denominador);
    Crear(x.numerador * y.denominador, x.denominador * y.numerador)
  }

  // ---------------------------------------------------------------------
  // Lowest terms are canonical
  // ---------------------------------------------------------------------

  lemma MulEstricto(r: nat, b: nat, k: nat)
    requires r < b && k > 0
    ensures r * k < b * k
  {
    MulPositivo(k, b - r);
    assert b * k - r * k == k * (b - r);
  }

  /** Scaling both arguments scales the remainder. */
  lemma ModEscala(a: nat, b: nat, k: nat)
    requires b > 0 && k > 0
    ensures b * k > 0 && (a * k) % (b * k) == (a % b) * k
  {
    MulPositivo(b, k);
    MulEstricto(a % b, b, k);
    assert a == (a / b) * b + a % b;
    assert a * k == (b * k) * (a / b) + (a % b) * k;
    DivModUnico(a * k, b * k, a / b, (a % b) * k);
  }

  /** Scaling both arguments scales the gcd. */
  lemma {:induction false} GcdEscala(a: nat, b: nat, k: nat)
    requires k > 0
    ensures Gcd(a * k, b * k) == Gcd(a, b) * k
    decreases b
  {
    if b != 0 {
      ModEscala(a, b, k);
      GcdEscala(b, a % b, k);
    }
  }

  /** Euclid's lemma: d1 divides p * d2 and is coprime to p, so it divides d2. */
  lemma Euclides(p: nat, d1: nat, d2: nat)
    requires d1 > 0 && d2 > 0 && Gcd(p, d1) == 1 && (p * d2) % d1 == 0
    ensures d2 % d1 == 0
  {
    GcdEscala(p, d1, d2);
    MultiploMod(d1, d2);
    GcdMaximo(p * d2, d1 * d2, d1);
  }

  lemma ValorCruzado(f1: FraccionValida, f2: FraccionValida)
    requires Valor(f1) == Valor(f2)
    ensures f1.numerador * f2.denominador == f2.numerador * f1.denominador
  {
    var n1, d1, n2, d2 := f1.numerador as real, f1.denominador as real, f2.numerador as real, f2.denominador as real;
    assert n1 / d1 == n2 / d2;
    assert n1 * d2 == n2 * d1;
    assert (f1.numerador * f2.denominador) as real == n1 * d2;
    assert (f2.numerador * f1.denominador) as real == n2 * d1;
  }

  lemma Cancelar(a: int, b: int, d: nat)
    requires d > 0 && a * d == b * d
    ensures a == b
  {
    if a < b {
      MulPositivo(d, b - a);
    } else if b < a {
      MulPositivo(d, a - b);
    }
  }

  /** Fractions in lowest terms with the same value are the same fraction. */
  lemma Canonica(f1: FraccionValida, f2: FraccionValida)
    requires Valor(f1) == Valor(f2)
    ensures f1 == f2
  {
    var d1: nat, d2: nat := f1.denominador, f2.denominador;
    ValorCruzado(f1, f2);
    assert Abs(f1.numerador) * d2 == Abs(f2.numerador) * d1;
    MultiploMod(d1, Abs(f2.numerador));
    MultiploMod(d2, Abs(f1.numerador));
    Euclides(Abs(f1.numerador), d1, d2);
    Euclides(Abs(f2.numerador), d2, d1);
    MultiploAcotado(d1, d2);
    MultiploAcotado(d2, d1);
    Cancelar(f1.numerador, f2.numerador, d1);
  }

  /** Addition and multiplication commute, down to the representation. */
  lemma SumarConmuta(x: FraccionValida, y: FraccionValida)
    ensures Sumar(x, y) == Sumar(y, x)
  {
    Canonica(Sumar(x, y), Sumar(y, x));
  }

  lemma MultiplicarConmuta(x: FraccionValida, y: FraccionValida)
    ensures Multiplicar(x, y) == Multiplicar(y, x)
  {
    Canonica(Multiplicar(x, y), Multiplicar(y, x));
  }

  lemma ValorCero(f: FraccionValida)
    ensures Valor(f) == 0.0 <==> f.numerador == 0
  {
    if f.numerador != 0 {
      assert Valor(f) * f.denominador as real == f.numerador as real;
    }
  }

  lemma CancelarReal(a: real, b: real)
    requires b != 0.0
    ensures (a * b) / b == a
  {
  }

  /** Subtracting what was added gives back the original fraction. */
  lemma RestarSumar(x: FraccionValida, y: FraccionValida)
    ensures Restar(Sumar(x, y), y) == x
  {
    Canonica(Restar(Sumar(x, y), y), x);
  }

  /** Dividing by a non-zero fraction undoes multiplying by it. */
  lemma DividirMultiplicar(x: FraccionValida, y: FraccionValida)
    requires y.numerador != 0
    ensures Dividir(Multiplicar(x, y), y) == Ok(x)
  {
    var m := Multiplicar(x, y);
    ValorCero(y);
    var z := Dividir(m, y);
    var vx, vy, vm := Valor(x), Valor(y), Valor(m);
    assert z.Ok? && Valor(z.value) == vm / vy;
    assert vm == vx * vy;
    CancelarReal(vx, vy);
    assert Valor(z.value) == vx;
    Canonica(z.value, x);
  }

  // ---------------------------------------------------------------------
  // The worked example: 1/2 + 1/3 = 5/6 and 1/2 * 1/3 = 1/6
  // ---------------------------------------------------------------------

  lemma EjemploFraccion()
    ensures Crear(1, 2) == Ok(Fraccion(1, 2)) && Crear(1, 3) == Ok(Fraccion(1, 3))
    ensures Sumar(Fraccion(1, 2), Fraccion(1, 3)) == Fraccion(5, 6)
    ensures Multiplicar(Fraccion(1, 2), Fraccion(1, 3)) == Fraccion(1, 6)
    ensures Crear(6, -4) == Ok(Fraccion(-3, 2))
    ensures Crear(1, 0) == Err(ValueError)
    ensures Dividir(Fraccion(1, 2), Fraccion(0, 1)) == Err(ValueError)
  {
    var medio, tercio := Fraccion(1, 2), Fraccion(1, 3);
    assert Normalizada(medio) && Normalizada(tercio);
    assert Normalizada(Fraccion(5, 6)) && Normalizada(Fraccion(1, 6)) && Normalizada(Fraccion(-3, 2));
    Canonica(Crear(1, 2).value, medio);
    Canonica(Crear(1, 3).value, tercio);
    Canonica(Sumar(medio, tercio), Fraccion(5, 6));
    Canonica(Multiplicar(medio, tercio), Fraccion(1, 6));
    Canonica(Crear(6, -4).value, Fraccion(-3, 2));
    assert Normalizada(Fraccion(0, 1));
  }
}

/**
 * Arithmetic expressions and stacks: `evaluar_postfija` of exercise 18 (the
 * evaluator of Reverse Polish Notation) and the pseudocode `infijaAPostfija`
 * of exercise 19 (Dijkstra's shunting-yard conversion). Expressions arrive
 * already split into tokens; numbers are reals.
 */
module Expresiones {
  import opened Comun

  datatype Operador = Suma | Resta | Producto | Division

  datatype Token = Numero(valor: real) | Operacion(op: Operador) | AbreParen | CierraParen

  /** `operadores[token](a, b)`; a float division by zero raises `ZeroDivisionError`. */
  function Aplicar(o: Operador, a: real, b: real): (r: Result<real, Error>)
    ensures r.Err? <==> o == Division && b == 0.0
    ensures r.Err? ==> r.error == ZeroDivisionError
  {
    match o
    case Suma => Ok(a + b)
    case Resta => Ok(a - b)
    case Producto => Ok(a * b)
    case Division => if b == 0.0 then Err(ZeroDivisionError) else Ok(a / b)
  }

  // ---------------------------------------------------------------------
  // evaluar_postfija
  // ---------------------------------------------------------------------

  /**
   * One token of the evaluator: a number is pushed; an operator pops the
   * second operand and then the first (either pop fails with `IndexError`
   * on an empty stack) and pushes the result; a parenthesis is not a
   * number, so `float` rejects it with `ValueError`.
   */
  function PasoRpn(pila: seq<real>, t: Token): Result<seq<real>, Error>
  {
    match t
    case Numero(v) => Ok(pila + [v])
    case Operacion(o) =>
      if |pila| < 2 then Err(IndexError)
      else
        (match Aplicar(o, pila[|pila| - 2], pila[|pila| - 1])
         case Err(e) => Err(e)
         case Ok(v) => Ok(pila[..|pila| - 2] + [v]))
    case _ => Err(ValueError)
  }

  /** The stack after running the tokens `ts` from `pila`. */
  function Ejecutar(pila: seq<real>, ts: seq<Token>): Result<seq<real>, Error>
    decreases |ts|
  {
    if ts == [] then Ok(pila)
    else
      match PasoRpn(pila, ts[0])
      case Err(e) => Err(e)
      case Ok(p) => Ejecutar(p, ts[1..])
  }

  /** The value of a postfix expression: the top of the final stack, whatever lies beneath it. */
  function Evaluacion(ts: seq<Token>): Result<real, Error>
  {
    match Ejecutar([], ts)
    case Err(e) => Err(e)
    case Ok(p) => if p == [] then Err(IndexError) else Ok(Last(p))
  }

  /** `evaluar_postfija`, one list stack and a loop over the tokens. */
  method EvaluarPostfija(tokens: seq<Token>) returns (r: Result<real, Error>)
    ensures r == Evaluacion(tokens)
  {
    var pila: seq<real> := [];
    for i := 0 to |tokens|
      invariant Ejecutar(pila, tokens[i..]) == Ejecutar([], tokens)
    {
      assert tokens[i..][1..] == tokens[i + 1..];
      match tokens[i]
      case Operacion(o) =>
        ghost var antes := pila;
        if pila == [] {
          return Err(IndexError);
        }
        var operando2 := Last(pila);
        pila := DropLast(pila);
        if pila == [] {
          return Err(IndexError);
        }
        var operando1 := Last(pila);
        pila := DropLast(pila);
        var resultado := Aplicar(o, operando1, operando2);
        if resultado.Err? {
          return Err(resultado.error);
        }
        assert pila == antes[..|antes| - 2];
        pila := pila + [resultado.value];
      case Numero(v) =>
        pila := pila + [v];
      case _ =>
        return Err(ValueError);
    }
    assert tokens[|tokens|..] == [];
    if pila == [] {
      return Err(IndexError);
    }
    return Ok(Last(pila));
  }

  // ---------------------------------------------------------------------
  // Expression trees: what the token sequences denote
  // ---------------------------------------------------------------------

  datatype Expr = Literal(valor: real) | Binaria(op: Operador, izq: Expr, der: Expr)

  /** The value of a tree, left operand first. */
  function Eval(e: Expr): Result<real, Error>
  {
    match e
    case Literal(v) => Ok(v)
    case Binaria(o, izq, der) =>
      match Eval(izq)
      case Err(x) => Err(x)
      case Ok(a) =>
        match Eval(der)
        case Err(x) => Err(x)
        case Ok(b) => Aplicar(o, a, b)
  }

  /** The tree written in postfix: operands first, then the operator. */
  function Postfija(e: Expr): seq<Token>
  {
    match e
    case Literal(v) => [Numero(v)]
    case Binaria(o, izq, der) => Postfija(izq) + Postfija(der) + [Operacion(o)]
  }

  /** The tree written in infix, with every operation in parentheses. */
  function Infija(e: Expr): seq<Token>
  {
    match e
    case Literal(v) => [Numero(v)]
    case Binaria(o, izq, der) => [AbreParen] + Infija(izq) + [Operacion(o)] + Infija(der) + [CierraParen]
  }

  /** Running a concatenation runs the first part, then the second from its stack. */
  lemma {:induction false} EjecutarConcatenar(pila: seq<real>, s: seq<Token>, t: seq<Token>)
    ensures Ejecutar(pila, s + t) ==
              match Ejecutar(pila, s)
              case Err(e) => Err(e)
              case Ok(p) => Ejecutar(p, t)
    decreases |s|
  {
    if s == [] {
      assert s + t == t;
    } else {
      assert (s + t)[0] == s[0] && (s + t)[1..] == s[1..] + t;
      match PasoRpn(pila, s[0])
      case Err(_) =>
      case Ok(p) => EjecutarConcatenar(p, s[1..], t);
    }
  }

  /** The postfix form of a tree pushes exactly its value, on any stack. */
  lemma {:induction false} PostfijaApila(e: Expr, pila: seq<real>)
    ensures Ejecutar(pila, Postfija(e)) ==
              match Eval(e)
              case Err(x) => Err(x)
              case Ok(v) => Ok(pila + [v])
  {
    match e
    case Literal(v) =>
      assert Ejecutar(pila + [v], []) == Ok(pila + [v]);
    case Binaria(o, izq, der) =>
      EjecutarConcatenar(pila, Postfija(izq) + Postfija(der), [Operacion(o)]);
      EjecutarConcatenar(pila, Postfija(izq), Postfija(der));
      PostfijaApila(izq, pila);
      if Eval(izq).Ok? {
        var a := Eval(izq).value;
        PostfijaApila(der, pila + [a]);
        if Eval(der).Ok? {
          var b := Eval(der).value;
          var p := pila + [a] + [b];
          assert p[..|p| - 2] == pila && p[|p| - 2] == a && p[|p| - 1] == b;
          assert Ejecutar(p, [Operacion(o)]) ==
                 match Aplicar(o, a, b)
                 case Err(x) => Err(x)
                 case Ok(v) => Ejecutar(pila + [v], []);
        }
      }
  }

  /** Evaluating the postfix form of a tree gives the tree's value, errors included. */
  lemma EvaluarPostfijaCorrecta(e: Expr)
    ensures Evaluacion(Postfija(e)) == Eval(e)
  {
    PostfijaApila(e, []);
  }

  /** Values left under the top are not rejected: only the last expression decides. */
  lemma SobrantesIgnorados(primera: Expr, ultima: Expr)
    requires Eval(primera).Ok?
    ensures Evaluacion(Postfija(primera) + Postfija(ultima)) == Eval(ultima)
  {
    EjecutarConcatenar([], Postfija(primera), Postfija(ultima));
    var a := Eval(primera).value;
    PostfijaApila(primera, []);
    assert [] + [a] == [a];
    PostfijaApila(ultima, [a]);
  }

  /** An operator with fewer than two operands beneath it fails with `IndexError`. */
  lemma FaltanOperandos(pila: seq<real>, o: Operador, resto: seq<Token>)
    requires |pila| < 2
    ensures Ejecutar(pila, [Operacion(o)] + resto) == Err(IndexError)
  {
    assert ([Operacion(o)] + resto)[0] == Operacion(o);
  }

  /** "3 4 +" evaluates to 7 and "3 4 + 2 *" to 14. */
  lemma EjemplosPostfija()
    ensures Evaluacion([Numero(3.0), Numero(4.0), Operacion(Suma)]) == Ok(7.0)
    ensures Evaluacion([Numero(3.0), Numero(4.0), Operacion(Suma), Numero(2.0), Operacion(Producto)]) == Ok(14.0)
  {
  }

  /** "5 1 2 + 4 * + 3 -" evaluates to 14. */
  lemma EjemploMixto()
    ensures Evaluacion([Numero(5.0), Numero(1.0), Numero(2.0), Operacion(Suma), Numero(4.0),
                        Operacion(Producto), Operacion(Suma), Numero(3.0), Operacion(Resta)]) == Ok(14.0)
  {
    var e := Binaria(Resta,
                     Binaria(Suma, Literal(5.0),
                             Binaria(Producto, Binaria(Suma, Literal(1.0), Literal(2.0)), Literal(4.0))),
                     Literal(3.0));
    EvaluarPostfijaCorrecta(e);
    assert Postfija(e) == [Numero(5.0), Numero(1.0), Numero(2.0), Operacion(Suma), Numero(4.0),
                           Operacion(Producto), Operacion(Suma), Numero(3.0), Operacion(Resta)];
  }

  /** The tree written "15 7 1 1 + - / 3 * 2 1 1 + + -" in postfix. */
  function ArbolLargo(): Expr
  {
    Binaria(Resta,
            Binaria(Producto,
                    Binaria(Division, Literal(15.0),
                            Binaria(Resta, Literal(7.0), Binaria(Suma, Literal(1.0), Literal(1.0)))),
                    Literal(3.0)),
            Binaria(Suma, Literal(2.0), Binaria(Suma, Literal(1.0), Literal(1.0))))
  }

  lemma ArbolLargoPostfija()
    ensures Postfija(ArbolLargo()) ==
              [Numero(15.0), Numero(7.0), Numero(1.0), Numero(1.0), Operacion(Suma),
               Operacion(Resta), Operacion(Division), Numero(3.0), Operacion(Producto),
               Numero(2.0), Numero(1.0), Numero(1.0), Operacion(Suma), Operacion(Suma),
               Operacion(Resta)]
  {
  }

  lemma ArbolLargoValor()
    ensures Eval(ArbolLargo()) == Ok(5.0)
  {
    assert Eval(Binaria(Resta, Literal(7.0), Binaria(Suma, Literal(1.0), Literal(1.0)))) == Ok(5.0);
    assert Eval(Binaria(Division, Literal(15.0),
                        Binaria(Resta, Literal(7.0), Binaria(Suma, Literal(1.0), Literal(1.0))))) == Ok(3.0);
  }

  /** "15 7 1 1 + - / 3 * 2 1 1 + + -" evaluates to 5. */
  lemma EjemploLargo()
    ensures Evaluacion([Numero(15.0), Numero(7.0), Numero(1.0), Numero(1.0), Operacion(Suma),
                        Operacion(Resta), Operacion(Division), Numero(3.0), Operacion(Producto),
                        Numero(2.0), Numero(1.0), Numero(1.0), Operacion(Suma), Operacion(Suma),
                        Operacion(Resta)]) == Ok(5.0)
  {
    ArbolLargoPostfija();
    ArbolLargoValor();
    EvaluarPostfijaCorrecta(ArbolLargo());
  }
}

/**
 * The pseudocode `infijaAPostfija` of exercise 19: Dijkstra's shunting-yard
 * conversion from infix to postfix, with the precedence table
 * + - : 1 and * / : 2. The operator stack holds operators and '('.
 */
module InfijaPostfija {
  import opened Comun
  import opened Expresiones

  /** The table `precedencia`. */
  function Precedencia(o: Operador): nat
  {
    if o == Suma || o == Resta then 1 else 2
  }

  /** The output built so far and the pending stack, bottom first. */
  datatype Estado = Estado(pila: seq<Token>, salida: seq<Token>)

  /**
   * The inner loop on an operator of precedence p: move the top of the stack
   * to the output while it is an operator (that is, not '(') of precedence
   * at least p.
   */
  function Ceder(pila: seq<Token>, salida: seq<Token>, p: nat): Estado
    decreases |pila|
  {
    if pila != [] && Last(pila).Operacion? && Precedencia(Last(pila).op) >= p then
      Ceder(DropLast(pila), salida + [Last(pila)], p)
    else
      Estado(pila, salida)
  }

  /**
   * The inner loop on ')': move the top to the output until it is '(' and
   * discard that. Peeking at an empty stack raises `IndexError`.
   */
  function Cerrar(pila: seq<Token>, salida: seq<Token>): Result<Estado, Error>
    decreases |pila|
  {
    if pila == [] then Err(IndexError)
    else if Last(pila) == AbreParen then Ok(Estado(DropLast(pila), salida))
    else Cerrar(DropLast(pila), salida + [Last(pila)])
  }

  /** The final loop: the stack moved to the output top first, '(' included. */
  function Vaciar(pila: seq<Token>, salida: seq<Token>): seq<Token>
    decreases |pila|
  {
    if pila == [] then salida else Vaciar(DropLast(pila), salida + [Last(pila)])
  }

  /** One token of the conversion. */
  function Paso(e: Estado, t: Token): Result<Estado, Error>
  {
    match t
    case Numero(_) => Ok(Estado(e.pila, e.salida + [t]))
    case AbreParen => Ok(Estado(e.pila + [t], e.salida))
    case CierraParen => Cerrar(e.pila, e.salida)
    case Operacion(o) =>
      var c := Ceder(e.pila, e.salida, Precedencia(o));
      Ok(Estado(c.pila + [t], c.salida))
  }

  function Convertir(e: Estado, ts: seq<Token>): Result<Estado, Error>
    decreases |ts|
  {
    if ts == [] then Ok(e)
    else
      match Paso(e, ts[0])
      case Err(x) => Err(x)
      case Ok(e2) => Convertir(e2, ts[1..])
  }

  /** The postfix output for the infix tokens `ts`. */
  function Conversion(ts: seq<Token>): Result<seq<Token>, Error>
  {
    match Convertir(Estado([], []), ts)
    case Err(x) => Err(x)
    case Ok(e) => Ok(Vaciar(e.pila, e.salida))
  }

  /** `infijaAPostfija`, with its three loops. */
  method InfijaAPostfija(tokens: seq<Token>) returns (r: Result<seq<Token>, Error>)
    ensures r == Conversion(tokens)
  {
    var salida: seq<Token> := [];
    var pila: seq<Token> := [];
    for i := 0 to |tokens|
      invariant Convertir(Estado(pila, salida), tokens[i..]) == Convertir(Estado([], []), tokens)
    {
      assert tokens[i..][1..] == tokens[i + 1..];
      var token := tokens[i];
      match token
      case Numero(_) =>
        salida := salida + [token];
      case AbreParen =>
        pila := pila + [token];
      case CierraParen =>
        ghost var antes := Estado(pila, salida);
        while true
          invariant Cerrar(pila, salida) == Paso(antes, token)
          decreases |pila|
        {
          if pila == [] {
            return Err(IndexError);
          }
          if Last(pila) == AbreParen {
            break;
          }
          salida := salida + [Last(pila)];
          pila := DropLast(pila);
        }
        pila := DropLast(pila);
      case Operacion(o) =>
        ghost var antes := Estado(pila, salida);
        while pila != [] && Last(pila).Operacion? && Precedencia(Last(pila).op) >= Precedencia(o)
          invariant Ceder(pila, salida, Precedencia(o)) == Ceder(antes.pila, antes.salida, Precedencia(o))
          decreases |pila|
        {
          salida := salida + [Last(pila)];
          pila := DropLast(pila);
        }
        pila := pila + [token];
    }
    assert tokens[|tokens|..] == [];
    while pila != []
      invariant Conversion(tokens) == Ok(Vaciar(pila, salida))
      decreases |pila|
    {
      salida := salida + [Last(pila)];
      pila := DropLast(pila);
    }
    return Ok(salida);
  }

  // ---------------------------------------------------------------------
  // What the inner loops do
  // ---------------------------------------------------------------------

  /** t is popped by the inner loop on an operator of precedence p. */
  predicate Cede(t: Token, p: nat)
  {
    t.Operacion? && Precedencia(t.op) >= p
  }

  /**
   * The operator loop splits the stack: what stays is a prefix whose top
   * does not yield, what goes is a run of operators of precedence at least
   * p, and it reaches the output top first.
   */
  lemma {:induction false} CederPropiedades(pila: seq<Token>, salida: seq<Token>, p: nat)
    ensures var c := Ceder(pila, salida, p);
            |c.pila| <= |pila| && c.pila == pila[..|c.pila|] &&
            c.salida == salida + Invertida(pila[|c.pila|..]) &&
            (forall i | |c.pila| <= i < |pila| :: Cede(pila[i], p)) &&
            (c.pila == [] || !Cede(Last(c.pila), p))
    decreases |pila|
  {
    if pila != [] && Cede(Last(pila), p) {
      var resto, tope := DropLast(pila), Last(pila);
      CederPropiedades(resto, salida + [tope], p);
      var c := Ceder(resto, salida + [tope], p);
      var n := |c.pila|;
      InvertidaSufijo(pila, n);
      assert c.salida == salida + Invertida(pila[n..]);
      assert resto[..n] == pila[..n];
      forall i | n <= i < |pila|
        ensures Cede(pila[i], p)
      {
        if i < |resto| {
          assert pila[i] == resto[i];
        }
      }
    } else {
      assert pila[..|pila|] == pila && pila[|pila|..] == [];
    }
  }

  /** Reversing a suffix of s starts with the last element of s. */
  lemma InvertidaSufijo<T>(s: seq<T>, n: nat)
    requires n < |s|
    ensures Invertida(s[n..]) == [Last(s)] + Invertida(DropLast(s)[n..])
  {
    assert Last(s[n..]) == Last(s);
    assert DropLast(s[n..]) == DropLast(s)[n..];
  }

  /** The final loop appends the stack top first. */
  lemma {:induction false} VaciarInvierte(pila: seq<Token>, salida: seq<Token>)
    ensures Vaciar(pila, salida) == salida + Invertida(pila)
    decreases |pila|
  {
    if pila != [] {
      VaciarInvierte(DropLast(pila), salida + [Last(pila)]);
    }
  }

  // ---------------------------------------------------------------------
  // Numbers keep their order
  // ---------------------------------------------------------------------

  /** The numbers among the tokens, in order. */
  function Numeros(ts: seq<Token>): seq<real>
    decreases |ts|
  {
    if ts == [] then []
    else (if ts[0].Numero? then [ts[0].valor] else []) + Numeros(ts[1..])
  }

  lemma {:induction false} NumerosConcatenar(a: seq<Token>, b: seq<Token>)
    ensures Numeros(a + b) == Numeros(a) + Numeros(b)
    decreases |a|
  {
    if a == [] {
      assert a + b == b;
    } else {
      assert (a + b)[0] == a[0] && (a + b)[1..] == a[1..] + b;
      NumerosConcatenar(a[1..], b);
    }
  }

  predicate SinNumeros(pila: seq<Token>)
  {
    forall i | 0 <= i < |pila| :: !pila[i].Numero?
  }

  /** Moving a stacked token to the output leaves the numbers of the output alone. */
  lemma Trasladar(pila: seq<Token>, salida: seq<Token>)
    requires pila != [] && SinNumeros(pila)
    ensures SinNumeros(DropLast(pila))
    ensures Numeros(salida + [Last(pila)]) == Numeros(salida)
  {
    NumerosConcatenar(salida, [Last(pila)]);
  }

  lemma {:induction false} CederNumeros(pila: seq<Token>, salida: seq<Token>, p: nat)
    requires SinNumeros(pila)
    ensures SinNumeros(Ceder(pila, salida, p).pila)
    ensures Numeros(Ceder(pila, salida, p).salida) == Numeros(salida)
    decreases |pila|
  {
    if pila != [] && Cede(Last(pila), p) {
      Trasladar(pila, salida);
      CederNumeros(DropLast(pila), salida + [Last(pila)], p);
    }
  }

  lemma {:induction false} CerrarNumeros(pila: seq<Token>, salida: seq<Token>)
    requires SinNumeros(pila)
    ensures Cerrar(pila, salida).Ok? ==>
              SinNumeros(Cerrar(pila, salida).value.pila) &&
              Numeros(Cerrar(pila, salida).value.salida) == Numeros(salida)
    decreases |pila|
  {
    if pila != [] {
      Trasladar(pila, salida);
      if Last(pila) != AbreParen {
        CerrarNumeros(DropLast(pila), salida + [Last(pila)]);
      }
    }
  }

  lemma {:induction false} VaciarNumeros(pila: seq<Token>, salida: seq<Token>)
    requires SinNumeros(pila)
    ensures Numeros(Vaciar(pila, salida)) == Numeros(salida)
    decreases |pila|
  {
    if pila != [] {
      Trasladar(pila, salida);
      VaciarNumeros(DropLast(pila), salida + [Last(pila)]);
    }
  }

  lemma PasoNumeros(e: Estado, t: Token)
    requires SinNumeros(e.pila)
    ensures Paso(e, t).Ok? ==>
              SinNumeros(Paso(e, t).value.pila) &&
              Numeros(Paso(e, t).value.salida) == Numeros(e.salida) + Numeros([t])
  {
    NumerosConcatenar(e.salida, [t]);
    match t
    case Numero(_) =>
    case AbreParen =>
    case CierraParen => CerrarNumeros(e.pila, e.salida);
    case Operacion(o) => CederNumeros(e.pila, e.salida, Precedencia(o));
  }

  lemma {:induction false} ConvertirNumeros(e: Estado, ts: seq<Token>)
    requires SinNumeros(e.pila)
    ensures Convertir(e, ts).Ok? ==>
              SinNumeros(Convertir(e, ts).value.pila) &&
              Numeros(Convertir(e, ts).value.salida) == Numeros(e.salida) + Numeros(ts)
    decreases |ts|
  {
    if ts != [] {
      PasoNumeros(e, ts[0]);
      assert ts == [ts[0]] + ts[1..];
      NumerosConcatenar([ts[0]], ts[1..]);
      if Paso(e, ts[0]).Ok? {
        ConvertirNumeros(Paso(e, ts[0]).value, ts[1..]);
      }
    }
  }

  /** A successful conversion emits the numbers in the order they came in. */
  lemma OrdenNumeros(ts: seq<Token>)
    ensures Conversion(ts).Ok? ==> Numeros(Conversion(ts).value) == Numeros(ts)
  {
    ConvertirNumeros(Estado([], []), ts);
    if Convertir(Estado([], []), ts).Ok? {
      var e := Convertir(Estado([], []), ts).value;
      VaciarNumeros(e.pila, e.salida);
    }
  }

  // ---------------------------------------------------------------------
  // Fully parenthesised infix converts to the tree's postfix form
  // ---------------------------------------------------------------------

  lemma ConvertirUno(e: Estado, t: Token, resto: seq<Token>)
    ensures Convertir(e, [t] + resto) ==
              if Paso(e, t).Err? then Err(Paso(e, t).error) else Convertir(Paso(e, t).value, resto)
  {
    assert ([t] + resto)[0] == t && ([t] + resto)[1..] == resto;
  }

  /** The '(' of `(l o r)` is pushed. */
  lemma PasoApertura(pila: seq<Token>, salida: seq<Token>, resto: seq<Token>)
    ensures Convertir(Estado(pila, salida), [AbreParen] + resto) ==
              Convertir(Estado(pila + [AbreParen], salida), resto)
  {
    ConvertirUno(Estado(pila, salida), AbreParen, resto);
  }

  /** The o of `(l o r)` finds '(' on top, so nothing is popped and o is pushed. */
  lemma PasoOperador(pila: seq<Token>, salida: seq<Token>, o: Operador, resto: seq<Token>)
    ensures Convertir(Estado(pila + [AbreParen], salida), [Operacion(o)] + resto) ==
              Convertir(Estado(pila + [AbreParen] + [Operacion(o)], salida), resto)
  {
    ConvertirUno(Estado(pila + [AbreParen], salida), Operacion(o), resto);
    assert Ceder(pila + [AbreParen], salida, Precedencia(o)) == Estado(pila + [AbreParen], salida);
  }

  /** The ')' of `(l o r)` pops o to the output and discards the matching '('. */
  lemma PasoCierre(pila: seq<Token>, salida: seq<Token>, o: Operador, resto: seq<Token>)
    ensures Convertir(Estado(pila + [AbreParen] + [Operacion(o)], salida), [CierraParen] + resto) ==
              Convertir(Estado(pila, salida + [Operacion(o)]), resto)
  {
    var p := pila + [AbreParen] + [Operacion(o)];
    assert DropLast(p) == pila + [AbreParen];
    assert DropLast(pila + [AbreParen]) == pila;
    assert Cerrar(p, salida) == Ok(Estado(pila, salida + [Operacion(o)]));
    ConvertirUno(Estado(p, salida), CierraParen, resto);
  }

  /** How the infix form of `(l o r)` splits around its subtrees. */
  lemma PartesInfija(o: Operador, izq: Expr, der: Expr, resto: seq<Token>)
    ensures Infija(Binaria(o, izq, der)) + resto ==
              [AbreParen] + (Infija(izq) + ([Operacion(o)] + (Infija(der) + ([CierraParen] + resto))))
  {
  }

  /**
   * Converting the fully parenthesised infix form of a tree, on any stack
   * and output, appends the tree's postfix form and leaves the stack as it
   * was.
   */
  lemma {:induction false} ConvertirInfija(x: Expr, pila: seq<Token>, salida: seq<Token>, resto: seq<Token>)
    ensures Convertir(Estado(pila, salida), Infija(x) + resto) ==
              Convertir(Estado(pila, salida + Postfija(x)), resto)
  {
    match x
    case Literal(v) =>
      ConvertirUno(Estado(pila, salida), Numero(v), resto);
    case Binaria(o, izq, der) =>
      var cierre := [CierraParen] + resto;
      var tras := [Operacion(o)] + (Infija(der) + cierre);
      PartesInfija(o, izq, der, resto);
      PasoApertura(pila, salida, Infija(izq) + tras);
      ConvertirInfija(izq, pila + [AbreParen], salida, tras);
      var s1 := salida + Postfija(izq);
      PasoOperador(pila, s1, o, Infija(der) + cierre);
      ConvertirInfija(der, pila + [AbreParen] + [Operacion(o)], s1, cierre);
      var s2 := s1 + Postfija(der);
      PasoCierre(pila, s2, o, resto);
      assert s2 + [Operacion(o)] == salida + Postfija(x);
  }

  /** `infijaAPostfija` turns the parenthesised infix form of any tree into its postfix form. */
  lemma ConversionInfija(x: Expr)
    ensures Conversion(Infija(x)) == Ok(Postfija(x))
  {
    ConvertirInfija(x, [], [], []);
    assert Infija(x) + [] == Infija(x);
    assert [] + Postfija(x) == Postfija(x);
  }

  /** Converting and then evaluating computes the value of the tree. */
  lemma ConvertirYEvaluar(x: Expr)
    ensures Conversion(Infija(x)).Ok?
    ensures Evaluacion(Conversion(Infija(x)).value) == Eval(x)
  {
    ConversionInfija(x);
    EvaluarPostfijaCorrecta(x);
  }

  // ---------------------------------------------------------------------
  // Infix with only the parentheses precedence requires
  // ---------------------------------------------------------------------

  /** How tightly a tree binds: a number more than any operator. */
  function Nivel(x: Expr): nat
  {
    match x
    case Literal(_) => 3
    case Binaria(o, _, _) => Precedencia(o)
  }

  /** A left operand needs parentheses when it binds more loosely than its operator. */
  predicate ParenIzq(o: Operador, izq: Expr)
  {
    Nivel(izq) < Precedencia(o)
  }

  /**
   * A right operand needs them when it binds no more tightly: operators
   * associate to the left, so "8 - (4 - 2)" keeps its parentheses.
   */
  predicate ParenDer(o: Operador, der: Expr)
  {
    Nivel(der) <= Precedencia(o)
  }

  function Parentesis(ts: seq<Token>): seq<Token>
  {
    [AbreParen] + ts + [CierraParen]
  }

  /** An operand written in infix, in parentheses when `paren`. */
  function Lado(x: Expr, paren: bool): seq<Token>
    decreases x, 1
  {
    if paren then Parentesis(InfijaMinima(x)) else InfijaMinima(x)
  }

  /** The tree written in infix the way a person writes it: "3 + 4 * 2", "(1 + 2) * 3". */
  function InfijaMinima(x: Expr): seq<Token>
    decreases x, 0
  {
    match x
    case Literal(v) => [Numero(v)]
    case Binaria(o, izq, der) => Lado(izq, ParenIzq(o, izq)) + [Operacion(o)] + Lado(der, ParenDer(o, der))
  }

  /**
   * The operators still on the stack after the last token of an unbracketed
   * operand: those of its right spine, outermost first.
   */
  function Pendientes(x: Expr): seq<Token>
    decreases x, 0
  {
    match x
    case Literal(_) => []
    case Binaria(o, _, der) => [Operacion(o)] + PendientesLado(der, ParenDer(o, der))
  }

  function PendientesLado(x: Expr, paren: bool): seq<Token>
    decreases x, 1
  {
    if paren then [] else Pendientes(x)
  }

  /** What an operand has sent to the output by then. */
  function Emitidos(x: Expr): seq<Token>
    decreases x, 0
  {
    match x
    case Literal(v) => [Numero(v)]
    case Binaria(o, izq, der) => Postfija(izq) + EmitidosLado(der, ParenDer(o, der))
  }

  function EmitidosLado(x: Expr, paren: bool): seq<Token>
    decreases x, 1
  {
    if paren then Postfija(x) else Emitidos(x)
  }

  /** Every token of ts is popped by an operator of precedence p. */
  predicate Ceden(ts: seq<Token>, p: nat)
  {
    forall i | 0 <= i < |ts| :: Cede(ts[i], p)
  }

  lemma InvertidaAnteponer<T>(x: T, s: seq<T>)
    ensures Invertida([x] + s) == Invertida(s) + [x]
    decreases |s|
  {
    if s != [] {
      assert Last([x] + s) == Last(s) && DropLast([x] + s) == [x] + DropLast(s);
      InvertidaAnteponer(x, DropLast(s));
    } else {
      assert DropLast([x]) == [];
    }
  }

  /** The pending operators bind at least as tightly as the operand itself. */
  lemma {:induction false} PendientesCeden(x: Expr)
    ensures Ceden(Pendientes(x), Nivel(x))
  {
    match x
    case Literal(_) =>
    case Binaria(o, _, der) =>
      if !ParenDer(o, der) {
        PendientesCeden(der);
      }
  }

  /** Emitting the pending operators, innermost first, completes the postfix form. */
  lemma {:induction false} EmitidosPendientes(x: Expr)
    ensures Emitidos(x) + Invertida(Pendientes(x)) == Postfija(x)
  {
    match x
    case Literal(v) =>
    case Binaria(o, izq, der) =>
      var t := Operacion(o);
      InvertidaAnteponer(t, PendientesLado(der, ParenDer(o, der)));
      if ParenDer(o, der) {
        assert Invertida([t]) == [t];
      } else {
        EmitidosPendientes(der);
      }
  }

  lemma EmitidosLadoPendientes(x: Expr, paren: bool)
    ensures EmitidosLado(x, paren) + Invertida(PendientesLado(x, paren)) == Postfija(x)
  {
    if paren {
      assert Invertida(PendientesLado(x, paren)) == [];
    } else {
      EmitidosPendientes(x);
    }
  }

  /**
   * The operator loop pops exactly a run of operators that yield to p, when
   * what lies beneath them does not.
   */
  lemma {:induction false} CederPendientes(pila: seq<Token>, pend: seq<Token>, salida: seq<Token>, p: nat)
    requires Ceden(pend, p) && (pila == [] || !Cede(Last(pila), p))
    ensures Ceder(pila + pend, salida, p) == Estado(pila, salida + Invertida(pend))
    decreases |pend|
  {
    if pend == [] {
      assert pila + pend == pila;
    } else {
      assert Last(pila + pend) == Last(pend) && DropLast(pila + pend) == pila + DropLast(pend);
      assert Cede(pend[|pend| - 1], p);
      CederPendientes(pila, DropLast(pend), salida + [Last(pend)], p);
    }
  }

  /** One turn of the loop on ')', on an operator. */
  lemma CerrarUno(pila: seq<Token>, salida: seq<Token>)
    requires pila != [] && Last(pila).Operacion?
    ensures Cerrar(pila, salida) == Cerrar(DropLast(pila), salida + [Last(pila)])
  {
  }

  /** The loop on ')' pops a run of operators and then its '('. */
  lemma {:induction false} CerrarPendientes(pila: seq<Token>, pend: seq<Token>, salida: seq<Token>)
    requires forall i | 0 <= i < |pend| :: pend[i].Operacion?
    ensures Cerrar(pila + [AbreParen] + pend, salida) == Ok(Estado(pila, salida + Invertida(pend)))
    decreases |pend|
  {
    var p := pila + [AbreParen];
    if pend == [] {
      assert p + pend == p && Last(p) == AbreParen && DropLast(p) == pila;
      assert salida + Invertida(pend) == salida;
    } else {
      var tope, debajo := Last(pend), DropLast(pend);
      var q := p + pend;
      assert Last(q) == tope && DropLast(q) == p + debajo;
      assert tope == pend[|pend| - 1];
      CerrarUno(q, salida);
      CerrarPendientes(pila, debajo, salida + [tope]);
      assert salida + [tope] + Invertida(debajo) == salida + Invertida(pend);
    }
  }

  /**
   * Converting the infix form of an operand, when the top of the stack does
   * not yield to it, emits `Emitidos` and leaves `Pendientes` stacked.
   */
  lemma {:induction false} ConvertirMinima(x: Expr, pila: seq<Token>, salida: seq<Token>, resto: seq<Token>)
    requires pila == [] || !Cede(Last(pila), Nivel(x))
    ensures Convertir(Estado(pila, salida), InfijaMinima(x) + resto) ==
              Convertir(Estado(pila + Pendientes(x), salida + Emitidos(x)), resto)
    decreases x, 0
  {
    match x
    case Literal(v) =>
      ConvertirUno(Estado(pila, salida), Numero(v), resto);
      assert pila + [] == pila;
    case Binaria(o, izq, der) =>
      var pi, pd := ParenIzq(o, izq), ParenDer(o, der);
      var tras := [Operacion(o)] + (Lado(der, pd) + resto);
      assert InfijaMinima(x) + resto == Lado(izq, pi) + tras;
      ConvertirLado(izq, pi, pila, salida, tras);
      ConvertirDerecha(o, izq, der, pila, salida, resto);
  }

  lemma CedenMenor(ts: seq<Token>, p: nat, q: nat)
    requires Ceden(ts, p) || ts == []
    requires ts != [] ==> q <= p
    ensures Ceden(ts, q)
  {
  }

  /** The operator of a tree pops its left operand's pending operators, then is pushed. */
  lemma ConvertirOperador(pila: seq<Token>, pend: seq<Token>, salida: seq<Token>, o: Operador)
    requires Ceden(pend, Precedencia(o)) && (pila == [] || !Cede(Last(pila), Precedencia(o)))
    ensures Paso(Estado(pila + pend, salida), Operacion(o)) ==
              Ok(Estado(pila + [Operacion(o)], salida + Invertida(pend)))
  {
    CederPendientes(pila, pend, salida, Precedencia(o));
  }

  /** The operator of `l o r` pops what l left pending, which completes l's postfix form. */
  lemma ConvertirOperadorTras(o: Operador, izq: Expr, pila: seq<Token>, salida: seq<Token>)
    requires pila == [] || !Cede(Last(pila), Precedencia(o))
    ensures var pi := ParenIzq(o, izq);
            Paso(Estado(pila + PendientesLado(izq, pi), salida + EmitidosLado(izq, pi)), Operacion(o)) ==
              Ok(Estado(pila + [Operacion(o)], salida + Postfija(izq)))
  {
    var pi := ParenIzq(o, izq);
    var pend, s1 := PendientesLado(izq, pi), salida + EmitidosLado(izq, pi);
    if !pi {
      PendientesCeden(izq);
    }
    CedenMenor(pend, Nivel(izq), Precedencia(o));
    ConvertirOperador(pila, pend, s1, o);
    EmitidosLadoPendientes(izq, pi);
    assert s1 + Invertida(pend) == salida + Postfija(izq);
  }

  /** What `l o r` leaves pending and emitted, in terms of r's. */
  lemma EstadoBinaria(o: Operador, izq: Expr, der: Expr, pila: seq<Token>, salida: seq<Token>)
    ensures var pd := ParenDer(o, der);
            var x := Binaria(o, izq, der);
            Estado(pila + Pendientes(x), salida + Emitidos(x)) ==
              Estado(pila + [Operacion(o)] + PendientesLado(der, pd), salida + Postfija(izq) + EmitidosLado(der, pd))
  {
    var pd := ParenDer(o, der);
    assert pila + [Operacion(o)] + PendientesLado(der, pd) == pila + ([Operacion(o)] + PendientesLado(der, pd));
  }

  /**
   * The rest of `ConvertirMinima` on `l o r`: after l, the operator o pops
   * l's pending operators, which completes l's postfix form, and then r is
   * converted above o.
   */
  lemma {:induction false} ConvertirDerecha(o: Operador, izq: Expr, der: Expr, pila: seq<Token>, salida: seq<Token>, resto: seq<Token>)
    requires pila == [] || !Cede(Last(pila), Precedencia(o))
    ensures var pi, pd := ParenIzq(o, izq), ParenDer(o, der);
            var x := Binaria(o, izq, der);
            Convertir(Estado(pila + PendientesLado(izq, pi), salida + EmitidosLado(izq, pi)),
                      [Operacion(o)] + (Lado(der, pd) + resto)) ==
              Convertir(Estado(pila + Pendientes(x), salida + Emitidos(x)), resto)
    decreases der, 3
  {
    var t := Operacion(o);
    var pd := ParenDer(o, der);
    var s2 := salida + Postfija(izq);
    var pi := ParenIzq(o, izq);
    ConvertirOperadorTras(o, izq, pila, salida);
    Avanza(Estado(pila + PendientesLado(izq, pi), salida + EmitidosLado(izq, pi)), t, Lado(der, pd) + resto,
           Estado(pila + [t], s2));
    assert Last(pila + [t]) == t;
    ConvertirLado(der, pd, pila + [t], s2, resto);
    EstadoBinaria(o, izq, der, pila, salida);
    assert s2 + EmitidosLado(der, pd) == salida + Emitidos(Binaria(o, izq, der));
  }

  /** An operand, bracketed or not, inside the conversion of its parent. */
  lemma {:induction false} ConvertirLado(x: Expr, paren: bool, pila: seq<Token>, salida: seq<Token>, resto: seq<Token>)
    requires paren || pila == [] || !Cede(Last(pila), Nivel(x))
    ensures Convertir(Estado(pila, salida), Lado(x, paren) + resto) ==
              Convertir(Estado(pila + PendientesLado(x, paren), salida + EmitidosLado(x, paren)), resto)
    decreases x, 2
  {
    if paren {
      ConvertirEntreParentesis(x, pila, salida, resto);
      assert pila + [] == pila;
    } else {
      ConvertirMinima(x, pila, salida, resto);
    }
  }

  /** A bracketed operand is converted whole: its postfix form is emitted and the stack restored. */
  lemma {:induction false} ConvertirEntreParentesis(x: Expr, pila: seq<Token>, salida: seq<Token>, resto: seq<Token>)
    ensures Convertir(Estado(pila, salida), Parentesis(InfijaMinima(x)) + resto) ==
              Convertir(Estado(pila, salida + Postfija(x)), resto)
    decreases x, 1
  {
    var cierre := [CierraParen] + resto;
    assert Parentesis(InfijaMinima(x)) + resto == [AbreParen] + (InfijaMinima(x) + cierre);
    PasoApertura(pila, salida, InfijaMinima(x) + cierre);
    ConvertirMinima(x, pila + [AbreParen], salida, cierre);
    var pend, s1 := Pendientes(x), salida + Emitidos(x);
    PendientesCeden(x);
    assert forall i | 0 <= i < |pend| :: pend[i].Operacion? by {
      forall i | 0 <= i < |pend| ensures pend[i].Operacion? {
        assert Cede(pend[i], Nivel(x));
      }
    }
    CerrarPendientes(pila, pend, s1);
    ConvertirUno(Estado(pila + [AbreParen] + pend, s1), CierraParen, resto);
    EmitidosPendientes(x);
    assert s1 + Invertida(pend) == salida + Postfija(x);
  }

  /** `infijaAPostfija` turns the usual infix form of any tree, precedence and all, into its postfix form. */
  lemma ConversionMinima(x: Expr)
    ensures Conversion(InfijaMinima(x)) == Ok(Postfija(x))
  {
    ConvertirMinima(x, [], [], []);
    assert InfijaMinima(x) + [] == InfijaMinima(x);
    assert [] + Pendientes(x) == Pendientes(x) && [] + Emitidos(x) == Emitidos(x);
    VaciarInvierte(Pendientes(x), Emitidos(x));
    EmitidosPendientes(x);
  }

  /** Converting the usual infix form and then evaluating computes the value of the tree. */
  lemma ConvertirYEvaluarMinima(x: Expr)
    ensures Conversion(InfijaMinima(x)).Ok?
    ensures Evaluacion(Conversion(InfijaMinima(x)).value) == Eval(x)
  {
    ConversionMinima(x);
    EvaluarPostfijaCorrecta(x);
  }

  /** "3 + 4 * 2", "8 - 4 - 2" and "8 - (4 - 2)" are the usual infix forms of their trees. */
  lemma EjemplosInfijaMinima()
    ensures InfijaMinima(Binaria(Suma, Literal(3.0), Binaria(Producto, Literal(4.0), Literal(2.0)))) ==
              [Numero(3.0), Operacion(Suma), Numero(4.0), Operacion(Producto), Numero(2.0)]
    ensures InfijaMinima(Binaria(Resta, Binaria(Resta, Literal(8.0), Literal(4.0)), Literal(2.0))) ==
              [Numero(8.0), Operacion(Resta), Numero(4.0), Operacion(Resta), Numero(2.0)]
    ensures InfijaMinima(Binaria(Resta, Literal(8.0), Binaria(Resta, Literal(4.0), Literal(2.0)))) ==
              [Numero(8.0), Operacion(Resta), AbreParen, Numero(4.0), Operacion(Resta), Numero(2.0), CierraParen]
  {
  }

  // ---------------------------------------------------------------------
  // Examples
  // ---------------------------------------------------------------------

  /** One step of a worked conversion. */
  lemma Avanza(e: Estado, t: Token, resto: seq<Token>, siguiente: Estado)
    requires Paso(e, t).Ok? && Paso(e, t).value == siguiente
    ensures Convertir(e, [t] + resto) == Convertir(siguiente, resto)
  {
    ConvertirUno(e, t, resto);
  }

  /** The first three tokens of "3 + 4 * 2": "3" is emitted and "+" waits on the stack. */
  lemma InicioPrecedencia()
    ensures var ts := [Numero(3.0), Operacion(Suma), Numero(4.0), Operacion(Producto), Numero(2.0)];
            Convertir(Estado([], []), ts) ==
              Convertir(Estado([Operacion(Suma)], [Numero(3.0), Numero(4.0)]), [Operacion(Producto), Numero(2.0)])
  {
    var n3, n4, n2 := Numero(3.0), Numero(4.0), Numero(2.0);
    var mas, por := Operacion(Suma), Operacion(Producto);
    assert [n3, mas, n4, por, n2] == [n3] + ([mas] + ([n4] + [por, n2]));
    assert Paso(Estado([], []), n3).value == Estado([], [n3]);
    Avanza(Estado([], []), n3, [mas] + ([n4] + [por, n2]), Estado([], [n3]));
    assert Paso(Estado([], [n3]), mas).value == Estado([mas], [n3]);
    Avanza(Estado([], [n3]), mas, [n4] + [por, n2], Estado([mas], [n3]));
    assert Paso(Estado([mas], [n3]), n4).value == Estado([mas], [n3, n4]);
    Avanza(Estado([mas], [n3]), n4, [por, n2], Estado([mas], [n3, n4]));
  }

  /** The token loop on "3 + 4 * 2": '*' outranks '+', so both wait on the stack. */
  lemma PasosPrecedencia()
    ensures var ts := [Numero(3.0), Operacion(Suma), Numero(4.0), Operacion(Producto), Numero(2.0)];
            Convertir(Estado([], []), ts).Ok? &&
            Convertir(Estado([], []), ts).value ==
              Estado([Operacion(Suma), Operacion(Producto)], [Numero(3.0), Numero(4.0), Numero(2.0)])
  {
    var n3, n4, n2 := Numero(3.0), Numero(4.0), Numero(2.0);
    var mas, por := Operacion(Suma), Operacion(Producto);
    InicioPrecedencia();
    assert [por, n2] == [por] + ([n2] + []);
    assert Paso(Estado([mas], [n3, n4]), por).value == Estado([mas, por], [n3, n4]);
    Avanza(Estado([mas], [n3, n4]), por, [n2] + [], Estado([mas, por], [n3, n4]));
    assert Paso(Estado([mas, por], [n3, n4]), n2).value == Estado([mas, por], [n3, n4, n2]);
    Avanza(Estado([mas, por], [n3, n4]), n2, [], Estado([mas, por], [n3, n4, n2]));
  }

  /** "3 + 4 * 2" gives "3 4 2 * +": the higher precedence leaves the stack first. */
  lemma EjemploPrecedencia()
    ensures Conversion([Numero(3.0), Operacion(Suma), Numero(4.0), Operacion(Producto), Numero(2.0)]) ==
              Ok([Numero(3.0), Numero(4.0), Numero(2.0), Operacion(Producto), Operacion(Suma)])
  {
    var n3, n4, n2 := Numero(3.0), Numero(4.0), Numero(2.0);
    var mas, por := Operacion(Suma), Operacion(Producto);
    PasosPrecedencia();
    VaciarInvierte([mas, por], [n3, n4, n2]);
    assert DropLast([mas, por]) == [mas];
    assert Invertida([mas]) == [mas];
    assert Invertida([mas, por]) == [por] + Invertida([mas]);
    assert Conversion([n3, mas, n4, por, n2]).value == [n3, n4, n2, por, mas];
  }

  /** On the second '-' of "8 - 4 - 2" the first '-' has equal precedence and leaves the stack. */
  lemma CedeIgualPrecedencia(salida: seq<Token>)
    ensures Ceder([Operacion(Resta)], salida, Precedencia(Resta)) == Estado([], salida + [Operacion(Resta)])
  {
    assert DropLast([Operacion(Resta)]) == [];
  }

  /** The first three tokens of "8 - 4 - 2": "8" and "4" are emitted and "-" waits on the stack. */
  lemma InicioAsociatividad()
    ensures var ts := [Numero(8.0), Operacion(Resta), Numero(4.0), Operacion(Resta), Numero(2.0)];
            Convertir(Estado([], []), ts) ==
              Convertir(Estado([Operacion(Resta)], [Numero(8.0), Numero(4.0)]), [Operacion(Resta), Numero(2.0)])
  {
    var n8, n4, n2 := Numero(8.0), Numero(4.0), Numero(2.0);
    var menos := Operacion(Resta);
    assert [n8, menos, n4, menos, n2] == [n8] + ([menos] + ([n4] + [menos, n2]));
    assert Paso(Estado([], []), n8).value == Estado([], [n8]);
    Avanza(Estado([], []), n8, [menos] + ([n4] + [menos, n2]), Estado([], [n8]));
    assert Paso(Estado([], [n8]), menos).value == Estado([menos], [n8]);
    Avanza(Estado([], [n8]), menos, [n4] + [menos, n2], Estado([menos], [n8]));
    assert Paso(Estado([menos], [n8]), n4).value == Estado([menos], [n8, n4]);
    Avanza(Estado([menos], [n8]), n4, [menos, n2], Estado([menos], [n8, n4]));
  }

  /** The second '-' of "8 - 4 - 2" takes the place of the first, which is emitted. */
  lemma PasoSegundaResta()
    ensures var menos := Operacion(Resta);
            var e := Estado([menos], [Numero(8.0), Numero(4.0)]);
            Paso(e, menos).Ok? && Paso(e, menos).value == Estado([menos], [Numero(8.0), Numero(4.0), menos])
  {
    CedeIgualPrecedencia([Numero(8.0), Numero(4.0)]);
  }

  /** The last two tokens of "8 - 4 - 2". */
  lemma FinAsociatividad()
    ensures var menos := Operacion(Resta);
            var e := Estado([menos], [Numero(8.0), Numero(4.0)]);
            Convertir(e, [menos, Numero(2.0)]).Ok? &&
            Convertir(e, [menos, Numero(2.0)]).value == Estado([menos], [Numero(8.0), Numero(4.0), menos, Numero(2.0)])
  {
    var n8, n4, n2 := Numero(8.0), Numero(4.0), Numero(2.0);
    var menos := Operacion(Resta);
    assert [menos, n2] == [menos] + ([n2] + []);
    PasoSegundaResta();
    Avanza(Estado([menos], [n8, n4]), menos, [n2] + [], Estado([menos], [n8, n4, menos]));
    assert Paso(Estado([menos], [n8, n4, menos]), n2).value == Estado([menos], [n8, n4, menos, n2]);
    Avanza(Estado([menos], [n8, n4, menos]), n2, [], Estado([menos], [n8, n4, menos, n2]));
  }

  /** The token loop on "8 - 4 - 2". */
  lemma PasosAsociatividad()
    ensures var ts := [Numero(8.0), Operacion(Resta), Numero(4.0), Operacion(Resta), Numero(2.0)];
            Convertir(Estado([], []), ts).Ok? &&
            Convertir(Estado([], []), ts).value ==
              Estado([Operacion(Resta)], [Numero(8.0), Numero(4.0), Operacion(Resta), Numero(2.0)])
  {
    InicioAsociatividad();
    FinAsociatividad();
  }

  /** "8 - 4 - 2" gives "8 4 - 2 -": equal precedence pops, so operators associate to the left. */
  lemma EjemploAsociatividad()
    ensures Conversion([Numero(8.0), Operacion(Resta), Numero(4.0), Operacion(Resta), Numero(2.0)]) ==
              Ok([Numero(8.0), Numero(4.0), Operacion(Resta), Numero(2.0), Operacion(Resta)])
  {
    var n8, n4, n2 := Numero(8.0), Numero(4.0), Numero(2.0);
    var menos := Operacion(Resta);
    PasosAsociatividad();
    VaciarInvierte([menos], [n8, n4, menos, n2]);
    assert Invertida([menos]) == [menos];
    assert Conversion([n8, menos, n4, menos, n2]).value == [n8, n4, menos, n2, menos];
  }

  /** "8 4 - 2 -" evaluates to 2. */
  lemma EjemploAsociatividadValor()
    ensures Evaluacion([Numero(8.0), Numero(4.0), Operacion(Resta), Numero(2.0), Operacion(Resta)]) == Ok(2.0)
  {
  }

  /** A ')' with no '(' peeks at an empty stack; a '(' never closed reaches the output. */
  lemma EjemploParentesisSueltos()
    ensures Conversion([Numero(1.0), CierraParen]) == Err(IndexError)
    ensures Conversion([AbreParen, Numero(1.0)]) == Ok([Numero(1.0), AbreParen])
  {
    var uno := Numero(1.0);
    assert [AbreParen, uno] == [AbreParen] + ([uno] + []);
    assert Paso(Estado([], []), AbreParen).value == Estado([AbreParen], []);
    Avanza(Estado([], []), AbreParen, [uno] + [], Estado([AbreParen], []));
    assert Paso(Estado([AbreParen], []), uno).value == Estado([AbreParen], [uno]);
    Avanza(Estado([AbreParen], []), uno, [], Estado([AbreParen], [uno]));
    VaciarInvierte([AbreParen], [uno]);
    assert Invertida([AbreParen]) == [AbreParen];
    assert Conversion([AbreParen, uno]).value == [uno, AbreParen];
  }
}

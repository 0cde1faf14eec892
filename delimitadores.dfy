/**
 * Bracket checking with a stack: `validar_parentesis` of exercise 16 (round
 * parentheses only) and the pseudocode `validarDelimitadores` of exercise 17
 * (round, square and curly brackets, closed in the right order). Every other
 * character is ignored by both.
 */
module Delimitadores {
  import opened Comun

  // ---------------------------------------------------------------------
  // validar_parentesis
  // ---------------------------------------------------------------------

  /** Number of '(' minus number of ')'. */
  function Profundidad(s: string): int
  {
    multiset(s)['('] as int - multiset(s)[')'] as int
  }

  /** No prefix closes more parentheses than it opens, and the totals agree. */
  predicate Balanceada(s: string)
  {
    (forall k | 0 <= k <= |s| :: Profundidad(s[..k]) >= 0) && Profundidad(s) == 0
  }

  /**
   * `validar_parentesis`: push on '(', pop on ')' (failing at once when the
   * stack is empty), and accept when the stack ends empty.
   */
  method ValidarParentesis(expresion: string) returns (r: bool)
    ensures r == Balanceada(expresion)
  {
    var pila: seq<char> := [];
    for i := 0 to |expresion|
      invariant |pila| == Profundidad(expresion[..i])
      invariant forall k | 0 <= k <= i :: Profundidad(expresion[..k]) >= 0
    {
      var caracter := expresion[i];
      assert expresion[..i + 1] == expresion[..i] + [caracter];
      if caracter == '(' {
        pila := pila + [caracter];
      } else if caracter == ')' {
        if pila == [] {
          assert Profundidad(expresion[..i + 1]) < 0;
          return false;
        }
        pila := DropLast(pila);
      }
    }
    assert expresion[..|expresion|] == expresion;
    return |pila| == 0;
  }

  // ---------------------------------------------------------------------
  // validarDelimitadores
  // ---------------------------------------------------------------------

  predicate EsApertura(c: char)
  {
    c == '(' || c == '[' || c == '{'
  }

  predicate EsCierre(c: char)
  {
    c == ')' || c == ']' || c == '}'
  }

  /** `pares`: the opening bracket that each closing bracket matches. */
  function Pareja(c: char): char
    requires EsCierre(c)
  {
    if c == ')' then '(' else if c == ']' then '[' else '{'
  }

  /** One character of the scan: the new stack, or `None` when the scan returns false. */
  function Paso(pila: seq<char>, c: char): Option<seq<char>>
  {
    if EsApertura(c) then Some(pila + [c])
    else if EsCierre(c) then
      if pila == [] || Last(pila) != Pareja(c) then None else Some(DropLast(pila))
    else Some(pila)
  }

  /** The scan of `s` from stack `pila`. */
  function Recorrer(pila: seq<char>, s: string): Option<seq<char>>
    decreases |s|
  {
    if s == [] then Some(pila)
    else
      match Paso(pila, s[0])
      case None => None
      case Some(p) => Recorrer(p, s[1..])
  }

  /** The delimiters of s are matched and properly nested. */
  predicate Delimitada(s: string)
  {
    Recorrer([], s) == Some([])
  }

  /** `validarDelimitadores`, with a stack and an early return on a mismatch. */
  method ValidarDelimitadores(expresion: string) returns (r: bool)
    ensures r == Delimitada(expresion)
    ensures r <==> BienAnidada(expresion)
  {
    DelimitadaSiiAnidada(expresion);
    var pila: seq<char> := [];
    for i := 0 to |expresion|
      invariant Recorrer(pila, expresion[i..]) == Recorrer([], expresion)
    {
      var caracter := expresion[i];
      assert expresion[i..][1..] == expresion[i + 1..];
      if EsApertura(caracter) {
        pila := pila + [caracter];
      } else if EsCierre(caracter) {
        if pila == [] {
          return false;
        }
        var tope := Last(pila);
        pila := DropLast(pila);
        if tope != Pareja(caracter) {
          return false;
        }
      }
    }
    return pila == [];
  }

  /** Scanning a concatenation scans the first part, then the second from where it left off. */
  lemma {:induction false} RecorrerConcatenar(pila: seq<char>, s: string, t: string)
    ensures Recorrer(pila, s + t) ==
              match Recorrer(pila, s)
              case None => None
              case Some(p) => Recorrer(p, t)
    decreases |s|
  {
    if s == [] {
      assert s + t == t;
    } else {
      assert (s + t)[0] == s[0] && (s + t)[1..] == s[1..] + t;
      match Paso(pila, s[0])
      case None =>
      case Some(p) => RecorrerConcatenar(p, s[1..], t);
    }
  }

  /** Whatever lies below the stack is never looked at by a scan that succeeds. */
  lemma {:induction false} RecorrerDebajo(base: seq<char>, pila: seq<char>, s: string, q: seq<char>)
    requires Recorrer(pila, s) == Some(q)
    ensures Recorrer(base + pila, s) == Some(base + q)
    decreases |s|
  {
    if s != [] {
      var c := s[0];
      var p :| Paso(pila, c) == Some(p) && Recorrer(p, s[1..]) == Some(q);
      if EsApertura(c) {
        assert (base + pila) + [c] == base + (pila + [c]);
      } else if EsCierre(c) {
        assert Last(base + pila) == Last(pila);
        assert DropLast(base + pila) == base + DropLast(pila);
      }
      RecorrerDebajo(base, p, s[1..], q);
    }
  }

  /** Two well-delimited texts in a row are well delimited. */
  lemma Concatenacion(s: string, t: string)
    requires Delimitada(s) && Delimitada(t)
    ensures Delimitada(s + t)
  {
    RecorrerConcatenar([], s, t);
  }

  /** A well-delimited text between a matching pair of brackets is well delimited. */
  lemma Envolver(abre: char, s: string, cierra: char)
    requires EsCierre(cierra) && abre == Pareja(cierra) && Delimitada(s)
    ensures Delimitada([abre] + s + [cierra])
  {
    RecorrerDebajo([abre], [], s, []);
    assert [abre] + [] == [abre];
    RecorrerConcatenar([abre], s, [cierra]);
    var t := [abre] + s + [cierra];
    assert t[0] == abre && t[1..] == s + [cierra];
    assert EsApertura(abre) && [] + [abre] == [abre];
    assert Paso([], abre).Some? && Paso([], abre).value == [abre];
    assert Recorrer([], t) == Recorrer([abre], s + [cierra]);
    assert Recorrer([abre], [cierra]) == Recorrer([], []);
  }

  /** The examples of the statement. */
  lemma CasosDelimitadores()
    ensures Delimitada("{[()]}")
    ensures !Delimitada("{[(])}")
    ensures !Delimitada("{[}")
  {
  }

  // ---------------------------------------------------------------------
  // The scan accepts exactly the well-nested texts
  // ---------------------------------------------------------------------

  /**
   * Well-nested text, by its grammar: empty; a character that is no bracket
   * followed by well-nested text; or an opening bracket, well-nested text,
   * the closing bracket of the same kind, and well-nested text.
   */
  predicate BienAnidada(s: string)
    decreases |s|
  {
    s == [] ||
    (!EsApertura(s[0]) && !EsCierre(s[0]) && BienAnidada(s[1..])) ||
    (exists k | 0 < k < |s| ::
       EsCierre(s[k]) && s[0] == Pareja(s[k]) && BienAnidada(s[1..k]) && BienAnidada(s[k + 1..]))
  }

  /** Scanning one character and then the rest. */
  lemma RecorrerPrimero(pila: seq<char>, c: char, s: string)
    ensures Recorrer(pila, [c] + s) ==
              match Paso(pila, c)
              case None => None
              case Some(p) => Recorrer(p, s)
  {
    assert ([c] + s)[0] == c && ([c] + s)[1..] == s;
  }

  /** A bracketed block followed by more text, scanned from pila, when both parts keep their stack. */
  lemma RecorrerBloque(pila: seq<char>, a: char, u: string, c: char, v: string)
    requires EsCierre(c) && a == Pareja(c)
    requires Recorrer(pila + [a], u) == Some(pila + [a]) && Recorrer(pila, v) == Some(pila)
    ensures Recorrer(pila, [a] + (u + ([c] + v))) == Some(pila)
  {
    RecorrerPrimero(pila, a, u + ([c] + v));
    RecorrerConcatenar(pila + [a], u, [c] + v);
    RecorrerPrimero(pila + [a], c, v);
    assert Last(pila + [a]) == a && DropLast(pila + [a]) == pila;
  }

  /** A well-nested text, scanned from any stack, leaves that stack as it was. */
  lemma {:induction false} AnidadaRecorre(pila: seq<char>, s: string)
    requires BienAnidada(s)
    ensures Recorrer(pila, s) == Some(pila)
    decreases |s|, 1
  {
    if s == [] {
    } else if !EsApertura(s[0]) && !EsCierre(s[0]) && BienAnidada(s[1..]) {
      RecorrerPrimero(pila, s[0], s[1..]);
      assert s == [s[0]] + s[1..];
      AnidadaRecorre(pila, s[1..]);
    } else {
      var k :| 0 < k < |s| && EsCierre(s[k]) && s[0] == Pareja(s[k]) &&
               BienAnidada(s[1..k]) && BienAnidada(s[k + 1..]);
      AnidadaRecorreBloque(pila, s, k);
    }
  }

  /** The case of `AnidadaRecorre` where s opens with a block closed at position k. */
  lemma {:induction false} AnidadaRecorreBloque(pila: seq<char>, s: string, k: nat)
    requires 0 < k < |s| && EsCierre(s[k]) && s[0] == Pareja(s[k])
    requires BienAnidada(s[1..k]) && BienAnidada(s[k + 1..])
    ensures Recorrer(pila, s) == Some(pila)
    decreases |s|, 0
  {
    var u, v := s[1..k], s[k + 1..];
    AnidadaRecorre(pila + [s[0]], u);
    AnidadaRecorre(pila, v);
    RecorrerBloque(pila, s[0], u, s[k], v);
    assert s == [s[0]] + (u + ([s[k]] + v));
  }

  /**
   * A scan that starts with the opening bracket a on top of p and ends below
   * it must meet the closing bracket of a: at some position k, after a
   * well-scanned stretch, from where the rest scans as from p.
   */
  lemma {:induction false} Emparejar(p: seq<char>, a: char, t: string, q: seq<char>) returns (k: nat)
    requires EsApertura(a) && Recorrer(p + [a], t) == Some(q) && |q| <= |p|
    ensures k < |t| && EsCierre(t[k]) && Pareja(t[k]) == a
    ensures Recorrer([], t[..k]) == Some([]) && Recorrer(p, t[k + 1..]) == Some(q)
    decreases |t|, 1
  {
    assert t != [];
    var c, resto := t[0], t[1..];
    assert t == [c] + resto;
    RecorrerPrimero(p + [a], c, resto);
    if EsApertura(c) {
      k := EmparejarAnidado(p, a, c, resto, q);
    } else if EsCierre(c) {
      assert Last(p + [a]) == a && DropLast(p + [a]) == p;
      k := 0;
      assert t[..0] == [];
    } else {
      var k1 := Emparejar(p, a, resto, q);
      k := k1 + 1;
      assert t[k] == resto[k1] && t[k + 1..] == resto[k1 + 1..];
      assert t[..k] == [c] + resto[..k1];
      RecorrerPrimero([], c, resto[..k1]);
    }
  }

  /**
   * The case of `Emparejar` where another opening bracket c comes first: its
   * own closing bracket is found first, then the one of a.
   */
  lemma {:induction false} EmparejarAnidado(p: seq<char>, a: char, c: char, resto: string, q: seq<char>)
    returns (k: nat)
    requires EsApertura(a) && EsApertura(c)
    requires Recorrer(p + [a] + [c], resto) == Some(q) && |q| <= |p|
    ensures var t := [c] + resto;
            k < |t| && EsCierre(t[k]) && Pareja(t[k]) == a &&
            Recorrer([], t[..k]) == Some([]) && Recorrer(p, t[k + 1..]) == Some(q)
    decreases |resto|, 2
  {
    var t := [c] + resto;
    var k1 := Emparejar(p + [a], c, resto, q);
    var v := resto[k1 + 1..];
    var k2 := Emparejar(p, a, v, q);
    k := 1 + k1 + 1 + k2;
    var u, d, w := resto[..k1], resto[k1], v[..k2];
    Envolver(c, u, d);
    Concatenacion([c] + u + [d], w);
    assert t[k] == v[k2] && t[k + 1..] == v[k2 + 1..];
    assert t[..k] == [c] + u + [d] + w;
  }

  /** A text the scan accepts is well nested. */
  lemma {:induction false} RecorreAnidada(s: string)
    requires Delimitada(s)
    ensures BienAnidada(s)
    decreases |s|
  {
    if s != [] {
      var c := s[0];
      assert s == [c] + s[1..];
      RecorrerPrimero([], c, s[1..]);
      if !EsApertura(c) && !EsCierre(c) {
        RecorreAnidada(s[1..]);
      } else {
        assert EsApertura(c);
        assert [] + [c] == [c];
        var k1 := Emparejar([], c, s[1..], []);
        var k := k1 + 1;
        assert s[k] == s[1..][k1];
        assert s[1..k] == s[1..][..k1] && s[k + 1..] == s[1..][k1 + 1..];
        RecorreAnidada(s[1..k]);
        RecorreAnidada(s[k + 1..]);
        assert 0 < k < |s| && EsCierre(s[k]) && s[0] == Pareja(s[k]);
      }
    }
  }

  /** `validarDelimitadores` accepts exactly the well-nested texts. */
  lemma DelimitadaSiiAnidada(s: string)
    ensures Delimitada(s) <==> BienAnidada(s)
  {
    if Delimitada(s) {
      RecorreAnidada(s);
    }
    if BienAnidada(s) {
      AnidadaRecorre([], s);
    }
  }

  // ---------------------------------------------------------------------
  // The two checkers agree on round parentheses
  // ---------------------------------------------------------------------

  /** s has no square or curly brackets. */
  predicate SoloParentesis(s: string)
  {
    forall i | 0 <= i < |s| :: s[i] != '[' && s[i] != ']' && s[i] != '{' && s[i] != '}'
  }

  /** A stack holding n opening parentheses. */
  function Aperturas(n: nat): seq<char>
  {
    seq(n, _ => '(')
  }

  /** Starting at depth d, no prefix of s goes below zero. */
  predicate PrefijosDesde(d: int, s: string)
  {
    forall k | 0 <= k <= |s| :: d + Profundidad(s[..k]) >= 0
  }

  lemma ProfundidadConcatenar(a: string, b: string)
    ensures Profundidad(a + b) == Profundidad(a) + Profundidad(b)
  {
    assert multiset(a + b) == multiset(a) + multiset(b);
  }

  /** The prefix condition, one character at a time. */
  lemma PrefijosPaso(d: int, s: string)
    requires s != []
    ensures PrefijosDesde(d, s) <==> d >= 0 && PrefijosDesde(d + Profundidad([s[0]]), s[1..])
  {
    var c, r := s[0], s[1..];
    forall k | 1 <= k <= |s|
      ensures Profundidad(s[..k]) == Profundidad([c]) + Profundidad(r[..k - 1])
    {
      assert s[..k] == [c] + r[..k - 1];
      ProfundidadConcatenar([c], r[..k - 1]);
    }
    assert s[..0] == [];
    if PrefijosDesde(d, s) {
      forall k | 0 <= k <= |r|
        ensures d + Profundidad([c]) + Profundidad(r[..k]) >= 0
      {
        assert d + Profundidad(s[..k + 1]) >= 0;
      }
    }
    if d >= 0 && PrefijosDesde(d + Profundidad([c]), r) {
      forall k | 0 <= k <= |s|
        ensures d + Profundidad(s[..k]) >= 0
      {
        if k > 0 {
          assert d + Profundidad([c]) + Profundidad(r[..k - 1]) >= 0;
        }
      }
    }
  }

  /** The scan result expected from a stack of d parentheses. */
  function Esperado(d: nat, s: string): Option<seq<char>>
  {
    if PrefijosDesde(d, s) && d + Profundidad(s) >= 0 then Some(Aperturas(d + Profundidad(s))) else None
  }

  /** What one leading character does to the prefix condition and the depth. */
  lemma EsperadoPaso(d: nat, s: string, d2: nat)
    requires s != [] && d2 == d + Profundidad([s[0]])
    ensures Esperado(d, s) == Esperado(d2, s[1..])
  {
    PrefijosPaso(d, s);
    assert s == [s[0]] + s[1..];
    ProfundidadConcatenar([s[0]], s[1..]);
  }

  lemma AbreApila(d: nat)
    ensures Paso(Aperturas(d), '(') == Some(Aperturas(d + 1))
  {
    assert Aperturas(d) + ['('] == Aperturas(d + 1);
  }

  lemma CierraDesapila(d: nat)
    requires d > 0
    ensures Paso(Aperturas(d), ')') == Some(Aperturas(d - 1))
  {
    assert Last(Aperturas(d)) == '(';
    assert DropLast(Aperturas(d)) == Aperturas(d - 1);
  }

  lemma CierraVacia(s: string)
    requires s != [] && s[0] == ')'
    ensures Esperado(0, s) == None
  {
    assert s[..1] == [')'];
    assert Profundidad([')']) == -1;
  }

  /**
   * On text without square or curly brackets, the delimiter scan from a
   * stack of d parentheses fails exactly when some prefix closes more than
   * it opens, and otherwise ends with d plus the net depth.
   */
  lemma {:induction false} RecorrerParentesis(d: nat, s: string)
    requires SoloParentesis(s)
    ensures Recorrer(Aperturas(d), s) == Esperado(d, s)
    decreases |s|
  {
    if s == [] {
      assert Profundidad(s) == 0;
      assert s[..0] == s;
    } else {
      var c, r := s[0], s[1..];
      assert SoloParentesis(r) by {
        forall i | 0 <= i < |r| ensures r[i] == s[i + 1] { }
      }
      if c == '(' {
        assert Profundidad([c]) == 1;
        AbreApila(d);
        EsperadoPaso(d, s, d + 1);
        RecorrerParentesis(d + 1, r);
      } else if c == ')' {
        if d == 0 {
          CierraVacia(s);
        } else {
          assert Profundidad([c]) == -1;
          CierraDesapila(d);
          EsperadoPaso(d, s, d - 1);
          RecorrerParentesis(d - 1, r);
        }
      } else {
        assert Profundidad([c]) == 0;
        EsperadoPaso(d, s, d);
        RecorrerParentesis(d, r);
      }
    }
  }

  /** On round parentheses alone, `validarDelimitadores` and `validar_parentesis` agree. */
  lemma Acuerdo(s: string)
    requires SoloParentesis(s)
    ensures Delimitada(s) <==> Balanceada(s)
  {
    RecorrerParentesis(0, s);
    assert Aperturas(0) == [];
    assert s[..|s|] == s;
    if PrefijosDesde(0, s) && Profundidad(s) != 0 {
      assert |Aperturas(Profundidad(s))| != 0;
    }
  }

  /** The rows of the table of cases under `validar_parentesis`, as scans. */
  lemma CasosRecorrer()
    ensures Delimitada("") && Delimitada("()") && Delimitada("(())") && Delimitada("(()())")
    ensures !Delimitada("(()") && !Delimitada("())") && !Delimitada(")(")
  {
  }

  lemma CasosSoloParentesis()
    ensures SoloParentesis("") && SoloParentesis("()") && SoloParentesis("(())")
    ensures SoloParentesis("(()())") && SoloParentesis("(()") && SoloParentesis("())")
    ensures SoloParentesis(")(")
  {
  }

  /** The table of cases under `validar_parentesis`. */
  lemma CasosParentesis()
    ensures Balanceada("") && Balanceada("()") && Balanceada("(())") && Balanceada("(()())")
    ensures !Balanceada("(()") && !Balanceada("())") && !Balanceada(")(")
  {
    CasosRecorrer();
    CasosSoloParentesis();
    Acuerdo("");
    Acuerdo("()");
    Acuerdo("(())");
    Acuerdo("(()())");
    Acuerdo("(()");
    Acuerdo("())");
    Acuerdo(")(");
  }
}

/**
 * `PilaMinimo` of exercise 25: a stack of numbers that answers "what is the
 * current minimum" in constant time by keeping, beside the elements, a second
 * stack `_minimos` of the successive minima.
 */
module PilaMinimoTad {
  import opened Comun

  /**
   * The minima stack that `push` builds for the elements `s` pushed in order:
   * an element is recorded when the record stack is empty or the element is
   * at most its top.
   */
  function Registros(s: seq<int>): seq<int>
  {
    if s == [] then []
    else
      var r := Registros(DropLast(s));
      if r == [] || Last(s) <= Last(r) then r + [Last(s)] else r
  }

  /** Each element is at most the ones below it. */
  predicate NoCreciente(s: seq<int>)
  {
    forall i, j | 0 <= i < j < |s| :: s[j] <= s[i]
  }

  /** m is the least value of s. */
  predicate EsMinimo(m: int, s: seq<int>)
  {
    m in s && forall x | x in s :: m <= x
  }

  /**
   * The records are non-empty exactly when the elements are, every record is
   * one of the elements, and the top record is the minimum of the elements.
   */
  lemma {:induction false} RegistrosMinimo(s: seq<int>)
    ensures Registros(s) == [] <==> s == []
    ensures forall x | x in Registros(s) :: x in s
    ensures s != [] ==> EsMinimo(Last(Registros(s)), s)
  {
    if s != [] {
      var e := DropLast(s);
      RegistrosMinimo(e);
      assert s == e + [Last(s)];
      var r := Registros(e);
      if r == [] || Last(s) <= Last(r) {
        assert Registros(s) == r + [Last(s)];
      } else {
        assert Registros(s) == r;
      }
    }
  }

  /** The records never increase from bottom to top. */
  lemma {:induction false} RegistrosNoCrecientes(s: seq<int>)
    ensures NoCreciente(Registros(s))
  {
    if s != [] {
      var e := DropLast(s);
      RegistrosNoCrecientes(e);
      var r := Registros(e);
      if r == [] || Last(s) <= Last(r) {
        var t := r + [Last(s)];
        assert Registros(s) == t;
        forall i, j | 0 <= i < j < |t|
          ensures t[j] <= t[i]
        {
          if j == |r| {
            if i < |r| - 1 {
              assert r[|r| - 1] <= r[i];
            }
          } else {
            assert t[i] == r[i] && t[j] == r[j];
          }
        }
      }
    }
  }

  /**
   * The records are non-empty exactly when the elements are; their top is
   * the minimum of the elements; every record is one of the elements; and
   * they are non-increasing from bottom to top.
   */
  lemma RegistrosCorrectos(s: seq<int>)
    ensures Registros(s) == [] <==> s == []
    ensures s != [] ==> EsMinimo(Last(Registros(s)), s)
    ensures forall x | x in Registros(s) :: x in s
    ensures NoCreciente(Registros(s))
  {
    RegistrosMinimo(s);
    RegistrosNoCrecientes(s);
  }

  /** Popping an element removes its record exactly when it equals the top record. */
  lemma RegistrosAlSacar(s: seq<int>)
    requires s != []
    ensures Registros(s) != []
    ensures Registros(DropLast(s)) ==
              if Last(s) == Last(Registros(s)) then DropLast(Registros(s)) else Registros(s)
  {
    RegistrosCorrectos(s);
    var r := Registros(DropLast(s));
    if r == [] || Last(s) <= Last(r) {
      assert Registros(s) == r + [Last(s)];
    } else {
      assert Registros(s) == r;
    }
  }

  class PilaMinimo {
    /** `_elementos`, bottom first. */
    var elementos: seq<int>
    /** `_minimos`, bottom first. */
    var minimos: seq<int>

    /** `_minimos` is always the record stack of `_elementos`. */
    ghost predicate Valid()
      reads this
    {
      minimos == Registros(elementos)
    }

    constructor ()
      ensures Valid() && elementos == []
    {
      elementos, minimos := [], [];
    }

    /** `push`: record the element as a minimum when it is at most the current one. */
    method Push(elemento: int)
      requires Valid()
      modifies this
      ensures Valid() && elementos == old(elementos) + [elemento]
    {
      elementos := elementos + [elemento];
      if minimos == [] || elemento <= Last(minimos) {
        minimos := minimos + [elemento];
      }
      assert DropLast(elementos) == old(elementos);
    }

    /**
     * `pop`: `IndexError` on an empty stack; otherwise remove and return the
     * top, dropping the top minimum too when it equals the removed element.
     */
    method Pop() returns (r: Result<int, Error>)
      requires Valid()
      modifies this
      ensures Valid()
      ensures old(elementos) == [] ==> r == Err(IndexError) && elementos == old(elementos)
      ensures old(elementos) != [] ==>
                r == Ok(Last(old(elementos))) && elementos == DropLast(old(elementos))
    {
      if elementos == [] {
        return Err(IndexError);
      }
      RegistrosAlSacar(elementos);
      var elemento := Last(elementos);
      elementos := DropLast(elementos);
      if elemento == Last(minimos) {
        minimos := DropLast(minimos);
      }
      return Ok(elemento);
    }

    /** `peek`: the top, or `IndexError` on an empty stack. */
    method Peek() returns (r: Result<int, Error>)
      ensures r.Err? <==> elementos == []
      ensures r.Err? ==> r.error == IndexError
      ensures r.Ok? ==> |elementos| > 0 && r.value == elementos[|elementos| - 1]
    {
      if elementos == [] {
        return Err(IndexError);
      }
      return Ok(Last(elementos));
    }

    /** `get_min`: the least element, or `IndexError` on an empty stack. */
    method GetMin() returns (r: Result<int, Error>)
      requires Valid()
      ensures r.Err? <==> elementos == []
      ensures r.Err? ==> r.error == IndexError
      ensures r.Ok? ==> EsMinimo(r.value, elementos)
    {
      RegistrosCorrectos(elementos);
      if minimos == [] {
        return Err(IndexError);
      }
      return Ok(Last(minimos));
    }

    /** `is_empty` */
    method IsEmpty() returns (b: bool)
      ensures b <==> elementos == []
    {
      return elementos == [];
    }
  }

  /** The worked example: pushing 5, 3, 7, 1, 4 shows minima 5, 3, 3, 1, 1. */
  method EjemploPilaMinimo() returns (vistos: seq<int>)
    ensures vistos == [5, 3, 3, 1, 1]
  {
    var pila := new PilaMinimo();
    vistos := [];
    var valores := [5, 3, 7, 1, 4];
    for k := 0 to |valores|
      invariant pila.Valid() && pila.elementos == valores[..k]
      invariant |vistos| == k
      invariant forall i | 0 <= i < k :: EsMinimo(vistos[i], valores[..i + 1])
    {
      pila.Push(valores[k]);
      var m := pila.GetMin();
      vistos := vistos + [m.value];
    }
    MinimosEjemplo(vistos);
  }

  lemma MinimosEjemplo(vistos: seq<int>)
    requires |vistos| == 5
    requires forall i | 0 <= i < 5 :: EsMinimo(vistos[i], [5, 3, 7, 1, 4][..i + 1])
    ensures vistos == [5, 3, 3, 1, 1]
  {
    var v := [5, 3, 7, 1, 4];
    assert v[..1] == [5] && v[..2] == [5, 3] && v[..3] == [5, 3, 7];
    assert v[..4] == [5, 3, 7, 1] && v[..5] == v;
    assert EsMinimo(vistos[0], [5]);
    assert EsMinimo(vistos[1], [5, 3]) && 3 in [5, 3];
    assert EsMinimo(vistos[2], [5, 3, 7]) && 3 in [5, 3, 7];
    assert EsMinimo(vistos[3], [5, 3, 7, 1]) && 1 in [5, 3, 7, 1];
    assert EsMinimo(vistos[4], v) && 1 in v;
  }

  /** `pop` and `get_min` on an empty stack both raise `IndexError`. */
  method EjemploPilaMinimoVacia() returns (sacado: Result<int, Error>, minimo: Result<int, Error>)
    ensures sacado == Err(IndexError) && minimo == Err(IndexError)
  {
    var pila := new PilaMinimo();
    sacado := pila.Pop();
    minimo := pila.GetMin();
  }
}

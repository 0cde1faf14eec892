/**
 * The list-backed `Pila` of Ejemplo2.py. Unlike the stack of exercise 14,
 * `pop` and `tope` on an empty stack do not raise: they return `None`.
 */
module Ejemplo2 {
  import opened Comun

  class Pila<T> {
    /** `_elementos`, bottom first; the top is the last element. */
    var elementos: seq<T>

    /** A new stack is empty. */
    constructor ()
      ensures elementos == []
    {
      elementos := [];
    }

    method Push(elemento: T)
      modifies this
      ensures elementos == old(elementos) + [elemento]
    {
      elementos := elementos + [elemento];
    }

    /** `pop`: removes and returns the top; `None` and no change when empty. */
    method Pop() returns (r: Option<T>)
      modifies this
      ensures old(elementos) == [] ==> r == None && elementos == old(elementos)
      ensures old(elementos) != [] ==>
                r == Some(Last(old(elementos))) && elementos == DropLast(old(elementos))
    {
      var vacia := EsVacia();
      if !vacia {
        r := Some(Last(elementos));
        elementos := DropLast(elementos);
      } else {
        r := None;
      }
    }

    /** `tope`: the top without removing it; `None` when empty. */
    method Tope() returns (r: Option<T>)
      ensures r.None? <==> elementos == []
      ensures r.Some? ==> |elementos| > 0 && r.value == elementos[|elementos| - 1]
    {
      var vacia := EsVacia();
      if !vacia {
        r := Some(Last(elementos));
      } else {
        r := None;
      }
    }

    /** `esVacia` */
    method EsVacia() returns (b: bool)
      ensures b <==> |elementos| == 0
    {
      return |elementos| == 0;
    }
  }

  /** `push(x)` then `tope()` sees x and leaves the stack holding x on top. */
  method PushTope<T>(p: Pila<T>, x: T) returns (r: Option<T>)
    modifies p
    ensures r == Some(x) && p.elementos == old(p.elementos) + [x]
  {
    p.Push(x);
    r := p.Tope();
  }

  /** `push(x)` then `pop()` returns x and restores the previous contents. */
  method PushPop<T>(p: Pila<T>, x: T) returns (r: Option<T>)
    modifies p
    ensures r == Some(x) && p.elementos == old(p.elementos)
  {
    p.Push(x);
    r := p.Pop();
  }

  /**
   * The script at the end of the file: a new stack is empty; push 10, 20, 30;
   * tope 30, pop 30, tope 20, pop 20, pop 10; the stack is empty again and a
   * further pop gives `None`.
   */
  method EjemploLifo() returns (vaciaAlInicio: bool, salidas: seq<Option<int>>, vaciaAlFinal: bool)
    ensures vaciaAlInicio && vaciaAlFinal
    ensures salidas == [Some(30), Some(30), Some(20), Some(20), Some(10), None]
  {
    var p := new Pila<int>();
    vaciaAlInicio := p.EsVacia();
    p.Push(10);
    p.Push(20);
    p.Push(30);
    var t1 := p.Tope();
    var s1 := p.Pop();
    var t2 := p.Tope();
    var s2 := p.Pop();
    var s3 := p.Pop();
    vaciaAlFinal := p.EsVacia();
    var s4 := p.Pop();
    salidas := [t1, s1, t2, s2, s3, s4];
  }
}

/**
 * The `Pila` class of exercise 14: a stack kept in a Python list whose end
 * is the top. `pop` and `peek` on an empty stack raise `IndexError`.
 */
module PilaTad {
  import opened Comun

  class Pila<T> {
    /** `_elementos`, bottom first; the top is the last element. */
    var elementos: seq<T>

    /** A new stack is empty. */
    constructor ()
      ensures elementos == []
    {
      elementos := [];
    }

    /** `push`: the element goes on top, so the size grows by one. */
    method Push(elemento: T)
      modifies this
      ensures elementos == old(elementos) + [elemento]
      ensures |elementos| == |old(elementos)| + 1
    {
      elementos := elementos + [elemento];
    }

    /**
     * `pop`: on an empty stack raises `IndexError` and changes nothing;
     * otherwise removes and returns the top, so the size drops by one.
     */
    method Pop() returns (r: Result<T, Error>)
      modifies this
      ensures old(elementos) == [] ==> r == Err(IndexError) && elementos == old(elementos)
      ensures old(elementos) != [] ==>
                r == Ok(Last(old(elementos))) && elementos == DropLast(old(elementos))
                && |elementos| == |old(elementos)| - 1
    {
      if |elementos| == 0 {
        return Err(IndexError);
      }
      r := Ok(Last(elementos));
      elementos := DropLast(elementos);
    }

    /** `peek`: the top without removing it, or `IndexError` on an empty stack. */
    method Peek() returns (r: Result<T, Error>)
      ensures r.Err? <==> elementos == []
      ensures r.Err? ==> r.error == IndexError
      ensures r.Ok? ==> |elementos| > 0 && r.value == elementos[|elementos| - 1]
    {
      if |elementos| == 0 {
        return Err(IndexError);
      }
      return Ok(Last(elementos));
    }

    /** `is_empty` */
    method IsEmpty() returns (b: bool)
      ensures b <==> elementos == []
    {
      return |elementos| == 0;
    }

    /** `size` */
    method Size() returns (n: nat)
      ensures n == |elementos|
    {
      return |elementos|;
    }
  }

  /** Pushing and then popping gives back the element and the previous contents. */
  method PushPop<T>(p: Pila<T>, x: T) returns (r: Result<T, Error>)
    modifies p
    ensures r == Ok(x) && p.elementos == old(p.elementos)
  {
    p.Push(x);
    r := p.Pop();
  }

  /** The worked example: push 10, 20, 30; peek is 30, pop is 30, size is 2. */
  method EjemploPila() returns (tope: Result<int, Error>, sacado: Result<int, Error>, tam: nat)
    ensures tope == Ok(30) && sacado == Ok(30) && tam == 2
  {
    var pila := new Pila<int>();
    pila.Push(10);
    pila.Push(20);
    pila.Push(30);
    tope := pila.Peek();
    sacado := pila.Pop();
    tam := pila.Size();
  }

  /** `pop` and `peek` on a new stack both raise `IndexError`. */
  method EjemploPilaVacia() returns (sacado: Result<int, Error>, tope: Result<int, Error>)
    ensures sacado == Err(IndexError) && tope == Err(IndexError)
  {
    var pila := new Pila<int>();
    sacado := pila.Pop();
    tope := pila.Peek();
  }
}

/** Shared result types: the Python exceptions the exercises raise become error values. */
module Comun {

  /** The Python exceptions raised by the modelled code. */
  datatype Error =
    | IndexError        // pop/peek on an empty list or stack
    | ValueError        // bad argument (zero denominator, unparsable token, ...)
    | ZeroDivisionError // float division by zero

  datatype Option<+T> = None | Some(value: T)

  datatype Result<+T, +E> = Ok(value: T) | Err(error: E)

  /** Last element of a non-empty sequence (Python's `lista[-1]`). */
  function Last<T>(s: seq<T>): T
    requires |s| > 0
  {
    s[|s| - 1]
  }

  /** All but the last element (what is left after Python's `lista.pop()`). */
  function DropLast<T>(s: seq<T>): seq<T>
    requires |s| > 0
  {
    s[..|s| - 1]
  }

  /** s read from its last element to its first: the order in which a stack s is emptied. */
  function Invertida<T>(s: seq<T>): seq<T>
    decreases |s|
  {
    if s == [] then [] else [Last(s)] + Invertida(DropLast(s))
  }

  /** Pushing x puts it first in the order of removal. */
  lemma InvertidaAgregar<T>(s: seq<T>, x: T)
    ensures Invertida(s + [x]) == [x] + Invertida(s)
  {
    assert DropLast(s + [x]) == s;
  }
}

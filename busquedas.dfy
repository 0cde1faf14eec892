/**
 * The searches of exercises 7, 10 and 11: linear search, the two duplicate
 * detectors (nested index loops, and one pass with a set of seen elements)
 * and binary search over a sorted list.
 */
module Busquedas {

  /** Some value occurs at two different positions of `s`. */
  predicate HayDuplicados<T(==)>(s: seq<T>)
  {
    exists i, j | 0 <= i < j < |s| :: s[i] == s[j]
  }

  /** `busqueda_lineal`: the first index holding `elemento`, or -1 when there is none. */
  method BusquedaLineal<T(==)>(lista: seq<T>, elemento: T) returns (r: int)
    ensures r == -1 <==> elemento !in lista
    ensures r != -1 ==> 0 <= r < |lista| && lista[r] == elemento && elemento !in lista[..r]
  {
    for i := 0 to |lista|
      invariant elemento !in lista[..i]
    {
      if lista[i] == elemento {
        return i;
      }
    }
    assert lista[..|lista|] == lista;
    return -1;
  }

  /** `buscar_duplicados`: compare every pair i < j, stop at the first equal pair. */
  method BuscarDuplicados<T(==)>(lista: seq<T>) returns (r: bool)
    ensures r == HayDuplicados(lista)
  {
    var n := |lista|;
    for i := 0 to n
      invariant forall p, q | 0 <= p < i && p < q < n :: lista[p] != lista[q]
    {
      for j := i + 1 to n
        invariant forall q | i < q < j :: lista[i] != lista[q]
      {
        if lista[i] == lista[j] {
          return true;
        }
      }
    }
    return false;
  }

  /** `buscar_duplicados_optimizado`: one pass that remembers the elements seen so far. */
  method BuscarDuplicadosOptimizado<T(==)>(lista: seq<T>) returns (r: bool)
    ensures r == HayDuplicados(lista)
  {
    var vistos: set<T> := {};
    for k := 0 to |lista|
      invariant forall x :: x in vistos <==> x in lista[..k]
      invariant !HayDuplicados(lista[..k])
    {
      if lista[k] in vistos {
        assert lista[k] in lista[..k];
        var i :| 0 <= i < k && lista[i] == lista[k];
        assert lista[i] == lista[k];
        return true;
      }
      SinDuplicadosExtender(lista, k);
      vistos := vistos + {lista[k]};
      assert lista[..k + 1] == lista[..k] + [lista[k]];
    }
    assert lista[..|lista|] == lista;
    return false;
  }

  /** A prefix without duplicates stays so when the next element is new. */
  lemma SinDuplicadosExtender<T>(lista: seq<T>, k: nat)
    requires k < |lista| && !HayDuplicados(lista[..k]) && lista[k] !in lista[..k]
    ensures !HayDuplicados(lista[..k + 1])
  {
    var s := lista[..k + 1];
    forall i, j | 0 <= i < j < |s|
      ensures s[i] != s[j]
    {
      assert s[i] == lista[..k][i];
      if j < k {
        assert s[j] == lista[..k][j];
      }
    }
  }

  predicate Ordenada(s: seq<int>)
  {
    forall i, j | 0 <= i < j < |s| :: s[i] <= s[j]
  }

  /**
   * `busquedaBinaria` over a sorted list: some index holding `elemento`, or
   * -1 exactly when it does not occur.
   */
  method BusquedaBinaria(lista: seq<int>, elemento: int) returns (r: int)
    requires Ordenada(lista)
    ensures r == -1 <==> elemento !in lista
    ensures r != -1 ==> 0 <= r < |lista| && lista[r] == elemento
  {
    var izq, der := 0, |lista| - 1;
    while izq <= der
      invariant 0 <= izq <= der + 1 <= |lista|
      invariant forall k | 0 <= k < izq :: lista[k] < elemento
      invariant forall k | der < k < |lista| :: lista[k] > elemento
      decreases der - izq
    {
      var medio := (izq + der) / 2;
      if lista[medio] == elemento {
        return medio;
      } else if lista[medio] < elemento {
        izq := medio + 1;
      } else {
        der := medio - 1;
      }
    }
    return -1;
  }
}

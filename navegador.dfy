/**
 * The browser history of exercise 20 (pseudocode `Navegador`): the current
 * page, a stack of earlier pages and a stack of later ones.
 */
module NavegadorTad {
  import opened Comun

  /** The state of a browser: earlier pages (bottom first), the current page, later pages. */
  datatype Historial = Historial(atras: seq<string>, actual: Option<string>, adelante: seq<string>)

  /** Either stack is non-empty only once some page is current. */
  predicate Coherente(h: Historial)
  {
    (h.atras != [] || h.adelante != []) ==> h.actual.Some?
  }

  /** `visitar`: the current page, if any, goes onto the back stack, and the forward stack is cleared. */
  function TrasVisitar(h: Historial, url: string): Historial
  {
    Historial(if h.actual.Some? then h.atras + [h.actual.value] else h.atras, Some(url), [])
  }

  /** `atras`: fails when there is no earlier page; otherwise the current page moves forward. */
  function TrasAtras(h: Historial): Option<Historial>
    requires Coherente(h)
  {
    if h.atras == [] then None
    else Some(Historial(DropLast(h.atras), Some(Last(h.atras)), h.adelante + [h.actual.value]))
  }

  /** `adelante`: fails when there is no later page; otherwise the current page moves back. */
  function TrasAdelante(h: Historial): Option<Historial>
    requires Coherente(h)
  {
    if h.adelante == [] then None
    else Some(Historial(h.atras + [h.actual.value], Some(Last(h.adelante)), DropLast(h.adelante)))
  }

  /** The pages in browsing order: the back stack, the current page, then the forward stack top first. */
  function Recorrido(h: Historial): seq<string>
  {
    h.atras + (if h.actual.Some? then [h.actual.value] else []) + Invertida(h.adelante)
  }

  /** Every operation keeps the history coherent. */
  lemma CoherenciaPreservada(h: Historial, url: string)
    requires Coherente(h)
    ensures Coherente(TrasVisitar(h, url))
    ensures TrasAtras(h).Some? ==> Coherente(TrasAtras(h).value)
    ensures TrasAdelante(h).Some? ==> Coherente(TrasAdelante(h).value)
  {
  }

  /**
   * Going back or forward moves the current position along the same
   * sequence of pages, one step, and fails exactly at either end.
   */
  lemma NavegarConservaRecorrido(h: Historial)
    requires Coherente(h)
    ensures TrasAtras(h).None? <==> h.atras == []
    ensures TrasAtras(h).Some? ==>
              Recorrido(TrasAtras(h).value) == Recorrido(h) &&
              |TrasAtras(h).value.atras| == |h.atras| - 1
    ensures TrasAdelante(h).None? <==> h.adelante == []
    ensures TrasAdelante(h).Some? ==>
              Recorrido(TrasAdelante(h).value) == Recorrido(h) &&
              |TrasAdelante(h).value.atras| == |h.atras| + 1
  {
    if h.atras != [] {
      InvertidaAgregar(h.adelante, h.actual.value);
      assert h.atras == DropLast(h.atras) + [Last(h.atras)];
    }
    if h.adelante != [] {
      var resto := DropLast(h.adelante);
      assert h.adelante == resto + [Last(h.adelante)];
      InvertidaAgregar(resto, Last(h.adelante));
    }
  }

  /** Visiting a page keeps the pages up to the current one and drops the later ones. */
  lemma VisitarTrunca(h: Historial, url: string)
    ensures Recorrido(TrasVisitar(h, url)) ==
              h.atras + (if h.actual.Some? then [h.actual.value] else []) + [url]
    ensures TrasVisitar(h, url).adelante == []
  {
  }

  /** Back then forward, or forward then back, returns to the same state. */
  lemma IdaYVuelta(h: Historial)
    requires Coherente(h)
    ensures TrasAtras(h).Some? ==>
              Coherente(TrasAtras(h).value) && TrasAdelante(TrasAtras(h).value) == Some(h)
    ensures TrasAdelante(h).Some? ==>
              Coherente(TrasAdelante(h).value) && TrasAtras(TrasAdelante(h).value) == Some(h)
  {
    if h.atras != [] {
      var h2 := Historial(DropLast(h.atras), Some(Last(h.atras)), h.adelante + [h.actual.value]);
      assert TrasAtras(h) == Some(h2);
      assert DropLast(h2.adelante) == h.adelante && Last(h2.adelante) == h.actual.value;
      assert h2.atras + [h2.actual.value] == h.atras;
      assert TrasAdelante(h2) == Some(Historial(h.atras, h.actual, h.adelante));
    }
    if h.adelante != [] {
      var h2 := Historial(h.atras + [h.actual.value], Some(Last(h.adelante)), DropLast(h.adelante));
      assert TrasAdelante(h) == Some(h2);
      assert DropLast(h2.atras) == h.atras && Last(h2.atras) == h.actual.value;
      assert h2.adelante + [h2.actual.value] == h.adelante;
      assert TrasAtras(h2) == Some(Historial(h.atras, h.actual, h.adelante));
    }
  }

  class Navegador {
    var pilaAtras: seq<string>
    var paginaActual: Option<string>
    var pilaAdelante: seq<string>

    function Estado(): Historial
      reads this
    {
      Historial(pilaAtras, paginaActual, pilaAdelante)
    }

    ghost predicate Valid()
      reads this
    {
      Coherente(Estado())
    }

    constructor ()
      ensures Valid() && Estado() == Historial([], None, [])
    {
      pilaAtras, paginaActual, pilaAdelante := [], None, [];
    }

    method Visitar(url: string)
      requires Valid()
      modifies this
      ensures Valid() && Estado() == TrasVisitar(old(Estado()), url)
    {
      if paginaActual.Some? {
        pilaAtras := pilaAtras + [paginaActual.value];
      }
      paginaActual := Some(url);
      pilaAdelante := [];
    }

    /** `atras`; `hecho` is false where the pseudocode raises "no earlier pages", and nothing changes. */
    method Atras() returns (hecho: bool)
      requires Valid()
      modifies this
      ensures Valid()
      ensures hecho <==> TrasAtras(old(Estado())).Some?
      ensures hecho ==> Estado() == TrasAtras(old(Estado())).value
      ensures !hecho ==> Estado() == old(Estado())
    {
      if pilaAtras == [] {
        return false;
      }
      pilaAdelante := pilaAdelante + [paginaActual.value];
      paginaActual := Some(Last(pilaAtras));
      pilaAtras := DropLast(pilaAtras);
      return true;
    }

    /** `adelante`; `hecho` is false where the pseudocode raises "no later pages", and nothing changes. */
    method Adelante() returns (hecho: bool)
      requires Valid()
      modifies this
      ensures Valid()
      ensures hecho <==> TrasAdelante(old(Estado())).Some?
      ensures hecho ==> Estado() == TrasAdelante(old(Estado())).value
      ensures !hecho ==> Estado() == old(Estado())
    {
      if pilaAdelante == [] {
        return false;
      }
      pilaAtras := pilaAtras + [paginaActual.value];
      paginaActual := Some(Last(pilaAdelante));
      pilaAdelante := DropLast(pilaAdelante);
      return true;
    }
  }

  /** Visit a, b, c; back twice; forward once: the current page is b and c is still ahead. */
  method EjemploNavegador() returns (actual: Option<string>, adelanteQueda: bool)
    ensures actual == Some("b") && adelanteQueda
  {
    var nav := new Navegador();
    nav.Visitar("a");
    nav.Visitar("b");
    nav.Visitar("c");
    var hecho := nav.Atras();
    hecho := nav.Atras();
    hecho := nav.Adelante();
    actual := nav.paginaActual;
    adelanteQueda := nav.pilaAdelante == ["c"];
  }
}

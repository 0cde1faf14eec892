/**
 * The undo/redo text editor of exercise 22 (pseudocode `EditorTexto`): the
 * content, a stack of earlier contents to undo to and a stack of later
 * contents to redo.
 */
module EditorTad {
  import opened Comun

  datatype Sesion = Sesion(contenido: string, deshacer: seq<string>, rehacer: seq<string>)

  /** `escribir`: save the content, append the text, forget what could be redone. */
  function TrasEscribir(s: Sesion, texto: string): Sesion
  {
    Sesion(s.contenido + texto, s.deshacer + [s.contenido], [])
  }

  /** `deshacer`: with nothing to undo, return and change nothing. */
  function TrasDeshacer(s: Sesion): Sesion
  {
    if s.deshacer == [] then s
    else Sesion(Last(s.deshacer), DropLast(s.deshacer), s.rehacer + [s.contenido])
  }

  /** `rehacer`: with nothing to redo, return and change nothing. */
  function TrasRehacer(s: Sesion): Sesion
  {
    if s.rehacer == [] then s
    else Sesion(Last(s.rehacer), s.deshacer + [s.contenido], DropLast(s.rehacer))
  }

  /** The versions of the text, oldest first: undo stack, content, redo stack top first. */
  function Versiones(s: Sesion): seq<string>
  {
    s.deshacer + [s.contenido] + Invertida(s.rehacer)
  }

  /** Each version extends the one before it: the editor only ever appends. */
  predicate Creciente(v: seq<string>)
  {
    forall i | 0 <= i < |v| - 1 :: v[i] <= v[i + 1]
  }

  /** Undo after a write brings back the content and the undo stack from before it. */
  lemma DeshacerEscribir(s: Sesion, texto: string)
    ensures TrasDeshacer(TrasEscribir(s, texto)).contenido == s.contenido
    ensures TrasDeshacer(TrasEscribir(s, texto)).deshacer == s.deshacer
    ensures TrasDeshacer(TrasEscribir(s, texto)).rehacer == [s.contenido + texto]
  {
    assert DropLast(s.deshacer + [s.contenido]) == s.deshacer;
  }

  /** Redo undoes an undo, and undo undoes a redo. */
  lemma RehacerDeshacer(s: Sesion)
    ensures s.deshacer != [] ==> TrasRehacer(TrasDeshacer(s)) == s
    ensures s.rehacer != [] ==> TrasDeshacer(TrasRehacer(s)) == s
  {
    if s.deshacer != [] {
      var t := TrasDeshacer(s);
      assert DropLast(t.rehacer) == s.rehacer;
      assert t.deshacer + [t.contenido] == s.deshacer;
    }
    if s.rehacer != [] {
      var t := TrasRehacer(s);
      assert DropLast(t.deshacer) == s.deshacer;
      assert t.rehacer + [t.contenido] == s.rehacer;
    }
  }

  /** Undo and redo move along the same versions; a write keeps the older ones and adds one. */
  lemma VersionesConservadas(s: Sesion, texto: string)
    ensures Versiones(TrasDeshacer(s)) == Versiones(s)
    ensures Versiones(TrasRehacer(s)) == Versiones(s)
    ensures Versiones(TrasEscribir(s, texto)) == s.deshacer + [s.contenido] + [s.contenido + texto]
  {
    if s.deshacer != [] {
      InvertidaAgregar(s.rehacer, s.contenido);
      assert s.deshacer == DropLast(s.deshacer) + [Last(s.deshacer)];
    }
    if s.rehacer != [] {
      var resto := DropLast(s.rehacer);
      assert s.rehacer == resto + [Last(s.rehacer)];
      InvertidaAgregar(resto, Last(s.rehacer));
    }
  }

  /** Every operation keeps each version a prefix of the next. */
  lemma CrecimientoPreservado(s: Sesion, texto: string)
    requires Creciente(Versiones(s))
    ensures Creciente(Versiones(TrasEscribir(s, texto)))
    ensures Creciente(Versiones(TrasDeshacer(s)))
    ensures Creciente(Versiones(TrasRehacer(s)))
  {
    VersionesConservadas(s, texto);
    var v := Versiones(s);
    var w := Versiones(TrasEscribir(s, texto));
    assert w == DropLast(w) + [s.contenido + texto];
    assert DropLast(w) == v[..|s.deshacer| + 1];
    forall i | 0 <= i < |w| - 1
      ensures w[i] <= w[i + 1]
    {
      if i < |w| - 2 {
        assert w[i] == v[i] && w[i + 1] == v[i + 1];
      }
    }
  }

  class EditorTexto {
    var contenido: string
    var pilaDeshacer: seq<string>
    var pilaRehacer: seq<string>

    function Estado(): Sesion
      reads this
    {
      Sesion(contenido, pilaDeshacer, pilaRehacer)
    }

    constructor ()
      ensures Estado() == Sesion("", [], [])
    {
      contenido, pilaDeshacer, pilaRehacer := "", [], [];
    }

    method Escribir(texto: string)
      modifies this
      ensures Estado() == TrasEscribir(old(Estado()), texto)
    {
      pilaDeshacer := pilaDeshacer + [contenido];
      contenido := contenido + texto;
      pilaRehacer := [];
    }

    method Deshacer()
      modifies this
      ensures Estado() == TrasDeshacer(old(Estado()))
    {
      if pilaDeshacer == [] {
        return;
      }
      pilaRehacer := pilaRehacer + [contenido];
      contenido := Last(pilaDeshacer);
      pilaDeshacer := DropLast(pilaDeshacer);
    }

    method Rehacer()
      modifies this
      ensures Estado() == TrasRehacer(old(Estado()))
    {
      if pilaRehacer == [] {
        return;
      }
      pilaDeshacer := pilaDeshacer + [contenido];
      contenido := Last(pilaRehacer);
      pilaRehacer := DropLast(pilaRehacer);
    }
  }

  /** Write "a", then "b"; undo; redo; undo twice; undo once more with nothing left. */
  method EjemploEditor() returns (vistos: seq<string>)
    ensures vistos == ["ab", "a", "ab", "", ""]
  {
    var editor := new EditorTexto();
    editor.Escribir("a");
    assert editor.contenido == "a" && editor.pilaDeshacer == [""];
    editor.Escribir("b");
    assert editor.contenido == "ab" && editor.pilaDeshacer == ["", "a"] && editor.pilaRehacer == [];
    vistos := [editor.contenido];
    editor.Deshacer();
    assert editor.pilaRehacer == ["ab"] && editor.pilaDeshacer == [""];
    vistos := vistos + [editor.contenido];
    editor.Rehacer();
    assert editor.contenido == "ab" && editor.pilaDeshacer == ["", "a"];
    vistos := vistos + [editor.contenido];
    editor.Deshacer();
    editor.Deshacer();
    assert editor.pilaDeshacer == [];
    vistos := vistos + [editor.contenido];
    editor.Deshacer();
    vistos := vistos + [editor.contenido];
  }
}

/**
 * The bank-account abstract data type `CuentaBancaria`: a holder, an account
 * number, a balance, an active flag and an append-only history of
 * transactions. Money is in whole cents; the clock is a parameter of every
 * operation that records a transaction.
 */
module CuentaBancariaTad {
  import opened Comun

  /** A point in time, as read from the clock when a transaction is recorded. */
  type Instante = int

  /** `TipoTransaccion` */
  datatype Tipo = Apertura | Deposito | Retiro | TransferenciaEnviada | TransferenciaRecibida

  /** `Transaccion`, without its free-text description. */
  datatype Transaccion = Transaccion(tipo: Tipo, monto: int, fecha: Instante, saldoResultante: int)

  /** The exceptions the account raises. */
  datatype ErrorCuenta =
    | Valor               // ValueError: blank holder or number, missing or same destination
    | CuentaBloqueada     // CuentaBloqueadaError
    | MontoInvalido       // MontoInvalidoError: amount not positive
    | SaldoInsuficiente   // SaldoInsuficienteError

  /** The value held by one account object. */
  datatype Cuenta = Cuenta(titular: string, numero: string, saldo: int,
                           historial: seq<Transaccion>, activa: bool)

  // ---------------------------------------------------------------------
  // str.strip
  // ---------------------------------------------------------------------

  /**
   * The characters that `str.strip()` removes: those for which Python's
   * `str.isspace` holds (tab to carriage return, the separators U+001C to
   * U+001F, the space, U+0085, the no-break space and the Unicode spaces).
   */
  predicate EsEspacio(c: char)
  {
    var n := c as int;
    (9 <= n <= 13) || (28 <= n <= 32) || n == 0x85 || n == 0xA0 || n == 0x1680 ||
    (0x2000 <= n <= 0x200A) || n == 0x2028 || n == 0x2029 || n == 0x202F || n == 0x205F || n == 0x3000
  }

  function SinEspaciosIzq(s: string): string
    decreases |s|
  {
    if s != [] && EsEspacio(s[0]) then SinEspaciosIzq(s[1..]) else s
  }

  function SinEspaciosDer(s: string): string
    decreases |s|
  {
    if s != [] && EsEspacio(Last(s)) then SinEspaciosDer(DropLast(s)) else s
  }

  /** `str.strip()` */
  function Strip(s: string): string
  {
    SinEspaciosDer(SinEspaciosIzq(s))
  }

  /** Stripping the left drops a run of whitespace and stops at a non-space. */
  lemma {:induction false} SinEspaciosIzqSufijo(s: string)
    ensures |SinEspaciosIzq(s)| <= |s|
    ensures SinEspaciosIzq(s) == s[|s| - |SinEspaciosIzq(s)|..]
    ensures forall i | 0 <= i < |s| - |SinEspaciosIzq(s)| :: EsEspacio(s[i])
    ensures SinEspaciosIzq(s) != [] ==> !EsEspacio(SinEspaciosIzq(s)[0])
    decreases |s|
  {
    if s != [] && EsEspacio(s[0]) {
      SinEspaciosIzqSufijo(s[1..]);
      forall i | 1 <= i < |s| - |SinEspaciosIzq(s)|
        ensures EsEspacio(s[i])
      {
        assert s[i] == s[1..][i - 1];
      }
    }
  }

  /** Stripping the right drops a run of whitespace and stops at a non-space. */
  lemma {:induction false} SinEspaciosDerPrefijo(s: string)
    ensures |SinEspaciosDer(s)| <= |s|
    ensures SinEspaciosDer(s) == s[..|SinEspaciosDer(s)|]
    ensures forall i | |SinEspaciosDer(s)| <= i < |s| :: EsEspacio(s[i])
    ensures SinEspaciosDer(s) != [] ==> !EsEspacio(Last(SinEspaciosDer(s)))
    decreases |s|
  {
    if s != [] && EsEspacio(Last(s)) {
      SinEspaciosDerPrefijo(DropLast(s));
    }
  }

  /** `s.strip() == ""` exactly when s is all whitespace (the empty string included). */
  lemma EnBlancoSiiEspacios(s: string)
    ensures Strip(s) == [] <==> forall i | 0 <= i < |s| :: EsEspacio(s[i])
  {
    SinEspaciosIzqSufijo(s);
    var r := SinEspaciosIzq(s);
    SinEspaciosDerPrefijo(r);
    if Strip(s) != [] {
      assert !EsEspacio(r[0]);
    }
  }

  /** A stripped non-blank string neither starts nor ends with whitespace. */
  lemma StripRecorta(s: string)
    requires Strip(s) != []
    ensures !EsEspacio(Strip(s)[0]) && !EsEspacio(Last(Strip(s)))
  {
    SinEspaciosIzqSufijo(s);
    SinEspaciosDerPrefijo(SinEspaciosIzq(s));
  }

  /** A string without surrounding whitespace is kept as it is. */
  lemma StripIdentidad(s: string)
    requires s != [] && !EsEspacio(s[0]) && !EsEspacio(Last(s))
    ensures Strip(s) == s
  {
    assert SinEspaciosIzq(s) == s;
  }

  // ---------------------------------------------------------------------
  // Invariants
  // ---------------------------------------------------------------------

  /** What a transaction adds to the balance. */
  function Efecto(t: Transaccion): int
  {
    match t.tipo
    case Apertura => 0
    case Deposito => t.monto
    case TransferenciaRecibida => t.monto
    case Retiro => -t.monto
    case TransferenciaEnviada => -t.monto
  }

  /**
   * The history opens with one APERTURA at balance 0; every later entry is
   * a positive movement and records the balance it left behind.
   */
  predicate Libro(h: seq<Transaccion>)
  {
    |h| >= 1 && h[0].tipo == Apertura && h[0].monto == 0 && h[0].saldoResultante == 0 &&
    forall i | 1 <= i < |h| ::
      h[i].tipo != Apertura && h[i].monto > 0 &&
      h[i].saldoResultante == h[i - 1].saldoResultante + Efecto(h[i])
  }

  /**
   * `_verificar_invariante`: I1 saldo >= 0, I2 and I3 non-empty holder and
   * number; and the history is a ledger whose last balance is the balance.
   */
  predicate Invariante(c: Cuenta)
  {
    c.saldo >= 0 && c.titular != [] && c.numero != [] &&
    Libro(c.historial) && Last(c.historial).saldoResultante == c.saldo
  }

  /** The sum of the movements of a history. */
  function Neto(h: seq<Transaccion>): int
    decreases |h|
  {
    if h == [] then 0 else Neto(DropLast(h)) + Efecto(Last(h))
  }

  /** The history accounts for the balance: it is the sum of all recorded movements. */
  lemma {:induction false} SaldoEsNeto(h: seq<Transaccion>)
    requires Libro(h)
    ensures Last(h).saldoResultante == Neto(h)
    decreases |h|
  {
    if |h| == 1 {
      assert DropLast(h) == [];
    } else {
      var e := DropLast(h);
      assert Libro(e) by {
        forall i | 1 <= i < |e|
          ensures e[i].saldoResultante == e[i - 1].saldoResultante + Efecto(e[i])
        {
          assert e[i] == h[i] && e[i - 1] == h[i - 1];
        }
      }
      SaldoEsNeto(e);
    }
  }

  // ---------------------------------------------------------------------
  // Operations on account values
  // ---------------------------------------------------------------------

  /** `__init__`: reject a blank holder, then a blank number; strip both; open with one APERTURA. */
  function Abrir(titular: string, numero: string, fecha: Instante): Result<Cuenta, ErrorCuenta>
  {
    if Strip(titular) == [] || Strip(numero) == [] then Err(Valor)
    else Ok(Cuenta(Strip(titular), Strip(numero), 0, [Transaccion(Apertura, 0, fecha, 0)], true))
  }

  /** `_registrar_transaccion`: append an entry stamped with the current balance. */
  function Registrar(c: Cuenta, tipo: Tipo, monto: int, fecha: Instante): Cuenta
  {
    c.(historial := c.historial + [Transaccion(tipo, monto, fecha, c.saldo)])
  }

  /** `depositar`: blocked account first, then a non-positive amount. */
  function TrasDepositar(c: Cuenta, monto: int, fecha: Instante): Result<Cuenta, ErrorCuenta>
  {
    if !c.activa then Err(CuentaBloqueada)
    else if monto <= 0 then Err(MontoInvalido)
    else Ok(Registrar(c.(saldo := c.saldo + monto), Deposito, monto, fecha))
  }

  /** `retirar`: blocked account, then a non-positive amount, then an amount above the balance. */
  function TrasRetirar(c: Cuenta, monto: int, fecha: Instante): Result<Cuenta, ErrorCuenta>
  {
    if !c.activa then Err(CuentaBloqueada)
    else if monto <= 0 then Err(MontoInvalido)
    else if monto > c.saldo then Err(SaldoInsuficiente)
    else Ok(Registrar(c.(saldo := c.saldo - monto), Retiro, monto, fecha))
  }

  /** `_historial[-1].tipo = tipo` */
  function TrasReetiquetar(c: Cuenta, tipo: Tipo): Cuenta
    requires c.historial != []
  {
    c.(historial := DropLast(c.historial) + [Last(c.historial).(tipo := tipo)])
  }

  /** The two accounts after a transfer, and the exception raised, if any. */
  datatype Resultado = Resultado(origen: Cuenta, destino: Option<Cuenta>, fallo: Option<ErrorCuenta>)

  /**
   * `transferir` as written: reject a missing destination and the same
   * account number, then withdraw from the origin, then deposit into the
   * destination, then retag both last entries. A failing deposit leaves the
   * withdrawal in place.
   */
  function TrasTransferir(o: Cuenta, d: Option<Cuenta>, monto: int, fecha: Instante): Resultado
  {
    if d.None? || d.value.numero == o.numero then Resultado(o, d, Some(Valor))
    else
      match TrasRetirar(o, monto, fecha)
      case Err(e) => Resultado(o, d, Some(e))
      case Ok(o2) =>
        match TrasDepositar(d.value, monto, fecha)
        case Err(e) => Resultado(o2, d, Some(e))
        case Ok(d2) =>
          Resultado(TrasReetiquetar(o2, TransferenciaEnviada), Some(TrasReetiquetar(d2, TransferenciaRecibida)), None)
  }

  /**
   * The transfer the documented precondition "both accounts must be active"
   * asks for: the destination is checked before any money moves.
   */
  function TrasTransferirAtomica(o: Cuenta, d: Option<Cuenta>, monto: int, fecha: Instante): Resultado
  {
    if d.None? || d.value.numero == o.numero then Resultado(o, d, Some(Valor))
    else if o.activa && 0 < monto <= o.saldo && !d.value.activa then Resultado(o, d, Some(CuentaBloqueada))
    else TrasTransferir(o, d, monto, fecha)
  }

  // ---------------------------------------------------------------------
  // Properties of the operations
  // ---------------------------------------------------------------------

  /**
   * Opening fails exactly on a blank holder or number; otherwise the account
   * has balance 0, is active, keeps the stripped holder and number, holds one
   * APERTURA, and satisfies the invariant.
   */
  lemma AbrirCorrecto(titular: string, numero: string, fecha: Instante)
    ensures Abrir(titular, numero, fecha).Err? <==> Strip(titular) == [] || Strip(numero) == []
    ensures Abrir(titular, numero, fecha).Err? ==> Abrir(titular, numero, fecha).error == Valor
    ensures Abrir(titular, numero, fecha).Ok? ==>
              var c := Abrir(titular, numero, fecha).value;
              Invariante(c) && c.saldo == 0 && c.activa &&
              c.titular == Strip(titular) && c.numero == Strip(numero) &&
              |c.historial| == 1 && c.historial[0].tipo == Apertura
  {
  }

  /**
   * Opening strips the holder, so axiom 4 (the holder is the one given)
   * holds only for a holder without surrounding whitespace; a holder of
   * blanks (the file separator U+001C included), or an empty number, is
   * rejected.
   */
  lemma EjemploTitularRecortado()
    ensures Abrir(" Ana ", "001", 0).Ok? && Abrir(" Ana ", "001", 0).value.titular == "Ana"
    ensures Abrir("  ", "001", 0) == Err(Valor) && Abrir("Ana", "", 0) == Err(Valor)
    ensures Abrir([28 as char], "001", 0) == Err(Valor)
    ensures Abrir("Ana", " 001 ", 0).Ok? && Abrir("Ana", " 001 ", 0).value.numero == "001"
  {
    assert SinEspaciosIzq([28 as char]) == [];
    assert " Ana "[1..] == "Ana " && DropLast("Ana ") == "Ana";
    assert SinEspaciosIzq(" Ana ") == "Ana ";
    assert SinEspaciosDer("Ana ") == "Ana";
    assert "  "[1..] == " " && " "[1..] == [];
    assert SinEspaciosIzq("  ") == [];
    assert " 001 "[1..] == "001 " && DropLast("001 ") == "001";
    assert SinEspaciosIzq(" 001 ") == "001 ";
    assert SinEspaciosDer("001 ") == "001";
  }

  /** A movement appended to a ledger keeps it a ledger. */
  lemma LibroExtendido(c: Cuenta, tipo: Tipo, monto: int, nuevo: int, fecha: Instante)
    requires Invariante(c) && tipo != Apertura && monto > 0 && nuevo >= 0
    requires nuevo == c.saldo + Efecto(Transaccion(tipo, monto, fecha, nuevo))
    ensures Invariante(Registrar(c.(saldo := nuevo), tipo, monto, fecha))
  {
    var h := Registrar(c.(saldo := nuevo), tipo, monto, fecha).historial;
    assert forall i | 0 <= i < |c.historial| :: h[i] == c.historial[i];
  }

  /**
   * Axioms 2 and 7: a deposit into a blocked account raises
   * `CuentaBloqueadaError`, a non-positive one `MontoInvalidoError`, and
   * either leaves the account as it was; otherwise the balance grows by the
   * amount, one DEPOSITO entry is appended, and the invariant holds.
   */
  lemma DepositarCorrecto(c: Cuenta, monto: int, fecha: Instante)
    requires Invariante(c)
    ensures TrasDepositar(c, monto, fecha).Err? <==> !c.activa || monto <= 0
    ensures !c.activa ==> TrasDepositar(c, monto, fecha).error == CuentaBloqueada
    ensures c.activa && monto <= 0 ==> TrasDepositar(c, monto, fecha).error == MontoInvalido
    ensures TrasDepositar(c, monto, fecha).Ok? ==>
              var c2 := TrasDepositar(c, monto, fecha).value;
              Invariante(c2) && c2.saldo == c.saldo + monto &&
              c2.historial == c.historial + [Transaccion(Deposito, monto, fecha, c2.saldo)] &&
              c2.titular == c.titular && c2.numero == c.numero && c2.activa == c.activa
  {
    if c.activa && monto > 0 {
      LibroExtendido(c, Deposito, monto, c.saldo + monto, fecha);
    }
  }

  /**
   * Axioms 3, 6 and 8: checks run in the order blocked, non-positive,
   * insufficient balance; otherwise the balance drops by the amount, one
   * RETIRO entry is appended, and the invariant (the balance stays
   * non-negative) holds.
   */
  lemma RetirarCorrecto(c: Cuenta, monto: int, fecha: Instante)
    requires Invariante(c)
    ensures TrasRetirar(c, monto, fecha).Err? <==> !c.activa || monto <= 0 || monto > c.saldo
    ensures !c.activa ==> TrasRetirar(c, monto, fecha).error == CuentaBloqueada
    ensures c.activa && monto <= 0 ==> TrasRetirar(c, monto, fecha).error == MontoInvalido
    ensures c.activa && monto > 0 && monto > c.saldo ==> TrasRetirar(c, monto, fecha).error == SaldoInsuficiente
    ensures TrasRetirar(c, monto, fecha).Ok? ==>
              var c2 := TrasRetirar(c, monto, fecha).value;
              Invariante(c2) && c2.saldo == c.saldo - monto &&
              c2.historial == c.historial + [Transaccion(Retiro, monto, fecha, c2.saldo)] &&
              c2.titular == c.titular && c2.numero == c.numero && c2.activa == c.activa
  {
    if c.activa && 0 < monto <= c.saldo {
      LibroExtendido(c, Retiro, monto, c.saldo - monto, fecha);
    }
  }

  /** Retagging a movement with a type of the same sign keeps the invariant. */
  lemma ReetiquetarInvariante(c: Cuenta, tipo: Tipo)
    requires Invariante(c) && |c.historial| >= 2
    requires Efecto(Last(c.historial).(tipo := tipo)) == Efecto(Last(c.historial)) && tipo != Apertura
    ensures Invariante(TrasReetiquetar(c, tipo))
    ensures TrasReetiquetar(c, tipo).saldo == c.saldo && |TrasReetiquetar(c, tipo).historial| == |c.historial|
  {
    var h := TrasReetiquetar(c, tipo).historial;
    assert forall i | 0 <= i < |c.historial| - 1 :: h[i] == c.historial[i];
  }

  /**
   * Axiom 9 as written, the rejections: a missing destination or the same
   * number raise `ValueError`, an origin that cannot pay raises the
   * withdrawal's error, and in both cases neither account changes.
   */
  lemma TransferirRechazada(o: Cuenta, d: Option<Cuenta>, monto: int, fecha: Instante)
    requires Invariante(o)
    ensures var r := TrasTransferir(o, d, monto, fecha);
            (r.fallo == Some(Valor) <==> d.None? || d.value.numero == o.numero) &&
            (d.None? || d.value.numero == o.numero ==> r.origen == o && r.destino == d)
    ensures d.Some? && d.value.numero != o.numero && TrasRetirar(o, monto, fecha).Err? ==>
              TrasTransferir(o, d, monto, fecha) == Resultado(o, d, Some(TrasRetirar(o, monto, fecha).error))
  {
    RetirarCorrecto(o, monto, fecha);
  }

  /**
   * Axiom 9 as written, the success: the transfer goes through exactly when
   * the destination exists with another number, both accounts are active and
   * the origin can pay; then the origin loses the amount, the destination
   * gains it, the sum of the balances is conserved, both histories grow by
   * one retagged entry, and both invariants hold.
   */
  lemma TransferirExitosa(o: Cuenta, d: Option<Cuenta>, monto: int, fecha: Instante)
    requires Invariante(o) && (d.Some? ==> Invariante(d.value))
    ensures TrasTransferir(o, d, monto, fecha).fallo.None? <==>
              d.Some? && d.value.numero != o.numero && o.activa && d.value.activa && 0 < monto <= o.saldo
    ensures var r := TrasTransferir(o, d, monto, fecha);
            r.fallo.None? ==>
               d.Some? && r.destino.Some? &&
               Invariante(r.origen) && Invariante(r.destino.value) &&
               r.origen.saldo == o.saldo - monto && r.destino.value.saldo == d.value.saldo + monto &&
               r.origen.saldo + r.destino.value.saldo == o.saldo + d.value.saldo &&
               |r.origen.historial| == |o.historial| + 1 &&
               Last(r.origen.historial).tipo == TransferenciaEnviada &&
               |r.destino.value.historial| == |d.value.historial| + 1 &&
               Last(r.destino.value.historial).tipo == TransferenciaRecibida
    ensures var r := TrasTransferir(o, d, monto, fecha);
            r.fallo.None? ==>
               d.Some? && r.destino.Some? &&
               r.origen.titular == o.titular && r.origen.numero == o.numero && r.origen.activa &&
               r.origen.historial[..|o.historial|] == o.historial &&
               r.destino.value.titular == d.value.titular && r.destino.value.numero == d.value.numero &&
               r.destino.value.activa && r.destino.value.historial[..|d.value.historial|] == d.value.historial
  {
    RetirarCorrecto(o, monto, fecha);
    if d.Some? {
      DepositarCorrecto(d.value, monto, fecha);
    }
    if d.Some? && d.value.numero != o.numero && o.activa && d.value.activa && 0 < monto <= o.saldo {
      var o2 := TrasRetirar(o, monto, fecha).value;
      var d2 := TrasDepositar(d.value, monto, fecha).value;
      ReetiquetarInvariante(o2, TransferenciaEnviada);
      ReetiquetarInvariante(d2, TransferenciaRecibida);
      var r := TrasTransferir(o, d, monto, fecha);
      assert r.origen == TrasReetiquetar(o2, TransferenciaEnviada);
      assert r.destino.value == TrasReetiquetar(d2, TransferenciaRecibida);
      assert r.origen.historial[..|o.historial|] == o.historial;
      assert r.destino.value.historial[..|d.value.historial|] == d.value.historial;
    }
  }


  /**
   * The non-atomic case: when the origin can pay but the destination is
   * blocked, the origin keeps the withdrawal, the destination is untouched,
   * and the sum of the balances drops by the amount.
   */
  lemma TransferenciaParcial(o: Cuenta, d: Cuenta, monto: int, fecha: Instante)
    requires Invariante(o) && Invariante(d) && d.numero != o.numero
    requires o.activa && 0 < monto <= o.saldo && !d.activa
    ensures var r := TrasTransferir(o, Some(d), monto, fecha);
            r.fallo == Some(CuentaBloqueada) && r.destino == Some(d) &&
            r.origen.saldo == o.saldo - monto &&
            r.origen.saldo + d.saldo == o.saldo + d.saldo - monto &&
            Last(r.origen.historial).tipo == Retiro && Invariante(r.origen)
  {
    RetirarCorrecto(o, monto, fecha);
  }

  /**
   * Whatever path a transfer takes (rejected, partial or complete), both
   * accounts still satisfy `_verificar_invariante` afterwards; the same holds
   * for the corrected transfer.
   */
  lemma TransferirInvariante(o: Cuenta, d: Option<Cuenta>, monto: int, fecha: Instante)
    requires Invariante(o) && (d.Some? ==> Invariante(d.value))
    ensures var r := TrasTransferir(o, d, monto, fecha);
            Invariante(r.origen) && (r.destino.Some? ==> Invariante(r.destino.value))
    ensures var r := TrasTransferirAtomica(o, d, monto, fecha);
            Invariante(r.origen) && (r.destino.Some? ==> Invariante(r.destino.value))
  {
    TransferirRechazada(o, d, monto, fecha);
    TransferirExitosa(o, d, monto, fecha);
    RetirarCorrecto(o, monto, fecha);
  }

  /** A concrete instance: 100.00 sent to a blocked account disappears from the total. */
  lemma TransferenciaNoAtomica()
    ensures var o := Cuenta("Ana", "001", 10000, [Transaccion(Apertura, 0, 0, 0), Transaccion(Deposito, 10000, 1, 10000)], true);
            var d := Cuenta("Luis", "002", 0, [Transaccion(Apertura, 0, 0, 0)], false);
            Invariante(o) && Invariante(d) &&
            var r := TrasTransferir(o, Some(d), 10000, 2);
            r.fallo == Some(CuentaBloqueada) && r.origen.saldo + r.destino.value.saldo == 0
  {
  }

  /**
   * The corrected transfer either moves the amount from one account to the
   * other, conserving the sum, or raises and leaves both accounts as they
   * were; it agrees with `transferir` whenever the destination is active.
   */
  lemma TransferirAtomicaCorrecta(o: Cuenta, d: Option<Cuenta>, monto: int, fecha: Instante)
    requires Invariante(o) && (d.Some? ==> Invariante(d.value))
    ensures var r := TrasTransferirAtomica(o, d, monto, fecha);
            (r.fallo.Some? ==> r.origen == o && r.destino == d) &&
            (r.fallo.None? ==>
               d.Some? && r.destino.Some? && Invariante(r.origen) && Invariante(r.destino.value) &&
               r.origen.saldo + r.destino.value.saldo == o.saldo + d.value.saldo &&
               r.origen.saldo == o.saldo - monto)
    ensures d.Some? && d.value.activa ==> TrasTransferirAtomica(o, d, monto, fecha) == TrasTransferir(o, d, monto, fecha)
  {
    TransferirRechazada(o, d, monto, fecha);
    TransferirExitosa(o, d, monto, fecha);
    if d.Some? && d.value.numero != o.numero && TrasRetirar(o, monto, fecha).Ok? {
      DepositarCorrecto(d.value, monto, fecha);
    }
  }

  // ---------------------------------------------------------------------
  // The account object
  // ---------------------------------------------------------------------

  class CuentaBancaria {
    var titular: string
    var numeroCuenta: string
    var saldo: int
    var historial: seq<Transaccion>
    var activa: bool

    /** The value this object holds. */
    function Estado(): Cuenta
      reads this
    {
      Cuenta(titular, numeroCuenta, saldo, historial, activa)
    }

    ghost predicate Valid()
      reads this
    {
      Invariante(Estado())
    }

    /** The body of `__init__` once both arguments have passed their checks. */
    constructor (titular: string, numeroCuenta: string, fecha: Instante)
      requires Abrir(titular, numeroCuenta, fecha).Ok?
      ensures Valid() && Estado() == Abrir(titular, numeroCuenta, fecha).value
    {
      this.titular := Strip(titular);
      this.numeroCuenta := Strip(numeroCuenta);
      saldo := 0;
      historial := [Transaccion(Apertura, 0, fecha, 0)];
      activa := true;
    }

    /** `CuentaBancaria(titular, numero_cuenta)`, raising `ValueError` on a blank argument. */
    static method Crear(titular: string, numeroCuenta: string, fecha: Instante)
      returns (r: Result<CuentaBancaria, ErrorCuenta>)
      ensures r.Err? <==> Abrir(titular, numeroCuenta, fecha).Err?
      ensures r.Err? ==> r.error == Valor
      ensures r.Ok? ==> fresh(r.value) && r.value.Valid() &&
                        r.value.Estado() == Abrir(titular, numeroCuenta, fecha).value
    {
      if Strip(titular) == [] || Strip(numeroCuenta) == [] {
        return Err(Valor);
      }
      var cuenta := new CuentaBancaria(titular, numeroCuenta, fecha);
      return Ok(cuenta);
    }

    method Depositar(monto: int, fecha: Instante) returns (fallo: Option<ErrorCuenta>)
      requires Valid()
      modifies this
      ensures Valid()
      ensures fallo.Some? <==> TrasDepositar(old(Estado()), monto, fecha).Err?
      ensures fallo.Some? ==>
                fallo.value == TrasDepositar(old(Estado()), monto, fecha).error &&
                Estado() == old(Estado())
      ensures fallo.None? ==> Estado() == TrasDepositar(old(Estado()), monto, fecha).value
      ensures fallo.None? ==> |historial| >= 2 && Last(historial) == Transaccion(Deposito, monto, fecha, saldo)
    {
      DepositarCorrecto(Estado(), monto, fecha);
      if !activa {
        return Some(CuentaBloqueada);
      }
      if monto <= 0 {
        return Some(MontoInvalido);
      }
      saldo := saldo + monto;
      historial := historial + [Transaccion(Deposito, monto, fecha, saldo)];
      return None;
    }

    /** `retirar`, which returns the amount withdrawn. */
    method Retirar(monto: int, fecha: Instante) returns (r: Result<int, ErrorCuenta>)
      requires Valid()
      modifies this
      ensures Valid()
      ensures r.Err? <==> TrasRetirar(old(Estado()), monto, fecha).Err?
      ensures r.Err? ==>
                r.error == TrasRetirar(old(Estado()), monto, fecha).error &&
                Estado() == old(Estado())
      ensures r.Ok? ==>
                r.value == monto && Estado() == TrasRetirar(old(Estado()), monto, fecha).value
      ensures r.Ok? ==> |historial| >= 2 && Last(historial) == Transaccion(Retiro, monto, fecha, saldo)
    {
      RetirarCorrecto(Estado(), monto, fecha);
      if !activa {
        return Err(CuentaBloqueada);
      }
      if monto <= 0 {
        return Err(MontoInvalido);
      }
      if monto > saldo {
        return Err(SaldoInsuficiente);
      }
      saldo := saldo - monto;
      historial := historial + [Transaccion(Retiro, monto, fecha, saldo)];
      return Ok(monto);
    }

    /** `_historial[-1].tipo = tipo` */
    method Reetiquetar(tipo: Tipo)
      requires historial != []
      modifies this
      ensures Estado() == TrasReetiquetar(old(Estado()), tipo)
    {
      historial := DropLast(historial) + [Last(historial).(tipo := tipo)];
    }

    /** `transferir` as written: a blocked destination is found only after the withdrawal. */
    method Transferir(destino: CuentaBancaria?, monto: int, fecha: Instante) returns (fallo: Option<ErrorCuenta>)
      requires Valid() && (destino != null ==> destino.Valid())
      modifies this, destino
      ensures Valid() && (destino != null ==> destino.Valid())
      ensures var r := TrasTransferir(old(Estado()), if destino == null then None else Some(old(destino.Estado())), monto, fecha);
              fallo == r.fallo && Estado() == r.origen &&
              (destino != null ==> r.destino == Some(destino.Estado()))
    {
      if destino == null {
        return Some(Valor);
      }
      if destino.numeroCuenta == numeroCuenta {
        return Some(Valor);
      }
      var retiro := Retirar(monto, fecha);
      if retiro.Err? {
        return Some(retiro.error);
      }
      fallo := destino.Depositar(monto, fecha);
      if fallo.Some? {
        return fallo;
      }
      MarcarTransferencia(destino);
      return None;
    }

    /**
     * The retagging at the end of `transferir`: the withdrawal just recorded
     * here and the deposit just recorded in the destination become the two
     * halves of a transfer, and both invariants still hold.
     */
    method MarcarTransferencia(destino: CuentaBancaria)
      requires this != destino && Valid() && destino.Valid()
      requires |historial| >= 2 && Last(historial).tipo == Retiro
      requires |destino.historial| >= 2 && Last(destino.historial).tipo == Deposito
      modifies this, destino
      ensures Valid() && destino.Valid()
      ensures Estado() == TrasReetiquetar(old(Estado()), TransferenciaEnviada)
      ensures destino.Estado() == TrasReetiquetar(old(destino.Estado()), TransferenciaRecibida)
    {
      ReetiquetarInvariante(Estado(), TransferenciaEnviada);
      Reetiquetar(TransferenciaEnviada);
      ReetiquetarInvariante(destino.Estado(), TransferenciaRecibida);
      destino.Reetiquetar(TransferenciaRecibida);
    }

    /** The corrected transfer: the destination's state is checked before any money moves. */
    method TransferirAtomica(destino: CuentaBancaria?, monto: int, fecha: Instante) returns (fallo: Option<ErrorCuenta>)
      requires Valid() && (destino != null ==> destino.Valid())
      modifies this, destino
      ensures Valid() && (destino != null ==> destino.Valid())
      ensures var r := TrasTransferirAtomica(old(Estado()), if destino == null then None else Some(old(destino.Estado())), monto, fecha);
              fallo == r.fallo && Estado() == r.origen &&
              (destino != null ==> r.destino == Some(destino.Estado()))
    {
      TransferirInvariante(Estado(), if destino == null then None else Some(destino.Estado()), monto, fecha);
      if destino != null && destino.numeroCuenta != numeroCuenta &&
         activa && 0 < monto <= saldo && !destino.activa {
        return Some(CuentaBloqueada);
      }
      fallo := Transferir(destino, monto, fecha);
    }

    /** `consultar_saldo`, never negative. */
    method ConsultarSaldo() returns (s: int)
      requires Valid()
      ensures s == saldo && s >= 0
    {
      return saldo;
    }

    /** `obtener_titular`, never empty. */
    method ObtenerTitular() returns (t: string)
      requires Valid()
      ensures t == titular && t != []
    {
      return titular;
    }

    /** `obtener_numero_cuenta`, never empty. */
    method ObtenerNumeroCuenta() returns (n: string)
      requires Valid()
      ensures n == numeroCuenta && n != []
    {
      return numeroCuenta;
    }

    /** `obtener_historial`: a copy, which begins with the APERTURA. */
    method ObtenerHistorial() returns (h: seq<Transaccion>)
      requires Valid()
      ensures h == historial && |h| >= 1 && h[0].tipo == Apertura
    {
      return historial;
    }

    /** `esta_activa` */
    method EstaActiva() returns (b: bool)
      ensures b == activa
    {
      return activa;
    }

    /** `bloquear_cuenta`: only the active flag changes. */
    method BloquearCuenta()
      requires Valid()
      modifies this
      ensures Valid() && Estado() == old(Estado()).(activa := false)
    {
      activa := false;
    }

    /** `activar_cuenta`: only the active flag changes. */
    method ActivarCuenta()
      requires Valid()
      modifies this
      ensures Valid() && Estado() == old(Estado()).(activa := true)
    {
      activa := true;
    }
  }
  // ---------------------------------------------------------------------
  // Worked examples
  // ---------------------------------------------------------------------

  /** An account opened with a holder and a number that need no stripping. */
  method NuevaCuenta(titular: string, numero: string) returns (c: CuentaBancaria)
    requires titular != [] && !EsEspacio(titular[0]) && !EsEspacio(Last(titular))
    requires numero != [] && !EsEspacio(numero[0]) && !EsEspacio(Last(numero))
    ensures fresh(c) && c.Valid()
    ensures c.titular == titular && c.numeroCuenta == numero
    ensures c.saldo == 0 && c.activa && |c.historial| == 1 && c.historial[0].tipo == Apertura
  {
    StripIdentidad(titular);
    StripIdentidad(numero);
    c := new CuentaBancaria(titular, numero, 0);
  }

  /** A new account has balance 0 (axiom 1). */
  method EjemploCuentaNueva() returns (saldo: int, historial: seq<Transaccion>)
    ensures saldo == 0 && |historial| == 1 && historial[0].tipo == Apertura
  {
    var cuenta := NuevaCuenta("Juan", "001-2024-001");
    saldo := cuenta.ConsultarSaldo();
    historial := cuenta.ObtenerHistorial();
  }

  /** Four successful operations leave five history entries. */
  method EjemploHistorial() returns (saldo: int, entradas: int)
    ensures saldo == 140000 && entradas == 5
  {
    var cuenta := NuevaCuenta("Elena", "001-2024-008");
    var f1 := cuenta.Depositar(100000, 1);
    var f2 := cuenta.Depositar(50000, 2);
    assert cuenta.saldo == 150000 && |cuenta.historial| == 3;
    var r := cuenta.Retirar(30000, 3);
    var f3 := cuenta.Depositar(20000, 4);
    saldo := cuenta.ConsultarSaldo();
    var h := cuenta.ObtenerHistorial();
    entradas := |h|;
  }

  /** An account opened with a clean holder and number, then credited with one deposit. */
  method CuentaConSaldo(titular: string, numero: string, monto: int) returns (c: CuentaBancaria)
    requires titular != [] && !EsEspacio(titular[0]) && !EsEspacio(Last(titular))
    requires numero != [] && !EsEspacio(numero[0]) && !EsEspacio(Last(numero))
    requires monto > 0
    ensures fresh(c) && c.Valid() && c.activa
    ensures c.numeroCuenta == numero && c.saldo == monto && |c.historial| == 2
  {
    c := NuevaCuenta(titular, numero);
    var f := c.Depositar(monto, 1);
  }

  /**
   * Axioms 6 and 7 and the amount checks: a negative deposit, a zero
   * withdrawal and a withdrawal above the balance are rejected and the
   * balance stays as it was.
   */
  method EjemploMontosInvalidos() returns (negativo: Option<ErrorCuenta>, cero: Result<int, ErrorCuenta>,
                                           excesivo: Result<int, ErrorCuenta>, saldo: int)
    ensures negativo == Some(MontoInvalido) && cero == Err(MontoInvalido)
    ensures excesivo == Err(SaldoInsuficiente) && saldo == 100000
  {
    var cuenta := CuentaConSaldo("Ana", "001-2024-004", 100000);
    negativo := cuenta.Depositar(-10000, 2);
    cero := cuenta.Retirar(0, 3);
    excesivo := cuenta.Retirar(150000, 4);
    saldo := cuenta.ConsultarSaldo();
  }

  /** A blocked account refuses a deposit; reactivated, it holds what it held before. */
  method EjemploCuentaBloqueada() returns (bloqueada: Option<ErrorCuenta>, saldo: int, activa: bool)
    ensures bloqueada == Some(CuentaBloqueada) && saldo == 50000 && activa
  {
    var cuenta := CuentaConSaldo("Pedro", "001-2024-007", 50000);
    cuenta.BloquearCuenta();
    bloqueada := cuenta.Depositar(10000, 2);
    cuenta.ActivarCuenta();
    saldo := cuenta.ConsultarSaldo();
    activa := cuenta.EstaActiva();
  }

  /** The payroll accounts: the company holding 50000.00 and two empty employee accounts. */
  method CuentasNomina() returns (empresa: CuentaBancaria, empleado1: CuentaBancaria, empleado2: CuentaBancaria)
    ensures fresh(empresa) && fresh(empleado1) && fresh(empleado2)
    ensures empresa.Valid() && empleado1.Valid() && empleado2.Valid()
    ensures empresa != empleado1 && empresa != empleado2 && empleado1 != empleado2
    ensures empresa.numeroCuenta == "EMP-2024-001" && empleado1.numeroCuenta == "EMP-001-2024" &&
            empleado2.numeroCuenta == "EMP-002-2024"
    ensures empresa.activa && empleado1.activa && empleado2.activa
    ensures empresa.saldo == 5000000 && empleado1.saldo == 0 && empleado2.saldo == 0
  {
    empresa := CuentaConSaldo("Tech Solutions", "EMP-2024-001", 5000000);
    empleado1 := NuevaCuenta("Sofia", "EMP-001-2024");
    empleado2 := NuevaCuenta("Diego", "EMP-002-2024");
  }

  /** One salary paid by `transferir` between two active accounts with different numbers. */
  method Pagar(empresa: CuentaBancaria, empleado: CuentaBancaria, salario: int) returns (fallo: Option<ErrorCuenta>)
    requires empresa.Valid() && empleado.Valid() && empresa.numeroCuenta != empleado.numeroCuenta
    requires empresa.activa && empleado.activa && 0 < salario <= empresa.saldo
    modifies empresa, empleado
    ensures empresa.Valid() && empleado.Valid() && empresa.activa && empleado.activa
    ensures empresa.numeroCuenta == old(empresa.numeroCuenta) && empleado.numeroCuenta == old(empleado.numeroCuenta)
    ensures fallo == None
    ensures empresa.saldo == old(empresa.saldo) - salario && empleado.saldo == old(empleado.saldo) + salario
  {
    TransferirExitosa(empresa.Estado(), Some(empleado.Estado()), salario, 0);
    fallo := empresa.Transferir(empleado, salario, 0);
  }

  /** Axiom 9: 1500.00 sent from an account holding 3000.00 to a new one. */
  method EjemploTransferencia() returns (fallo: Option<ErrorCuenta>, origen: int, destino: int)
    ensures fallo == None && origen == 150000 && destino == 150000
  {
    var cuentaOrigen := CuentaConSaldo("Roberto", "001-2024-005", 300000);
    var cuentaDestino := NuevaCuenta("Laura", "001-2024-006");
    assert cuentaOrigen.numeroCuenta[11] != cuentaDestino.numeroCuenta[11];
    fallo := Pagar(cuentaOrigen, cuentaDestino, 150000);
    origen := cuentaOrigen.ConsultarSaldo();
    destino := cuentaDestino.ConsultarSaldo();
  }

  /** Payroll: two salaries paid from the company account; the total stays 50000.00. */
  method EjemploNomina() returns (empresa: int, empleado1: int, empleado2: int)
    ensures empresa == 4470000 && empleado1 == 250000 && empleado2 == 280000
    ensures empresa + empleado1 + empleado2 == 5000000
  {
    var cuentaEmpresa, cuenta1, cuenta2 := CuentasNomina();
    assert "EMP-2024-001"[4] != "EMP-001-2024"[4] && "EMP-2024-001"[4] != "EMP-002-2024"[4];
    var f1 := Pagar(cuentaEmpresa, cuenta1, 250000);
    var f2 := Pagar(cuentaEmpresa, cuenta2, 280000);
    empresa := cuentaEmpresa.saldo;
    empleado1 := cuenta1.saldo;
    empleado2 := cuenta2.saldo;
  }

  /** Two fresh accounts, "001" holding 100.00 and "002" blocked and empty. */
  method CuentasDePrueba() returns (origen: CuentaBancaria, destino: CuentaBancaria)
    ensures fresh(origen) && fresh(destino) && origen.Valid() && destino.Valid()
    ensures origen.numeroCuenta == "001" && destino.numeroCuenta == "002"
    ensures origen.saldo == 10000 && origen.activa && destino.saldo == 0 && !destino.activa
  {
    origen := CuentaConSaldo("Ana", "001", 10000);
    destino := NuevaCuenta("Luis", "002");
    destino.BloquearCuenta();
  }

  /**
   * A transfer to a blocked account: `transferir` raises after debiting the
   * origin, so 100.00 leaves the system.
   */
  method EjemploDestinoBloqueado() returns (fallo: Option<ErrorCuenta>, total: int)
    ensures fallo == Some(CuentaBloqueada) && total == 0
  {
    var origen, destino := CuentasDePrueba();
    fallo := origen.Transferir(destino, 10000, 2);
    total := origen.saldo + destino.saldo;
  }

  /** The atomic transfer to the same blocked account raises first and keeps the 100.00. */
  method EjemploDestinoBloqueadoAtomica() returns (fallo: Option<ErrorCuenta>, total: int)
    ensures fallo == Some(CuentaBloqueada) && total == 10000
  {
    var origen, destino := CuentasDePrueba();
    fallo := origen.TransferirAtomica(destino, 10000, 2);
    total := origen.saldo + destino.saldo;
  }
}

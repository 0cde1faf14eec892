# EstructuraDatos in Dafny

This project models the data-structure exercises of the repository:
- the worked solutions of the exercise sheet `TareaEjercicio.py`;
- the bank-account abstract data type of `tad_cuenta_bancaria.py`;
- the small stack of `Ejemplo2.py`.

It proves the properties these programs promise about themselves.

One module per program part:

| module | file | models |
|---|---|---|
| `Comun` | comun.dfy | Python's `IndexError`, `ValueError` and `ZeroDivisionError` as a `Result`; `list[-1]`; list reversal |
| `Fracciones` | fraccion.dfy | `Fraccion`: gcd normalisation and the four operators |
| `Busquedas` | busquedas.dfy | `busqueda_lineal`, `buscar_duplicados`, `buscar_duplicados_optimizado`, binary search |
| `PilaTad` | pila.dfy | the `Pila` class of exercise 14, which raises on an empty stack |
| `Ejemplo2` | ejemplo2.dfy | the `Pila` class of `Ejemplo2.py`, which answers `None` on an empty stack |
| `PilaMinimoTad` | pila_minimo.dfy | `PilaMinimo`, the stack with a constant-time minimum |
| `Delimitadores` | delimitadores.dfy | `validar_parentesis` and the bracket-matching pseudocode of exercise 17 |
| `Expresiones` | expresiones.dfy | `evaluar_postfija` over tokens, with an expression tree as its reference |
| `InfijaPostfija` | infija.dfy | the Shunting-Yard pseudocode of exercise 19 |
| `NavegadorTad` | navegador.dfy | the browser history of exercise 20 |
| `EditorTad` | editor.dfy | the undo/redo editor of exercise 22 |
| `CuentaBancariaTad` | cuenta_bancaria.dfy | `CuentaBancaria`: deposits, withdrawals, transfers, invariants |

Classes whose lists the source mutates in place are Dafny classes. Their `seq` fields are reassigned by methods with `modifies` clauses. Each such method ties its new state to a function of the old one (`Estado() == TrasDepositar(old(Estado()), ...)`). The lemmas prove their properties about those functions.

The loops of the source are methods with loop invariants, each proved against a specification function:
- `validar_parentesis`, the delimiter pseudocode, `evaluar_postfija` and `infijaAPostfija`;
- the searches.

Python exceptions become `Err` results. The error order is the source's.

Money is an integer number of cents, and the evaluator's floats are `real`. The clock read by `datetime.now()` is a parameter of every operation that records a transaction.

The bank-account axioms in the docstring at `tad_cuenta_bancaria.py:53-81` and the code disagree in three places; the model follows the code:
- **Axiom 4.** The holder is the one given only when it has no surrounding whitespace, because the constructor strips it (`EjemploTitularRecortado`).
- **Axiom 5.** The number is the one given only when it has no surrounding whitespace, for the same reason: " 001 " is stored as "001" (`EjemploTitularRecortado`).
- **Axiom 9 and `transferir`.** Under axiom 9 a transfer is a withdrawal and a deposit, and the docstring requires both accounts to be active. The code only ever checks the destination inside `depositar`, after the origin has been debited. See "Findings".

## Model

| member | source | states |
|---|---|---|
| Fracciones.Crear | TareaEjercicio.py:119-138 | `ValueError` exactly when the denominator is 0; otherwise a fraction in lowest terms with positive denominator whose value is numerator/denominator |
| Fracciones.ReducidaCorrecta | TareaEjercicio.py:130-138 | dividing by the gcd and moving the sign to the numerator gives gcd 1, a positive denominator, and the same ratio |
| Fracciones.Simplificar | TareaEjercicio.py:130-138 | the normalised fraction cross-multiplies equal to the input pair |
| Fracciones.Coprimos | TareaEjercicio.py:132-134 | after dividing both numbers by their gcd, the quotients have gcd 1 |
| Fracciones.GcdDivide | TareaEjercicio.py:132 | `gcd` divides both arguments and is positive |
| Fracciones.GcdMaximo | TareaEjercicio.py:132 | every common divisor divides `gcd` |
| Fracciones.Gcd | TareaEjercicio.py:132 | Euclid's algorithm, as `math.gcd` on the absolute values |
| Fracciones.Sumar | TareaEjercicio.py:140-144 | the value of the sum is the sum of the values |
| Fracciones.Restar | TareaEjercicio.py:146-150 | the value of the difference is the difference of the values |
| Fracciones.Multiplicar | TareaEjercicio.py:152-155 | the value of the product is the product of the values |
| Fracciones.Dividir | TareaEjercicio.py:157-160 | `ValueError` exactly when the divisor is worth 0 (the new denominator is 0); otherwise the value is the quotient of the values |
| Fracciones.Canonica | TareaEjercicio.py:130-138 | two normalised fractions of equal value are identical |
| Fracciones.SumarConmuta | TareaEjercicio.py:140-144 | `a + b == b + a` as normalised fractions |
| Fracciones.MultiplicarConmuta | TareaEjercicio.py:152-155 | `a * b == b * a` as normalised fractions |
| Fracciones.RestarSumar | TareaEjercicio.py:140-150 | `(a + b) - b == a` |
| Fracciones.DividirMultiplicar | TareaEjercicio.py:152-160 | `(a * b) / b == a` when b is not 0 |
| Fracciones.EjemploFraccion | TareaEjercicio.py:165-170 | 1/2 + 1/3 = 5/6, 1/2 * 1/3 = 1/6, 6/-4 = -3/2, a 0 denominator and division by 0/1 raise |
| Busquedas.BusquedaLineal | TareaEjercicio.py:258-265 | -1 exactly when the element is absent; otherwise the first index holding it |
| Busquedas.BuscarDuplicados | TareaEjercicio.py:348-357 | true exactly when some i < j have equal elements |
| Busquedas.BuscarDuplicadosOptimizado | TareaEjercicio.py:389-396 | the same answer as `BuscarDuplicados`, using the set of values seen so far |
| Busquedas.SinDuplicadosExtender | TareaEjercicio.py:391-395 | a duplicate-free prefix stays so when the next element is new to the set |
| Busquedas.BusquedaBinaria | TareaEjercicio.py:410-423 | on a sorted list, -1 exactly when the element is absent, otherwise an index holding it |
| PilaTad.Pila.constructor | TareaEjercicio.py:496-498 | a new stack is empty |
| PilaTad.Pila.Push | TareaEjercicio.py:500-505 | the element goes on top and the size grows by 1 |
| PilaTad.Pila.Pop | TareaEjercicio.py:507-515 | `IndexError` on an empty stack with nothing changed; otherwise returns the top and removes it |
| PilaTad.Pila.Peek | TareaEjercicio.py:517-524 | `IndexError` exactly when empty; otherwise the top, without changing the stack |
| PilaTad.Pila.IsEmpty | TareaEjercicio.py:526-528 | true exactly when there are no elements |
| PilaTad.Pila.Size | TareaEjercicio.py:530-532 | the number of elements |
| PilaTad.PushPop | TareaEjercicio.py:500-515 | push then pop returns the pushed element and restores the stack |
| PilaTad.EjemploPila | TareaEjercicio.py:537-546 | push 10, 20, 30 gives peek 30, pop 30, size 2 |
| PilaTad.EjemploPilaVacia | TareaEjercicio.py:507-524 | pop and peek on a new stack raise `IndexError` |
| Ejemplo2.Pila.constructor | Ejemplo2.py:4-5 | a new stack is empty |
| Ejemplo2.Pila.Push | Ejemplo2.py:7-8 | the element goes on top |
| Ejemplo2.Pila.Pop | Ejemplo2.py:10-12 | `None` on an empty stack with nothing changed; otherwise the top, removed |
| Ejemplo2.Pila.Tope | Ejemplo2.py:14-16 | `None` exactly when empty; otherwise the top; the stack is not changed |
| Ejemplo2.Pila.EsVacia | Ejemplo2.py:18-19 | true exactly when there are no elements |
| Ejemplo2.PushTope | Ejemplo2.py:7-16 | `tope` after `push(x)` is x |
| Ejemplo2.PushPop | Ejemplo2.py:7-12 | `pop` after `push(x)` is x and restores the stack |
| Ejemplo2.EjemploLifo | Ejemplo2.py:24-40 | empty at first; tope 30, pop 30, tope 20, pop 20, pop 10; empty at the end; one more pop gives `None` |
| PilaMinimoTad.RegistrosMinimo | TareaEjercicio.py:985-991 | the minima stack is empty exactly when the stack is; its top is the minimum of the elements; it holds only elements |
| PilaMinimoTad.RegistrosNoCrecientes | TareaEjercicio.py:985-991 | the minima stack never increases from bottom to top |
| PilaMinimoTad.RegistrosCorrectos | TareaEjercicio.py:985-1016 | both of the above, for whatever elements were pushed |
| PilaMinimoTad.Registros | TareaEjercicio.py:985-1004 | the `pila_min` that the pushes build: an element is stacked when the minima stack is empty or it is at most the current minimum |
| PilaMinimoTad.RegistrosAlSacar | TareaEjercicio.py:993-1004 | popping drops the top minimum exactly when it equals the popped element, which leaves the minima of the remaining elements |
| PilaMinimoTad.PilaMinimo.constructor | TareaEjercicio.py:981-983 | a new stack is empty and its minima stack is right |
| PilaMinimoTad.PilaMinimo.Push | TareaEjercicio.py:985-991 | the element goes on top; the minima stack stays the minima of the elements |
| PilaMinimoTad.PilaMinimo.Pop | TareaEjercicio.py:993-1004 | `IndexError` when empty; otherwise the top is returned and the minima stay right |
| PilaMinimoTad.PilaMinimo.Peek | TareaEjercicio.py:1006-1010 | `IndexError` exactly when empty; otherwise the top |
| PilaMinimoTad.PilaMinimo.GetMin | TareaEjercicio.py:1012-1016 | `IndexError` exactly when empty; otherwise the least element |
| PilaMinimoTad.PilaMinimo.IsEmpty | TareaEjercicio.py:1018-1019 | true exactly when there are no elements |
| PilaMinimoTad.EjemploPilaMinimo | TareaEjercicio.py:1021-1036 | pushing 5, 3, 7, 1, 4 shows minima 5, 3, 3, 1, 1 |
| PilaMinimoTad.EjemploPilaMinimoVacia | TareaEjercicio.py:993-1016 | pop and get_min on an empty stack raise `IndexError` |
| Delimitadores.ValidarParentesis | TareaEjercicio.py:599-621 | true exactly when no prefix closes more than it opens and the counts are equal; other characters are ignored |
| Delimitadores.CasosParentesis | TareaEjercicio.py:624-632 | "()", "(())", "(()())", "" are balanced; "(()", "())", ")(" are not |
| Delimitadores.ValidarDelimitadores | TareaEjercicio.py:653-668 | the loop answers exactly what the stack scan `Delimitada` answers, and so exactly whether the text is well nested (`BienAnidada`) |
| Delimitadores.Recorrer | TareaEjercicio.py:653-666 | the scan: an opening bracket is pushed; a closing one fails on an empty stack or a top of another kind, else pops; other characters are skipped |
| Delimitadores.Delimitada | TareaEjercicio.py:654-668 | the scan succeeds and ends with an empty stack |
| Delimitadores.DelimitadaSiiAnidada | TareaEjercicio.py:653-668 | the scan accepts a text exactly when it is well nested: every closing bracket closes the nearest open bracket, of its own kind, and none stays open |
| Delimitadores.AnidadaRecorre | TareaEjercicio.py:659-666 | a well-nested text, scanned from any stack, leaves that stack as it was |
| Delimitadores.Emparejar | TareaEjercicio.py:659-666 | a scan that ends below an opening bracket meets the closing bracket of that kind, after a well-scanned stretch |
| Delimitadores.RecorreAnidada | TareaEjercicio.py:653-668 | every text the scan accepts is well nested |
| Delimitadores.RecorrerConcatenar | TareaEjercicio.py:659-666 | scanning two texts in a row is scanning the first, then the second from the stack the first left, and failing if the first fails |
| Delimitadores.Concatenacion | TareaEjercicio.py:644-668 | two well-delimited texts in a row are well delimited |
| Delimitadores.Envolver | TareaEjercicio.py:644-668 | a well-delimited text between a matching pair is well delimited |
| Delimitadores.CasosDelimitadores | TareaEjercicio.py:647-650 | "{[()]}" is accepted; "{[(])}" and "{[}" are not |
| Delimitadores.Acuerdo | TareaEjercicio.py:599-621 | on text without square or curly brackets, the delimiter scan accepts exactly the balanced texts |
| Delimitadores.RecorrerParentesis | TareaEjercicio.py:653-668 | scanning round parentheses from d open ones fails exactly when a prefix closes more than is open |
| Expresiones.Aplicar | TareaEjercicio.py:713-718 | an operator fails exactly on division by 0, with `ZeroDivisionError` |
| Expresiones.PasoRpn | TareaEjercicio.py:720-730 | a number is pushed; an operator pops the second operand, then the first, with `IndexError` on an empty stack, and pushes the result |
| Expresiones.Evaluacion | TareaEjercicio.py:698-733 | the tokens run from an empty stack; the answer is the final top, and `IndexError` when the stack is empty |
| Expresiones.EvaluarPostfija | TareaEjercicio.py:698-733 | the loop computes `Evaluacion`: each operator pops the second operand, then the first; too few operands give `IndexError`; the answer is the final top |
| Expresiones.PostfijaApila | TareaEjercicio.py:720-730 | running the postfix form of an expression on any stack pushes exactly the expression's value, or fails with its division by zero |
| Expresiones.EvaluarPostfijaCorrecta | TareaEjercicio.py:698-733 | evaluating the postfix form of an expression tree gives the tree's value |
| Expresiones.SobrantesIgnorados | TareaEjercicio.py:732-733 | values left under the top are not reported: the answer is the last expression's value |
| Expresiones.FaltanOperandos | TareaEjercicio.py:721-724 | an operator with fewer than two values on the stack raises `IndexError` |
| Expresiones.EjemplosPostfija | TareaEjercicio.py:703-706 | "3 4 +" = 7 and "3 4 + 2 *" = 14 |
| Expresiones.EjemploMixto | TareaEjercicio.py:736-740 | "5 1 2 + 4 * + 3 -" = 14 |
| Expresiones.EjemploLargo | TareaEjercicio.py:707-708 | "15 7 1 1 + - / 3 * 2 1 1 + + -" = 5 |
| InfijaPostfija.InfijaAPostfija | TareaEjercicio.py:757-783 | the loops compute `Conversion`: operands go out; an operator first pops operators of greater or equal precedence; ')' pops to '(' or raises on an empty stack; the rest is popped at the end |
| InfijaPostfija.Ceder | TareaEjercicio.py:773-777 | the loop on an operator pops operators of greater or equal precedence to the output, stopping at '(' or an empty stack |
| InfijaPostfija.Cerrar | TareaEjercicio.py:769-772 | the loop on ')' pops to the output until '(', which is discarded; peeking at an empty stack raises `IndexError` |
| InfijaPostfija.Vaciar | TareaEjercicio.py:780-781 | the final loop pops the whole stack to the output |
| InfijaPostfija.Conversion | TareaEjercicio.py:757-783 | the token loop from an empty stack, then the final loop |
| InfijaPostfija.CederPropiedades | TareaEjercicio.py:773-778 | the operator loop pops a run of yielding operators from the top, reversed, into the output, keeps the rest, and stops at one that does not yield |
| InfijaPostfija.VaciarInvierte | TareaEjercicio.py:780-781 | the final loop appends the stack reversed |
| InfijaPostfija.OrdenNumeros | TareaEjercicio.py:764-766 | numbers reach the output in input order |
| InfijaPostfija.ConversionInfija | TareaEjercicio.py:757-783 | a fully parenthesised infix expression becomes its postfix form |
| InfijaPostfija.ConvertirInfija | TareaEjercicio.py:764-778 | converting a parenthesised expression from any stack appends its postfix form to the output and leaves the stack as it was |
| InfijaPostfija.ConvertirYEvaluar | TareaEjercicio.py:698-783 | converting the fully parenthesised form of an expression, then evaluating, gives the expression's value |
| InfijaPostfija.CederPendientes | TareaEjercicio.py:773-777 | on an operator, the loop pops exactly a run of operators that yield to it, when what lies beneath does not |
| InfijaPostfija.CerrarPendientes | TareaEjercicio.py:769-772 | on ')', the loop pops a run of operators, reversed, and then discards its '(' |
| InfijaPostfija.ConvertirMinima | TareaEjercicio.py:764-778 | the usual infix form of an operand (only the parentheses precedence and left associativity need), converted when the stack top does not outrank it, emits everything but the operators of its right spine, which stay stacked |
| InfijaPostfija.ConvertirEntreParentesis | TareaEjercicio.py:767-772 | a bracketed operand is converted whole: its postfix form goes out and the stack is restored |
| InfijaPostfija.ConversionMinima | TareaEjercicio.py:757-783 | the usual infix form of any expression, with precedence and left associativity deciding where the parentheses are left out, becomes its postfix form |
| InfijaPostfija.ConvertirYEvaluarMinima | TareaEjercicio.py:698-783 | converting the usual infix form, then evaluating, gives the expression's value |
| InfijaPostfija.EjemplosInfijaMinima | TareaEjercicio.py:754 | "3 + 4 * 2", "8 - 4 - 2" and "8 - (4 - 2)" are the usual infix forms of their trees |
| InfijaPostfija.EjemploPrecedencia | TareaEjercicio.py:754 | "3 + 4 * 2" gives "3 4 2 * +" |
| InfijaPostfija.EjemploAsociatividad | TareaEjercicio.py:773-778 | "8 - 4 - 2" gives "8 4 - 2 -" |
| InfijaPostfija.EjemploAsociatividadValor | TareaEjercicio.py:698-733 | "8 4 - 2 -" evaluates to 2 |
| InfijaPostfija.EjemploParentesisSueltos | TareaEjercicio.py:769-781 | a stray ')' raises `IndexError`; an unclosed '(' reaches the output |
| NavegadorTad.CoherenciaPreservada | TareaEjercicio.py:803-819 | visiting, back and forward keep "a page is current whenever there is history" |
| NavegadorTad.NavegarConservaRecorrido | TareaEjercicio.py:809-819 | back fails exactly when the back stack is empty, forward likewise; neither changes the sequence of pages |
| NavegadorTad.VisitarTrunca | TareaEjercicio.py:803-807 | visiting drops the forward pages and puts the new page after the current one |
| NavegadorTad.IdaYVuelta | TareaEjercicio.py:809-819 | back then forward, and forward then back, restore the history |
| NavegadorTad.TrasVisitar | TareaEjercicio.py:803-807 | the current page, if any, goes on the back stack; the new page is current; the forward stack is emptied |
| NavegadorTad.TrasAtras | TareaEjercicio.py:809-813 | fails on an empty back stack; otherwise the current page goes forward and the last back page is current |
| NavegadorTad.TrasAdelante | TareaEjercicio.py:815-819 | fails on an empty forward stack; otherwise the current page goes back and the last forward page is current |
| NavegadorTad.Navegador.constructor | TareaEjercicio.py:797-801 | a new browser has no current page and empty back and forward stacks |
| NavegadorTad.Navegador.Visitar | TareaEjercicio.py:803-807 | the new state is `TrasVisitar` of the old one |
| NavegadorTad.Navegador.Atras | TareaEjercicio.py:809-813 | reports failure exactly when there is no previous page, changing nothing; otherwise the new state is `TrasAtras` |
| NavegadorTad.Navegador.Adelante | TareaEjercicio.py:815-819 | reports failure exactly when there is no next page, changing nothing; otherwise the new state is `TrasAdelante` |
| NavegadorTad.EjemploNavegador | TareaEjercicio.py:797-819 | visiting a, b, c then back, back, forward shows b with c ahead |
| EditorTad.DeshacerEscribir | TareaEjercicio.py:868-878 | undo right after a write restores the content |
| EditorTad.RehacerDeshacer | TareaEjercicio.py:874-883 | redo after undo, and undo after redo, restore the session |
| EditorTad.VersionesConservadas | TareaEjercicio.py:868-883 | undo and redo keep the sequence of versions; a write replaces the redo versions by the new text |
| EditorTad.CrecimientoPreservado | TareaEjercicio.py:868-883 | each version is a prefix of the next, and every operation keeps that |
| EditorTad.TrasEscribir | TareaEjercicio.py:868-871 | the old content goes on the undo stack, the text is appended, the redo stack is emptied |
| EditorTad.TrasDeshacer | TareaEjercicio.py:873-877 | nothing when there is nothing to undo; otherwise the content goes on the redo stack and the last undo version comes back |
| EditorTad.TrasRehacer | TareaEjercicio.py:879-883 | nothing when there is nothing to redo; otherwise the content goes on the undo stack and the last redo version comes back |
| EditorTad.EditorTexto.constructor | TareaEjercicio.py:862-866 | a new editor holds "" with nothing to undo or redo |
| EditorTad.EditorTexto.Escribir | TareaEjercicio.py:868-871 | the new state is `TrasEscribir` of the old one |
| EditorTad.EditorTexto.Deshacer | TareaEjercicio.py:873-877 | the new state is `TrasDeshacer` (nothing when there is nothing to undo) |
| EditorTad.EditorTexto.Rehacer | TareaEjercicio.py:879-883 | the new state is `TrasRehacer` (nothing when there is nothing to redo) |
| EditorTad.EjemploEditor | TareaEjercicio.py:862-883 | writing "a", "b", then undo, redo, undo, undo, undo shows "ab", "a", "ab", "", "" |
| CuentaBancariaTad.EnBlancoSiiEspacios | tad_cuenta_bancaria.py:184-187 | `strip() == ""` exactly when every character is whitespace |
| CuentaBancariaTad.StripRecorta | tad_cuenta_bancaria.py:190-191 | a stripped non-blank string neither starts nor ends with whitespace |
| CuentaBancariaTad.StripIdentidad | tad_cuenta_bancaria.py:190-191 | a string without surrounding whitespace is kept |
| CuentaBancariaTad.Strip | tad_cuenta_bancaria.py:190-191 | `str.strip()`: the whitespace at both ends, as `str.isspace` defines it, is dropped |
| CuentaBancariaTad.Invariante | tad_cuenta_bancaria.py:211-226 | I1-I4: balance at least 0, non-empty holder and number, and a history that opens with APERTURA, records positive movements and ends at the balance |
| CuentaBancariaTad.Abrir | tad_cuenta_bancaria.py:168-207 | `ValueError` for a blank holder or number; otherwise the stripped strings, balance 0, active, one APERTURA entry |
| CuentaBancariaTad.Registrar | tad_cuenta_bancaria.py:235-245 | one entry is appended, stamped with the current balance |
| CuentaBancariaTad.TrasDepositar | tad_cuenta_bancaria.py:249-290 | a blocked account, then a non-positive amount, raise; otherwise the balance grows by the amount and a DEPOSITO entry is recorded |
| CuentaBancariaTad.TrasRetirar | tad_cuenta_bancaria.py:292-343 | a blocked account, a non-positive amount, then an amount over the balance, raise; otherwise the balance drops by the amount and a RETIRO entry is recorded |
| CuentaBancariaTad.TrasReetiquetar | tad_cuenta_bancaria.py:381-389 | the type of the last history entry is replaced |
| CuentaBancariaTad.TrasTransferir | tad_cuenta_bancaria.py:345-395 | `transferir` as written: `ValueError` for a missing destination or the same number; then the withdrawal; then the deposit, whose error leaves the withdrawal in place; on success both last entries are retagged |
| CuentaBancariaTad.TrasTransferirAtomica | tad_cuenta_bancaria.py:345-395 | the corrected transfer: an active destination is checked before the origin is debited |
| CuentaBancariaTad.SaldoEsNeto | tad_cuenta_bancaria.py:235-245 | in a valid history, the last recorded balance is the sum of all movements |
| CuentaBancariaTad.AbrirCorrecto | tad_cuenta_bancaria.py:168-207 | `ValueError` exactly for a blank holder or number; otherwise balance 0, active, stripped holder and number, one APERTURA, invariant holds |
| CuentaBancariaTad.EjemploTitularRecortado | tad_cuenta_bancaria.py:184-191 | " Ana " is stored as "Ana" and " 001 " as "001" (axioms 4 and 5 hold only for stripped arguments); a blank holder or empty number raises |
| CuentaBancariaTad.LibroExtendido | tad_cuenta_bancaria.py:235-245 | recording a positive movement with the new balance keeps the invariant |
| CuentaBancariaTad.DepositarCorrecto | tad_cuenta_bancaria.py:249-290 | blocked raises `CuentaBloqueadaError`, then a non-positive amount `MontoInvalidoError`; otherwise balance + amount, one DEPOSITO entry, invariant kept |
| CuentaBancariaTad.RetirarCorrecto | tad_cuenta_bancaria.py:292-343 | checks blocked, then amount, then balance (`SaldoInsuficienteError`); otherwise balance - amount, one RETIRO entry, balance stays non-negative |
| CuentaBancariaTad.ReetiquetarInvariante | tad_cuenta_bancaria.py:381-389 | retagging the last entry as a transfer keeps the balance, the length and the invariant |
| CuentaBancariaTad.TransferirRechazada | tad_cuenta_bancaria.py:366-378 | `ValueError` exactly for a missing destination or the same number, changing nothing; a failed withdrawal raises its error and changes nothing |
| CuentaBancariaTad.TransferirExitosa | tad_cuenta_bancaria.py:345-395 | succeeds exactly when both are active, the numbers differ and the origin can pay; then -amount / +amount, the total is conserved, both histories gain one retagged entry after the old ones, holders, numbers and active flags are unchanged, invariants kept |
| CuentaBancariaTad.TransferenciaParcial | tad_cuenta_bancaria.py:377-378 | a blocked destination raises after the origin was debited: the total drops by the amount, and the origin still satisfies the invariant |
| CuentaBancariaTad.TransferirInvariante | tad_cuenta_bancaria.py:345-395 | both transfers, whatever they raise, leave both accounts satisfying the invariant, the partial debit included |
| CuentaBancariaTad.TransferenciaNoAtomica | tad_cuenta_bancaria.py:377-378 | 100.00 sent to a blocked account leaves the system |
| CuentaBancariaTad.TransferirAtomicaCorrecta | tad_cuenta_bancaria.py:345-395 | the corrected transfer either conserves the total or raises and changes nothing; it equals `transferir` when the destination is active |
| CuentaBancariaTad.CuentaBancaria.constructor | tad_cuenta_bancaria.py:189-207 | the new object holds the opened account and satisfies the invariant |
| CuentaBancariaTad.CuentaBancaria.Crear | tad_cuenta_bancaria.py:168-207 | `ValueError` exactly when opening fails; otherwise a fresh valid account |
| CuentaBancariaTad.CuentaBancaria.Depositar | tad_cuenta_bancaria.py:249-290 | the error of `TrasDepositar` with nothing changed, or its new state; invariant kept |
| CuentaBancariaTad.CuentaBancaria.Retirar | tad_cuenta_bancaria.py:292-343 | the error of `TrasRetirar` with nothing changed, or its new state and the amount; invariant kept |
| CuentaBancariaTad.CuentaBancaria.Reetiquetar | tad_cuenta_bancaria.py:381-389 | only the type of the last history entry changes |
| CuentaBancariaTad.CuentaBancaria.MarcarTransferencia | tad_cuenta_bancaria.py:381-389 | the last entries become TRANSFERENCIA_ENVIADA and TRANSFERENCIA_RECIBIDA; both accounts keep the invariant |
| CuentaBancariaTad.CuentaBancaria.Transferir | tad_cuenta_bancaria.py:345-395 | both objects end as `TrasTransferir` says, the partial debit included, and both keep the invariant |
| CuentaBancariaTad.CuentaBancaria.TransferirAtomica | tad_cuenta_bancaria.py:345-395 | both objects end as `TrasTransferirAtomica` says, and both keep the invariant |
| CuentaBancariaTad.CuentaBancaria.ConsultarSaldo | tad_cuenta_bancaria.py:397-406 | the balance, never negative |
| CuentaBancariaTad.CuentaBancaria.ObtenerTitular | tad_cuenta_bancaria.py:408-417 | the holder, never empty |
| CuentaBancariaTad.CuentaBancaria.ObtenerNumeroCuenta | tad_cuenta_bancaria.py:419-428 | the number, never empty |
| CuentaBancariaTad.CuentaBancaria.ObtenerHistorial | tad_cuenta_bancaria.py:430-438 | the history, which begins with the APERTURA |
| CuentaBancariaTad.CuentaBancaria.EstaActiva | tad_cuenta_bancaria.py:450-452 | the active flag |
| CuentaBancariaTad.CuentaBancaria.BloquearCuenta | tad_cuenta_bancaria.py:440-443 | only the active flag changes, to false |
| CuentaBancariaTad.CuentaBancaria.ActivarCuenta | tad_cuenta_bancaria.py:445-448 | only the active flag changes, to true |
| CuentaBancariaTad.EjemploCuentaNueva | tad_cuenta_bancaria.py:482-496 | a new account has balance 0 and one history entry |
| CuentaBancariaTad.EjemploHistorial | tad_cuenta_bancaria.py:647-670 | four operations leave five entries and balance 1400.00 |
| CuentaBancariaTad.EjemploMontosInvalidos | tad_cuenta_bancaria.py:549-633 | a negative deposit, a zero withdrawal and an excessive withdrawal are rejected; the balance is unchanged |
| CuentaBancariaTad.EjemploCuentaBloqueada | tad_cuenta_bancaria.py:635-644 | a blocked account refuses a deposit and keeps its balance |
| CuentaBancariaTad.EjemploTransferencia | tad_cuenta_bancaria.py:573-607 | 1500.00 from 3000.00 leaves 1500.00 in each account |
| CuentaBancariaTad.EjemploNomina | tad_cuenta_bancaria.py:673-719 | after paying 2500.00 and 2800.00 out of 50000.00 the total is still 50000.00 |
| CuentaBancariaTad.EjemploDestinoBloqueado | tad_cuenta_bancaria.py:377-378 | `transferir` to a blocked account raises and 100.00 disappears |
| CuentaBancariaTad.EjemploDestinoBloqueadoAtomica | tad_cuenta_bancaria.py:345-378 | the corrected transfer to a blocked account raises and the total stays |

## Left out

- Floating point: evaluator values are `real` and money is whole cents. Rounding of Python floats is not modelled.
- `Expresiones.EvaluarPostfija`: the input is a sequence of tokens. Splitting the string and `float(token)` are not modelled. An unparsable token cannot occur, except a parenthesis token, which is treated like the `ValueError` of `float()`.
- `InfijaPostfija.InfijaAPostfija`: `tokenizar` and "unir salida con espacios" are not modelled. The result is the output token sequence.
- Clock: `datetime.now()` becomes the `fecha` parameter. The timing measurements with `time.time()` in `TareaEjercicio.py` are left out.
- Text: transaction descriptions, `__str__`, `__repr__`, `strftime` formatting and the prints in `bloquear_cuenta`/`activar_cuenta` are left out.
- `CuentaBancariaTad.Strip`: whitespace is the fixed list of characters for which Python's `str.isspace` is true, written out in `EsEspacio`; the Unicode database behind it is not modelled.
- `CuentaBancariaTad.CuentaBancaria.Crear`: a `None` holder or number is not modelled; `string` has no `None`.
- `CuentaBancariaTad.CuentaBancaria.ObtenerHistorial`: returns an immutable sequence. In Python, the copied list still shares its mutable `Transaccion` objects with the account; that aliasing is not modelled.
- `CuentaBancariaTad.CuentaBancaria.Transferir`: the destination is a `CuentaBancaria?` argument. Passing the origin itself is covered because both numbers are then equal.
- `Fracciones.Crear`: `_simplificar` updates the two fields of a fraction under construction. It is modelled as a function producing the normalised value, since no caller sees the fields before normalisation.
- `NavegadorTad.Navegador.Atras`: the pseudocode's `error` is a `false` result that leaves the state unchanged; the same holds for `Adelante`.
- `PilaTad.Pila` and `Ejemplo2.Pila` are generic over the element type. `PilaMinimo` holds integers, since it compares elements.
- Punto2D (a `math.sqrt` over floats), the exercises that are only a statement or a complexity essay, and the palindrome, Hanoi and HTML exercises of `TareaEjercicio.py` are not part of this model.
- `Ejemplo1.py` (`NumeroComplejo`) is not part of this model.
- The test driver `ejecutar_todas_las_pruebas` and `imprimir_separador` are left out. Their assertions appear as the `Ejemplo…` members.

## Findings

| source | as written | input that shows it | evidently intended | confidence | as-written member | corrected member |
|---|---|---|---|---|---|---|
| tad_cuenta_bancaria.py:377-378 | `transferir` withdraws from the origin before `depositar` checks that the destination is active, so a blocked destination raises after the origin has been debited | origin holding 100.00, destination blocked, `transferir(destino, 100.00)`: origin at 0.00, destination unchanged, the 100.00 lost | both accounts active is a precondition of the transfer: check the destination before any money moves, so a failing transfer changes nothing | not executed | CuentaBancariaTad.TransferenciaNoAtomica | CuentaBancariaTad.TransferirAtomicaCorrecta |

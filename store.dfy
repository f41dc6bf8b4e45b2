/**
 * The SQL Server database the controllers talk to, as an in-memory store:
 * one map from identity key to row per table, one identity counter per
 * table, and the constraints the handlers rely on the server to enforce.
 *
 * Foreign keys (a violation is SQL error 547):
 *   Fondo.TipoFondoId -> TipoFondo, Deposito.id_fondo -> Fondo,
 *   gasto_encabezado.fondo_id -> Fondo,
 *   gasto_detalle.gasto_encabezado_id -> gasto_encabezado,
 *   gasto_detalle.TipoGasto_id -> TipoGasto, Presupuesto.TipoGastoId -> TipoGasto.
 * Unique keys (a violation is SQL error 2627):
 *   TipoGasto.Nombre, TipoFondo.Nombre, Fondo.NroCuenta.
 *
 * Each method of `Database` is one SQL statement: it either fails with an
 * error number and changes no row, or succeeds and reports the rows it
 * affected. An INSERT draws its identity value before the constraints are
 * checked, so a failed INSERT still consumes one, as SQL Server does.
 * Money (`decimal`) is a whole number of cents; dates are day numbers from
 * 0001-01-01.
 */
module Store {
  import opened Common
  import opened Months
  import opened Codes

  const ForeignKeyViolation: int := 547
  const UniqueKeyViolation: int := 2627
  const IdentityOverflow: int := 8115
  const ParameterNotSupplied: int := 8178

  /** The outcome of one statement: its value, or the `SqlException.Number` it raised. */
  datatype SqlResult<+T> = Done(value: T) | SqlError(number: int)

  // ---------------------------------------------------------------------
  // Rows (the identity key is the map key, not a column here).
  // ---------------------------------------------------------------------

  datatype TipoGasto = TipoGasto(codigo: string, nombre: string, descripcion: Option<string>)
  datatype Presupuesto = Presupuesto(tipoGastoId: int, mes: Byte, anio: int, monto: int)
  datatype Deposito = Deposito(fechaDeposito: int, idFondo: int, monto: int)
  datatype Fondo = Fondo(
    nroCuenta: string, nombreFondo: string, tipoFondoId: int,
    saldo: int, descripcion: Option<string>, activo: bool)
  datatype TipoFondo = TipoFondo(nombre: string)
  datatype GastoEncabezado = GastoEncabezado(
    fecha: int, fondoId: int, observaciones: Option<string>,
    nombreComercio: string, tipoDocumento: string, total: int)
  datatype GastoDetalle = GastoDetalle(gastoEncabezadoId: int, tipoGastoId: int, monto: int)

  datatype Tables = Tables(
    tipoGasto: map<int, TipoGasto>,
    presupuesto: map<int, Presupuesto>,
    deposito: map<int, Deposito>,
    fondo: map<int, Fondo>,
    tipoFondo: map<int, TipoFondo>,
    encabezado: map<int, GastoEncabezado>,
    detalle: map<int, GastoDetalle>)

  /** The next identity value of each table. */
  datatype Identity = Identity(
    tipoGasto: int, presupuesto: int, deposito: int, fondo: int,
    tipoFondo: int, encabezado: int, detalle: int)

  const EmptyTables: Tables := Tables(map[], map[], map[], map[], map[], map[], map[])
  const FirstIdentity: Identity := Identity(1, 1, 1, 1, 1, 1, 1)

  // ---------------------------------------------------------------------
  // Constraints.
  //
  // The quantifiers over the rows of a table hang on `Has(m, id)` rather
  // than on `id in m`, so that the solver instantiates them only where a
  // proof names a row with `Has`; the lemmas below do so.
  // ---------------------------------------------------------------------

  /** `id` is a key of table `m`. */
  predicate Has<T>(m: map<int, T>, id: int) {
    id in m
  }

  /** The column a foreign key reads, one function per constraint. */
  function FondoTipoFondo(f: Fondo): int { f.tipoFondoId }
  function DepositoFondo(d: Deposito): int { d.idFondo }
  function EncabezadoFondo(e: GastoEncabezado): int { e.fondoId }
  function DetalleEncabezado(d: GastoDetalle): int { d.gastoEncabezadoId }
  function DetalleTipoGasto(d: GastoDetalle): int { d.tipoGastoId }
  function PresupuestoTipoGasto(p: Presupuesto): int { p.tipoGastoId }

  /** The column a unique key reads, one function per constraint. */
  function TipoGastoNombre(r: TipoGasto): string { r.nombre }
  function TipoFondoNombre(r: TipoFondo): string { r.nombre }
  function FondoNroCuenta(r: Fondo): string { r.nroCuenta }

  /** Every row of `m` refers, through column `ref`, to one of the keys `keys`. */
  ghost predicate AllIn<T>(m: map<int, T>, ref: T -> int, keys: set<int>) {
    forall id {:trigger Has(m, id)} :: Has(m, id) ==> ref(m[id]) in keys
  }

  /** No two rows of `m` agree on column `key`. */
  ghost predicate UniqueBy<T>(m: map<int, T>, key: T -> string) {
    forall a, b {:trigger Has(m, a), Has(m, b)} :: Has(m, a) && Has(m, b) && key(m[a]) == key(m[b]) ==> a == b
  }

  /** Every key of `m` was issued by an identity counter that started at 1 and now stands at `next`. */
  ghost predicate KeysBelow<T>(m: map<int, T>, next: int) {
    forall id {:trigger Has(m, id)} :: Has(m, id) ==> 1 <= id < next
  }

  predicate FondoRefsOk(t: Tables, f: Fondo) { f.tipoFondoId in t.tipoFondo }
  predicate DepositoRefsOk(t: Tables, d: Deposito) { d.idFondo in t.fondo }
  predicate EncabezadoRefsOk(t: Tables, e: GastoEncabezado) { e.fondoId in t.fondo }
  predicate DetalleRefsOk(t: Tables, d: GastoDetalle) {
    d.gastoEncabezadoId in t.encabezado && d.tipoGastoId in t.tipoGasto
  }
  predicate PresupuestoRefsOk(t: Tables, p: Presupuesto) { p.tipoGastoId in t.tipoGasto }

  ghost predicate ForeignKeys(t: Tables) {
    && AllIn(t.fondo, FondoTipoFondo, t.tipoFondo.Keys)
    && AllIn(t.deposito, DepositoFondo, t.fondo.Keys)
    && AllIn(t.encabezado, EncabezadoFondo, t.fondo.Keys)
    && AllIn(t.detalle, DetalleEncabezado, t.encabezado.Keys)
    && AllIn(t.detalle, DetalleTipoGasto, t.tipoGasto.Keys)
    && AllIn(t.presupuesto, PresupuestoTipoGasto, t.tipoGasto.Keys)
  }

  /** Some row (other than row `except`, when given) already holds expense-type name `nombre`. */
  predicate TipoGastoNombreTaken(m: map<int, TipoGasto>, nombre: string, except: Option<int>) {
    exists id | id in m :: Some(id) != except && m[id].nombre == nombre
  }

  predicate TipoFondoNombreTaken(m: map<int, TipoFondo>, nombre: string, except: Option<int>) {
    exists id | id in m :: Some(id) != except && m[id].nombre == nombre
  }

  predicate NroCuentaTaken(m: map<int, Fondo>, nroCuenta: string, except: Option<int>) {
    exists id | id in m :: Some(id) != except && m[id].nroCuenta == nroCuenta
  }

  ghost predicate UniqueKeys(t: Tables) {
    && UniqueBy(t.tipoGasto, TipoGastoNombre)
    && UniqueBy(t.tipoFondo, TipoFondoNombre)
    && UniqueBy(t.fondo, FondoNroCuenta)
  }

  ghost predicate KeysIssued(t: Tables, n: Identity) {
    && KeysBelow(t.tipoGasto, n.tipoGasto)
    && KeysBelow(t.presupuesto, n.presupuesto)
    && KeysBelow(t.deposito, n.deposito)
    && KeysBelow(t.fondo, n.fondo)
    && KeysBelow(t.tipoFondo, n.tipoFondo)
    && KeysBelow(t.encabezado, n.encabezado)
    && KeysBelow(t.detalle, n.detalle)
  }

  ghost predicate Consistent(t: Tables, n: Identity) {
    ForeignKeys(t) && UniqueKeys(t) && IdentityLe(FirstIdentity, n) && KeysIssued(t, n)
  }

  // ---------------------------------------------------------------------
  // How single-table changes keep the constraints.
  // ---------------------------------------------------------------------

  lemma KeyBelow<T>(m: map<int, T>, next: int, id: int)
    requires KeysBelow(m, next) && id in m
    ensures 1 <= id < next
  {
    assert Has(m, id);
  }

  lemma KeysBelowFresh<T>(m: map<int, T>, next: int)
    requires KeysBelow(m, next)
    ensures next !in m
  {
    if next in m {
      KeyBelow(m, next, next);
    }
  }

  /** Identity values start at 1, so no row has key 0. */
  lemma NoKeyZero<T>(m: map<int, T>, next: int)
    requires KeysBelow(m, next)
    ensures 0 !in m
  {
    if 0 in m {
      KeyBelow(m, next, 0);
    }
  }

  /** A row stored under the current counter value, with the counter advanced, keeps every key below it. */
  lemma KeysBelowInsert<T>(m: map<int, T>, next: int, row: T)
    requires KeysBelow(m, next) && 1 <= next
    ensures KeysBelow(m[next := row], next + 1)
  {
    var m2 := m[next := row];
    forall id | Has(m2, id) ensures 1 <= id < next + 1 {
      if id != next {
        assert Has(m, id);
      }
    }
  }

  /** Fewer keys, or a counter that moved on, keep the keys below it. */
  lemma KeysBelowShrink<T, U>(m: map<int, T>, m2: map<int, U>, next: int, next2: int)
    requires KeysBelow(m, next) && m2.Keys <= m.Keys && next <= next2
    ensures KeysBelow(m2, next2)
  {
    forall id | Has(m2, id) ensures 1 <= id < next2 {
      assert Has(m, id);
    }
  }

  /** A row whose reference is valid may be stored under any key. */
  lemma AllInStore<T>(m: map<int, T>, ref: T -> int, keys: set<int>, id: int, row: T)
    requires AllIn(m, ref, keys) && ref(row) in keys
    ensures AllIn(m[id := row], ref, keys)
  {
    var m2 := m[id := row];
    forall k | Has(m2, k) ensures ref(m2[k]) in keys {
      if k != id {
        assert Has(m, k);
      }
    }
  }

  /** Removing rows from the referring table keeps the references valid. */
  lemma AllInFewerRows<T>(m: map<int, T>, ref: T -> int, keys: set<int>, id: int)
    requires AllIn(m, ref, keys)
    ensures AllIn(m - {id}, ref, keys)
  {
    var m2 := m - {id};
    forall k | Has(m2, k) ensures ref(m2[k]) in keys {
      assert Has(m, k);
    }
  }

  /** Adding keys to the referred table keeps the references valid. */
  lemma AllInMoreKeys<T>(m: map<int, T>, ref: T -> int, keys: set<int>, keys2: set<int>)
    requires AllIn(m, ref, keys) && keys <= keys2
    ensures AllIn(m, ref, keys2)
  {
    forall k | Has(m, k) ensures ref(m[k]) in keys2 {
      assert Has(m, k);
    }
  }

  /** Removing a key that no row refers to keeps the references valid. */
  lemma AllInUnreferenced<T>(m: map<int, T>, ref: T -> int, keys: set<int>, id: int)
    requires AllIn(m, ref, keys) && forall k :: k in m ==> ref(m[k]) != id
    ensures AllIn(m, ref, keys - {id})
  {
    forall k | Has(m, k) ensures ref(m[k]) in keys - {id} {
      assert Has(m, k);
    }
  }

  /** A row whose key column no other row holds may be stored under `id`. */
  lemma UniqueStore<T>(m: map<int, T>, key: T -> string, id: int, row: T)
    requires UniqueBy(m, key)
    requires forall k :: k in m && k != id ==> key(m[k]) != key(row)
    ensures UniqueBy(m[id := row], key)
  {
    var m2 := m[id := row];
    forall a, b | Has(m2, a) && Has(m2, b) && key(m2[a]) == key(m2[b]) ensures a == b {
      if a != id && b != id {
        assert Has(m, a) && Has(m, b);
      }
    }
  }

  /** Replacing a row by one with the same key column keeps the column unique. */
  lemma UniqueSameKey<T>(m: map<int, T>, key: T -> string, id: int, row: T)
    requires UniqueBy(m, key) && id in m && key(row) == key(m[id])
    ensures UniqueBy(m[id := row], key)
  {
    forall k | k in m && k != id ensures key(m[k]) != key(row) {
      assert Has(m, k) && Has(m, id);
    }
    UniqueStore(m, key, id, row);
  }

  lemma UniqueFewerRows<T>(m: map<int, T>, key: T -> string, id: int)
    requires UniqueBy(m, key)
    ensures UniqueBy(m - {id}, key)
  {
    var m2 := m - {id};
    forall a, b | Has(m2, a) && Has(m2, b) && key(m2[a]) == key(m2[b]) ensures a == b {
      assert Has(m, a) && Has(m, b);
    }
  }

  /** Identity counters never go back. */
  predicate IdentityLe(a: Identity, b: Identity) {
    && a.tipoGasto <= b.tipoGasto && a.presupuesto <= b.presupuesto
    && a.deposito <= b.deposito && a.fondo <= b.fondo && a.tipoFondo <= b.tipoFondo
    && a.encabezado <= b.encabezado && a.detalle <= b.detalle
  }

  /** Rows that a DELETE of expense type `id` would orphan. */
  predicate TipoGastoReferenced(t: Tables, id: int) {
    || (exists d | d in t.detalle :: t.detalle[d].tipoGastoId == id)
    || (exists p | p in t.presupuesto :: t.presupuesto[p].tipoGastoId == id)
  }

  predicate TipoFondoReferenced(t: Tables, id: int) {
    exists f | f in t.fondo :: t.fondo[f].tipoFondoId == id
  }

  predicate EncabezadoReferenced(t: Tables, id: int) {
    exists d | d in t.detalle :: t.detalle[d].gastoEncabezadoId == id
  }

  /** The error an INSERT raises, if any: identity exhausted, then unique keys, then foreign keys. */
  function InsertError(next: int, duplicate: bool, refsOk: bool): Option<int> {
    if next > Int32Max then Some(IdentityOverflow)
    else if duplicate then Some(UniqueKeyViolation)
    else if !refsOk then Some(ForeignKeyViolation)
    else None
  }

  /** The error an UPDATE of an existing row raises, if any. */
  function UpdateError(duplicate: bool, refsOk: bool): Option<int> {
    if duplicate then Some(UniqueKeyViolation)
    else if !refsOk then Some(ForeignKeyViolation)
    else None
  }

  function Outcome<T>(err: Option<int>, value: T): SqlResult<T> {
    if err.Some? then SqlError(err.value) else Done(value)
  }

  /** The identity counter after an INSERT attempt: it advances unless it is exhausted. */
  function Advance(next: int): int {
    if next > Int32Max then next else next + 1
  }

  /** `SELECT COUNT(*) ... WHERE p`: the number of rows satisfying `p`. */
  method CountWhere<K, T>(m: map<K, T>, p: (K, T) -> bool) returns (n: nat)
    ensures n == |set id | id in m && p(id, m[id])|
  {
    n := 0;
    var todo := m.Keys;
    ghost var seen: set<K> := {};
    while todo != {}
      invariant todo !! seen && todo + seen == m.Keys
      invariant n == |set id | id in seen && p(id, m[id])|
      decreases todo
    {
      var id := Pick(todo);
      ghost var before := set k | k in seen && p(k, m[k]);
      if p(id, m[id]) {
        assert (set k | k in seen + {id} && p(k, m[k])) == before + {id};
        n := n + 1;
      } else {
        assert (set k | k in seen + {id} && p(k, m[k])) == before;
      }
      todo := todo - {id};
      seen := seen + {id};
    }
    assert seen == m.Keys;
  }

  /** A count is positive exactly when some row satisfies the condition. */
  lemma CountPositive<K, T>(m: map<K, T>, p: (K, T) -> bool, n: nat)
    requires n == |set id | id in m && p(id, m[id])|
    ensures n > 0 <==> exists id :: id in m && p(id, m[id])
  {
    var s := set id | id in m && p(id, m[id]);
    if n > 0 {
      assert s != {};
      var id :| id in s;
    } else {
      assert s == {};
      forall id | id in m ensures !p(id, m[id]) {
        assert id !in s;
      }
    }
  }

  /** A positive count names a row that satisfies the condition. */
  lemma CountWitness<K, T>(m: map<K, T>, p: (K, T) -> bool, n: nat) returns (k: K)
    requires n == |set id | id in m && p(id, m[id])| && n > 0
    ensures k in m && p(k, m[k])
  {
    var s := set id | id in m && p(id, m[id]);
    assert s != {};
    k :| k in s;
  }

  /** The codes of the expense types whose keys are in `ks`. */
  ghost function CodesAt(m: map<int, TipoGasto>, ks: set<int>): set<string> {
    set k | k in ks && k in m :: m[k].codigo
  }

  /** The fund table after `UPDATE Fondo SET saldo = saldo + monto WHERE id`. */
  function WithSaldo(m: map<int, Fondo>, id: int, monto: int): map<int, Fondo> {
    if id in m then m[id := m[id].(saldo := m[id].saldo + monto)] else m
  }

  /** The fund table after `UPDATE Fondo SET Activo = 0 WHERE Id`. */
  function Deactivated(m: map<int, Fondo>, id: int): map<int, Fondo> {
    if id in m then m[id := m[id].(activo := false)] else m
  }

  /** The keys of the funds whose Activo flag is set. */
  function ActiveIds(m: map<int, Fondo>): set<int> {
    set id | id in m && m[id].activo
  }

  /** An identity counter that has moved forward leaves a consistent snapshot consistent. */
  lemma ConsistentLater(t: Tables, a: Identity, b: Identity)
    requires Consistent(t, a) && IdentityLe(a, b)
    ensures Consistent(t, b)
  {
    KeysBelowShrink(t.tipoGasto, t.tipoGasto, a.tipoGasto, b.tipoGasto);
    KeysBelowShrink(t.presupuesto, t.presupuesto, a.presupuesto, b.presupuesto);
    KeysBelowShrink(t.deposito, t.deposito, a.deposito, b.deposito);
    KeysBelowShrink(t.fondo, t.fondo, a.fondo, b.fondo);
    KeysBelowShrink(t.tipoFondo, t.tipoFondo, a.tipoFondo, b.tipoFondo);
    KeysBelowShrink(t.encabezado, t.encabezado, a.encabezado, b.encabezado);
    KeysBelowShrink(t.detalle, t.detalle, a.detalle, b.detalle);
  }

  // One lemma per statement that changes a table: the constraints hold
  // afterwards whenever the statement does not raise an error.

  lemma InsertTipoGastoKeeps(t: Tables, n: Identity, row: TipoGasto)
    requires Consistent(t, n) && !TipoGastoNombreTaken(t.tipoGasto, row.nombre, None)
    ensures n.tipoGasto !in t.tipoGasto
    ensures Consistent(t.(tipoGasto := t.tipoGasto[n.tipoGasto := row]), n.(tipoGasto := n.tipoGasto + 1))
  {
    var m2 := t.tipoGasto[n.tipoGasto := row];
    KeysBelowFresh(t.tipoGasto, n.tipoGasto);
    KeysBelowInsert(t.tipoGasto, n.tipoGasto, row);
    UniqueStore(t.tipoGasto, TipoGastoNombre, n.tipoGasto, row);
    AllInMoreKeys(t.detalle, DetalleTipoGasto, t.tipoGasto.Keys, m2.Keys);
    AllInMoreKeys(t.presupuesto, PresupuestoTipoGasto, t.tipoGasto.Keys, m2.Keys);
  }

  lemma UpdateTipoGastoKeeps(t: Tables, n: Identity, id: int, row: TipoGasto)
    requires Consistent(t, n) && id in t.tipoGasto && !TipoGastoNombreTaken(t.tipoGasto, row.nombre, Some(id))
    ensures Consistent(t.(tipoGasto := t.tipoGasto[id := row]), n)
  {
    var m2 := t.tipoGasto[id := row];
    KeysBelowShrink(t.tipoGasto, m2, n.tipoGasto, n.tipoGasto);
    UniqueStore(t.tipoGasto, TipoGastoNombre, id, row);
    AllInMoreKeys(t.detalle, DetalleTipoGasto, t.tipoGasto.Keys, m2.Keys);
    AllInMoreKeys(t.presupuesto, PresupuestoTipoGasto, t.tipoGasto.Keys, m2.Keys);
  }

  lemma DeleteTipoGastoKeeps(t: Tables, n: Identity, id: int)
    requires Consistent(t, n) && !TipoGastoReferenced(t, id)
    ensures Consistent(t.(tipoGasto := t.tipoGasto - {id}), n)
  {
    var m2 := t.tipoGasto - {id};
    assert m2.Keys == t.tipoGasto.Keys - {id};
    KeysBelowShrink(t.tipoGasto, m2, n.tipoGasto, n.tipoGasto);
    UniqueFewerRows(t.tipoGasto, TipoGastoNombre, id);
    AllInUnreferenced(t.detalle, DetalleTipoGasto, t.tipoGasto.Keys, id);
    AllInUnreferenced(t.presupuesto, PresupuestoTipoGasto, t.tipoGasto.Keys, id);
  }

  lemma InsertPresupuestoKeeps(t: Tables, n: Identity, row: Presupuesto)
    requires Consistent(t, n) && PresupuestoRefsOk(t, row)
    ensures n.presupuesto !in t.presupuesto
    ensures Consistent(t.(presupuesto := t.presupuesto[n.presupuesto := row]), n.(presupuesto := n.presupuesto + 1))
  {
    KeysBelowFresh(t.presupuesto, n.presupuesto);
    KeysBelowInsert(t.presupuesto, n.presupuesto, row);
    AllInStore(t.presupuesto, PresupuestoTipoGasto, t.tipoGasto.Keys, n.presupuesto, row);
  }

  lemma UpdatePresupuestoKeeps(t: Tables, n: Identity, id: int, row: Presupuesto)
    requires Consistent(t, n) && id in t.presupuesto && PresupuestoRefsOk(t, row)
    ensures Consistent(t.(presupuesto := t.presupuesto[id := row]), n)
  {
    KeysBelowShrink(t.presupuesto, t.presupuesto[id := row], n.presupuesto, n.presupuesto);
    AllInStore(t.presupuesto, PresupuestoTipoGasto, t.tipoGasto.Keys, id, row);
  }

  lemma DeletePresupuestoKeeps(t: Tables, n: Identity, id: int)
    requires Consistent(t, n)
    ensures Consistent(t.(presupuesto := t.presupuesto - {id}), n)
  {
    KeysBelowShrink(t.presupuesto, t.presupuesto - {id}, n.presupuesto, n.presupuesto);
    AllInFewerRows(t.presupuesto, PresupuestoTipoGasto, t.tipoGasto.Keys, id);
  }

  lemma InsertDepositoKeeps(t: Tables, n: Identity, row: Deposito)
    requires Consistent(t, n) && DepositoRefsOk(t, row)
    ensures n.deposito !in t.deposito
    ensures Consistent(t.(deposito := t.deposito[n.deposito := row]), n.(deposito := n.deposito + 1))
  {
    KeysBelowFresh(t.deposito, n.deposito);
    KeysBelowInsert(t.deposito, n.deposito, row);
    AllInStore(t.deposito, DepositoFondo, t.fondo.Keys, n.deposito, row);
  }

  lemma UpdateDepositoKeeps(t: Tables, n: Identity, id: int, row: Deposito)
    requires Consistent(t, n) && id in t.deposito && DepositoRefsOk(t, row)
    ensures Consistent(t.(deposito := t.deposito[id := row]), n)
  {
    KeysBelowShrink(t.deposito, t.deposito[id := row], n.deposito, n.deposito);
    AllInStore(t.deposito, DepositoFondo, t.fondo.Keys, id, row);
  }

  lemma DeleteDepositoKeeps(t: Tables, n: Identity, id: int)
    requires Consistent(t, n)
    ensures Consistent(t.(deposito := t.deposito - {id}), n)
  {
    KeysBelowShrink(t.deposito, t.deposito - {id}, n.deposito, n.deposito);
    AllInFewerRows(t.deposito, DepositoFondo, t.fondo.Keys, id);
  }

  lemma InsertFondoKeeps(t: Tables, n: Identity, row: Fondo)
    requires Consistent(t, n) && FondoRefsOk(t, row) && !NroCuentaTaken(t.fondo, row.nroCuenta, None)
    ensures n.fondo !in t.fondo
    ensures Consistent(t.(fondo := t.fondo[n.fondo := row]), n.(fondo := n.fondo + 1))
  {
    var m2 := t.fondo[n.fondo := row];
    KeysBelowFresh(t.fondo, n.fondo);
    KeysBelowInsert(t.fondo, n.fondo, row);
    UniqueStore(t.fondo, FondoNroCuenta, n.fondo, row);
    AllInStore(t.fondo, FondoTipoFondo, t.tipoFondo.Keys, n.fondo, row);
    AllInMoreKeys(t.deposito, DepositoFondo, t.fondo.Keys, m2.Keys);
    AllInMoreKeys(t.encabezado, EncabezadoFondo, t.fondo.Keys, m2.Keys);
  }

  /** Storing `row` over fund `id`, which keeps the set of fund keys. */
  lemma UpdateFondoKeeps(t: Tables, n: Identity, id: int, row: Fondo)
    requires Consistent(t, n) && id in t.fondo && FondoRefsOk(t, row) && !NroCuentaTaken(t.fondo, row.nroCuenta, Some(id))
    ensures Consistent(t.(fondo := t.fondo[id := row]), n)
  {
    var m2 := t.fondo[id := row];
    KeysBelowShrink(t.fondo, m2, n.fondo, n.fondo);
    UniqueStore(t.fondo, FondoNroCuenta, id, row);
    AllInStore(t.fondo, FondoTipoFondo, t.tipoFondo.Keys, id, row);
    AllInMoreKeys(t.deposito, DepositoFondo, t.fondo.Keys, m2.Keys);
    AllInMoreKeys(t.encabezado, EncabezadoFondo, t.fondo.Keys, m2.Keys);
  }

  /** A change of a fund that leaves its account number and its type alone keeps the constraints. */
  lemma ReviseFondoKeeps(t: Tables, n: Identity, id: int, row: Fondo)
    requires Consistent(t, n) && id in t.fondo
    requires row.nroCuenta == t.fondo[id].nroCuenta && row.tipoFondoId == t.fondo[id].tipoFondoId
    ensures Consistent(t.(fondo := t.fondo[id := row]), n)
  {
    assert Has(t.fondo, id);
    forall k | k in t.fondo && k != id ensures t.fondo[k].nroCuenta != row.nroCuenta {
      assert Has(t.fondo, k);
    }
    UpdateFondoKeeps(t, n, id, row);
  }

  lemma InsertTipoFondoKeeps(t: Tables, n: Identity, row: TipoFondo)
    requires Consistent(t, n) && !TipoFondoNombreTaken(t.tipoFondo, row.nombre, None)
    ensures n.tipoFondo !in t.tipoFondo
    ensures Consistent(t.(tipoFondo := t.tipoFondo[n.tipoFondo := row]), n.(tipoFondo := n.tipoFondo + 1))
  {
    var m2 := t.tipoFondo[n.tipoFondo := row];
    KeysBelowFresh(t.tipoFondo, n.tipoFondo);
    KeysBelowInsert(t.tipoFondo, n.tipoFondo, row);
    UniqueStore(t.tipoFondo, TipoFondoNombre, n.tipoFondo, row);
    AllInMoreKeys(t.fondo, FondoTipoFondo, t.tipoFondo.Keys, m2.Keys);
  }

  lemma UpdateTipoFondoKeeps(t: Tables, n: Identity, id: int, row: TipoFondo)
    requires Consistent(t, n) && id in t.tipoFondo && !TipoFondoNombreTaken(t.tipoFondo, row.nombre, Some(id))
    ensures Consistent(t.(tipoFondo := t.tipoFondo[id := row]), n)
  {
    var m2 := t.tipoFondo[id := row];
    KeysBelowShrink(t.tipoFondo, m2, n.tipoFondo, n.tipoFondo);
    UniqueStore(t.tipoFondo, TipoFondoNombre, id, row);
    AllInMoreKeys(t.fondo, FondoTipoFondo, t.tipoFondo.Keys, m2.Keys);
  }

  lemma DeleteTipoFondoKeeps(t: Tables, n: Identity, id: int)
    requires Consistent(t, n) && !TipoFondoReferenced(t, id)
    ensures Consistent(t.(tipoFondo := t.tipoFondo - {id}), n)
  {
    var m2 := t.tipoFondo - {id};
    assert m2.Keys == t.tipoFondo.Keys - {id};
    KeysBelowShrink(t.tipoFondo, m2, n.tipoFondo, n.tipoFondo);
    UniqueFewerRows(t.tipoFondo, TipoFondoNombre, id);
    AllInUnreferenced(t.fondo, FondoTipoFondo, t.tipoFondo.Keys, id);
  }

  lemma InsertEncabezadoKeeps(t: Tables, n: Identity, row: GastoEncabezado)
    requires Consistent(t, n) && EncabezadoRefsOk(t, row)
    ensures n.encabezado !in t.encabezado
    ensures Consistent(t.(encabezado := t.encabezado[n.encabezado := row]), n.(encabezado := n.encabezado + 1))
  {
    var m2 := t.encabezado[n.encabezado := row];
    KeysBelowFresh(t.encabezado, n.encabezado);
    KeysBelowInsert(t.encabezado, n.encabezado, row);
    AllInStore(t.encabezado, EncabezadoFondo, t.fondo.Keys, n.encabezado, row);
    AllInMoreKeys(t.detalle, DetalleEncabezado, t.encabezado.Keys, m2.Keys);
  }

  lemma UpdateEncabezadoKeeps(t: Tables, n: Identity, id: int, row: GastoEncabezado)
    requires Consistent(t, n) && id in t.encabezado && EncabezadoRefsOk(t, row)
    ensures Consistent(t.(encabezado := t.encabezado[id := row]), n)
  {
    var m2 := t.encabezado[id := row];
    KeysBelowShrink(t.encabezado, m2, n.encabezado, n.encabezado);
    AllInStore(t.encabezado, EncabezadoFondo, t.fondo.Keys, id, row);
    AllInMoreKeys(t.detalle, DetalleEncabezado, t.encabezado.Keys, m2.Keys);
  }

  lemma DeleteEncabezadoKeeps(t: Tables, n: Identity, id: int)
    requires Consistent(t, n) && !EncabezadoReferenced(t, id)
    ensures Consistent(t.(encabezado := t.encabezado - {id}), n)
  {
    var m2 := t.encabezado - {id};
    assert m2.Keys == t.encabezado.Keys - {id};
    KeysBelowShrink(t.encabezado, m2, n.encabezado, n.encabezado);
    AllInFewerRows(t.encabezado, EncabezadoFondo, t.fondo.Keys, id);
    AllInUnreferenced(t.detalle, DetalleEncabezado, t.encabezado.Keys, id);
  }

  lemma InsertDetalleKeeps(t: Tables, n: Identity, row: GastoDetalle)
    requires Consistent(t, n) && DetalleRefsOk(t, row)
    ensures n.detalle !in t.detalle
    ensures Consistent(t.(detalle := t.detalle[n.detalle := row]), n.(detalle := n.detalle + 1))
  {
    KeysBelowFresh(t.detalle, n.detalle);
    KeysBelowInsert(t.detalle, n.detalle, row);
    AllInStore(t.detalle, DetalleEncabezado, t.encabezado.Keys, n.detalle, row);
    AllInStore(t.detalle, DetalleTipoGasto, t.tipoGasto.Keys, n.detalle, row);
  }

  lemma UpdateDetalleKeeps(t: Tables, n: Identity, id: int, row: GastoDetalle)
    requires Consistent(t, n) && id in t.detalle && DetalleRefsOk(t, row)
    ensures Consistent(t.(detalle := t.detalle[id := row]), n)
  {
    KeysBelowShrink(t.detalle, t.detalle[id := row], n.detalle, n.detalle);
    AllInStore(t.detalle, DetalleEncabezado, t.encabezado.Keys, id, row);
    AllInStore(t.detalle, DetalleTipoGasto, t.tipoGasto.Keys, id, row);
  }

  lemma DeleteDetalleKeeps(t: Tables, n: Identity, id: int)
    requires Consistent(t, n)
    ensures Consistent(t.(detalle := t.detalle - {id}), n)
  {
    KeysBelowShrink(t.detalle, t.detalle - {id}, n.detalle, n.detalle);
    AllInFewerRows(t.detalle, DetalleEncabezado, t.encabezado.Keys, id);
    AllInFewerRows(t.detalle, DetalleTipoGasto, t.tipoGasto.Keys, id);
  }

  /** The distinct codes stored in the expense-type table. */
  ghost function Codigos(m: map<int, TipoGasto>): set<string> {
    CodesAt(m, m.Keys)
  }

  lemma CodesAtAdd(m: map<int, TipoGasto>, ks: set<int>, k: int)
    requires k in m
    ensures CodesAt(m, ks + {k}) == CodesAt(m, ks) + {m[k].codigo}
  {
  }

  class Database {
    var tables: Tables
    var identity: Identity

    ghost predicate Valid()
      reads this
    {
      Consistent(tables, identity)
    }

    constructor ()
      ensures Valid() && tables == EmptyTables && identity == FirstIdentity
    {
      tables := EmptyTables;
      identity := FirstIdentity;
    }

    /** ROLLBACK: every row returns to the snapshot taken at BEGIN TRANSACTION; identity values stay consumed. */
    method Rollback(saved: Tables)
      requires Consistent(saved, identity)
      modifies this
      ensures Valid() && tables == saved && identity == old(identity)
    {
      tables := saved;
    }

    // ------------------------------- TipoGasto -------------------------------

    /** `INSERT INTO TipoGasto (Codigo, Nombre, Descripcion)`. */
    method InsertTipoGasto(row: TipoGasto) returns (r: SqlResult<int>)
      requires Valid()
      modifies this
      ensures Valid() && IdentityLe(old(identity), identity)
      ensures identity == old(identity).(tipoGasto := Advance(old(identity).tipoGasto))
      ensures r == Outcome(InsertError(old(identity).tipoGasto,
                    TipoGastoNombreTaken(old(tables).tipoGasto, row.nombre, None), true),
                    old(identity).tipoGasto)
      ensures r.Done? ==> r.value !in old(tables).tipoGasto
      ensures tables == if r.Done? then old(tables).(tipoGasto := old(tables).tipoGasto[r.value := row]) else old(tables)
    {
      var id := identity.tipoGasto;
      identity := identity.(tipoGasto := Advance(id));
      var err := InsertError(id, TipoGastoNombreTaken(tables.tipoGasto, row.nombre, None), true);
      r := Outcome(err, id);
      if err.None? {
        InsertTipoGastoKeeps(tables, old(identity), row);
        tables := tables.(tipoGasto := tables.tipoGasto[id := row]);
      } else {
        ConsistentLater(tables, old(identity), identity);
      }
    }

    /** `UPDATE TipoGasto SET Nombre, Descripcion WHERE Id`: the code is left as it is. */
    method UpdateTipoGasto(id: int, nombre: string, descripcion: Option<string>) returns (r: SqlResult<nat>)
      requires Valid()
      modifies this`tables
      ensures Valid()
      ensures id !in old(tables).tipoGasto ==> r == Done(0) && tables == old(tables)
      ensures id in old(tables).tipoGasto ==>
        && r == Outcome(UpdateError(TipoGastoNombreTaken(old(tables).tipoGasto, nombre, Some(id)), true), 1)
        && tables == if r.Done? then old(tables).(tipoGasto := old(tables).tipoGasto[id :=
                       old(tables).tipoGasto[id].(nombre := nombre, descripcion := descripcion)])
                     else old(tables)
    {
      if id !in tables.tipoGasto {
        return Done(0);
      }
      var err := UpdateError(TipoGastoNombreTaken(tables.tipoGasto, nombre, Some(id)), true);
      r := Outcome(err, 1);
      if err.None? {
        UpdateTipoGastoKeeps(tables, identity, id, tables.tipoGasto[id].(nombre := nombre, descripcion := descripcion));
        tables := tables.(tipoGasto := tables.tipoGasto[id := tables.tipoGasto[id].(nombre := nombre, descripcion := descripcion)]);
      }
    }

    /** `DELETE FROM TipoGasto WHERE Id`: refused while a detail or a budget refers to the type. */
    method DeleteTipoGasto(id: int) returns (r: SqlResult<nat>)
      requires Valid()
      modifies this`tables
      ensures Valid()
      ensures id !in old(tables).tipoGasto ==> r == Done(0) && tables == old(tables)
      ensures id in old(tables).tipoGasto && TipoGastoReferenced(old(tables), id) ==>
        r == SqlError(ForeignKeyViolation) && tables == old(tables)
      ensures id in old(tables).tipoGasto && !TipoGastoReferenced(old(tables), id) ==>
        r == Done(1) && tables == old(tables).(tipoGasto := old(tables).tipoGasto - {id})
    {
      if id !in tables.tipoGasto {
        return Done(0);
      }
      if TipoGastoReferenced(tables, id) {
        return SqlError(ForeignKeyViolation);
      }
      DeleteTipoGastoKeeps(tables, identity, id);
      tables := tables.(tipoGasto := tables.tipoGasto - {id});
      r := Done(1);
    }

    /** `SELECT MAX(Codigo) FROM TipoGasto`: NULL on an empty table, else the greatest code in string order. */
    method MaxCodigo() returns (m: Option<string>)
      ensures IsMaxCode(Codigos(tables.tipoGasto), m)
      ensures m == MaxCode(Codigos(tables.tipoGasto))
    {
      var todo := tables.tipoGasto.Keys;
      ghost var seen: set<int> := {};
      m := None;
      while todo != {}
        invariant todo !! seen && todo + seen == tables.tipoGasto.Keys
        invariant IsMaxCode(CodesAt(tables.tipoGasto, seen), m)
        decreases todo
      {
        var id := Pick(todo);
        var c := tables.tipoGasto[id].codigo;
        CodesAtAdd(tables.tipoGasto, seen, id);
        LexLeReflexive(c);
        if m.None? {
          m := Some(c);
        } else {
          LexLeTotal(c, m.value);
          if !LexLe(c, m.value) {
            forall d | d in CodesAt(tables.tipoGasto, seen) ensures LexLe(d, c) {
              LexLeTransitive(d, m.value, c);
            }
            m := Some(c);
          }
        }
        todo := todo - {id};
        seen := seen + {id};
      }
      MaxCodeUnique(Codigos(tables.tipoGasto), m, MaxCode(Codigos(tables.tipoGasto)));
    }

    // ------------------------------- Presupuesto -------------------------------

    /** `INSERT INTO Presupuesto (TipoGastoId, Mes, Anio, Monto)`. */
    method InsertPresupuesto(row: Presupuesto) returns (r: SqlResult<int>)
      requires Valid()
      modifies this
      ensures Valid() && IdentityLe(old(identity), identity)
      ensures identity == old(identity).(presupuesto := Advance(old(identity).presupuesto))
      ensures r == Outcome(InsertError(old(identity).presupuesto, false, PresupuestoRefsOk(old(tables), row)),
                    old(identity).presupuesto)
      ensures r.Done? ==> r.value !in old(tables).presupuesto
      ensures tables == if r.Done? then old(tables).(presupuesto := old(tables).presupuesto[r.value := row]) else old(tables)
    {
      var id := identity.presupuesto;
      identity := identity.(presupuesto := Advance(id));
      var err := InsertError(id, false, PresupuestoRefsOk(tables, row));
      r := Outcome(err, id);
      if err.None? {
        InsertPresupuestoKeeps(tables, old(identity), row);
        tables := tables.(presupuesto := tables.presupuesto[id := row]);
      } else {
        ConsistentLater(tables, old(identity), identity);
      }
    }

    /** `UPDATE Presupuesto SET TipoGastoId, Mes, Anio, Monto WHERE Id`. */
    method UpdatePresupuesto(id: int, row: Presupuesto) returns (r: SqlResult<nat>)
      requires Valid()
      modifies this`tables
      ensures Valid()
      ensures id !in old(tables).presupuesto ==> r == Done(0) && tables == old(tables)
      ensures id in old(tables).presupuesto ==>
        && r == Outcome(UpdateError(false, PresupuestoRefsOk(old(tables), row)), 1)
        && tables == if r.Done? then old(tables).(presupuesto := old(tables).presupuesto[id := row]) else old(tables)
    {
      if id !in tables.presupuesto {
        return Done(0);
      }
      var err := UpdateError(false, PresupuestoRefsOk(tables, row));
      r := Outcome(err, 1);
      if err.None? {
        UpdatePresupuestoKeeps(tables, identity, id, row);
        tables := tables.(presupuesto := tables.presupuesto[id := row]);
      }
    }

    /** `DELETE FROM Presupuesto WHERE Id`: no table refers to a budget. */
    method DeletePresupuesto(id: int) returns (r: SqlResult<nat>)
      requires Valid()
      modifies this`tables
      ensures Valid()
      ensures r == Done(if id in old(tables).presupuesto then 1 else 0)
      ensures tables == old(tables).(presupuesto := old(tables).presupuesto - {id})
    {
      r := Done(if id in tables.presupuesto then 1 else 0);
      DeletePresupuestoKeeps(tables, identity, id);
      tables := tables.(presupuesto := tables.presupuesto - {id});
    }

    // ------------------------------- Deposito -------------------------------

    /** `INSERT INTO Deposito (fechaDeposito, id_fondo, monto)`. */
    method InsertDeposito(row: Deposito) returns (r: SqlResult<int>)
      requires Valid()
      modifies this
      ensures Valid() && IdentityLe(old(identity), identity)
      ensures identity == old(identity).(deposito := Advance(old(identity).deposito))
      ensures r == Outcome(InsertError(old(identity).deposito, false, DepositoRefsOk(old(tables), row)),
                    old(identity).deposito)
      ensures r.Done? ==> r.value !in old(tables).deposito
      ensures tables == if r.Done? then old(tables).(deposito := old(tables).deposito[r.value := row]) else old(tables)
    {
      var id := identity.deposito;
      identity := identity.(deposito := Advance(id));
      var err := InsertError(id, false, DepositoRefsOk(tables, row));
      r := Outcome(err, id);
      if err.None? {
        InsertDepositoKeeps(tables, old(identity), row);
        tables := tables.(deposito := tables.deposito[id := row]);
      } else {
        ConsistentLater(tables, old(identity), identity);
      }
    }

    /** `UPDATE Deposito SET fechaDeposito, id_fondo, monto WHERE id_deposito`. */
    method UpdateDeposito(id: int, row: Deposito) returns (r: SqlResult<nat>)
      requires Valid()
      modifies this`tables
      ensures Valid()
      ensures id !in old(tables).deposito ==> r == Done(0) && tables == old(tables)
      ensures id in old(tables).deposito ==>
        && r == Outcome(UpdateError(false, DepositoRefsOk(old(tables), row)), 1)
        && tables == if r.Done? then old(tables).(deposito := old(tables).deposito[id := row]) else old(tables)
    {
      if id !in tables.deposito {
        return Done(0);
      }
      var err := UpdateError(false, DepositoRefsOk(tables, row));
      r := Outcome(err, 1);
      if err.None? {
        UpdateDepositoKeeps(tables, identity, id, row);
        tables := tables.(deposito := tables.deposito[id := row]);
      }
    }

    /** `DELETE FROM Deposito WHERE id_deposito`: no table refers to a deposit. */
    method DeleteDeposito(id: int) returns (r: SqlResult<nat>)
      requires Valid()
      modifies this`tables
      ensures Valid()
      ensures r == Done(if id in old(tables).deposito then 1 else 0)
      ensures tables == old(tables).(deposito := old(tables).deposito - {id})
    {
      r := Done(if id in tables.deposito then 1 else 0);
      DeleteDepositoKeeps(tables, identity, id);
      tables := tables.(deposito := tables.deposito - {id});
    }

    // ------------------------------- Fondo -------------------------------

    /** `INSERT INTO Fondo (NroCuenta, NombreFondo, TipoFondoId, Saldo, Descripcion, Activo)`. */
    method InsertFondo(row: Fondo) returns (r: SqlResult<int>)
      requires Valid()
      modifies this
      ensures Valid() && IdentityLe(old(identity), identity)
      ensures identity == old(identity).(fondo := Advance(old(identity).fondo))
      ensures r == Outcome(InsertError(old(identity).fondo,
                    NroCuentaTaken(old(tables).fondo, row.nroCuenta, None),
                    FondoRefsOk(old(tables), row)),
                    old(identity).fondo)
      ensures r.Done? ==> r.value !in old(tables).fondo
      ensures tables == if r.Done? then old(tables).(fondo := old(tables).fondo[r.value := row]) else old(tables)
    {
      var id := identity.fondo;
      identity := identity.(fondo := Advance(id));
      var err := InsertError(id, NroCuentaTaken(tables.fondo, row.nroCuenta, None), FondoRefsOk(tables, row));
      r := Outcome(err, id);
      if err.None? {
        InsertFondoKeeps(tables, old(identity), row);
        tables := tables.(fondo := tables.fondo[id := row]);
      } else {
        ConsistentLater(tables, old(identity), identity);
      }
    }

    /** `UPDATE Fondo SET <every column> WHERE Id`. */
    method UpdateFondo(id: int, row: Fondo) returns (r: SqlResult<nat>)
      requires Valid()
      modifies this`tables
      ensures Valid()
      ensures id !in old(tables).fondo ==> r == Done(0) && tables == old(tables)
      ensures id in old(tables).fondo ==>
        && r == Outcome(UpdateError(NroCuentaTaken(old(tables).fondo, row.nroCuenta, Some(id)), FondoRefsOk(old(tables), row)), 1)
        && tables == if r.Done? then old(tables).(fondo := old(tables).fondo[id := row]) else old(tables)
    {
      if id !in tables.fondo {
        return Done(0);
      }
      var err := UpdateError(NroCuentaTaken(tables.fondo, row.nroCuenta, Some(id)), FondoRefsOk(tables, row));
      r := Outcome(err, 1);
      if err.None? {
        UpdateFondoKeeps(tables, identity, id, row);
        tables := tables.(fondo := tables.fondo[id := row]);
      }
    }

    /** `UPDATE Fondo SET saldo = saldo + @Monto WHERE id`. */
    method AddToSaldo(id: int, monto: int) returns (rows: nat)
      requires Valid()
      modifies this`tables
      ensures Valid()
      ensures rows == if id in old(tables).fondo then 1 else 0
      ensures tables == old(tables).(fondo := WithSaldo(old(tables).fondo, id, monto))
    {
      if id in tables.fondo {
        ReviseFondoKeeps(tables, identity, id, tables.fondo[id].(saldo := tables.fondo[id].saldo + monto));
        tables := tables.(fondo := tables.fondo[id := tables.fondo[id].(saldo := tables.fondo[id].saldo + monto)]);
        rows := 1;
      } else {
        rows := 0;
      }
    }

    /** `UPDATE Fondo SET Activo = 0 WHERE Id`. */
    method Deactivate(id: int) returns (rows: nat)
      requires Valid()
      modifies this`tables
      ensures Valid()
      ensures rows == if id in old(tables).fondo then 1 else 0
      ensures tables == old(tables).(fondo := Deactivated(old(tables).fondo, id))
    {
      if id in tables.fondo {
        ReviseFondoKeeps(tables, identity, id, tables.fondo[id].(activo := false));
        tables := tables.(fondo := tables.fondo[id := tables.fondo[id].(activo := false)]);
        rows := 1;
      } else {
        rows := 0;
      }
    }

    // ------------------------------- TipoFondo -------------------------------

    /** `INSERT INTO TipoFondo (Nombre)`. */
    method InsertTipoFondo(row: TipoFondo) returns (r: SqlResult<int>)
      requires Valid()
      modifies this
      ensures Valid() && IdentityLe(old(identity), identity)
      ensures identity == old(identity).(tipoFondo := Advance(old(identity).tipoFondo))
      ensures r == Outcome(InsertError(old(identity).tipoFondo,
                    TipoFondoNombreTaken(old(tables).tipoFondo, row.nombre, None), true),
                    old(identity).tipoFondo)
      ensures r.Done? ==> r.value !in old(tables).tipoFondo
      ensures tables == if r.Done? then old(tables).(tipoFondo := old(tables).tipoFondo[r.value := row]) else old(tables)
    {
      var id := identity.tipoFondo;
      identity := identity.(tipoFondo := Advance(id));
      var err := InsertError(id, TipoFondoNombreTaken(tables.tipoFondo, row.nombre, None), true);
      r := Outcome(err, id);
      if err.None? {
        InsertTipoFondoKeeps(tables, old(identity), row);
        tables := tables.(tipoFondo := tables.tipoFondo[id := row]);
      } else {
        ConsistentLater(tables, old(identity), identity);
      }
    }

    /** `UPDATE TipoFondo SET Nombre WHERE Id`. */
    method UpdateTipoFondo(id: int, row: TipoFondo) returns (r: SqlResult<nat>)
      requires Valid()
      modifies this`tables
      ensures Valid()
      ensures id !in old(tables).tipoFondo ==> r == Done(0) && tables == old(tables)
      ensures id in old(tables).tipoFondo ==>
        && r == Outcome(UpdateError(TipoFondoNombreTaken(old(tables).tipoFondo, row.nombre, Some(id)), true), 1)
        && tables == if r.Done? then old(tables).(tipoFondo := old(tables).tipoFondo[id := row]) else old(tables)
    {
      if id !in tables.tipoFondo {
        return Done(0);
      }
      var err := UpdateError(TipoFondoNombreTaken(tables.tipoFondo, row.nombre, Some(id)), true);
      r := Outcome(err, 1);
      if err.None? {
        UpdateTipoFondoKeeps(tables, identity, id, row);
        tables := tables.(tipoFondo := tables.tipoFondo[id := row]);
      }
    }

    /** `DELETE FROM TipoFondo WHERE Id`: refused while a fund (active or not) refers to the type. */
    method DeleteTipoFondo(id: int) returns (r: SqlResult<nat>)
      requires Valid()
      modifies this`tables
      ensures Valid()
      ensures id !in old(tables).tipoFondo ==> r == Done(0) && tables == old(tables)
      ensures id in old(tables).tipoFondo && TipoFondoReferenced(old(tables), id) ==>
        r == SqlError(ForeignKeyViolation) && tables == old(tables)
      ensures id in old(tables).tipoFondo && !TipoFondoReferenced(old(tables), id) ==>
        r == Done(1) && tables == old(tables).(tipoFondo := old(tables).tipoFondo - {id})
    {
      if id !in tables.tipoFondo {
        return Done(0);
      }
      if TipoFondoReferenced(tables, id) {
        return SqlError(ForeignKeyViolation);
      }
      DeleteTipoFondoKeeps(tables, identity, id);
      tables := tables.(tipoFondo := tables.tipoFondo - {id});
      r := Done(1);
    }

    // ------------------------------- gasto_encabezado -------------------------------

    /** `INSERT INTO gasto_encabezado (fecha, fondo_id, observaciones, nombre_comercio, tipo_documento, total)`. */
    method InsertEncabezado(row: GastoEncabezado) returns (r: SqlResult<int>)
      requires Valid()
      modifies this
      ensures Valid() && IdentityLe(old(identity), identity)
      ensures identity == old(identity).(encabezado := Advance(old(identity).encabezado))
      ensures r == Outcome(InsertError(old(identity).encabezado, false, EncabezadoRefsOk(old(tables), row)),
                    old(identity).encabezado)
      ensures r.Done? ==> r.value !in old(tables).encabezado
      ensures tables == if r.Done? then old(tables).(encabezado := old(tables).encabezado[r.value := row]) else old(tables)
    {
      var id := identity.encabezado;
      identity := identity.(encabezado := Advance(id));
      var err := InsertError(id, false, EncabezadoRefsOk(tables, row));
      r := Outcome(err, id);
      if err.None? {
        InsertEncabezadoKeeps(tables, old(identity), row);
        tables := tables.(encabezado := tables.encabezado[id := row]);
      } else {
        ConsistentLater(tables, old(identity), identity);
      }
    }

    /** `UPDATE gasto_encabezado SET <six columns> WHERE id`. */
    method UpdateEncabezado(id: int, row: GastoEncabezado) returns (r: SqlResult<nat>)
      requires Valid()
      modifies this`tables
      ensures Valid()
      ensures id !in old(tables).encabezado ==> r == Done(0) && tables == old(tables)
      ensures id in old(tables).encabezado ==>
        && r == Outcome(UpdateError(false, EncabezadoRefsOk(old(tables), row)), 1)
        && tables == if r.Done? then old(tables).(encabezado := old(tables).encabezado[id := row]) else old(tables)
    {
      if id !in tables.encabezado {
        return Done(0);
      }
      var err := UpdateError(false, EncabezadoRefsOk(tables, row));
      r := Outcome(err, 1);
      if err.None? {
        UpdateEncabezadoKeeps(tables, identity, id, row);
        tables := tables.(encabezado := tables.encabezado[id := row]);
      }
    }

    /** `DELETE FROM gasto_encabezado WHERE id`: refused while a detail row refers to the header. */
    method DeleteEncabezado(id: int) returns (r: SqlResult<nat>)
      requires Valid()
      modifies this`tables
      ensures Valid()
      ensures id !in old(tables).encabezado ==> r == Done(0) && tables == old(tables)
      ensures id in old(tables).encabezado && EncabezadoReferenced(old(tables), id) ==>
        r == SqlError(ForeignKeyViolation) && tables == old(tables)
      ensures id in old(tables).encabezado && !EncabezadoReferenced(old(tables), id) ==>
        r == Done(1) && tables == old(tables).(encabezado := old(tables).encabezado - {id})
    {
      if id !in tables.encabezado {
        return Done(0);
      }
      if EncabezadoReferenced(tables, id) {
        return SqlError(ForeignKeyViolation);
      }
      DeleteEncabezadoKeeps(tables, identity, id);
      tables := tables.(encabezado := tables.encabezado - {id});
      r := Done(1);
    }

    // ------------------------------- gasto_detalle -------------------------------

    /** `INSERT INTO gasto_detalle (gasto_encabezado_id, TipoGasto_id, monto)`. */
    method InsertDetalle(row: GastoDetalle) returns (r: SqlResult<int>)
      requires Valid()
      modifies this
      ensures Valid() && IdentityLe(old(identity), identity)
      ensures identity == old(identity).(detalle := Advance(old(identity).detalle))
      ensures r == Outcome(InsertError(old(identity).detalle, false, DetalleRefsOk(old(tables), row)),
                    old(identity).detalle)
      ensures r.Done? ==> r.value !in old(tables).detalle
      ensures tables == if r.Done? then old(tables).(detalle := old(tables).detalle[r.value := row]) else old(tables)
    {
      var id := identity.detalle;
      identity := identity.(detalle := Advance(id));
      var err := InsertError(id, false, DetalleRefsOk(tables, row));
      r := Outcome(err, id);
      if err.None? {
        InsertDetalleKeeps(tables, old(identity), row);
        tables := tables.(detalle := tables.detalle[id := row]);
      } else {
        ConsistentLater(tables, old(identity), identity);
      }
    }

    /** `UPDATE gasto_detalle SET gasto_encabezado_id, TipoGasto_id, monto WHERE id`. */
    method UpdateDetalle(id: int, row: GastoDetalle) returns (r: SqlResult<nat>)
      requires Valid()
      modifies this`tables
      ensures Valid()
      ensures id !in old(tables).detalle ==> r == Done(0) && tables == old(tables)
      ensures id in old(tables).detalle ==>
        && r == Outcome(UpdateError(false, DetalleRefsOk(old(tables), row)), 1)
        && tables == if r.Done? then old(tables).(detalle := old(tables).detalle[id := row]) else old(tables)
    {
      if id !in tables.detalle {
        return Done(0);
      }
      var err := UpdateError(false, DetalleRefsOk(tables, row));
      r := Outcome(err, 1);
      if err.None? {
        UpdateDetalleKeeps(tables, identity, id, row);
        tables := tables.(detalle := tables.detalle[id := row]);
      }
    }

    /** `DELETE FROM gasto_detalle WHERE id`: no table refers to a detail row. */
    method DeleteDetalle(id: int) returns (r: SqlResult<nat>)
      requires Valid()
      modifies this`tables
      ensures Valid()
      ensures r == Done(if id in old(tables).detalle then 1 else 0)
      ensures tables == old(tables).(detalle := old(tables).detalle - {id})
    {
      r := Done(if id in tables.detalle then 1 else 0);
      DeleteDetalleKeeps(tables, identity, id);
      tables := tables.(detalle := tables.detalle - {id});
    }
  }
}

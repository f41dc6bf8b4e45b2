/**
 * `DepositoController`: deposits into funds. POST inserts the deposit and
 * raises the fund's balance by the deposited amount inside one
 * transaction; PUT and DELETE change the deposit row only and leave every
 * balance as it was.
 */
module DepositoController {
  import opened Common
  import opened Store

  /** The body of POST and PUT (`DepositoInputModel`, `DepositoUpdateModel`); Monto in cents. */
  datatype DepositoInput = DepositoInput(fechaDeposito: int, idFondo: int, monto: int)

  /** [Range(1, int.MaxValue)] on IdFondo and [Range(0.01, double.MaxValue)] on Monto. */
  predicate InputValid(input: DepositoInput)
    ensures InputValid(input) ==> IsInt32(input.idFondo) && input.idFondo > 0 && input.monto > 0
    ensures input.monto <= 0 ==> !InputValid(input)
  {
    1 <= input.idFondo <= Int32Max && input.monto >= 1
  }

  /**
   * The lower bound of [Range(1, int.MaxValue)] refuses only ids no fund can
   * have: identity keys start at 1, so such a deposit would fail the foreign
   * key anyway.
   */
  lemma NonPositiveFundNeverStored(t: Tables, n: Identity, idFondo: int)
    requires Consistent(t, n) && idFondo < 1
    ensures idFondo !in t.fondo
  {
    assert Has(t.fondo, idFondo) ==> 1 <= idFondo;
  }

  function RowOf(input: DepositoInput): Deposito {
    Deposito(input.fechaDeposito, input.idFondo, input.monto)
  }

  /** `DepositoExistsById`: `SELECT COUNT(*) FROM Deposito WHERE id_deposito = @Id` is positive. */
  method DepositoExistsById(db: Database, id: int) returns (b: bool)
    ensures b <==> id in db.tables.deposito
  {
    var p := (k: int, row: Deposito) => k == id;
    var count := CountWhere(db.tables.deposito, p);
    CountPositive(db.tables.deposito, p, count);
    b := count > 0;
  }

  /** `GetDepositoById`: the stored deposit with its key, or None. */
  function GetDepositoById(t: Tables, id: int): (d: Option<Keyed<Deposito>>)
    ensures d.Some? <==> id in t.deposito
    ensures d.Some? ==> d.value == Keyed(id, t.deposito[id])
  {
    if id in t.deposito then Some(Keyed(id, t.deposito[id])) else None
  }

  /** POST api/Deposito. */
  method Post(db: Database, input: DepositoInput) returns (r: Reply<Keyed<Deposito>>)
    requires db.Valid()
    modifies db
    ensures db.Valid() && IdentityLe(old(db.identity), db.identity)
    ensures !InputValid(input) ==> r == BadRequest && db.tables == old(db.tables) && db.identity == old(db.identity)
    ensures InputValid(input) && !SqlDateTimeOk(input.fechaDeposito) ==>
      r == ServerError && db.tables == old(db.tables) && db.identity == old(db.identity)
    ensures InputValid(input) && SqlDateTimeOk(input.fechaDeposito) ==>
      var id := old(db.identity.deposito);
      && db.identity == old(db.identity).(deposito := Advance(id))
      && (id > Int32Max ==> r == ServerError && db.tables == old(db.tables))
      && (id <= Int32Max && input.idFondo !in old(db.tables.fondo) ==> r == BadRequest && db.tables == old(db.tables))
      && (id <= Int32Max && input.idFondo in old(db.tables.fondo) ==>
            && id !in old(db.tables.deposito)
            && r == Created(Keyed(id, RowOf(input)))
            && db.tables == old(db.tables).(deposito := old(db.tables.deposito)[id := RowOf(input)],
                                            fondo := WithSaldo(old(db.tables.fondo), input.idFondo, input.monto)))
  {
    if !InputValid(input) {
      return BadRequest;
    }
    var saved := db.tables;  // BEGIN TRANSACTION
    if !SqlDateTimeOk(input.fechaDeposito) {
      // SqlTypeException while sending @FechaDeposito: caught, rolled back.
      db.Rollback(saved);
      return ServerError;
    }
    var res := db.InsertDeposito(RowOf(input));
    if res.SqlError? {
      ConsistentLater(saved, old(db.identity), db.identity);
      db.Rollback(saved);
      return if res.number == ForeignKeyViolation then BadRequest else ServerError;
    }
    var newId := res.value;
    var rows := db.AddToSaldo(input.idFondo, input.monto);
    if rows == 0 {
      // The deposit's foreign key was just checked, so the fund exists.
      return BadRequest;
    }
    var deposito := GetDepositoById(db.tables, newId);
    if deposito.None? {
      // The deposit was just inserted.
      return ServerError;
    }
    r := Created(deposito.value);  // COMMIT
  }

  /** PUT api/Deposito/{id}: the deposit row changes, no fund balance does. */
  method Put(db: Database, id: int, input: DepositoInput) returns (r: Reply<Keyed<Deposito>>)
    requires db.Valid()
    modifies db
    ensures db.Valid() && db.identity == old(db.identity)
    ensures db.tables.fondo == old(db.tables.fondo)
    ensures !InputValid(input) ==> r == BadRequest && db.tables == old(db.tables)
    ensures InputValid(input) && id !in old(db.tables.deposito) ==> r == NotFound && db.tables == old(db.tables)
    ensures InputValid(input) && id in old(db.tables.deposito) && !SqlDateTimeOk(input.fechaDeposito) ==>
      r == ServerError && db.tables == old(db.tables)
    ensures InputValid(input) && id in old(db.tables.deposito) && SqlDateTimeOk(input.fechaDeposito) &&
            input.idFondo !in old(db.tables.fondo) ==>
      r == BadRequest && db.tables == old(db.tables)
    ensures InputValid(input) && id in old(db.tables.deposito) && SqlDateTimeOk(input.fechaDeposito) &&
            input.idFondo in old(db.tables.fondo) ==>
      && r == Ok(Keyed(id, RowOf(input)))
      && db.tables == old(db.tables).(deposito := old(db.tables.deposito)[id := RowOf(input)])
  {
    if !InputValid(input) {
      return BadRequest;
    }
    var saved := db.tables;  // BEGIN TRANSACTION
    var found := DepositoExistsById(db, id);
    if !found {
      db.Rollback(saved);
      return NotFound;
    }
    if !SqlDateTimeOk(input.fechaDeposito) {
      // SqlTypeException while sending @FechaDeposito: caught, rolled back.
      db.Rollback(saved);
      return ServerError;
    }
    var res := db.UpdateDeposito(id, RowOf(input));
    match res
    case SqlError(n) =>
      db.Rollback(saved);
      r := if n == ForeignKeyViolation then BadRequest else ServerError;
    case Done(rows) =>
      if rows == 0 {
        // The row was found earlier in the same transaction.
        r := NotFound;
      } else {
        var deposito := GetDepositoById(db.tables, id);
        if deposito.None? {
          // The row was just updated.
          r := ServerError;
        } else {
          r := Ok(deposito.value);  // COMMIT
        }
      }
  }

  /** DELETE api/Deposito/{id}: the deposit row goes, no fund balance changes. */
  method Delete(db: Database, id: int) returns (r: Reply<()>)
    requires db.Valid()
    modifies db
    ensures db.Valid() && db.identity == old(db.identity)
    ensures db.tables.fondo == old(db.tables.fondo)
    ensures id !in old(db.tables.deposito) ==> r == NotFound && db.tables == old(db.tables)
    ensures id in old(db.tables.deposito) ==>
      r == NoContent && db.tables == old(db.tables).(deposito := old(db.tables.deposito) - {id})
  {
    var saved := db.tables;  // BEGIN TRANSACTION
    var found := DepositoExistsById(db, id);
    if !found {
      db.Rollback(saved);
      return NotFound;
    }
    var res := db.DeleteDeposito(id);
    match res
    case SqlError(n) =>
      // No table refers to a deposit: this DELETE raises nothing and nothing needs rolling back.
      r := if n == ForeignKeyViolation then Conflict else ServerError;
    case Done(rows) =>
      r := if rows == 0 then NotFound else NoContent;  // COMMIT
  }

  /** The balance change of `WithSaldo` touches one fund, by exactly the amount. */
  lemma WithSaldoChangesOneFund(m: map<int, Fondo>, id: int, monto: int)
    ensures WithSaldo(m, id, monto).Keys == m.Keys
    ensures forall k :: k in m && k != id ==> WithSaldo(m, id, monto)[k] == m[k]
    ensures id in m ==> WithSaldo(m, id, monto)[id].saldo == m[id].saldo + monto &&
                        WithSaldo(m, id, monto)[id].(saldo := m[id].saldo) == m[id]
  {
  }

  /** Two deposits into the same fund add up: the balance grows by their sum, in either order. */
  lemma DepositsAdd(m: map<int, Fondo>, id: int, a: int, b: int)
    ensures WithSaldo(WithSaldo(m, id, a), id, b) == WithSaldo(m, id, a + b)
    ensures WithSaldo(WithSaldo(m, id, a), id, b) == WithSaldo(WithSaldo(m, id, b), id, a)
  {
  }
}

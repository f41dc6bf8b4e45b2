/**
 * `PresupuestoController`: monthly budgets per expense type. The database
 * does not enforce that a (type, month, year) triple appears once; the
 * handlers do, by counting matching rows inside the same transaction as
 * the write.
 */
module PresupuestoController {
  import opened Common
  import opened Months
  import opened Store

  /** The body of POST and PUT (`PresupuestoInputModel`, `PresupuestoUpdateModel`); Monto in cents. */
  datatype PresupuestoInput = PresupuestoInput(tipoGastoId: int, mes: Byte, anio: int, monto: int)

  /** [Range(1, 12)] on Mes, [Range(2000, 2100)] on Anio, [Range(0.01, double.MaxValue)] on Monto. */
  predicate InputValid(input: PresupuestoInput)
    ensures InputValid(input) <==>
      NombreMes(input.mes) != "Mes inválido" && 2000 <= input.anio <= 2100 && input.monto > 0
  {
    NombreMesInjective(input.mes, input.mes);
    1 <= input.mes <= 12 && 2000 <= input.anio <= 2100 && input.monto >= 1
  }

  function RowOf(input: PresupuestoInput): Presupuesto {
    Presupuesto(input.tipoGastoId, input.mes, input.anio, input.monto)
  }

  /** A budget as `GetPresupuestoById` returns it: the row, its expense type's name and its month's name. */
  datatype PresupuestoView = PresupuestoView(id: int, row: Presupuesto, tipoGastoNombre: string, nombreMes: string)

  /** Some budget other than row `excludeId` is for the same expense type, month and year. */
  predicate SamePeriodExists(t: Tables, tipoGastoId: int, mes: Byte, anio: int, excludeId: int) {
    exists k | k in t.presupuesto ::
      k != excludeId && t.presupuesto[k].tipoGastoId == tipoGastoId &&
      t.presupuesto[k].mes == mes && t.presupuesto[k].anio == anio
  }

  /** No two budgets share an expense type, month and year. */
  ghost predicate PeriodsUnique(t: Tables) {
    forall a, b :: a in t.presupuesto && b in t.presupuesto && a != b ==>
      !(t.presupuesto[a].tipoGastoId == t.presupuesto[b].tipoGastoId &&
        t.presupuesto[a].mes == t.presupuesto[b].mes && t.presupuesto[a].anio == t.presupuesto[b].anio)
  }

  /** `PresupuestoExists`: `SELECT COUNT(*) ... AND Id <> @ExcludeId` is positive. */
  method PresupuestoExists(db: Database, tipoGastoId: int, mes: Byte, anio: int, excludeId: int) returns (b: bool)
    ensures b <==> SamePeriodExists(db.tables, tipoGastoId, mes, anio, excludeId)
  {
    var p := (k: int, row: Presupuesto) => k != excludeId && row.tipoGastoId == tipoGastoId && row.mes == mes && row.anio == anio;
    var count := CountWhere(db.tables.presupuesto, p);
    CountPositive(db.tables.presupuesto, p, count);
    b := count > 0;
  }

  /** `PresupuestoExistsById`: `SELECT COUNT(*) ... WHERE Id = @Id` is positive. */
  method PresupuestoExistsById(db: Database, id: int) returns (b: bool)
    ensures b <==> id in db.tables.presupuesto
  {
    var p := (k: int, row: Presupuesto) => k == id;
    var count := CountWhere(db.tables.presupuesto, p);
    CountPositive(db.tables.presupuesto, p, count);
    b := count > 0;
  }

  /** `GetPresupuestoById`: the budget joined with its expense type, or None. */
  function GetPresupuestoById(t: Tables, id: int): (v: Option<PresupuestoView>)
    ensures v.Some? <==> id in t.presupuesto && t.presupuesto[id].tipoGastoId in t.tipoGasto
    ensures v.Some? ==> v.value.id == id && v.value.row == t.presupuesto[id]
  {
    if id in t.presupuesto && t.presupuesto[id].tipoGastoId in t.tipoGasto then
      var row := t.presupuesto[id];
      Some(PresupuestoView(id, row, t.tipoGasto[row.tipoGastoId].nombre, NombreMes(row.mes)))
    else None
  }

  /** POST api/Presupuesto. */
  method Post(db: Database, input: PresupuestoInput) returns (r: Reply<PresupuestoView>)
    requires db.Valid()
    modifies db
    ensures db.Valid() && IdentityLe(old(db.identity), db.identity)
    ensures !InputValid(input) ==> r == BadRequest && db.tables == old(db.tables) && db.identity == old(db.identity)
    ensures InputValid(input) && SamePeriodExists(old(db.tables), input.tipoGastoId, input.mes, input.anio, 0) ==>
      r == Conflict && db.tables == old(db.tables) && db.identity == old(db.identity)
    ensures InputValid(input) && !SamePeriodExists(old(db.tables), input.tipoGastoId, input.mes, input.anio, 0) ==>
      var id := old(db.identity.presupuesto);
      && db.identity == old(db.identity).(presupuesto := Advance(id))
      && (id > Int32Max || input.tipoGastoId !in old(db.tables.tipoGasto) ==>
            r == ServerError && db.tables == old(db.tables))
      && (id <= Int32Max && input.tipoGastoId in old(db.tables.tipoGasto) ==>
            && id !in old(db.tables.presupuesto)
            && db.tables == old(db.tables).(presupuesto := old(db.tables.presupuesto)[id := RowOf(input)])
            && r == Created(PresupuestoView(id, RowOf(input),
                              old(db.tables.tipoGasto)[input.tipoGastoId].nombre, NombreMes(input.mes))))
    ensures PeriodsUnique(old(db.tables)) ==> PeriodsUnique(db.tables)
  {
    if !InputValid(input) {
      return BadRequest;
    }
    var saved := db.tables;  // BEGIN TRANSACTION
    var dup := PresupuestoExists(db, input.tipoGastoId, input.mes, input.anio, 0);
    if dup {
      db.Rollback(saved);
      return Conflict;
    }
    var res := db.InsertPresupuesto(RowOf(input));
    match res
    case SqlError(_) =>
      ConsistentLater(saved, old(db.identity), db.identity);
      db.Rollback(saved);
      r := ServerError;
    case Done(id) =>
      var created := GetPresupuestoById(db.tables, id);
      if created.None? {
        // The row was just inserted with an existing expense type, so the re-read finds it.
        r := ServerError;
      } else {
        r := Created(created.value);  // COMMIT
        NoKeyZero(saved.presupuesto, old(db.identity.presupuesto));
        InsertKeepsPeriodsUnique(saved, id, RowOf(input));
      }
  }

  /** PUT api/Presupuesto/{id}. */
  method Put(db: Database, id: int, input: PresupuestoInput) returns (r: Reply<PresupuestoView>)
    requires db.Valid()
    modifies db
    ensures db.Valid() && db.identity == old(db.identity)
    ensures !InputValid(input) ==> r == BadRequest && db.tables == old(db.tables)
    ensures InputValid(input) && id !in old(db.tables.presupuesto) ==> r == NotFound && db.tables == old(db.tables)
    ensures InputValid(input) && id in old(db.tables.presupuesto) &&
            SamePeriodExists(old(db.tables), input.tipoGastoId, input.mes, input.anio, id) ==>
      r == Conflict && db.tables == old(db.tables)
    ensures InputValid(input) && id in old(db.tables.presupuesto) &&
            !SamePeriodExists(old(db.tables), input.tipoGastoId, input.mes, input.anio, id) ==>
      && (input.tipoGastoId !in old(db.tables.tipoGasto) ==> r == ServerError && db.tables == old(db.tables))
      && (input.tipoGastoId in old(db.tables.tipoGasto) ==>
            && db.tables == old(db.tables).(presupuesto := old(db.tables.presupuesto)[id := RowOf(input)])
            && r == Ok(PresupuestoView(id, RowOf(input),
                         old(db.tables.tipoGasto)[input.tipoGastoId].nombre, NombreMes(input.mes))))
    ensures PeriodsUnique(old(db.tables)) ==> PeriodsUnique(db.tables)
  {
    if !InputValid(input) {
      return BadRequest;
    }
    var saved := db.tables;  // BEGIN TRANSACTION
    var found := PresupuestoExistsById(db, id);
    if !found {
      db.Rollback(saved);
      return NotFound;
    }
    var dup := PresupuestoExists(db, input.tipoGastoId, input.mes, input.anio, id);
    if dup {
      db.Rollback(saved);
      return Conflict;
    }
    var res := db.UpdatePresupuesto(id, RowOf(input));
    match res
    case SqlError(_) =>
      db.Rollback(saved);
      r := ServerError;
    case Done(rows) =>
      if rows == 0 {
        // The row was found earlier in the same transaction.
        r := NotFound;
      } else {
        var updated := GetPresupuestoById(db.tables, id);
        if updated.None? {
          // The row was just updated with an existing expense type, so the re-read finds it.
          r := ServerError;
        } else {
          r := Ok(updated.value);  // COMMIT
          UpdateKeepsPeriodsUnique(saved, id, RowOf(input));
        }
      }
  }

  /** DELETE api/Presupuesto/{id}. */
  method Delete(db: Database, id: int) returns (r: Reply<()>)
    requires db.Valid()
    modifies db
    ensures db.Valid() && db.identity == old(db.identity)
    ensures id !in old(db.tables.presupuesto) ==> r == NotFound && db.tables == old(db.tables)
    ensures id in old(db.tables.presupuesto) ==>
      r == NoContent && db.tables == old(db.tables).(presupuesto := old(db.tables.presupuesto) - {id})
    ensures PeriodsUnique(old(db.tables)) ==> PeriodsUnique(db.tables)
  {
    var saved := db.tables;  // BEGIN TRANSACTION
    var found := PresupuestoExistsById(db, id);
    if !found {
      db.Rollback(saved);
      return NotFound;
    }
    var res := db.DeletePresupuesto(id);
    match res
    case SqlError(n) =>
      // No table refers to a budget: this DELETE raises nothing and nothing needs rolling back.
      r := if n == ForeignKeyViolation then Conflict else ServerError;
    case Done(rows) =>
      r := if rows == 0 then NotFound else NoContent;  // COMMIT
  }

  /** Identity keys start at 1, so excluding id 0 (POST's default) excludes nothing. */
  lemma ExcludingZeroExcludesNothing(t: Tables, n: Identity, tipoGastoId: int, mes: Byte, anio: int)
    requires Consistent(t, n)
    ensures SamePeriodExists(t, tipoGastoId, mes, anio, 0) <==>
      exists k :: k in t.presupuesto && t.presupuesto[k].tipoGastoId == tipoGastoId &&
                  t.presupuesto[k].mes == mes && t.presupuesto[k].anio == anio
  {
    if exists k :: k in t.presupuesto && t.presupuesto[k].tipoGastoId == tipoGastoId &&
                   t.presupuesto[k].mes == mes && t.presupuesto[k].anio == anio {
      var k :| k in t.presupuesto && t.presupuesto[k].tipoGastoId == tipoGastoId &&
               t.presupuesto[k].mes == mes && t.presupuesto[k].anio == anio;
      KeyBelow(t.presupuesto, n.presupuesto, k);
    }
  }

  /** A PUT that keeps a budget's own triple never conflicts with itself, as long as triples are unique. */
  lemma OwnPeriodNeverConflicts(t: Tables, id: int)
    requires PeriodsUnique(t) && id in t.presupuesto
    ensures !SamePeriodExists(t, t.presupuesto[id].tipoGastoId, t.presupuesto[id].mes, t.presupuesto[id].anio, id)
  {
  }

  /** The check-then-insert of POST keeps triples unique. */
  lemma InsertKeepsPeriodsUnique(t: Tables, id: int, row: Presupuesto)
    requires id !in t.presupuesto && 0 !in t.presupuesto
    requires !SamePeriodExists(t, row.tipoGastoId, row.mes, row.anio, 0)
    ensures PeriodsUnique(t) ==> PeriodsUnique(t.(presupuesto := t.presupuesto[id := row]))
  {
  }

  /** The check-then-update of PUT keeps triples unique. */
  lemma UpdateKeepsPeriodsUnique(t: Tables, id: int, row: Presupuesto)
    requires !SamePeriodExists(t, row.tipoGastoId, row.mes, row.anio, id)
    ensures PeriodsUnique(t) ==> PeriodsUnique(t.(presupuesto := t.presupuesto[id := row]))
  {
  }
}

/**
 * `GastoencabezadoController`: expense headers. POST and PUT write the six
 * columns and answer BadRequest when the fund does not exist; DELETE answers
 * BadRequest, not Conflict, while detail rows refer to the header.
 */
module GastoencabezadoController {
  import opened Common
  import opened Store

  /** The body of POST and PUT: the `Gastoencabezado` entity, Fecha as a day number and Total in cents. */
  datatype GastoencabezadoBody = GastoencabezadoBody(
    id: int, fecha: int, fondoId: int, observaciones: Option<string>,
    nombreComercio: string, tipoDocumento: string, total: int)

  /** The row the INSERT or UPDATE writes; a null Observaciones is stored as NULL. */
  function RowOf(b: GastoencabezadoBody): GastoEncabezado
  {
    GastoEncabezado(b.fecha, b.fondoId, b.observaciones, b.nombreComercio, b.tipoDocumento, b.total)
  }

  /** POST api/Gastoencabezado: the new id is written into the body, which is echoed. */
  method Post(db: Database, gasto: GastoencabezadoBody) returns (r: Reply<Keyed<GastoEncabezado>>)
    requires db.Valid()
    modifies db
    ensures db.Valid() && IdentityLe(old(db.identity), db.identity)
    ensures !SqlDateTimeOk(gasto.fecha) ==>
      r == ServerError && db.tables == old(db.tables) && db.identity == old(db.identity)
    ensures SqlDateTimeOk(gasto.fecha) ==>
      var id := old(db.identity.encabezado);
      && db.identity == old(db.identity).(encabezado := Advance(id))
      && (id > Int32Max ==> r == ServerError && db.tables == old(db.tables))
      && (id <= Int32Max && gasto.fondoId !in old(db.tables.fondo) ==> r == BadRequest && db.tables == old(db.tables))
      && (id <= Int32Max && gasto.fondoId in old(db.tables.fondo) ==>
            && r == Created(Keyed(id, RowOf(gasto)))
            && id !in old(db.tables.encabezado)
            && db.tables == old(db.tables).(encabezado := old(db.tables.encabezado)[id := RowOf(gasto)]))
  {
    if !SqlDateTimeOk(gasto.fecha) {
      // SqlTypeException while sending @Fecha, caught by `catch (Exception)`.
      return ServerError;
    }
    var res := db.InsertEncabezado(RowOf(gasto));
    match res
    case Done(newId) =>
      r := Created(Keyed(newId, RowOf(gasto)));
    case SqlError(n) =>
      r := if n == ForeignKeyViolation then BadRequest else ServerError;
  }

  /** PUT api/Gastoencabezado/{id}: overwrites the six columns of that header. */
  method Put(db: Database, id: int, gasto: GastoencabezadoBody) returns (r: Reply<()>)
    requires db.Valid()
    modifies db
    ensures db.Valid() && db.identity == old(db.identity)
    ensures id != gasto.id ==> r == BadRequest && db.tables == old(db.tables)
    ensures id == gasto.id && !SqlDateTimeOk(gasto.fecha) ==> r == ServerError && db.tables == old(db.tables)
    ensures id == gasto.id && SqlDateTimeOk(gasto.fecha) && id !in old(db.tables.encabezado) ==>
      r == NotFound && db.tables == old(db.tables)
    ensures id == gasto.id && SqlDateTimeOk(gasto.fecha) && id in old(db.tables.encabezado) &&
            gasto.fondoId !in old(db.tables.fondo) ==>
      r == BadRequest && db.tables == old(db.tables)
    ensures id == gasto.id && SqlDateTimeOk(gasto.fecha) && id in old(db.tables.encabezado) &&
            gasto.fondoId in old(db.tables.fondo) ==>
      r == NoContent && db.tables == old(db.tables).(encabezado := old(db.tables.encabezado)[id := RowOf(gasto)])
  {
    if id != gasto.id {
      return BadRequest;
    }
    if !SqlDateTimeOk(gasto.fecha) {
      // SqlTypeException while sending @Fecha: the UPDATE never runs, so even a missing id answers 500.
      return ServerError;
    }
    var res := db.UpdateEncabezado(id, RowOf(gasto));
    match res
    case Done(rows) =>
      r := if rows == 0 then NotFound else NoContent;
    case SqlError(n) =>
      r := if n == ForeignKeyViolation then BadRequest else ServerError;
  }

  /** DELETE api/Gastoencabezado/{id}: a single DELETE; the detail rows' foreign key may refuse it. */
  method Delete(db: Database, id: int) returns (r: Reply<()>)
    requires db.Valid()
    modifies db
    ensures db.Valid() && db.identity == old(db.identity)
    ensures id !in old(db.tables.encabezado) ==> r == NotFound && db.tables == old(db.tables)
    ensures id in old(db.tables.encabezado) && EncabezadoReferenced(old(db.tables), id) ==>
      r == BadRequest && db.tables == old(db.tables)
    ensures id in old(db.tables.encabezado) && !EncabezadoReferenced(old(db.tables), id) ==>
      r == NoContent && db.tables == old(db.tables).(encabezado := old(db.tables.encabezado) - {id})
  {
    var res := db.DeleteEncabezado(id);
    match res
    case Done(rows) =>
      r := if rows == 0 then NotFound else NoContent;
    case SqlError(n) =>
      r := if n == ForeignKeyViolation then BadRequest else ServerError;
  }

  /**
   * In a consistent database a header that detail rows refer to exists, so
   * for such an id DELETE answers BadRequest and never NotFound.
   */
  lemma ReferencedHeaderExists(t: Tables, n: Identity, id: int)
    requires Consistent(t, n) && EncabezadoReferenced(t, id)
    ensures id in t.encabezado
  {
    var d :| d in t.detalle && t.detalle[d].gastoEncabezadoId == id;
    assert Has(t.detalle, d);
  }

  /** Removing an unreferenced header leaves every detail row attached to a header that still exists. */
  lemma DeleteKeepsDetailsAttached(t: Tables, n: Identity, id: int)
    requires Consistent(t, n) && !EncabezadoReferenced(t, id)
    ensures forall d :: d in t.detalle ==> t.detalle[d].gastoEncabezadoId in t.encabezado - {id}
  {
    forall d | d in t.detalle ensures t.detalle[d].gastoEncabezadoId in t.encabezado - {id} {
      assert Has(t.detalle, d);
    }
  }
}

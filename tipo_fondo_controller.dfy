/**
 * `TipoFondoController`: fund types. POST and PUT write the name, which
 * the database keeps unique; DELETE first counts the funds of the type,
 * active or not, and is refused while there is any.
 */
module TipoFondoController {
  import opened Common
  import opened Store

  /** The body of POST and PUT: the `TipoFondo` entity itself, whose Id POST ignores. */
  datatype TipoFondoBody = TipoFondoBody(id: int, nombre: string)

  /** POST api/tipofondo: `INSERT ...; SELECT SCOPE_IDENTITY()`, then the new id is written into the body. */
  method Post(db: Database, tipo: TipoFondoBody) returns (r: Reply<Keyed<TipoFondo>>)
    requires db.Valid()
    modifies db
    ensures db.Valid() && IdentityLe(old(db.identity), db.identity)
    ensures
      var id := old(db.identity.tipoFondo);
      && db.identity == old(db.identity).(tipoFondo := Advance(id))
      && (id > Int32Max ==> r == ServerError && db.tables == old(db.tables))
      && (id <= Int32Max && TipoFondoNombreTaken(old(db.tables.tipoFondo), tipo.nombre, None) ==>
            r == Conflict && db.tables == old(db.tables))
      && (id <= Int32Max && !TipoFondoNombreTaken(old(db.tables.tipoFondo), tipo.nombre, None) ==>
            && r == Created(Keyed(id, TipoFondo(tipo.nombre)))
            && id !in old(db.tables.tipoFondo)
            && db.tables == old(db.tables).(tipoFondo := old(db.tables.tipoFondo)[id := TipoFondo(tipo.nombre)]))
  {
    var res := db.InsertTipoFondo(TipoFondo(tipo.nombre));
    match res
    case Done(newId) =>
      r := Created(Keyed(newId, TipoFondo(tipo.nombre)));
    case SqlError(n) =>
      r := if n == UniqueKeyViolation then Conflict else ServerError;
  }

  /** PUT api/tipofondo/{id}: renames the type. */
  method Put(db: Database, id: int, tipo: TipoFondoBody) returns (r: Reply<()>)
    requires db.Valid()
    modifies db
    ensures db.Valid() && db.identity == old(db.identity)
    ensures id != tipo.id ==> r == BadRequest && db.tables == old(db.tables)
    ensures id == tipo.id && id !in old(db.tables.tipoFondo) ==> r == NotFound && db.tables == old(db.tables)
    ensures id == tipo.id && id in old(db.tables.tipoFondo) &&
            TipoFondoNombreTaken(old(db.tables.tipoFondo), tipo.nombre, Some(id)) ==>
      r == Conflict && db.tables == old(db.tables)
    ensures id == tipo.id && id in old(db.tables.tipoFondo) &&
            !TipoFondoNombreTaken(old(db.tables.tipoFondo), tipo.nombre, Some(id)) ==>
      r == NoContent && db.tables == old(db.tables).(tipoFondo := old(db.tables.tipoFondo)[id := TipoFondo(tipo.nombre)])
  {
    if id != tipo.id {
      return BadRequest;
    }
    var res := db.UpdateTipoFondo(id, TipoFondo(tipo.nombre));
    match res
    case Done(rows) =>
      r := if rows == 0 then NotFound else NoContent;
    case SqlError(n) =>
      r := if n == UniqueKeyViolation then Conflict else ServerError;
  }

  /**
   * DELETE api/tipofondo/{id}: `SELECT COUNT(*) FROM Fondo WHERE TipoFondoId = @Id`
   * (inactive funds included), then `DELETE`.
   */
  method Delete(db: Database, id: int) returns (r: Reply<()>)
    requires db.Valid()
    modifies db
    ensures db.Valid() && db.identity == old(db.identity)
    ensures TipoFondoReferenced(old(db.tables), id) ==> r == Conflict && db.tables == old(db.tables)
    ensures !TipoFondoReferenced(old(db.tables), id) && id !in old(db.tables.tipoFondo) ==>
      r == NotFound && db.tables == old(db.tables)
    ensures !TipoFondoReferenced(old(db.tables), id) && id in old(db.tables.tipoFondo) ==>
      r == NoContent && db.tables == old(db.tables).(tipoFondo := old(db.tables.tipoFondo) - {id})
  {
    var p := (k: int, f: Fondo) => f.tipoFondoId == id;
    var count := CountWhere(db.tables.fondo, p);
    CountPositive(db.tables.fondo, p, count);
    if count > 0 {
      ghost var f := CountWitness(db.tables.fondo, p, count);
      assert db.tables.fondo[f].tipoFondoId == id;
      return Conflict;
    }
    var res := db.DeleteTipoFondo(id);
    match res
    case Done(rows) =>
      r := if rows == 0 then NotFound else NoContent;
    case SqlError(n) =>
      r := ServerError;
  }

  /**
   * In a consistent database a type that some fund refers to exists, so the
   * dependency count never answers Conflict for an id that is not there.
   */
  lemma ReferencedTypeExists(t: Tables, n: Identity, id: int)
    requires Consistent(t, n) && TipoFondoReferenced(t, id)
    ensures id in t.tipoFondo
  {
    var f :| f in t.fondo && t.fondo[f].tipoFondoId == id;
    assert Has(t.fondo, f);
  }

  /**
   * A fund, even a soft-deleted one, keeps its type from being deleted: the
   * guard reads every fund, not only those `GetActivos` returns.
   */
  lemma InactiveFundBlocksDelete(t: Tables, f: int)
    requires f in t.fondo && !t.fondo[f].activo
    ensures f !in ActiveIds(t.fondo)
    ensures TipoFondoReferenced(t, t.fondo[f].tipoFondoId)
  {
  }
}

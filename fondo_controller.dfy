/**
 * `FondoController`: funds. GET activos lists the funds whose Activo flag is
 * set; POST and PUT write every column, the account number being unique;
 * DELETE is a soft delete that only clears Activo.
 */
module FondoController {
  import opened Common
  import opened Store

  /** The body of POST and PUT: the `Fondo` entity, Saldo in cents; POST ignores its Id. */
  datatype FondoBody = FondoBody(
    id: int, nroCuenta: string, nombreFondo: string, tipoFondoId: int,
    saldo: int, descripcion: Option<string>, activo: bool)

  /** The row the INSERT or UPDATE writes: every column comes from the body. */
  function RowOf(b: FondoBody): Fondo
  {
    Fondo(b.nroCuenta, b.nombreFondo, b.tipoFondoId, b.saldo, b.descripcion, b.activo)
  }

  /** One row of the listing: the fund joined with its type's name (`TF.Nombre AS TipoFondoNombre`). */
  datatype FondoView = FondoView(id: int, fondo: Fondo, tipoFondoNombre: string)

  /** Fund `id` is a row of `GET api/fondo/activos`: it is active and survives the INNER JOIN. */
  predicate Listed(t: Tables, id: int) {
    id in t.fondo && t.fondo[id].activo && t.fondo[id].tipoFondoId in t.tipoFondo
  }

  function ViewOf(t: Tables, id: int): (v: FondoView)
    requires Listed(t, id)
    ensures v.id == id && v.fondo == t.fondo[id]
  {
    FondoView(id, t.fondo[id], t.tipoFondo[t.fondo[id].tipoFondoId].nombre)
  }

  /** GET api/fondo/activos: reads the joined rows one by one into a list. */
  method GetActivos(db: Database) returns (views: seq<FondoView>)
    ensures forall v :: v in views ==> Listed(db.tables, v.id) && v == ViewOf(db.tables, v.id)
    ensures forall id :: Listed(db.tables, id) ==> exists v :: v in views && v.id == id
    ensures forall i, j :: 0 <= i < j < |views| ==> views[i].id != views[j].id
  {
    var t := db.tables;
    var todo := set id | id in t.fondo && Listed(t, id);
    ghost var all := todo;
    views := [];
    while todo != {}
      invariant todo <= all
      invariant forall v :: v in views ==> v.id in all && v.id !in todo && v == ViewOf(t, v.id)
      invariant forall id :: id in all && id !in todo ==> exists v :: v in views && v.id == id
      invariant forall i, j :: 0 <= i < j < |views| ==> views[i].id != views[j].id
      decreases todo
    {
      var id := Pick(todo);
      var v := ViewOf(t, id);
      forall k | k in all && k !in todo - {id} ensures exists w :: w in views + [v] && w.id == k {
        if k == id {
          assert v in views + [v];
        } else {
          var w :| w in views && w.id == k;
          assert w in views + [v];
        }
      }
      views := views + [v];
      todo := todo - {id};
    }
    forall id | Listed(t, id) ensures exists v :: v in views && v.id == id {
      assert id in all;
    }
  }

  /** In a consistent database every fund's type exists, so the listing is exactly the active funds. */
  lemma ListedIsActive(t: Tables, n: Identity, id: int)
    requires Consistent(t, n)
    ensures Listed(t, id) <==> id in ActiveIds(t.fondo)
  {
    if id in t.fondo {
      assert Has(t.fondo, id);
    }
  }

  /** POST api/fondo. A missing fund type is not singled out: it is a database error like any other. */
  method Post(db: Database, fondo: FondoBody) returns (r: Reply<Keyed<Fondo>>)
    requires db.Valid()
    modifies db
    ensures db.Valid() && IdentityLe(old(db.identity), db.identity)
    ensures
      var id := old(db.identity.fondo);
      && db.identity == old(db.identity).(fondo := Advance(id))
      && (id > Int32Max ==> r == ServerError && db.tables == old(db.tables))
      && (id <= Int32Max && NroCuentaTaken(old(db.tables.fondo), fondo.nroCuenta, None) ==>
            r == Conflict && db.tables == old(db.tables))
      && (id <= Int32Max && !NroCuentaTaken(old(db.tables.fondo), fondo.nroCuenta, None) &&
          fondo.tipoFondoId !in old(db.tables.tipoFondo) ==>
            r == ServerError && db.tables == old(db.tables))
      && (id <= Int32Max && !NroCuentaTaken(old(db.tables.fondo), fondo.nroCuenta, None) &&
          fondo.tipoFondoId in old(db.tables.tipoFondo) ==>
            && r == Created(Keyed(id, RowOf(fondo)))
            && id !in old(db.tables.fondo)
            && db.tables == old(db.tables).(fondo := old(db.tables.fondo)[id := RowOf(fondo)]))
  {
    var res := db.InsertFondo(RowOf(fondo));
    match res
    case Done(newId) =>
      r := Created(Keyed(newId, RowOf(fondo)));
    case SqlError(n) =>
      r := if n == UniqueKeyViolation then Conflict else ServerError;
  }

  /** PUT api/fondo/{id}: overwrites every column, Saldo and Activo included. */
  method Put(db: Database, id: int, fondo: FondoBody) returns (r: Reply<()>)
    requires db.Valid()
    modifies db
    ensures db.Valid() && db.identity == old(db.identity)
    ensures id != fondo.id ==> r == BadRequest && db.tables == old(db.tables)
    ensures id == fondo.id && id !in old(db.tables.fondo) ==> r == NotFound && db.tables == old(db.tables)
    ensures id == fondo.id && id in old(db.tables.fondo) &&
            NroCuentaTaken(old(db.tables.fondo), fondo.nroCuenta, Some(id)) ==>
      r == Conflict && db.tables == old(db.tables)
    ensures id == fondo.id && id in old(db.tables.fondo) &&
            !NroCuentaTaken(old(db.tables.fondo), fondo.nroCuenta, Some(id)) &&
            fondo.tipoFondoId !in old(db.tables.tipoFondo) ==>
      r == ServerError && db.tables == old(db.tables)
    ensures id == fondo.id && id in old(db.tables.fondo) &&
            !NroCuentaTaken(old(db.tables.fondo), fondo.nroCuenta, Some(id)) &&
            fondo.tipoFondoId in old(db.tables.tipoFondo) ==>
      r == NoContent && db.tables == old(db.tables).(fondo := old(db.tables.fondo)[id := RowOf(fondo)])
  {
    if id != fondo.id {
      return BadRequest;
    }
    var res := db.UpdateFondo(id, RowOf(fondo));
    match res
    case Done(rows) =>
      r := if rows == 0 then NotFound else NoContent;
    case SqlError(n) =>
      r := if n == UniqueKeyViolation then Conflict else ServerError;
  }

  /** DELETE api/fondo/{id}: `UPDATE Fondo SET Activo = 0 WHERE Id = @Id`; the row stays. */
  method Delete(db: Database, id: int) returns (r: Reply<()>)
    requires db.Valid()
    modifies db
    ensures db.Valid() && db.identity == old(db.identity)
    ensures id !in old(db.tables.fondo) ==> r == NotFound && db.tables == old(db.tables)
    ensures id in old(db.tables.fondo) ==>
      r == NoContent && db.tables == old(db.tables).(fondo := Deactivated(old(db.tables.fondo), id))
  {
    var rows := db.Deactivate(id);
    r := if rows == 0 then NotFound else NoContent;
  }

  /**
   * The soft delete keeps every fund, changes no column of fund `id` but
   * Activo, and leaves the other funds as they were.
   */
  lemma SoftDeleteKeepsRow(m: map<int, Fondo>, id: int)
    requires id in m
    ensures Deactivated(m, id).Keys == m.Keys
    ensures Deactivated(m, id)[id] == m[id].(activo := false)
    ensures forall k :: k in m && k != id ==> Deactivated(m, id)[k] == m[k]
  {
  }

  /** After a soft delete the fund no longer appears among the active ones, and no other fund changes status. */
  lemma SoftDeleteHidesFund(m: map<int, Fondo>, id: int)
    requires id in m
    ensures ActiveIds(Deactivated(m, id)) == ActiveIds(m) - {id}
  {
    var d := Deactivated(m, id);
    forall k | k in ActiveIds(m) - {id} ensures k in ActiveIds(d) {
      assert d[k] == m[k];
    }
  }

  /** Deleting a fund a second time answers NoContent again and changes nothing more. */
  lemma SoftDeleteIdempotent(m: map<int, Fondo>, id: int)
    requires id in m
    ensures id in Deactivated(m, id)
    ensures Deactivated(Deactivated(m, id), id) == Deactivated(m, id)
  {
    var d := Deactivated(m, id);
    assert d[id].(activo := false) == d[id];
  }
}

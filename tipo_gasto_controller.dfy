/**
 * `TipoGastoController`: expense types. POST generates the next "TGnnn"
 * code from the current maximum and inserts the row inside a transaction;
 * PUT changes the name and description only; DELETE checks existence and
 * is refused while details or budgets refer to the type.
 */
module TipoGastoController {
  import opened Common
  import opened Codes
  import opened Store

  /** The body of POST and PUT (`TipoGastoInputModel`, `TipoGastoUpdateModel`): the client never sends a code. */
  datatype TipoGastoInput = TipoGastoInput(nombre: Option<string>, descripcion: Option<string>)

  /** The data annotations: Nombre [Required] and at most 100 UTF-16 code units, Descripcion at most 255. */
  predicate InputValid(input: TipoGastoInput)
    ensures InputValid(input) ==> input.nombre.Some? && 0 < |input.nombre.value| <= 100
    ensures InputValid(input) && input.descripcion.Some? ==> |input.descripcion.value| <= 255
  {
    Required(input.nombre) && MaxLength(input.nombre, 100) && MaxLength(input.descripcion, 255)
  }

  /**
   * A name of more than 50 characters, all above U+FFFF (emoji, say), is
   * refused: its `string.Length` is over 100 although it has fewer than 101
   * characters.
   */
  lemma SupplementaryNameTooLong(nombre: string, descripcion: Option<string>)
    requires 50 < |nombre| && forall i :: 0 <= i < |nombre| ==> nombre[i] > '\U{FFFF}'
    ensures !InputValid(TipoGastoInput(Some(nombre), descripcion))
  {
    Utf16LengthSupplementary(nombre);
  }

  /**
   * Over the Basic Multilingual Plane the limits count characters: a name of
   * 1 to 100 characters with one non-blank among them, and a missing
   * description or one of at most 255 characters, pass.
   */
  lemma BmpInputValid(nombre: string, descripcion: Option<string>)
    requires 0 < |nombre| <= 100 && forall i :: 0 <= i < |nombre| ==> nombre[i] <= '\U{FFFF}'
    requires exists i :: 0 <= i < |nombre| && !IsWhiteSpace(nombre[i])
    requires descripcion.Some? ==>
               && |descripcion.value| <= 255
               && forall i :: 0 <= i < |descripcion.value| ==> descripcion.value[i] <= '\U{FFFF}'
    ensures InputValid(TipoGastoInput(Some(nombre), descripcion))
  {
  }

  /** What PUT stores in Descripcion: an empty or missing description becomes NULL. */
  function StoredDescripcion(d: Option<string>): (r: Option<string>)
    ensures r.None? <==> IsNullOrEmpty(d)
    ensures r.Some? ==> r == d
  {
    if IsNullOrEmpty(d) then None else d
  }

  /** The code `GenerarNuevoCodigo` would produce over the table `t` (None when it throws). */
  ghost function NewCode(t: Tables): Option<string> {
    NextCode(MaxCode(Codigos(t.tipoGasto)))
  }

  /** `GenerarNuevoCodigo`: reads `MAX(Codigo)` and derives the next code; None stands for the exception. */
  method GenerarNuevoCodigo(db: Database) returns (code: Option<string>)
    ensures code == NewCode(db.tables)
    ensures code.None? <==> exists c :: c in Codigos(db.tables.tipoGasto) && Utf16Length(c) == 1 &&
                                  forall d :: d in Codigos(db.tables.tipoGasto) ==> LexLe(d, c)
  {
    var ultimo := db.MaxCodigo();
    code := NextCode(ultimo);
    if code.None? {
      assert ultimo.value in Codigos(db.tables.tipoGasto);
    }
  }

  /** POST api/TipoGasto. */
  method Post(db: Database, input: TipoGastoInput) returns (r: Reply<Keyed<TipoGasto>>)
    requires db.Valid()
    modifies db
    ensures db.Valid() && IdentityLe(old(db.identity), db.identity)
    ensures !InputValid(input) ==> r == BadRequest && db.tables == old(db.tables) && db.identity == old(db.identity)
    ensures InputValid(input) && (NewCode(old(db.tables)).None? || input.descripcion.None?) ==>
      r == ServerError && db.tables == old(db.tables) && db.identity == old(db.identity)
    ensures InputValid(input) && NewCode(old(db.tables)).Some? && input.descripcion.Some? ==>
      var id := old(db.identity.tipoGasto);
      var row := TipoGasto(NewCode(old(db.tables)).value, input.nombre.value, input.descripcion);
      && db.identity == old(db.identity).(tipoGasto := Advance(id))
      && (id > Int32Max ==> r == ServerError && db.tables == old(db.tables))
      && (id <= Int32Max && TipoGastoNombreTaken(old(db.tables.tipoGasto), row.nombre, None) ==>
            r == Conflict && db.tables == old(db.tables))
      && (id <= Int32Max && !TipoGastoNombreTaken(old(db.tables.tipoGasto), row.nombre, None) ==>
            && r == Created(Keyed(id, row))
            && id !in old(db.tables.tipoGasto)
            && db.tables == old(db.tables).(tipoGasto := old(db.tables.tipoGasto)[id := row]))
  {
    if !InputValid(input) {
      return BadRequest;
    }
    var saved := db.tables;  // BEGIN TRANSACTION
    var code := GenerarNuevoCodigo(db);
    if code.None? {
      db.Rollback(saved);
      return ServerError;
    }
    if input.descripcion.None? {
      // A null @Descripcion is a parameter that was not supplied (SQL error 8178).
      db.Rollback(saved);
      return ServerError;
    }
    var row := TipoGasto(code.value, input.nombre.value, input.descripcion);
    var res := db.InsertTipoGasto(row);
    match res
    case Done(id) =>
      r := Created(Keyed(id, row));  // COMMIT
    case SqlError(n) =>
      ConsistentLater(saved, old(db.identity), db.identity);
      db.Rollback(saved);
      r := if n == UniqueKeyViolation then Conflict else ServerError;
  }

  /** PUT api/TipoGasto/{id}: not transactional, a single UPDATE. */
  method Put(db: Database, id: int, input: TipoGastoInput) returns (r: Reply<()>)
    requires db.Valid()
    modifies db
    ensures db.Valid() && db.identity == old(db.identity)
    ensures !InputValid(input) ==> r == BadRequest && db.tables == old(db.tables)
    ensures InputValid(input) && id !in old(db.tables.tipoGasto) ==> r == NotFound && db.tables == old(db.tables)
    ensures InputValid(input) && id in old(db.tables.tipoGasto) &&
            TipoGastoNombreTaken(old(db.tables.tipoGasto), input.nombre.value, Some(id)) ==>
      r == Conflict && db.tables == old(db.tables)
    ensures InputValid(input) && id in old(db.tables.tipoGasto) &&
            !TipoGastoNombreTaken(old(db.tables.tipoGasto), input.nombre.value, Some(id)) ==>
      && r == NoContent
      && db.tables == old(db.tables).(tipoGasto := old(db.tables.tipoGasto)[id :=
           TipoGasto(old(db.tables.tipoGasto)[id].codigo, input.nombre.value, StoredDescripcion(input.descripcion))])
  {
    if !InputValid(input) {
      return BadRequest;
    }
    var res := db.UpdateTipoGasto(id, input.nombre.value, StoredDescripcion(input.descripcion));
    match res
    case Done(rows) =>
      r := if rows == 0 then NotFound else NoContent;
    case SqlError(n) =>
      r := if n == UniqueKeyViolation then Conflict else ServerError;
  }

  /** DELETE api/TipoGasto/{id}: COUNT the row, then DELETE it. */
  method Delete(db: Database, id: int) returns (r: Reply<()>)
    requires db.Valid()
    modifies db
    ensures db.Valid() && db.identity == old(db.identity)
    ensures id !in old(db.tables.tipoGasto) ==> r == NotFound && db.tables == old(db.tables)
    ensures id in old(db.tables.tipoGasto) && TipoGastoReferenced(old(db.tables), id) ==>
      r == Conflict && db.tables == old(db.tables)
    ensures id in old(db.tables.tipoGasto) && !TipoGastoReferenced(old(db.tables), id) ==>
      r == NoContent && db.tables == old(db.tables).(tipoGasto := old(db.tables.tipoGasto) - {id})
  {
    var count := CountWhere(db.tables.tipoGasto, (k: int, row: TipoGasto) => k == id);
    CountPositive(db.tables.tipoGasto, (k: int, row: TipoGasto) => k == id, count);
    if count == 0 {
      return NotFound;
    }
    var res := db.DeleteTipoGasto(id);
    match res
    case Done(rows) =>
      r := if rows > 0 then NoContent else ServerError;
    case SqlError(n) =>
      r := if n == ForeignKeyViolation then Conflict else ServerError;
  }

  /** The code a POST stores is the one the generator derives from the string maximum of the codes present. */
  lemma PostCodeFollowsMaximum(t: Tables, ultimo: Option<string>)
    requires IsMaxCode(Codigos(t.tipoGasto), ultimo)
    ensures NewCode(t) == NextCode(ultimo)
  {
    MaxCodeUnique(Codigos(t.tipoGasto), ultimo, MaxCode(Codigos(t.tipoGasto)));
  }
}

/**
 * `GastoDetalleController`: the lines of an expense. A single POST, PUT or
 * DELETE is one statement outside any transaction; the bulk POST inserts a
 * list in order inside one transaction, so either every line persists or
 * none does; the detail view numbers the joined lines by descending header
 * date.
 */
module GastoDetalleController {
  import opened Common
  import opened Store

  /** POST api/gastodetalle: one INSERT; the body's Id is replaced by the new identity value. */
  method Post(db: Database, detalle: Keyed<GastoDetalle>) returns (r: Reply<Keyed<GastoDetalle>>)
    requires db.Valid()
    modifies db
    ensures db.Valid() && IdentityLe(old(db.identity), db.identity)
    ensures
      var id := old(db.identity.detalle);
      && db.identity == old(db.identity).(detalle := Advance(id))
      && (id > Int32Max ==> r == ServerError && db.tables == old(db.tables))
      && (id <= Int32Max && !DetalleRefsOk(old(db.tables), detalle.row) ==> r == BadRequest && db.tables == old(db.tables))
      && (id <= Int32Max && DetalleRefsOk(old(db.tables), detalle.row) ==>
            && id !in old(db.tables.detalle)
            && r == Created(Keyed(id, detalle.row))
            && db.tables == old(db.tables).(detalle := old(db.tables.detalle)[id := detalle.row]))
  {
    var res := db.InsertDetalle(detalle.row);
    match res
    case Done(newId) =>
      r := Created(detalle.(id := newId));
    case SqlError(n) =>
      r := if n == ForeignKeyViolation then BadRequest else ServerError;
  }

  // ------------------------------- bulk insert -------------------------------

  /** The rows of a list of request bodies. */
  function RowsOf(items: seq<Keyed<GastoDetalle>>): (rows: seq<GastoDetalle>)
    ensures |rows| == |items|
    ensures forall i :: 0 <= i < |items| ==> rows[i] == items[i].row
  {
    if items == [] then [] else [items[0].row] + RowsOf(items[1..])
  }

  /** Row `i` of a batch inserts: it draws identity value `next + i` and both its references exist. */
  predicate BulkRowOk(t: Tables, next: int, rows: seq<GastoDetalle>, i: int)
    requires 0 <= i < |rows|
  {
    next + i <= Int32Max && DetalleRefsOk(t, rows[i])
  }

  /** The index of the first row at or after `from` whose INSERT fails, or `|rows|` when none does. */
  function FirstFailureFrom(t: Tables, next: int, rows: seq<GastoDetalle>, from: nat): (k: nat)
    requires from <= |rows|
    ensures from <= k <= |rows|
    ensures forall i :: from <= i < k ==> BulkRowOk(t, next, rows, i)
    ensures k < |rows| ==> !BulkRowOk(t, next, rows, k)
    decreases |rows| - from
  {
    if from == |rows| || !BulkRowOk(t, next, rows, from) then from
    else FirstFailureFrom(t, next, rows, from + 1)
  }

  /** The row of the batch that aborts it, or `|rows|` when the whole batch inserts. */
  function FirstFailure(t: Tables, next: int, rows: seq<GastoDetalle>): (k: nat)
    ensures k <= |rows|
    ensures forall i :: 0 <= i < k ==> BulkRowOk(t, next, rows, i)
    ensures k < |rows| ==> !BulkRowOk(t, next, rows, k)
  {
    FirstFailureFrom(t, next, rows, 0)
  }

  /** The detail table `d` once the rows of a batch are in: row `i` under key `next + i`. */
  function Appended(d: map<int, GastoDetalle>, next: int, rows: seq<GastoDetalle>): map<int, GastoDetalle> {
    if rows == [] then d
    else Appended(d, next, rows[..|rows| - 1])[next + |rows| - 1 := rows[|rows| - 1]]
  }

  /** A committed batch holds the old rows plus row `i` under key `next + i`, and nothing else changed. */
  lemma {:induction false} AppendedContents(d: map<int, GastoDetalle>, next: int, rows: seq<GastoDetalle>)
    ensures forall id :: id in Appended(d, next, rows) <==> id in d || next <= id < next + |rows|
    ensures forall i :: 0 <= i < |rows| ==> Appended(d, next, rows)[next + i] == rows[i]
    ensures forall id :: id in d && !(next <= id < next + |rows|) ==> Appended(d, next, rows)[id] == d[id]
    decreases |rows|
  {
    if rows != [] {
      var prefix := rows[..|rows| - 1];
      AppendedContents(d, next, prefix);
      forall i | 0 <= i < |rows| - 1 ensures prefix[i] == rows[i] { }
    }
  }

  /** Keys drawn past every existing key are new, so a batch of `|rows|` rows adds exactly `|rows|` rows. */
  lemma {:induction false} AppendedSize(d: map<int, GastoDetalle>, next: int, rows: seq<GastoDetalle>)
    requires forall id :: id in d ==> id < next
    ensures |Appended(d, next, rows)| == |d| + |rows|
    decreases |rows|
  {
    if rows != [] {
      var prefix := rows[..|rows| - 1];
      AppendedSize(d, next, prefix);
      AppendedContents(d, next, prefix);
      assert next + |rows| - 1 !in Appended(d, next, prefix);
    }
  }

  /** The tables part-way through a batch: the first `i` rows are in. */
  function Partway(saved: Tables, next: int, rows: seq<GastoDetalle>, i: nat): Tables
    requires i <= |rows|
  {
    saved.(detalle := Appended(saved.detalle, next, rows[..i]))
  }

  lemma PartwayStart(saved: Tables, next: int, rows: seq<GastoDetalle>)
    ensures Partway(saved, next, rows, 0) == saved
  {
    assert rows[..0] == [];
  }

  /** Adding row `i` under key `next + i` to the tables part-way through a batch moves them one row on. */
  lemma PartwayStep(saved: Tables, next: int, rows: seq<GastoDetalle>, i: nat)
    requires i < |rows|
    ensures var t := Partway(saved, next, rows, i);
      t.(detalle := t.detalle[next + i := rows[i]]) == Partway(saved, next, rows, i + 1)
  {
    assert rows[..i + 1][..i] == rows[..i];
  }

  /** The request list once its first `i` items carry the keys `next`, `next + 1`, ... of their rows. */
  function Numbered(items: seq<Keyed<GastoDetalle>>, next: int, i: nat): (r: seq<Keyed<GastoDetalle>>)
    requires i <= |items|
    ensures |r| == |items|
  {
    if i == 0 then items else Numbered(items, next, i - 1)[i - 1 := Keyed(next + i - 1, items[i - 1].row)]
  }

  /** Item `j` of the list is renumbered exactly when it is one of the first `i`; its row never changes. */
  lemma {:induction false} NumberedAt(items: seq<Keyed<GastoDetalle>>, next: int, i: nat, j: nat)
    requires i <= |items| && j < |items|
    ensures Numbered(items, next, i)[j] == if j < i then Keyed(next + j, items[j].row) else items[j]
  {
    if i > 0 {
      NumberedAt(items, next, i - 1, j);
    }
  }

  /**
   * One pass of the `foreach`: INSERT item `i`, then set its Id to the new
   * identity value. When the INSERT fails neither the tables nor the list change.
   */
  method InsertBulkRow(db: Database, items: array<Keyed<GastoDetalle>>, ghost saved: Tables, ghost next: int,
                       ghost orig: seq<Keyed<GastoDetalle>>, ghost rows: seq<GastoDetalle>, i: nat)
    returns (err: Option<int>)
    requires db.Valid() && i < items.Length == |orig| && rows == RowsOf(orig)
    requires db.identity.detalle == next + i && db.tables == Partway(saved, next, rows, i)
    requires items[..] == Numbered(orig, next, i)
    modifies db, items
    ensures db.Valid() && db.identity == old(db.identity).(detalle := Advance(next + i))
    ensures err.None? <==> BulkRowOk(saved, next, rows, i)
    ensures err.None? ==>
      && db.tables == Partway(saved, next, rows, i + 1)
      && items[..] == Numbered(orig, next, i + 1)
    ensures err.Some? ==>
      && db.tables == old(db.tables) && items[..] == old(items[..])
      && err.value == if next + i > Int32Max then IdentityOverflow else ForeignKeyViolation
  {
    var row := items[i].row;
    NumberedAt(orig, next, i, i);
    assert row == rows[i];
    assert DetalleRefsOk(db.tables, row) == DetalleRefsOk(saved, row);
    PartwayStep(saved, next, rows, i);
    var res := db.InsertDetalle(row);
    if res.SqlError? {
      return Some(res.number);
    }
    items[i] := Keyed(res.value, row);
    err := None;
  }

  /**
   * The `foreach` of the bulk POST: the items are INSERTed in list order and
   * each item's Id is set as its row goes in, until the first INSERT fails.
   * `done` is the number of rows that went in; `err` is the error of the
   * INSERT that stopped the loop, if any.
   */
  method InsertRows(db: Database, items: array<Keyed<GastoDetalle>>) returns (done: nat, err: Option<int>)
    requires db.Valid()
    modifies db, items
    ensures db.Valid()
    ensures
      var next := old(db.identity.detalle);
      var rows := RowsOf(old(items[..]));
      && done == FirstFailure(old(db.tables), next, rows)
      && items[..] == Numbered(old(items[..]), next, done)
      && db.tables == Partway(old(db.tables), next, rows, done)
      && (done == items.Length ==> err.None? && db.identity == old(db.identity).(detalle := next + done))
      && (done < items.Length ==>
            && err == Some(if next + done > Int32Max then IdentityOverflow else ForeignKeyViolation)
            && db.identity == old(db.identity).(detalle := Advance(next + done)))
  {
    ghost var next := db.identity.detalle;
    ghost var orig := items[..];
    ghost var rows := RowsOf(orig);
    ghost var k := FirstFailure(db.tables, next, rows);
    ghost var saved := db.tables;
    PartwayStart(saved, next, rows);
    done := 0;
    while done < items.Length
      invariant 0 <= done <= k && k <= |rows| == items.Length
      invariant db.Valid()
      invariant db.identity == old(db.identity).(detalle := next + done)
      invariant db.tables == Partway(saved, next, rows, done)
      invariant items[..] == Numbered(orig, next, done)
      decreases items.Length - done
    {
      err := InsertBulkRow(db, items, saved, next, orig, rows, done);
      if err.Some? {
        assert k == done;
        return;
      }
      assert done < k by {
        assert BulkRowOk(saved, next, rows, done);
      }
      done := done + 1;
    }
    err := None;
  }

  /** The transaction around the loop: COMMIT when every row went in, ROLLBACK to the saved tables otherwise. */
  method InsertBatch(db: Database, items: array<Keyed<GastoDetalle>>) returns (r: Reply<seq<Keyed<GastoDetalle>>>)
    requires db.Valid()
    modifies db, items
    ensures db.Valid()
    ensures
      var next := old(db.identity.detalle);
      var rows := RowsOf(old(items[..]));
      var k := FirstFailure(old(db.tables), next, rows);
      && items[..] == Numbered(old(items[..]), next, k)
      && (k == items.Length ==>
            && r == Created(items[..])
            && db.identity == old(db.identity).(detalle := next + k)
            && db.tables == old(db.tables).(detalle := Appended(old(db.tables.detalle), next, rows)))
      && (k < items.Length ==>
            && r == (if next + k > Int32Max then ServerError else BadRequest)
            && db.identity == old(db.identity).(detalle := Advance(next + k))
            && db.tables == old(db.tables))
  {
    ghost var rows := RowsOf(items[..]);
    var saved := db.tables;  // BEGIN TRANSACTION
    var done, err := InsertRows(db, items);
    if err.Some? {
      ConsistentLater(saved, old(db.identity), db.identity);
      db.Rollback(saved);
      return if err.value == ForeignKeyViolation then BadRequest else ServerError;
    }
    assert rows[..done] == rows;
    r := Created(items[..]);  // COMMIT
  }

  /** POST api/gastodetalle/masivo: a null or empty list is refused before any INSERT. */
  method PostBulk(db: Database, items: array?<Keyed<GastoDetalle>>) returns (r: Reply<seq<Keyed<GastoDetalle>>>)
    requires db.Valid()
    modifies db, items
    ensures db.Valid() && IdentityLe(old(db.identity), db.identity)
    ensures items == null || items.Length == 0 ==>
      r == BadRequest && db.tables == old(db.tables) && db.identity == old(db.identity)
    ensures items != null && items.Length == 0 ==> items[..] == old(items[..])
    ensures items != null && items.Length > 0 ==>
      var next := old(db.identity.detalle);
      var rows := RowsOf(old(items[..]));
      var k := FirstFailure(old(db.tables), next, rows);
      && items[..] == Numbered(old(items[..]), next, k)
      && (k == items.Length ==>
            && r == Created(items[..])
            && db.identity == old(db.identity).(detalle := next + k)
            && db.tables == old(db.tables).(detalle := Appended(old(db.tables.detalle), next, rows)))
      && (k < items.Length ==>
            && r == (if next + k > Int32Max then ServerError else BadRequest)
            && db.identity == old(db.identity).(detalle := Advance(next + k))
            && db.tables == old(db.tables))
  {
    if items == null || items.Length == 0 {
      return BadRequest;
    }
    r := InsertBatch(db, items);
  }

  /** PUT api/gastodetalle/{id}: one UPDATE, after the path and body ids are compared. */
  method Put(db: Database, id: int, detalle: Keyed<GastoDetalle>) returns (r: Reply<()>)
    requires db.Valid()
    modifies db
    ensures db.Valid() && db.identity == old(db.identity)
    ensures id != detalle.id ==> r == BadRequest && db.tables == old(db.tables)
    ensures id == detalle.id && id !in old(db.tables.detalle) ==> r == NotFound && db.tables == old(db.tables)
    ensures id == detalle.id && id in old(db.tables.detalle) && !DetalleRefsOk(old(db.tables), detalle.row) ==>
      r == BadRequest && db.tables == old(db.tables)
    ensures id == detalle.id && id in old(db.tables.detalle) && DetalleRefsOk(old(db.tables), detalle.row) ==>
      r == NoContent && db.tables == old(db.tables).(detalle := old(db.tables.detalle)[id := detalle.row])
  {
    if id != detalle.id {
      return BadRequest;
    }
    var res := db.UpdateDetalle(id, detalle.row);
    match res
    case Done(rows) =>
      r := if rows == 0 then NotFound else NoContent;
    case SqlError(n) =>
      r := if n == ForeignKeyViolation then BadRequest else ServerError;
  }

  /** DELETE api/gastodetalle/{id}: one DELETE; any SQL error is a 500. */
  method Delete(db: Database, id: int) returns (r: Reply<()>)
    requires db.Valid()
    modifies db
    ensures db.Valid() && db.identity == old(db.identity)
    ensures id !in old(db.tables.detalle) ==> r == NotFound && db.tables == old(db.tables)
    ensures id in old(db.tables.detalle) ==>
      r == NoContent && db.tables == old(db.tables).(detalle := old(db.tables.detalle) - {id})
  {
    var res := db.DeleteDetalle(id);
    match res
    case Done(rows) =>
      r := if rows == 0 then NotFound else NoContent;
    case SqlError(_) =>
      r := ServerError;
  }

  // ------------------------------- detail view -------------------------------

  /** One row of `GetDatosDetalle`; the date and amount are left unformatted. */
  datatype DetalleView = DetalleView(numero: int, fecha: int, fondo: string, tipoGasto: string, monto: int)

  /** Detail `id` survives the three INNER JOINs: its header, the header's fund and its expense type exist. */
  predicate Joined(t: Tables, id: int) {
    && id in t.detalle
    && t.detalle[id].gastoEncabezadoId in t.encabezado
    && t.encabezado[t.detalle[id].gastoEncabezadoId].fondoId in t.fondo
    && t.detalle[id].tipoGastoId in t.tipoGasto
  }

  /** The header date of a joined detail (`ge.fecha`); 0 for any other id. */
  function Fecha(t: Tables, id: int): int {
    if id in t.detalle && t.detalle[id].gastoEncabezadoId in t.encabezado then
      t.encabezado[t.detalle[id].gastoEncabezadoId].fecha
    else 0
  }

  /** The view row of joined detail `id` numbered `numero`. */
  function ViewOf(t: Tables, id: int, numero: int): (v: DetalleView)
    requires Joined(t, id)
    ensures v.numero == numero && v.fecha == Fecha(t, id) && v.monto == t.detalle[id].monto
    ensures v.fondo == t.fondo[t.encabezado[t.detalle[id].gastoEncabezadoId].fondoId].nombreFondo
    ensures v.tipoGasto == t.tipoGasto[t.detalle[id].tipoGastoId].nombre
  {
    var d := t.detalle[id];
    var e := t.encabezado[d.gastoEncabezadoId];
    DetalleView(numero, e.fecha, t.fondo[e.fondoId].nombreFondo, t.tipoGasto[d.tipoGastoId].nombre, d.monto)
  }

  /** `ORDER BY ge.fecha DESC`: header dates never increase along `s`. */
  predicate SortedDesc(t: Tables, s: seq<int>) {
    forall i, j :: 0 <= i < j < |s| ==> Fecha(t, s[i]) >= Fecha(t, s[j])
  }

  predicate Distinct(s: seq<int>) {
    forall i, j :: 0 <= i < j < |s| ==> s[i] != s[j]
  }

  /** Places `id` in the date-descending sequence `s`, ahead of every row with an equal or earlier date. */
  function InsertDesc(t: Tables, s: seq<int>, id: int): (r: seq<int>)
    ensures |r| == |s| + 1
    ensures forall x :: x in r <==> x in s || x == id
  {
    if s == [] || Fecha(t, s[0]) <= Fecha(t, id) then [id] + s
    else [s[0]] + InsertDesc(t, s[1..], id)
  }

  lemma {:induction false} InsertDescSorted(t: Tables, s: seq<int>, id: int)
    requires SortedDesc(t, s)
    ensures SortedDesc(t, InsertDesc(t, s, id))
    decreases |s|
  {
    if s == [] || Fecha(t, s[0]) <= Fecha(t, id) {
      var r := [id] + s;
      forall i, j | 0 <= i < j < |r| ensures Fecha(t, r[i]) >= Fecha(t, r[j]) {
        if i > 0 {
          assert r[i] == s[i - 1] && r[j] == s[j - 1];
        } else {
          assert r[j] == s[j - 1];
        }
      }
    } else {
      var tail := s[1..];
      assert SortedDesc(t, tail) by {
        forall i, j | 0 <= i < j < |tail| ensures Fecha(t, tail[i]) >= Fecha(t, tail[j]) {
          assert tail[i] == s[i + 1] && tail[j] == s[j + 1];
        }
      }
      InsertDescSorted(t, tail, id);
      var rest := InsertDesc(t, tail, id);
      var r := [s[0]] + rest;
      forall x | x in rest ensures Fecha(t, s[0]) >= Fecha(t, x) {
        if x != id {
          var j :| 0 <= j < |tail| && tail[j] == x;
          assert s[j + 1] == x;
        }
      }
      forall i, j | 0 <= i < j < |r| ensures Fecha(t, r[i]) >= Fecha(t, r[j]) {
        assert r[j] == rest[j - 1];
        if i > 0 {
          assert r[i] == rest[i - 1];
        } else {
          assert rest[j - 1] in rest;
        }
      }
    }
  }

  lemma {:induction false} InsertDescDistinct(t: Tables, s: seq<int>, id: int)
    requires Distinct(s) && id !in s
    ensures Distinct(InsertDesc(t, s, id))
    decreases |s|
  {
    if s == [] || Fecha(t, s[0]) <= Fecha(t, id) {
      var r := [id] + s;
      forall i, j | 0 <= i < j < |r| ensures r[i] != r[j] {
        assert r[j] == s[j - 1];
        if i > 0 {
          assert r[i] == s[i - 1];
        }
      }
    } else {
      var tail := s[1..];
      assert Distinct(tail) by {
        forall i, j | 0 <= i < j < |tail| ensures tail[i] != tail[j] {
          assert tail[i] == s[i + 1] && tail[j] == s[j + 1];
        }
      }
      assert id !in tail;
      InsertDescDistinct(t, tail, id);
      var rest := InsertDesc(t, tail, id);
      var r := [s[0]] + rest;
      assert s[0] !in tail by {
        forall j | 0 <= j < |tail| ensures tail[j] != s[0] {
          assert tail[j] == s[j + 1];
        }
      }
      forall i, j | 0 <= i < j < |r| ensures r[i] != r[j] {
        assert r[j] == rest[j - 1];
        if i > 0 {
          assert r[i] == rest[i - 1];
        } else {
          assert rest[j - 1] in rest;
        }
      }
    }
  }

  /**
   * GET api/gastodetalle/datosDetalle: the details that survive the joins,
   * by descending header date, numbered 1..N. `order` holds the detail
   * behind each row (ties in date may come in either order).
   */
  method GetDatosDetalle(db: Database) returns (views: seq<DetalleView>, order: seq<int>)
    ensures |views| == |order|
    ensures Distinct(order) && forall id :: id in order <==> Joined(db.tables, id)
    ensures forall i :: 0 <= i < |order| ==> views[i] == ViewOf(db.tables, order[i], i + 1)
    ensures forall i :: 0 <= i < |views| ==> views[i].numero == i + 1
    ensures forall i, j :: 0 <= i < j < |views| ==> views[i].fecha >= views[j].fecha
  {
    var t := db.tables;
    var todo := set id | id in t.detalle && Joined(t, id);
    ghost var all := todo;
    order := [];
    while todo != {}
      invariant todo <= all
      invariant SortedDesc(t, order) && Distinct(order)
      invariant forall id :: id in order <==> id in all && id !in todo
      decreases todo
    {
      var id := Pick(todo);
      InsertDescSorted(t, order, id);
      InsertDescDistinct(t, order, id);
      order := InsertDesc(t, order, id);
      todo := todo - {id};
    }
    forall j | 0 <= j < |order| ensures Joined(t, order[j]) {
      assert order[j] in order;
    }
    views := [];
    var i := 0;
    while i < |order|
      invariant 0 <= i <= |order| && |views| == i
      invariant forall j :: 0 <= j < |order| ==> Joined(t, order[j])
      invariant forall j :: 0 <= j < i ==> views[j] == ViewOf(t, order[j], j + 1)
    {
      views := views + [ViewOf(t, order[i], i + 1)];
      i := i + 1;
    }
  }

  /** Under the foreign keys every detail survives the joins, so the view lists every detail. */
  lemma EveryDetailJoins(t: Tables, n: Identity, id: int)
    requires Consistent(t, n)
    ensures Joined(t, id) <==> id in t.detalle
  {
    if id in t.detalle {
      assert Has(t.detalle, id);
      assert Has(t.encabezado, t.detalle[id].gastoEncabezadoId);
    }
  }
}
